/** The small display rules of render_html_content
    (trendradar/report/html.py) that turn numbers into badge classes and
    badge text: the rank badge of a keyword-bucket entry (1655-1674), the rank
    badge of a new item (1739-1755) and the heat class of a keyword bucket
    (1614-1619). */
module RankBadge {
  import opened Wrappers
  import opened Text

  /** The rank threshold an entry without `rank_threshold` is judged by. */
  const DefaultRankThreshold := 10

  /** `min(ranks)` */
  function MinOf(s: seq<int>): (m: int)
    requires s != []
    ensures m in s
    ensures forall x :: x in s ==> m <= x
  {
    if |s| == 1 then s[0]
    else
      var m := MinOf(s[1..]);
      assert forall x :: x in s ==> x == s[0] || x in s[1..];
      if s[0] < m then s[0] else m
  }

  /** `max(ranks)` */
  function MaxOf(s: seq<int>): (m: int)
    requires s != []
    ensures m in s
    ensures forall x :: x in s ==> x <= m
  {
    if |s| == 1 then s[0]
    else
      var m := MaxOf(s[1..]);
      assert forall x :: x in s ==> x == s[0] || x in s[1..];
      if s[0] > m then s[0] else m
  }

  /** The rank tier of an entry whose best rank is `minRank`: "top" for the
      first three places, "high" up to the entry's threshold (10 when the
      entry has none), "" below it. */
  function RankClass(minRank: int, threshold: Option<int>): (c: string)
    ensures c == "top" <==> minRank <= 3
    ensures c == "high" <==> 3 < minRank <= threshold.GetOr(DefaultRankThreshold)
    ensures c == "" <==> 3 < minRank && threshold.GetOr(DefaultRankThreshold) < minRank
  {
    if minRank <= 3 then "top"
    else if minRank <= threshold.GetOr(DefaultRankThreshold) then "high"
    else ""
  }

  /** The order of the rank tiers, best first. */
  function RankTier(c: string): nat {
    if c == "top" then 2 else if c == "high" then 1 else 0
  }

  /** A better rank never earns a lower tier, and neither does a more
      generous threshold. */
  lemma RankClassMonotone(r1: int, r2: int, t1: int, t2: int)
    requires r1 <= r2 && t2 <= t1
    ensures RankTier(RankClass(r1, Some(t1))) >= RankTier(RankClass(r2, Some(t2)))
  {
  }

  /** `f"{lo}-{hi}"` */
  function RangeText(lo: int, hi: int): string {
    IntToString(lo) + "-" + IntToString(hi)
  }

  /** The badge text of a keyword-bucket entry: the single rank when the
      best and worst ranks agree, the range otherwise.  Either way it loses
      nothing: it reads back as the best and worst rank. */
  function StatsRankText(ranks: seq<int>): (t: string)
    requires ranks != []
    ensures ParseRankText(t) == (MinOf(ranks), MaxOf(ranks))
  {
    if MinOf(ranks) == MaxOf(ranks) then
      SingleTextRoundTrip(MinOf(ranks));
      IntToString(MinOf(ranks))
    else
      RangeTextRoundTrip(MinOf(ranks), MaxOf(ranks));
      RangeText(MinOf(ranks), MaxOf(ranks))
  }

  /** The badge text of a new item: "?" without ranks, the one rank when
      there is exactly one, and the range whenever there are more, even if
      they are all equal.  It is "?" exactly when there are no ranks, and
      otherwise reads back as the best and worst rank. */
  function NewItemRankText(ranks: seq<int>): (t: string)
    ensures t == "?" <==> ranks == []
    ensures ranks != [] ==> ParseRankText(t) == (MinOf(ranks), MaxOf(ranks))
  {
    if ranks == [] then "?"
    else if |ranks| == 1 then
      assert MinOf(ranks) == ranks[0] == MaxOf(ranks);
      SingleTextRoundTrip(ranks[0]);
      NotUnknown(ranks[0], ranks[0]);
      IntToString(ranks[0])
    else
      RangeTextRoundTrip(MinOf(ranks), MaxOf(ranks));
      NotUnknown(MinOf(ranks), MaxOf(ranks));
      RangeText(MinOf(ranks), MaxOf(ranks))
  }

  /** A rank badge: its tier class and its text. */
  datatype Badge = Badge(rankClass: string, text: string)

  /** The rank badge of a keyword-bucket entry; an entry without ranks gets
      none (html.py:1655-1674). */
  function StatsRankBadge(ranks: seq<int>, threshold: Option<int>): (b: Option<Badge>)
    ensures b.None? <==> ranks == []
    ensures b.Some? ==> b.value.rankClass == RankClass(MinOf(ranks), threshold)
    ensures b.Some? ==> ParseRankText(b.value.text) == (MinOf(ranks), MaxOf(ranks))
  {
    if ranks == [] then None
    else Some(Badge(RankClass(MinOf(ranks), threshold), StatsRankText(ranks)))
  }

  /** The rank badge of a new item, always shown: class "" and text "?"
      without ranks (html.py:1739-1755). */
  function NewItemRankBadge(ranks: seq<int>, threshold: Option<int>): (b: Badge)
    ensures ranks == [] ==> b == Badge("", "?")
    ensures ranks != [] ==> b.rankClass == RankClass(MinOf(ranks), threshold)
    ensures ranks != [] ==> b.text != "?" && ParseRankText(b.text) == (MinOf(ranks), MaxOf(ranks))
  {
    Badge(if ranks == [] then "" else RankClass(MinOf(ranks), threshold), NewItemRankText(ranks))
  }

  /** Reading a badge text back: the part before the first "-" that is not
      a leading minus sign, and the part after it; a text without one is a
      single rank. */
  function ParseRankText(t: string): (r: (int, int)) {
    match FindFrom(t, "-", 1)
    case None => (ParseInt(t), ParseInt(t))
    case Some(p) => (ParseInt(t[..p]), ParseInt(t[p + 1..]))
  }

  /** No "-" follows the first character of `str(i)`. */
  lemma NoSeparator(i: int)
    ensures FindFrom(IntToString(i), "-", 1) == None
  {
    var t := IntToString(i);
    IntToStringTail(i);
    forall q | 1 <= q
      ensures !OccursAt(t, "-", q)
    {
      if q < |t| {
        assert IsDigit(t[q]);
        assert t[q..q + 1][0] == t[q];
      }
    }
  }

  /** A single rank's text reads back as that rank. */
  lemma {:induction false} SingleTextRoundTrip(i: int)
    ensures ParseRankText(IntToString(i)) == (i, i)
  {
    NoSeparator(i);
    ParseIntToString(i);
  }

  /** A range text reads back as its two ends. */
  lemma {:induction false} RangeTextRoundTrip(lo: int, hi: int)
    ensures ParseRankText(RangeText(lo, hi)) == (lo, hi)
  {
    var a, b := IntToString(lo), IntToString(hi);
    var t := RangeText(lo, hi);
    var k := |a|;
    IntToStringTail(lo);
    assert t[..k] == a;
    assert t[k + 1..] == b;
    assert t[k..k + 1] == "-";
    forall q | 1 <= q < k
      ensures !OccursAt(t, "-", q)
    {
      assert t[q] == a[q];
    }
    FindFromIsFirst(t, "-", 1, k);
    ParseIntToString(lo);
    ParseIntToString(hi);
  }

  /** Neither a rank's text nor a range text is the "?" of an item without
      ranks. */
  lemma {:induction false} NotUnknown(lo: int, hi: int)
    ensures IntToString(lo) != "?"
    ensures RangeText(lo, hi) != "?"
  {
    IntToStringTail(lo);
    var a := IntToString(lo);
    if |a| == 1 {
      assert a == NatToString(lo);
      assert IsDigit(a[0]);
    }
  }

  /** The two badges put an entry in the same tier; their texts differ only
      when several equal ranks were recorded, where the new-item badge
      repeats the rank as a range. */
  lemma {:induction false} BadgesAgree(ranks: seq<int>, threshold: Option<int>)
    requires ranks != []
    ensures NewItemRankBadge(ranks, threshold).rankClass == StatsRankBadge(ranks, threshold).value.rankClass
    ensures |ranks| == 1 || MinOf(ranks) < MaxOf(ranks) ==>
      NewItemRankBadge(ranks, threshold).text == StatsRankBadge(ranks, threshold).value.text
    ensures |ranks| > 1 && MinOf(ranks) == MaxOf(ranks) ==>
      NewItemRankBadge(ranks, threshold).text ==
        StatsRankBadge(ranks, threshold).value.text + "-" + StatsRankBadge(ranks, threshold).value.text
  {
    if |ranks| == 1 {
      assert MinOf(ranks) == ranks[0] == MaxOf(ranks);
    }
  }

  /** Two equal ranks: "4" on a keyword-bucket entry, "4-4" on a new item. */
  lemma RepeatedRankExample()
    ensures StatsRankBadge([4, 4], None) == Some(Badge("high", "4"))
    ensures NewItemRankBadge([4, 4], None) == Badge("high", "4-4")
  {
    assert MinOf([4, 4]) == 4 && MaxOf([4, 4]) == 4;
    assert IntToString(4) == "4";
  }

  /** The heat class of a keyword bucket by its count: "hot" from 10,
      "warm" from 5, "" below. */
  function CountClass(count: int): (c: string)
    ensures c == "hot" <==> count >= 10
    ensures c == "warm" <==> 5 <= count < 10
    ensures c == "" <==> count < 5
  {
    if count >= 10 then "hot" else if count >= 5 then "warm" else ""
  }

  function HeatTier(c: string): nat {
    if c == "hot" then 2 else if c == "warm" then 1 else 0
  }

  /** A larger count is never shown cooler. */
  lemma CountClassMonotone(c1: int, c2: int)
    requires c1 <= c2
    ensures HeatTier(CountClass(c1)) <= HeatTier(CountClass(c2))
  {
  }
}
