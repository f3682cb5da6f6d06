/** How render_html_content (trendradar/report/html.py) decides which
    sections appear and stitches them together: the report-type label
    (1468-1473), the new-items guard (1724), the empty guards of the RSS block
    (1811-1817), the divider inserted into every section after the first
    (2128-2136) and the loop that emits the regions in the configured order
    (2139-2159).  The sections' own markup is opaque text here. */
module Sections {
  import opened Wrappers
  import opened Text
  import opened ReportModel

  /** The report-type label shown in the header for each mode. */
  function ModeLabel(mode: string): (shown: string)
    ensures shown == "当前榜单" <==> mode == "current"
    ensures shown == "增量分析" <==> mode == "incremental"
    ensures shown == "全天汇总" <==> mode != "current" && mode != "incremental"
  {
    if mode == "current" then "当前榜单"
    else if mode == "incremental" then "增量分析"
    else "全天汇总"
  }

  /** The new-items block is rendered when the flag is set and the report
      has at least one group. */
  predicate NewSectionShown(showNewSection: bool, newTitles: seq<NewGroup>) {
    showNewSection && newTitles != []
  }

  /** Groups as the report builds them are never empty, so the block is
      shown exactly when the flag is set and the report counts a new title. */
  lemma {:induction false} NewSectionShownIffCount(showNewSection: bool, newTitles: seq<NewGroup>)
    requires forall g :: g in newTitles ==> g.titles != []
    ensures NewSectionShown(showNewSection, newTitles) <==> showNewSection && TotalTitles(newTitles) > 0
  {
    if newTitles != [] {
      assert newTitles[|newTitles| - 1] in newTitles;
    }
  }

  /** The sum of the buckets' "count" entries, a missing one counting 0. */
  function RssTotal(counts: seq<Option<int>>): int {
    if counts == [] then 0 else RssTotal(counts[..|counts| - 1]) + counts[|counts| - 1].GetOr(0)
  }

  /** The guards of render_rss_stats_html, given the buckets' "count"
      entries: no block (None) for no buckets or a zero total, otherwise a
      block whose header shows the total. */
  function RssHeaderCount(counts: seq<Option<int>>): (r: Option<int>)
    ensures r.None? <==> counts == [] || RssTotal(counts) == 0
    ensures r.Some? ==> r.value == RssTotal(counts)
  {
    if counts == [] then None
    else
      var total := RssTotal(counts);
      if total == 0 then None else Some(total)
  }

  /** With no negative counts the block appears exactly when some bucket has
      a positive count. */
  lemma {:induction false} RssShownIffPositive(counts: seq<Option<int>>)
    requires forall i :: 0 <= i < |counts| ==> counts[i].GetOr(0) >= 0
    ensures RssTotal(counts) >= 0
    ensures RssHeaderCount(counts).Some? <==> exists i :: 0 <= i < |counts| && counts[i].GetOr(0) > 0
  {
    if counts != [] {
      var init := counts[..|counts| - 1];
      assert forall i :: 0 <= i < |init| ==> init[i] == counts[i];
      RssShownIffPositive(init);
      if RssTotal(counts) > 0 {
        if counts[|counts| - 1].GetOr(0) <= 0 {
          var i :| 0 <= i < |init| && init[i].GetOr(0) > 0;
          assert counts[i].GetOr(0) > 0;
        }
      }
    }
  }

  /** The attribute the divider is inserted into, and the class inserted. */
  const ClassAttr := "class=\""
  const DividerClass := "section-divider "

  /** add_section_divider: "section-divider " inserted right after the first
      `class="`; content that is empty or has no `class="` is returned as
      it is. */
  function AddSectionDivider(content: string): (r: string)
    ensures Find(content, ClassAttr).None? ==> r == content
    ensures Find(content, ClassAttr).Some? ==>
      var p := Find(content, ClassAttr).value + |ClassAttr|;
      p <= |content| && r == content[..p] + DividerClass + content[p..]
    ensures |r| == if Find(content, ClassAttr).Some? then |content| + |DividerClass| else |content|
  {
    if content == [] || Find(content, ClassAttr).None? then content
    else
      var firstClassPos := Find(content, ClassAttr).value;
      var insertPos := firstClassPos + |ClassAttr|;
      content[..insertPos] + DividerClass + content[insertPos..]
  }

  /** Taking the divider out again: drops "section-divider " where it
      follows the first `class="`. */
  function RemoveSectionDivider(s: string): string {
    match Find(s, ClassAttr)
    case None => s
    case Some(i) =>
      var p := i + |ClassAttr|;
      if p + |DividerClass| <= |s| && s[p..p + |DividerClass|] == DividerClass
      then s[..p] + s[p + |DividerClass|..]
      else s
  }

  /** The divider goes in front of the first class and changes nothing else:
      the first `class="` stays where it was and removing the divider gives
      the content back. */
  lemma {:induction false} SectionDividerRoundTrip(content: string)
    ensures Find(AddSectionDivider(content), ClassAttr) == Find(content, ClassAttr)
    ensures RemoveSectionDivider(AddSectionDivider(content)) == content
  {
    var f := Find(content, ClassAttr);
    if f.Some? {
      var i := f.value;
      var p := i + |ClassAttr|;
      var r := AddSectionDivider(content);
      assert r[..p] == content[..p];
      assert r[i..p] == content[i..p];
      forall q | 0 <= q < i
        ensures !OccursAt(r, ClassAttr, q)
      {
        assert !OccursAt(content, ClassAttr, q);
        assert r[q..q + |ClassAttr|] == content[q..q + |ClassAttr|];
      }
      FindFromIsFirst(r, ClassAttr, 0, i);
      assert r[p..p + |DividerClass|] == DividerClass;
      assert r[p + |DividerClass|..] == content[p..];
      assert content[..p] + content[p..] == content;
    }
  }

  /** The rendered pieces of the page's regions.  `newItems` and `rssNew`
      are the two halves of the "new_items" region. */
  datatype RegionContents = RegionContents(
    hotlist: string,
    rss: string,
    newItems: string,
    rssNew: string,
    standalone: string,
    aiAnalysis: string)

  /** The order used when the caller gives none. */
  const DefaultRegionOrder: seq<string> := ["hotlist", "rss", "new_items", "standalone", "ai_analysis"]

  /** The pieces one region name stands for, in order; an unknown name
      stands for nothing. */
  function RegionPieces(c: RegionContents, region: string): seq<string> {
    if region == "hotlist" then [c.hotlist]
    else if region == "rss" then [c.rss]
    else if region == "new_items" then [c.newItems, c.rssNew]
    else if region == "standalone" then [c.standalone]
    else if region == "ai_analysis" then [c.aiAnalysis]
    else []
  }

  /** The pieces of a whole region order, in order. */
  function Pieces(c: RegionContents, order: seq<string>): seq<string> {
    if order == [] then []
    else Pieces(c, order[..|order| - 1]) + RegionPieces(c, order[|order| - 1])
  }

  /** The pieces with something in them, in order. */
  function NonEmpty(ps: seq<string>): seq<string> {
    if ps == [] then []
    else NonEmpty(ps[..|ps| - 1]) + (if ps[|ps| - 1] == "" then [] else [ps[|ps| - 1]])
  }

  /** Exactly the non-empty pieces are kept. */
  lemma {:induction false} NonEmptyMembers(ps: seq<string>)
    ensures forall p :: p in NonEmpty(ps) <==> p in ps && p != ""
  {
    if ps != [] {
      NonEmptyMembers(ps[..|ps| - 1]);
      assert ps == ps[..|ps| - 1] + [ps[|ps| - 1]];
    }
  }

  /** The pieces each with its divider, concatenated. */
  function Divided(ps: seq<string>): string {
    if ps == [] then "" else Divided(ps[..|ps| - 1]) + AddSectionDivider(ps[|ps| - 1])
  }

  /** The page body from a list of pieces: the first as it is, every later
      one with its divider. */
  function Joined(ps: seq<string>): string {
    if ps == [] then "" else ps[0] + Divided(ps[1..])
  }

  /** What the region loop appends to the page for a region order (the
      default order when none is given).  It is empty exactly when every
      region the order names has empty content. */
  function AssembledRegions(c: RegionContents, regionOrder: Option<seq<string>>): (html: string)
    ensures html == "" <==> forall p :: p in Pieces(c, regionOrder.GetOr(DefaultRegionOrder)) ==> p == ""
  {
    var ps := Pieces(c, regionOrder.GetOr(DefaultRegionOrder));
    NonEmptyMembers(ps);
    assert NonEmpty(ps) != [] ==> NonEmpty(ps)[0] in NonEmpty(ps);
    Joined(NonEmpty(ps))
  }

  lemma {:induction false} PiecesAppend(c: RegionContents, a: seq<string>, b: seq<string>)
    ensures Pieces(c, a + b) == Pieces(c, a) + Pieces(c, b)
  {
    if b == [] {
      assert a + b == a;
    } else {
      assert (a + b)[..|a + b| - 1] == a + b[..|b| - 1];
      PiecesAppend(c, a, b[..|b| - 1]);
    }
  }

  lemma PiecesSnoc(c: RegionContents, order: seq<string>, i: nat)
    requires i < |order|
    ensures Pieces(c, order[..i + 1]) == Pieces(c, order[..i]) + RegionPieces(c, order[i])
  {
    assert order[..i + 1][..i] == order[..i];
  }

  /** Stated on its own so that the region proofs below need not reason
      about sequence associativity in their larger contexts, which keeps them
      within their resource limit. */
  lemma AppendAssoc(a: string, b: string, c: string)
    ensures a + b + c == a + (b + c)
  {
  }

  /** Stated on its own for the same reason as `AppendAssoc`. */
  lemma SnocTwice(ps: seq<string>, a: string, b: string)
    ensures ps + [a] + [b] == ps + [a, b]
  {
  }

  /** One more piece: kept when it is not empty. */
  lemma NonEmptySnoc(ps: seq<string>, p: string)
    ensures p == "" ==> NonEmpty(ps + [p]) == NonEmpty(ps)
    ensures p != "" ==> NonEmpty(ps + [p]) == NonEmpty(ps) + [p]
  {
    assert (ps + [p])[..|ps|] == ps;
  }

  /** One more kept piece: appended as it is when it is the first, with its
      divider otherwise. */
  lemma JoinedSnoc(q: seq<string>, p: string)
    ensures q == [] ==> Joined(q + [p]) == p
    ensures q != [] ==> Joined(q + [p]) == Joined(q) + AddSectionDivider(p)
  {
    if q != [] {
      assert (q + [p])[1..] == q[1..] + [p];
      assert (q[1..] + [p])[..|q[1..] + [p]| - 1] == q[1..];
    } else {
      assert [p][1..] == [];
    }
  }

  /** Emitting one piece (html.py:2146-2159, the same steps for each kind of
      region).  `emitted` lists the pieces emitted so far.  An empty piece
      changes nothing; any other is appended, with its divider when something
      was emitted before, after which something has been. */
  method EmitPiece(out: string, hasPreviousContent: bool, piece: string,
                   ghost html: string, ghost emitted: seq<string>)
    returns (out': string, hasPreviousContent': bool, ghost emitted': seq<string>)
    requires hasPreviousContent <==> emitted != []
    requires out == html + Joined(emitted)
    ensures piece == "" ==> out' == out && emitted' == emitted
    ensures piece != "" ==> emitted' == emitted + [piece]
    ensures hasPreviousContent' <==> emitted' != []
    ensures out' == html + Joined(emitted')
  {
    out', hasPreviousContent', emitted' := out, hasPreviousContent, emitted;
    if piece != "" {
      JoinedSnoc(emitted, piece);
      var content := piece;
      if hasPreviousContent {
        content := AddSectionDivider(content);
      }
      AppendAssoc(html, Joined(emitted), content);
      out' := out + content;
      hasPreviousContent' := true;
      emitted' := emitted + [piece];
    }
  }

  /** The "new_items" region: its new hot-list piece and then its new RSS
      piece, each emitted on its own. */
  method EmitNewItems(out: string, hasPreviousContent: bool, newHtml: string, rssNew: string,
                      ghost html: string, ghost done: seq<string>)
    returns (out': string, hasPreviousContent': bool)
    requires hasPreviousContent <==> NonEmpty(done) != []
    requires out == html + Joined(NonEmpty(done))
    ensures hasPreviousContent' <==> NonEmpty(done + [newHtml, rssNew]) != []
    ensures out' == html + Joined(NonEmpty(done + [newHtml, rssNew]))
  {
    ghost var emitted;
    NonEmptySnoc(done, newHtml);
    out', hasPreviousContent', emitted := EmitPiece(out, hasPreviousContent, newHtml, html, NonEmpty(done));
    NonEmptySnoc(done + [newHtml], rssNew);
    out', hasPreviousContent', emitted := EmitPiece(out', hasPreviousContent', rssNew, html, emitted);
    SnocTwice(done, newHtml, rssNew);
  }

  /** Emitting one region (html.py:2141-2159): both halves of "new_items"
      in turn, the one piece of any other known region, nothing for an
      unknown one. */
  method EmitRegion(out: string, hasPreviousContent: bool, c: RegionContents, region: string,
                    ghost html: string, ghost done: seq<string>)
    returns (out': string, hasPreviousContent': bool)
    requires hasPreviousContent <==> NonEmpty(done) != []
    requires out == html + Joined(NonEmpty(done))
    ensures hasPreviousContent' <==> NonEmpty(done + RegionPieces(c, region)) != []
    ensures out' == html + Joined(NonEmpty(done + RegionPieces(c, region)))
  {
    if region == "new_items" {
      out', hasPreviousContent' := EmitNewItems(out, hasPreviousContent, c.newItems, c.rssNew, html, done);
    } else {
      var pieces := RegionPieces(c, region);
      if pieces != [] {
        var content := pieces[0];
        assert pieces == [content];
        NonEmptySnoc(done, content);
        ghost var emitted;
        out', hasPreviousContent', emitted := EmitPiece(out, hasPreviousContent, content, html, NonEmpty(done));
      } else {
        out', hasPreviousContent' := out, hasPreviousContent;
        assert done + pieces == done;
      }
    }
  }

  /** The region loop.  `html` is the page so far; regions are visited in
      the given order (the default when none), each non-empty piece is
      appended, every piece after the first with its divider. */
  method AssembleRegions(html: string, c: RegionContents, regionOrder: Option<seq<string>>)
    returns (out: string)
    ensures out == html + AssembledRegions(c, regionOrder)
  {
    var order := if regionOrder.None? then DefaultRegionOrder else regionOrder.value;
    out := html;
    var hasPreviousContent := false;
    for i := 0 to |order|
      invariant hasPreviousContent <==> NonEmpty(Pieces(c, order[..i])) != []
      invariant out == html + Joined(NonEmpty(Pieces(c, order[..i])))
    {
      PiecesSnoc(c, order, i);
      out, hasPreviousContent := EmitRegion(out, hasPreviousContent, c, order[i], html, Pieces(c, order[..i]));
    }
    assert order[..|order|] == order;
  }

  /** With the default order and every region present, the page reads
      hot list, RSS, new hot-list items, new RSS items, standalone, AI
      analysis, each after the first with its divider. */
  lemma DefaultOrderLayout(c: RegionContents)
    requires c.hotlist != "" && c.rss != "" && c.newItems != "" && c.rssNew != ""
    requires c.standalone != "" && c.aiAnalysis != ""
    ensures AssembledRegions(c, None) ==
      c.hotlist + AddSectionDivider(c.rss) + AddSectionDivider(c.newItems)
      + AddSectionDivider(c.rssNew) + AddSectionDivider(c.standalone) + AddSectionDivider(c.aiAnalysis)
  {
    var o := DefaultRegionOrder;
    PiecesAppend(c, o[..4], [o[4]]);
    PiecesAppend(c, o[..3], [o[3]]);
    PiecesAppend(c, o[..2], [o[2]]);
    PiecesAppend(c, o[..1], [o[1]]);
    PiecesAppend(c, [], [o[0]]);
    assert o[..4] + [o[4]] == o;
    assert o[..3] + [o[3]] == o[..4];
    assert o[..2] + [o[2]] == o[..3];
    assert o[..1] + [o[1]] == o[..2];
    assert [] + [o[0]] == o[..1];
    var ps := [c.hotlist, c.rss, c.newItems, c.rssNew, c.standalone, c.aiAnalysis];
    assert Pieces(c, o) == ps;
    assert [] + [ps[0]] == ps[..1];
    assert ps[..1] + [ps[1]] == ps[..2];
    assert ps[..2] + [ps[2]] == ps[..3];
    assert ps[..3] + [ps[3]] == ps[..4];
    assert ps[..4] + [ps[4]] == ps[..5];
    assert ps[..5] + [ps[5]] == ps;
    NonEmptySnoc([], ps[0]);
    NonEmptySnoc(ps[..1], ps[1]);
    NonEmptySnoc(ps[..2], ps[2]);
    NonEmptySnoc(ps[..3], ps[3]);
    NonEmptySnoc(ps[..4], ps[4]);
    NonEmptySnoc(ps[..5], ps[5]);
    assert NonEmpty(ps) == ps;
    JoinedSnoc([], ps[0]);
    JoinedSnoc(ps[..1], ps[1]);
    JoinedSnoc(ps[..2], ps[2]);
    JoinedSnoc(ps[..3], ps[3]);
    JoinedSnoc(ps[..4], ps[4]);
    JoinedSnoc(ps[..5], ps[5]);
  }

  /** A region order naming no known region adds nothing to the page. */
  lemma {:induction false} UnknownRegionsAddNothing(c: RegionContents, order: seq<string>)
    requires forall r :: r in order ==> r !in DefaultRegionOrder
    ensures Pieces(c, order) == []
    ensures AssembledRegions(c, Some(order)) == ""
  {
    if order != [] {
      assert order[|order| - 1] in order;
      UnknownRegionsAddNothing(c, order[..|order| - 1]);
    }
  }
}
