/** The chart data of render_html_content (trendradar/report/html.py):
    the hot-news count shown in the header (1484) and the per-platform and
    per-keyword tallies handed to the charts (1582-1598), computed from the
    report's statistics.  html.py counts these over the report's entries,
    while the dashboard (dashboard.dfy) counts the same things over the raw
    statistics, so each is defined here once per record type. */
module ChartData {
  import opened Wrappers
  import opened OrderedDict
  import opened ReportModel
  import opened Dashboard

  /** `hot_news_count`: the number of title entries over all buckets.  It
      is 0 exactly when no bucket holds a title. */
  function HotNewsCount(stats: seq<ReportStat>): (n: nat)
    ensures n == 0 <==> forall s :: s in stats ==> s.titles == []
  {
    if stats == [] then 0
    else
      var init := stats[..|stats| - 1];
      assert forall s :: s in stats <==> s in init || s == stats[|stats| - 1];
      HotNewsCount(init) + |stats[|stats| - 1].titles|
  }

  /** The source name of every title entry of one bucket, in order. */
  function BucketPlatforms(s: ReportStat): seq<string> {
    seq(|s.titles|, k requires 0 <= k < |s.titles| => s.titles[k].sourceName)
  }

  /** The source name of every title entry, bucket by bucket. */
  function Platforms(stats: seq<ReportStat>): seq<string> {
    if stats == [] then [] else Platforms(stats[..|stats| - 1]) + BucketPlatforms(stats[|stats| - 1])
  }

  /** The keyword/count pair of every bucket, in order. */
  function Keywords(stats: seq<ReportStat>): seq<KeywordCount> {
    seq(|stats|, i requires 0 <= i < |stats| => KeywordCount(stats[i].word, stats[i].count))
  }

  /** One platform name per title entry. */
  lemma {:induction false} PlatformsLength(stats: seq<ReportStat>)
    ensures |Platforms(stats)| == HotNewsCount(stats)
  {
    if stats != [] {
      PlatformsLength(stats[..|stats| - 1]);
    }
  }

  /** One bucket's entries counted into the platform tally. */
  method CountBucket(platformCounts: Dict<string, int>, stat: ReportStat, ghost names: seq<string>)
    returns (counts: Dict<string, int>)
    requires platformCounts == Tally(names)
    ensures counts == Tally(names + BucketPlatforms(stat))
  {
    counts := platformCounts;
    assert names + BucketPlatforms(stat)[..0] == names;
    for j := 0 to |stat.titles|
      invariant counts == Tally(names + BucketPlatforms(stat)[..j])
    {
      var platform := stat.titles[j].sourceName;
      ghost var upTo := names + BucketPlatforms(stat)[..j + 1];
      assert upTo[..|upTo| - 1] == names + BucketPlatforms(stat)[..j];
      counts := Bump(counts, platform);
    }
    assert BucketPlatforms(stat)[..|stat.titles|] == BucketPlatforms(stat);
  }

  /** The chart tallies.  The platform counts hold, for each source name in
      order of first appearance, how many title entries carry it, and add up
      to the hot-news count; the keyword list is the first min(10, n)
      buckets' word and count, in order. */
  method ComputeChartData(stats: seq<ReportStat>)
    returns (platformCounts: Dict<string, int>, keywordCounts: seq<KeywordCount>)
    ensures platformCounts == Tally(Platforms(stats))
    ensures SumValues(platformCounts) == HotNewsCount(stats)
    ensures keywordCounts == Keywords(stats)[..Min(TopKeywords, |stats|)]
  {
    platformCounts := [];
    keywordCounts := [];
    for i := 0 to |stats|
      invariant platformCounts == Tally(Platforms(stats[..i]))
      invariant keywordCounts == Keywords(stats[..i])
    {
      var stat := stats[i];
      keywordCounts := keywordCounts + [KeywordCount(stat.word, stat.count)];
      platformCounts := CountBucket(platformCounts, stat, Platforms(stats[..i]));
      assert stats[..i + 1][..i] == stats[..i];
    }
    assert stats[..|stats|] == stats;
    keywordCounts := keywordCounts[..Min(TopKeywords, |keywordCounts|)];
    PlatformsLength(stats);
    TallySum(Platforms(stats));
  }
}
