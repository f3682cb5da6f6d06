/** The statistics half of generate_dashboard
    (trendradar/report/generator.py:260-289): per-platform counts, the top
    keywords, the hot-news list and the three totals shown on the dashboard.
    The page text and the file it is written to are not part of the model. */
module Dashboard {
  import opened Wrappers
  import opened OrderedDict
  import opened ReportModel

  /** How many keywords the dashboard and the report's chart keep. */
  const TopKeywords := 10
  /** How many hot-news entries the dashboard keeps. */
  const TopHotNews := 50

  datatype KeywordCount = KeywordCount(word: string, count: int)

  datatype HotNews = HotNews(title: string, source: string, keyword: string, count: int, url: string)

  datatype DashboardStats = DashboardStats(
    platformCounts: Dict<string, int>,
    keywordCounts: seq<KeywordCount>,
    hotNews: seq<HotNews>,
    totalNews: int,
    totalKeywords: int,
    totalPlatforms: int)

  function Min(a: int, b: int): int {
    if a <= b then a else b
  }

  /** The source name of every title entry of one bucket, in order. */
  function StatSources(s: Stat): seq<string> {
    seq(|s.titles|, k requires 0 <= k < |s.titles| => s.titles[k].sourceName)
  }

  /** The source name of every title entry, bucket by bucket. */
  function SourceNames(stats: seq<Stat>): seq<string> {
    if stats == [] then []
    else SourceNames(stats[..|stats| - 1]) + StatSources(stats[|stats| - 1])
  }

  /** The hot-news record of every title entry of one bucket, in order. */
  function StatHotNews(s: Stat): seq<HotNews> {
    seq(|s.titles|, k requires 0 <= k < |s.titles| =>
      HotNews(s.titles[k].title, s.titles[k].sourceName, s.word, s.titles[k].count, s.titles[k].url.GetOr("")))
  }

  /** The hot-news record of every title entry, bucket by bucket. */
  function AllHotNews(stats: seq<Stat>): seq<HotNews> {
    if stats == [] then []
    else AllHotNews(stats[..|stats| - 1]) + StatHotNews(stats[|stats| - 1])
  }

  /** `sum(len(stat["titles"]) for stat in stats)` */
  function TotalNews(stats: seq<Stat>): nat {
    if stats == [] then 0 else TotalNews(stats[..|stats| - 1]) + |stats[|stats| - 1].titles|
  }

  /** The keyword/count pair of every bucket, in order. */
  function AllKeywordCounts(stats: seq<Stat>): seq<KeywordCount> {
    seq(|stats|, i requires 0 <= i < |stats| => KeywordCount(stats[i].word, stats[i].count))
  }

  /** One entry per title entry: the name list and the hot-news list are as
      long as the number of titles. */
  lemma {:induction false} TitleListsLength(stats: seq<Stat>)
    ensures |SourceNames(stats)| == TotalNews(stats)
    ensures |AllHotNews(stats)| == TotalNews(stats)
  {
    if stats != [] {
      TitleListsLength(stats[..|stats| - 1]);
    }
  }

  /** The hot-news list names each entry's platform as the platform counts
      do: entry k of the full list comes from source name k. */
  lemma {:induction false} HotNewsSources(stats: seq<Stat>)
    ensures |AllHotNews(stats)| == |SourceNames(stats)|
    ensures forall k :: 0 <= k < |AllHotNews(stats)| ==> AllHotNews(stats)[k].source == SourceNames(stats)[k]
  {
    if stats != [] {
      HotNewsSources(stats[..|stats| - 1]);
    }
  }

  /** The inner loop of generate_dashboard over one bucket's title entries:
      each entry's platform is counted once more and its hot-news record is
      appended. */
  method AddBucket(platformCounts: Dict<string, int>, hotNewsList: seq<HotNews>, stat: Stat,
                   ghost names: seq<string>)
    returns (counts: Dict<string, int>, hot: seq<HotNews>)
    requires platformCounts == Tally(names)
    ensures counts == Tally(names + StatSources(stat))
    ensures hot == hotNewsList + StatHotNews(stat)
  {
    counts, hot := platformCounts, hotNewsList;
    assert names + StatSources(stat)[..0] == names;
    for j := 0 to |stat.titles|
      invariant counts == Tally(names + StatSources(stat)[..j])
      invariant hot == hotNewsList + StatHotNews(stat)[..j]
    {
      var titleData := stat.titles[j];
      var platform := titleData.sourceName;
      ghost var upTo := names + StatSources(stat)[..j + 1];
      assert upTo[..|upTo| - 1] == names + StatSources(stat)[..j];
      counts := Bump(counts, platform);
      hot := hot + [HotNews(titleData.title, platform, stat.word, titleData.count, titleData.url.GetOr(""))];
      assert StatHotNews(stat)[..j + 1] == StatHotNews(stat)[..j] + [StatHotNews(stat)[j]];
    }
    assert StatSources(stat)[..|stat.titles|] == StatSources(stat);
    assert StatHotNews(stat)[..|stat.titles|] == StatHotNews(stat);
  }

  /** The statistics loop of generate_dashboard.  The keyword list holds the
      first min(10, n) buckets in order, the hot-news list the first
      min(50, total) title entries in order, the platform counts tally the
      source name of every title entry (adding up to the number of titles),
      and the platform total is the number of distinct source names. */
  method ComputeDashboardStats(stats: seq<Stat>) returns (d: DashboardStats)
    ensures d.keywordCounts == AllKeywordCounts(stats)[..Min(TopKeywords, |stats|)]
    ensures |d.keywordCounts| == Min(TopKeywords, |stats|)
    ensures d.platformCounts == Tally(SourceNames(stats))
    ensures d.hotNews == AllHotNews(stats)[..Min(TopHotNews, |AllHotNews(stats)|)]
    ensures |d.hotNews| == Min(TopHotNews, d.totalNews) <= TopHotNews
    ensures d.totalNews == TotalNews(stats)
    ensures d.totalKeywords == |stats|
    ensures d.totalPlatforms == |set name | name in SourceNames(stats)|
    ensures SumValues(d.platformCounts) == d.totalNews
  {
    var platformCounts: Dict<string, int> := [];
    var keywordCounts: seq<KeywordCount> := [];
    var hotNewsList: seq<HotNews> := [];
    for i := 0 to |stats|
      invariant keywordCounts == AllKeywordCounts(stats[..i])
      invariant platformCounts == Tally(SourceNames(stats[..i]))
      invariant hotNewsList == AllHotNews(stats[..i])
    {
      var stat := stats[i];
      keywordCounts := keywordCounts + [KeywordCount(stat.word, stat.count)];
      platformCounts, hotNewsList := AddBucket(platformCounts, hotNewsList, stat, SourceNames(stats[..i]));
      assert stats[..i + 1][..i] == stats[..i];
    }
    assert stats[..|stats|] == stats;
    TitleListsLength(stats);
    TallySum(SourceNames(stats));
    TallySize(SourceNames(stats));
    var totalNews := TotalNews(stats);
    keywordCounts := keywordCounts[..Min(TopKeywords, |keywordCounts|)];
    hotNewsList := hotNewsList[..Min(TopHotNews, |hotNewsList|)];
    d := DashboardStats(platformCounts, keywordCounts, hotNewsList, totalNews, |stats|, |platformCounts|);
  }
}
