/** prepare_report_data (trendradar/report/generator.py:14-139) as the loops
    the source runs, each proved to compute the specification functions of
    NewTitles and StatsSection. */
module Generator {
  import opened Wrappers
  import opened OrderedDict
  import opened ReportModel
  import opened NewTitles
  import opened StatsSection

  /** The matcher pass over `new_titles` (generator.py:52-60): each source's
      titles the matcher accepts, sources with none left out.  The source
      stores `filtered_titles[title] = title_data`; titles are distinct keys
      of the input dictionary, so this appends. */
  method FilterNewTitles<R>(nt: NewTitlesMap, matcher: (string, R) -> bool, rules: R)
    returns (filtered: NewTitlesMap)
    ensures filtered == KeptSources(nt, matcher, rules)
  {
    filtered := [];
    for i := 0 to |nt|
      invariant filtered == KeptSources(nt[..i], matcher, rules)
    {
      var (sourceId, titlesData) := nt[i];
      var filteredTitles: SourceTitles := [];
      for j := 0 to |titlesData|
        invariant filteredTitles == KeptTitles(titlesData[..j], matcher, rules)
      {
        var (title, titleData) := titlesData[j];
        if matcher(title, rules) {
          filteredTitles := filteredTitles + [(title, titleData)];
        }
        assert titlesData[..j + 1][..j] == titlesData[..j];
      }
      assert titlesData[..|titlesData|] == titlesData;
      if filteredTitles != [] {
        filtered := filtered + [(sourceId, filteredTitles)];
      }
      assert nt[..i + 1][..i] == nt[..i];
    }
    assert nt[..|nt|] == nt;
  }

  /** The grouping pass (generator.py:71-101): one group per source that has
      titles, under its resolved name, each title in the fixed shape. */
  method BuildNewGroups(filtered: NewTitlesMap, idToName: NameMap, rankThreshold: int)
    returns (groups: seq<NewGroup>)
    ensures groups == NewGroups(filtered, idToName, rankThreshold)
  {
    groups := [];
    for i := 0 to |filtered|
      invariant groups == NewGroups(filtered[..i], idToName, rankThreshold)
    {
      var (sourceId, titlesData) := filtered[i];
      var sourceName := Get(idToName, sourceId).GetOr(sourceId);
      var sourceTitles: seq<ReportTitle> := [];
      for j := 0 to |titlesData|
        invariant |sourceTitles| == j
        invariant forall k :: 0 <= k < j ==>
          sourceTitles[k] == NewTitleEntry(titlesData[k].0, titlesData[k].1, sourceName, rankThreshold)
      {
        var (title, titleData) := titlesData[j];
        var url := titleData.url.GetOr("");
        var mobileUrl := titleData.mobileUrl.GetOr("");
        var ranks := titleData.ranks.GetOr([]);
        var processedTitle := ReportTitle(title, sourceName, "", 1, ranks, rankThreshold, url, mobileUrl, true);
        sourceTitles := sourceTitles + [processedTitle];
      }
      assert sourceTitles == NewTitleEntries(titlesData, sourceName, rankThreshold);
      if sourceTitles != [] {
        groups := groups + [NewGroup(sourceId, sourceName, sourceTitles)];
      }
      assert filtered[..i + 1][..i] == filtered[..i];
    }
    assert filtered[..|filtered|] == filtered;
  }

  /** The statistics pass (generator.py:103-130). */
  method ProcessStats(stats: seq<Stat>) returns (processed: seq<ReportStat>)
    ensures processed == ProcessedStats(stats)
  {
    processed := [];
    for i := 0 to |stats|
      invariant processed == ProcessedStats(stats[..i])
    {
      assert stats[..i + 1][..i] == stats[..i];
      var stat := stats[i];
      if stat.count <= 0 {
        continue;
      }
      var processedTitles: seq<ReportTitle> := [];
      for j := 0 to |stat.titles|
        invariant |processedTitles| == j
        invariant forall k :: 0 <= k < j ==> processedTitles[k] == NormalizeTitle(stat.titles[k])
      {
        var titleData := stat.titles[j];
        var processedTitle := ReportTitle(
          titleData.title, titleData.sourceName, titleData.timeDisplay, titleData.count,
          titleData.ranks, titleData.rankThreshold,
          titleData.url.GetOr(""), titleData.mobileUrl.GetOr(""), titleData.isNew.GetOr(false));
        processedTitles := processedTitles + [processedTitle];
      }
      assert processedTitles == NormalizeStat(stat).titles;
      processed := processed + [ReportStat(stat.word, stat.count, stat.percentage.GetOr(0.0), processedTitles)];
    }
    assert stats[..|stats|] == stats;
  }

  /** prepare_report_data.  The report's four fields are those of the
      specification; on top of that the result is empty of new titles
      whenever the section is hidden or an input is missing or empty, every
      new title shown is one the matcher accepts (all of them without the
      callables), in input order, each group non-empty and named by
      `id_to_name` with the id as fallback, each entry in the fixed new-item
      shape, and `total_new_count` counts exactly those titles. */
  method PrepareReportData<R>(
    stats: seq<Stat>,
    failedIds: Option<seq<string>>,
    newTitles: Option<NewTitlesMap>,
    idToName: Option<NameMap>,
    mode: string,
    rankThreshold: int,
    matcher: Option<(string, R) -> bool>,
    load: Option<() -> R>,
    showNewSection: bool)
    returns (report: Report)
    ensures report.stats == ProcessedStats(stats)
    ensures report.newTitles == NewTitlesSection(mode, showNewSection, newTitles, idToName, rankThreshold, matcher, load)
    ensures report.failedIds == failedIds.GetOr([])
    ensures report.totalNewCount == TotalTitles(report.newTitles)
    ensures HideNewSection(mode, showNewSection) || !Truthy(newTitles) || !Truthy(idToName) ==>
      report.newTitles == [] && report.totalNewCount == 0
    ensures !HideNewSection(mode, showNewSection) && Truthy(newTitles) && Truthy(idToName) ==>
      && GroupPairs(report.newTitles) == ExpectedPairs(newTitles.value, matcher, load)
      && report.totalNewCount == |ExpectedPairs(newTitles.value, matcher, load)|
    ensures forall g :: g in report.newTitles ==>
      && g.titles != []
      && g.sourceName == SourceName(idToName.value, g.sourceId)
      && forall e :: e in g.titles ==>
           e.isNew && e.count == 1 && e.timeDisplay == "" && e.rankThreshold == rankThreshold
           && e.sourceName == g.sourceName
  {
    var processedNewTitles: seq<NewGroup> := [];
    var hideNewSection := mode == "incremental" || !showNewSection;
    if !hideNewSection {
      var filteredNewTitles: NewTitlesMap := [];
      if Truthy(newTitles) && Truthy(idToName) {
        if matcher.Some? && load.Some? {
          var rules := load.value();
          filteredNewTitles := FilterNewTitles(newTitles.value, matcher.value, rules);
        } else {
          filteredNewTitles := newTitles.value;
        }
      }
      if filteredNewTitles != [] && Truthy(idToName) {
        processedNewTitles := BuildNewGroups(filteredNewTitles, idToName.value, rankThreshold);
        NewGroupsShape(filteredNewTitles, idToName.value, rankThreshold);
      }
      if Truthy(newTitles) && Truthy(idToName) {
        SectionPairs(mode, showNewSection, newTitles, idToName, rankThreshold, matcher, load);
      }
    }
    var processedStats := ProcessStats(stats);
    report := Report(processedStats, processedNewTitles, failedIds.GetOr([]), TotalTitles(processedNewTitles));
  }
}
