/** The records that flow through the report layer: the aggregated keyword
    statistics and the per-source new titles it receives, and the report record
    it builds from them (trendradar/report/generator.py, prepare_report_data).

    A key the source reads with `record["key"]` is a plain field here: the
    source fails with a KeyError without it, so every caller supplies it.  A
    key it reads with `record.get("key", default)` may be missing and is an
    `Option`. */
module ReportModel {
  import opened Wrappers
  import opened OrderedDict

  /** The record kept for one new title: `{"url", "mobileUrl", "ranks"}`,
      each of which may be missing. */
  datatype NewTitleInfo = NewTitleInfo(
    url: Option<string>,
    mobileUrl: Option<string>,
    ranks: Option<seq<int>>)

  /** One source's new titles: title -> record, in insertion order. */
  type SourceTitles = Dict<string, NewTitleInfo>

  /** `new_titles`: source id -> that source's new titles. */
  type NewTitlesMap = Dict<string, SourceTitles>

  /** `id_to_name`: source id -> display name. */
  type NameMap = Dict<string, string>

  /** One title entry of an aggregated keyword bucket. */
  datatype StatTitle = StatTitle(
    title: string,
    sourceName: string,
    timeDisplay: string,
    count: int,
    ranks: seq<int>,
    rankThreshold: int,
    url: Option<string>,
    mobileUrl: Option<string>,   // read from the key "mobileUrl"
    isNew: Option<bool>)

  /** One aggregated keyword bucket as the aggregator hands it over. */
  datatype Stat = Stat(
    word: string,
    count: int,
    percentage: Option<real>,
    titles: seq<StatTitle>)

  /** The fixed shape of every title entry in the report, whether it comes
      from a keyword bucket or from the new-items section. */
  datatype ReportTitle = ReportTitle(
    title: string,
    sourceName: string,
    timeDisplay: string,
    count: int,
    ranks: seq<int>,
    rankThreshold: int,
    url: string,
    mobileUrl: string,           // written under the key "mobile_url"
    isNew: bool)

  datatype ReportStat = ReportStat(
    word: string,
    count: int,
    percentage: real,
    titles: seq<ReportTitle>)

  /** The new titles of one source, under its resolved display name. */
  datatype NewGroup = NewGroup(
    sourceId: string,
    sourceName: string,
    titles: seq<ReportTitle>)

  /** The report record: `{"stats", "new_titles", "failed_ids",
      "total_new_count"}`. */
  datatype Report = Report(
    stats: seq<ReportStat>,
    newTitles: seq<NewGroup>,
    failedIds: seq<string>,
    totalNewCount: int)

  /** Python truthiness of an optional dictionary: present and non-empty. */
  predicate Truthy<K, V>(d: Option<Dict<K, V>>) {
    d.Some? && d.value != []
  }

  /** `sum(len(g["titles"]) for g in groups)` */
  function TotalTitles(groups: seq<NewGroup>): nat {
    if groups == [] then 0
    else TotalTitles(groups[..|groups| - 1]) + |groups[|groups| - 1].titles|
  }
}
