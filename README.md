# TrendRadar report layer — a verified model

TrendRadar collects trending titles from many platforms. It matches them
against keyword groups, aggregates them into keyword buckets ("stats") and
works out which titles are new since the last crawl ("new titles"). This
project models the layer that turns that output into a report:

- `prepare_report_data` builds the report record. It keeps the buckets that
  counted something and gives every title entry a fixed shape. It filters
  the new titles again through the injected keyword matcher, resolves each
  source's display name, and counts the new titles shown.
- The statistics half of `generate_dashboard` computes the per-platform
  counts, the top keywords, the hot-news list and the totals.
- Inside `render_html_content` there are small decision rules: rank-badge
  tiers and texts, the keyword heat class, the report-type label, the
  section guards, the chart tallies, the divider inserted into sections,
  and the loop that emits the page regions in the configured order.

Python dictionaries are insertion-ordered sequences of key/value pairs
(`OrderedDict.Dict`), because the output follows the input's iteration
order. A dictionary key read with `d["k"]` is a plain field, since the source
fails without it. A key read with `d.get("k", default)` is an `Option`. An
optional argument is an `Option` as well, and "truthy" means present and
non-empty (`ReportModel.Truthy`).

The matcher and the loader of its keyword rules are injected callables
whose code is not shown. The loader is a function `() -> R` for an opaque
rule type `R`. The matcher is a predicate on a title and those rules.

html.py gives the rank tier below "high" no class of its own: it renders
the empty class "" (`RankBadge.RankClass`).

Some totals and lists are defined twice, once per record type, because the
source computes them separately: over the raw statistics in
`generate_dashboard` (`Dashboard.StatSources`, `Dashboard.AllKeywordCounts`,
`Dashboard.TotalNews`), over the report's entries in `render_html_content`
(`ChartData.BucketPlatforms`, `ChartData.Keywords`,
`ChartData.HotNewsCount`), and over the report's new-title groups
(`ReportModel.TotalTitles`).

Files:

- `wrappers.dfy`: the `Option` type.
- `ordered_dict.dfy`: ordered dictionaries with lookup, the counting update
  `d[k] = d.get(k, 0) + 1`, and tallies.
- `text.dfy`: `str.find` and `str(int)`, with a decimal parser as the
  inverse of the latter.
- `report_model.dfy`: the records.
- `new_titles.dfy`, `stats_section.dfy`: specification functions for the
  two halves of `prepare_report_data`.
- `generator.dfy`: `prepare_report_data`'s loops, proved to compute those
  functions.
- `dashboard.dfy`: the dashboard statistics loop.
- `rank_badge.dfy`, `sections.dfy`, `chart_data.dfy`: the
  `render_html_content` rules.

## Model

| member | source | states |
|---|---|---|
| `Generator.PrepareReportData` | trendradar/report/generator.py:14-139 | The report's stats are the positive-count buckets, normalised and in order. `failed_ids` is passed through, with None becoming `[]`. `total_new_count` is the number of new-title entries. With the section hidden by mode or flag, or with `new_titles`/`id_to_name` missing or empty, there are no new titles and the count is 0. Otherwise the (source, title) pairs shown are exactly the input pairs the matcher accepts (all of them without both callables), in input order. Every group is non-empty and named `id_to_name[id]`, falling back to the id. Every entry is new, has count 1, an empty time display and the given rank threshold. |
| `Generator.FilterNewTitles` | trendradar/report/generator.py:52-60 | The nested matcher loop computes `KeptSources`: per source, the titles the matcher accepts, in order; a source left with none is omitted. |
| `Generator.BuildNewGroups` | trendradar/report/generator.py:71-101 | The grouping loop computes `NewGroups`: one group per source with titles, in order, each title in the fixed new-item shape. |
| `Generator.ProcessStats` | trendradar/report/generator.py:103-130 | The statistics loop computes `ProcessedStats`: buckets with count <= 0 are skipped, the others normalised. |
| `NewTitles.SourceName` | trendradar/report/generator.py:73 | The name is the one `id_to_name` maps the id to when it has the id, otherwise the id itself. |
| `NewTitles.NewTitleEntry` | trendradar/report/generator.py:76-91 | A new-title entry is new, counts 1, has time display "", the given threshold and source name, and the record's url, mobile url (read from `mobileUrl`) and ranks, defaulting to "", "" and []. |
| `NewTitles.NewTitlesSection` | trendradar/report/generator.py:42-101 | The new-title groups are empty when the section is hidden by mode or flag, or when `new_titles` or `id_to_name` is missing or empty. Otherwise every group is non-empty and named `id_to_name[id]`, falling back to the id (`NewTitles.SectionPairs` states which titles appear). |
| `NewTitles.KeptPairsMembers` | trendradar/report/generator.py:56-58 | A (source, title) pair survives the filter exactly when it was in the input and the matcher accepts the title. |
| `NewTitles.KeptPairsAppend` | trendradar/report/generator.py:54-58 | Filtering keeps order: filtering a concatenation filters each part. |
| `NewTitles.KeptTitlePairs` | trendradar/report/generator.py:56-58 | Filtering one source's titles filters its (source, title) pairs. |
| `NewTitles.KeptSourcesPairs` | trendradar/report/generator.py:54-60 | The pairs of the filtered map are the filtered pairs of the input map, in the same order. |
| `NewTitles.KeptPairsNone` | trendradar/report/generator.py:56-59 | When the matcher rejects every title, nothing is kept. |
| `NewTitles.RejectedSourceHasNoGroup` | trendradar/report/generator.py:59-60 | A source whose new titles the matcher all rejects gets no group in the report. |
| `NewTitles.NewGroupsPairs` | trendradar/report/generator.py:72-101 | Grouping neither drops, adds nor reorders a (source, title) pair. |
| `NewTitles.TotalTitlesPairs` | trendradar/report/generator.py:136-138 | `total_new_count` (the sum of the groups' title counts) equals the number of (source, title) pairs shown. |
| `NewTitles.NewGroupsShape` | trendradar/report/generator.py:73-101 | Every group has at least one title and carries the resolved source name. Each entry is new, counts 1, has an empty time display, the given threshold and the group's source name. |
| `NewTitles.SectionPairs` | trendradar/report/generator.py:48-101 | When the section is visible and both maps are non-empty, the shown pairs are the expected ones and the count is their number. |
| `StatsSection.NormalizeStat` | trendradar/report/generator.py:108-130 | A normalised bucket keeps word and count. Its percentage defaults to 0. It has one normalised entry per input entry, with url and mobile url (from `mobileUrl`) defaulting to "" and `is_new` to false. |
| `StatsSection.ProcessedStatsAppend` | trendradar/report/generator.py:103-130 | Bucket processing keeps relative order: processing a concatenation processes each part. |
| `StatsSection.ProcessedStatsMembers` | trendradar/report/generator.py:104-106 | Every output bucket is a normalised input bucket with a positive count. Every input bucket with a positive count appears in the output. No bucket is added. |
| `Dashboard.ComputeDashboardStats` | trendradar/report/generator.py:260-289 | The keyword list is the first min(10, n) buckets' word and count, in order. The hot-news list is the first min(50, total) title entries in order, so at most 50. The platform counts are the tally of the entries' source names, so each name maps to its number of entries (`OrderedDict.TallyCounts`), and the counts add up to `total_news`. `total_news` is the number of title entries. `total_keywords` is the number of buckets. `total_platforms` is the number of distinct source names. |
| `Dashboard.AddBucket` | trendradar/report/generator.py:271-280 | The inner loop counts one bucket's entries into the platform tally and appends their hot-news records, in order. |
| `Dashboard.TitleListsLength` | trendradar/report/generator.py:271-287 | There is one source name and one hot-news record per title entry. |
| `Dashboard.HotNewsSources` | trendradar/report/generator.py:272-276 | Each hot-news record names the same platform that was counted for that entry. |
| `ChartData.ComputeChartData` | trendradar/report/html.py:1582-1598 | The chart's platform counts are the tally of the entries' source names, so each name maps to its number of entries (`OrderedDict.TallyCounts`), and they add up to `hot_news_count`. The keyword list is the first min(10, n) buckets' word and count, in order. |
| `ChartData.CountBucket` | trendradar/report/html.py:1594-1596 | The inner loop counts one bucket's entries into the platform tally. |
| `ChartData.HotNewsCount` | trendradar/report/html.py:1484 | `hot_news_count` sums the buckets' entry counts; it is 0 exactly when no bucket holds a title entry. |
| `ChartData.PlatformsLength` | trendradar/report/html.py:1484 | `hot_news_count` is the number of platform names counted. |
| `RankBadge.MinOf` | trendradar/report/html.py:1657 | `min(ranks)` is a rank of the list and no rank is below it. |
| `RankBadge.MaxOf` | trendradar/report/html.py:1658 | `max(ranks)` is a rank of the list and no rank is above it. |
| `RankBadge.RankClass` | trendradar/report/html.py:1659-1667 | The tier is "top" exactly when the best rank is at most 3. It is "high" exactly when the best rank is above 3 and at most the threshold, which defaults to 10. Otherwise it is "". |
| `RankBadge.StatsRankBadge` | trendradar/report/html.py:1655-1674 | A bucket entry gets a badge exactly when it has ranks. The badge's tier is that of its best rank, and its text reads back as the best and worst rank. |
| `RankBadge.StatsRankText` | trendradar/report/html.py:1669-1672 | The bucket badge text, `str(min)` when the best and worst rank agree and `"min-max"` otherwise, reads back as the best and worst rank. |
| `RankBadge.NewItemRankText` | trendradar/report/html.py:1750-1755 | The new-item text is "?" exactly when there are no ranks. Otherwise it is `str(rank)` for one rank and `"min-max"` for several, and it reads back as the best and worst rank. |
| `RankBadge.NewItemRankBadge` | trendradar/report/html.py:1739-1755 | A new item always gets a badge. Without ranks it has class "" and text "?". With ranks its tier is that of its best rank, and its text is not "?" and reads back as the best and worst rank. |
| `RankBadge.SingleTextRoundTrip` | trendradar/report/html.py:1670 | `str(rank)` reads back as the rank. |
| `RankBadge.RangeTextRoundTrip` | trendradar/report/html.py:1672 | `f"{min}-{max}"` reads back as the two ends, negative ones included. |
| `RankBadge.NoSeparator` | trendradar/report/html.py:1670 | After its first character, `str(rank)` holds no "-", so a single rank is never read as a range. |
| `RankBadge.BadgesAgree` | trendradar/report/html.py:1655-1674 | For the same ranks, the new-item badge and the bucket badge have the same tier. The new-item badge differs from the bucket badge only for several equal ranks, where it shows the rank as a range. |
| `RankBadge.RepeatedRankExample` | trendradar/report/html.py:1751-1754 | The ranks [4, 4] show as "4" on a bucket entry and as "4-4" on a new item. |
| `RankBadge.RankClassMonotone` | trendradar/report/html.py:1659-1667 | A better rank or a larger threshold never gives a lower tier. |
| `RankBadge.CountClass` | trendradar/report/html.py:1614-1619 | The heat class is "hot" exactly from 10, "warm" exactly from 5 to 9, and "" below 5. |
| `RankBadge.CountClassMonotone` | trendradar/report/html.py:1614-1619 | A larger count is never shown cooler. |
| `Sections.ModeLabel` | trendradar/report/html.py:1468-1473 | The label is 当前榜单 exactly for "current", 增量分析 exactly for "incremental", and 全天汇总 for every other mode. |
| `Sections.NewSectionShown` | trendradar/report/html.py:1724 | Defined as the guard itself: the new-items block is shown when the flag is set and there are new-title groups. `Sections.NewSectionShownIffCount` states what it means for the report. |
| `Sections.NewSectionShownIffCount` | trendradar/report/html.py:1724 | Report groups are never empty, so the new-items block appears exactly when the flag is set and a new title is counted. |
| `Sections.RssHeaderCount` | trendradar/report/html.py:1811-1817 | There is no RSS block for no buckets or for a zero total of counts, where a missing count counts 0. Otherwise the block's header shows that total. |
| `Sections.RssShownIffPositive` | trendradar/report/html.py:1811-1817 | With no negative counts, the RSS block appears exactly when some bucket has a positive count. |
| `Sections.AddSectionDivider` | trendradar/report/html.py:2128-2136 | Content without `class="` (empty content included) is unchanged. Otherwise "section-divider " is inserted right after the first `class="` and the rest is kept, so the result is 16 characters longer. |
| `Sections.SectionDividerRoundTrip` | trendradar/report/html.py:2128-2136 | The first `class="` stays where it was, and taking the divider out gives the content back. |
| `Sections.NonEmptyMembers` | trendradar/report/html.py:2145-2159 | Exactly the non-empty pieces are emitted. |
| `Sections.PiecesAppend` | trendradar/report/html.py:2140-2141 | The pieces of a concatenated region order are those of each part, in order. |
| `Sections.NonEmptySnoc` | trendradar/report/html.py:2147-2159 | An empty piece is skipped and a non-empty one is added at the end. |
| `Sections.JoinedSnoc` | trendradar/report/html.py:2147-2159 | An emitted piece is appended as it is when it is the first, and with its divider otherwise. |
| `Sections.EmitPiece` | trendradar/report/html.py:2147-2159 | An empty piece changes nothing. A non-empty piece is added to the pieces emitted so far: the page becomes their join, the piece is appended with its divider exactly when something came before, and `has_previous_content` holds afterwards. |
| `Sections.EmitNewItems` | trendradar/report/html.py:2145-2154 | The "new_items" region emits its new hot-list piece and then its new RSS piece, each on its own, so each gets a divider exactly when something came before it. |
| `Sections.EmitRegion` | trendradar/report/html.py:2141-2159 | "new_items" emits its new hot-list piece and then its new RSS piece, as two independent pieces. Any other known region emits its one piece. An unknown region emits nothing. |
| `Sections.AssembledRegions` | trendradar/report/html.py:2139-2159 | The specification of the region loop: the non-empty pieces of the order (the default order when none is given) joined with dividers. It is empty exactly when every piece the order names is empty. |
| `Sections.AssembleRegions` | trendradar/report/html.py:2139-2159 | The loop appends to the page the non-empty pieces of the region order, the default order when none is given, in order. The first is appended as it is, every later one with its divider. |
| `Sections.DefaultOrderLayout` | trendradar/report/html.py:51-53 | With the default order and every region present, the page reads: hot list, then RSS, new hot-list items, new RSS items, standalone and AI analysis, each of these with its divider. |
| `Sections.UnknownRegionsAddNothing` | trendradar/report/html.py:2141 | A region order naming no known region adds nothing to the page. |
| `Text.FindFrom` | trendradar/report/html.py:2130-2132 | `find` returns the first index at or after the start where the pattern occurs, and None (Python's -1) when there is none. |
| `Text.ParseIntToString` | trendradar/report/html.py:1670-1672 | `str(i)` loses nothing: parsing it back gives `i`. |
| `OrderedDict.BumpGet` | trendradar/report/generator.py:273 | `d[k] = d.get(k, 0) + 1` raises k's count by one and leaves every other key's count as it was. |
| `OrderedDict.BumpKeys` | trendradar/report/generator.py:273 | The counting update keeps the key order, appending a key it has not seen. |
| `OrderedDict.TallyCounts` | trendradar/report/generator.py:271-273 | After counting a list, each element maps to its number of occurrences and nothing else is a key. |
| `OrderedDict.TallySum` | trendradar/report/generator.py:271-273 | The counts of a tally add up to the length of the list. |
| `OrderedDict.TallySize` | trendradar/report/generator.py:289 | A tally has one key per distinct element. |
| `OrderedDict.TallyDistinct` | trendradar/report/generator.py:273 | A tally's keys are distinct. |

## Left out

- HTML, CSS and the embedded JavaScript of `render_html_content` are not modelled: markup, `html_escape`, `convert_time_for_display`, charts, fetch calls, `localStorage`. The sections' own markup appears only as opaque strings in `Sections.RegionContents`.
- `render_standalone_html` and `render_ai_analysis_html_rich` are not modelled. Their results are opaque region strings.
- The body of `render_rss_stats_html` beyond its two empty guards is not modelled.
- File writing in `generate_dashboard` and `generate_html_report`, the `print` logging in `prepare_report_data` (generator.py:65-69, which only counts for the log), `datetime.now()` and `json.dumps` are I/O, clock or serialisation.
- The matcher and the keyword-rule loader are parameters. Their code is not part of this model, and the loader is modelled as a function with no effects.
- mcp_server/tools/export_tools.py and mcp_server/rest_api.py are not part of this model. They are request plumbing over services whose code is not shown.
- Dashboard.ComputeDashboardStats: the defaults of `title_data.get("source_name", "未知")`, `.get("title", "")`, `.get("count", 1)` and `.get("url", "")` for a missing key are not modelled. Source name, title and count are required fields of a bucket entry, read with `[]` in `prepare_report_data`; the url is optional and does default to "".
- Dashboard.ComputeDashboardStats: `stats` being None (handled by `if stats`) is not modelled; the model takes a list, and None behaves as the empty list.
- ChartData.ComputeChartData: the "未知" default for a missing `source_name` is not modelled. Report entries always carry the key.
- RankBadge.StatsRankBadge: ranks and threshold are passed in directly. In report entries the `ranks` key is always present; the model keeps the `.get("rank_threshold", 10)` default as an `Option`.
- Sections.RssHeaderCount: it takes only the buckets' count entries (`Option<int>`, missing = 0). The other fields of an RSS bucket do not affect the guards.
- Sections.AddSectionDivider: the source checks `find` for -1 a second time, after `'class="' in content` already excluded it. That branch cannot be reached, and the model has only one test.
- Generator.FilterNewTitles: an input dictionary has distinct keys, so `filtered_titles[title] = title_data` only ever appends. The model appends and does not model overwriting a duplicate key.
- Generator.PrepareReportData: the parameter defaults `mode="daily"`, `rank_threshold=3` and `show_new_section=True` (generator.py:19-23) are not modelled; callers pass all three explicitly. `generate_html_report` (generator.py:194-203) relies on the `show_new_section` default, which corresponds to passing true.
- `percentage` defaults to the integer 0 in the source and to the real 0.0 in the model. Python's int/float distinction is not modelled.
