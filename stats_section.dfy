/** The keyword-statistics half of prepare_report_data
    (trendradar/report/generator.py:103-130): buckets with no titles counted
    are dropped, the others are copied into the report's fixed shape. */
module StatsSection {
  import opened Wrappers
  import opened ReportModel

  /** One bucket entry in the report's shape.  Missing optional keys take
      the source's defaults: "" for the links, not new; the mobile link is
      read from the input key "mobileUrl". */
  function NormalizeTitle(t: StatTitle): ReportTitle {
    ReportTitle(t.title, t.sourceName, t.timeDisplay, t.count, t.ranks, t.rankThreshold,
                t.url.GetOr(""), t.mobileUrl.GetOr(""), t.isNew.GetOr(false))
  }

  /** One bucket in the report's shape: same label and count, percentage 0
      when the aggregator left it out, one entry per input entry. */
  function NormalizeStat(s: Stat): (r: ReportStat)
    ensures r.word == s.word && r.count == s.count
    ensures r.percentage == s.percentage.GetOr(0.0)
    ensures |r.titles| == |s.titles|
    ensures forall k :: 0 <= k < |s.titles| ==> r.titles[k] == NormalizeTitle(s.titles[k])
  {
    ReportStat(s.word, s.count, s.percentage.GetOr(0.0),
               seq(|s.titles|, k requires 0 <= k < |s.titles| => NormalizeTitle(s.titles[k])))
  }

  /** `processed_stats`: the buckets with a positive count, normalised, in
      their input order. */
  function ProcessedStats(stats: seq<Stat>): seq<ReportStat> {
    if stats == [] then []
    else
      var last := stats[|stats| - 1];
      ProcessedStats(stats[..|stats| - 1]) + (if last.count <= 0 then [] else [NormalizeStat(last)])
  }

  /** The buckets keep their relative order: processing a concatenation
      processes each part. */
  lemma {:induction false} ProcessedStatsAppend(a: seq<Stat>, b: seq<Stat>)
    ensures ProcessedStats(a + b) == ProcessedStats(a) + ProcessedStats(b)
  {
    if b == [] {
      assert a + b == a;
    } else {
      var init, last := b[..|b| - 1], b[|b| - 1];
      assert (a + b)[..|a + b| - 1] == a + init;
      assert (a + b)[|a + b| - 1] == last;
      ProcessedStatsAppend(a, init);
    }
  }

  /** Exactly the buckets with a positive count survive: every output bucket
      is a normalised input bucket with a positive count, every input bucket
      with a positive count is in the output, and no bucket is added. */
  lemma {:induction false} ProcessedStatsMembers(stats: seq<Stat>)
    ensures |ProcessedStats(stats)| <= |stats|
    ensures forall r :: r in ProcessedStats(stats) ==>
      r.count > 0 && exists s :: s in stats && s.count > 0 && r == NormalizeStat(s)
    ensures forall s :: s in stats && s.count > 0 ==> NormalizeStat(s) in ProcessedStats(stats)
  {
    if stats != [] {
      var init, last := stats[..|stats| - 1], stats[|stats| - 1];
      assert stats == init + [last];
      ProcessedStatsMembers(init);
    }
  }
}
