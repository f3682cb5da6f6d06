/** The new-items half of prepare_report_data
    (trendradar/report/generator.py:42-101): which new titles reach the
    report, under which source name, and in what shape.

    The matcher and the loader of its keyword rules are injected by the caller
    and their code is not part of this model: the loader is a value-producing
    function `() -> R` for an opaque rule type `R`, the matcher a predicate on a
    title and those rules. */
module NewTitles {
  import opened Wrappers
  import opened OrderedDict
  import opened ReportModel

  /** `hide_new_section = mode == "incremental" or not show_new_section` */
  predicate HideNewSection(mode: string, showNewSection: bool) {
    mode == "incremental" || !showNewSection
  }

  /** The titles of one source the matcher accepts, in their order. */
  function KeptTitles<R>(titles: SourceTitles, matcher: (string, R) -> bool, rules: R): SourceTitles {
    if titles == [] then []
    else
      var last := titles[|titles| - 1];
      KeptTitles(titles[..|titles| - 1], matcher, rules) + (if matcher(last.0, rules) then [last] else [])
  }

  /** `filtered_new_titles` when both callables are given: every source with
      the titles the matcher accepts; a source left with none is omitted. */
  function KeptSources<R>(nt: NewTitlesMap, matcher: (string, R) -> bool, rules: R): NewTitlesMap {
    if nt == [] then []
    else
      var last := nt[|nt| - 1];
      var kept := KeptTitles(last.1, matcher, rules);
      KeptSources(nt[..|nt| - 1], matcher, rules) + (if kept != [] then [(last.0, kept)] else [])
  }

  /** `id_to_name.get(source_id, source_id)` */
  function SourceName(idToName: NameMap, sourceId: string): (name: string)
    ensures sourceId in Keys(idToName) ==> (sourceId, name) in idToName
    ensures sourceId !in Keys(idToName) ==> name == sourceId
  {
    Get(idToName, sourceId).GetOr(sourceId)
  }

  /** The fixed-shape entry built for one new title. */
  function NewTitleEntry(title: string, info: NewTitleInfo, sourceName: string, rankThreshold: int): (e: ReportTitle)
    ensures e.isNew && e.count == 1 && e.timeDisplay == ""
    ensures e.title == title && e.sourceName == sourceName && e.rankThreshold == rankThreshold
    ensures e.url == info.url.GetOr("") && e.mobileUrl == info.mobileUrl.GetOr("")
    ensures e.ranks == info.ranks.GetOr([])
  {
    ReportTitle(title, sourceName, "", 1, info.ranks.GetOr([]), rankThreshold,
                info.url.GetOr(""), info.mobileUrl.GetOr(""), true)
  }

  /** `source_titles`: one entry per title of a source, in order. */
  function NewTitleEntries(titles: SourceTitles, sourceName: string, rankThreshold: int): seq<ReportTitle> {
    seq(|titles|, i requires 0 <= i < |titles| => NewTitleEntry(titles[i].0, titles[i].1, sourceName, rankThreshold))
  }

  /** The groups built from the selected new titles: one per source that has
      at least one title, in source order. */
  function NewGroups(nt: NewTitlesMap, idToName: NameMap, rankThreshold: int): seq<NewGroup> {
    if nt == [] then []
    else
      var last := nt[|nt| - 1];
      var name := SourceName(idToName, last.0);
      var entries := NewTitleEntries(last.1, name, rankThreshold);
      NewGroups(nt[..|nt| - 1], idToName, rankThreshold)
        + (if entries != [] then [NewGroup(last.0, name, entries)] else [])
  }

  /** The new titles handed to the grouping step: filtered through the
      matcher when both callables are given, all of them otherwise. */
  function SelectedTitles<R>(nt: NewTitlesMap, matcher: Option<(string, R) -> bool>, load: Option<() -> R>): NewTitlesMap {
    if matcher.Some? && load.Some? then KeptSources(nt, matcher.value, load.value()) else nt
  }

  /** `processed_new_titles` as prepare_report_data leaves it. */
  function NewTitlesSection<R>(
    mode: string, showNewSection: bool,
    newTitles: Option<NewTitlesMap>, idToName: Option<NameMap>, rankThreshold: int,
    matcher: Option<(string, R) -> bool>, load: Option<() -> R>): (section: seq<NewGroup>)
    ensures HideNewSection(mode, showNewSection) || !Truthy(newTitles) || !Truthy(idToName) ==> section == []
    ensures section != [] ==> idToName.Some? && forall g :: g in section ==>
      g.titles != [] && g.sourceName == SourceName(idToName.value, g.sourceId)
  {
    if HideNewSection(mode, showNewSection) || !Truthy(newTitles) || !Truthy(idToName) then []
    else
      NewGroupsShape(SelectedTitles(newTitles.value, matcher, load), idToName.value, rankThreshold);
      NewGroups(SelectedTitles(newTitles.value, matcher, load), idToName.value, rankThreshold)
  }

  // ---------------------------------------------------------------------
  // The (source id, title) pairs of the input and of the output, in order.

  function TitlePairs(sourceId: string, titles: SourceTitles): seq<(string, string)> {
    seq(|titles|, i requires 0 <= i < |titles| => (sourceId, titles[i].0))
  }

  /** Every (source id, title) pair of a new-titles map, in iteration order. */
  function Pairs(nt: NewTitlesMap): seq<(string, string)> {
    if nt == [] then []
    else Pairs(nt[..|nt| - 1]) + TitlePairs(nt[|nt| - 1].0, nt[|nt| - 1].1)
  }

  function EntryPairs(g: NewGroup): seq<(string, string)> {
    seq(|g.titles|, i requires 0 <= i < |g.titles| => (g.sourceId, g.titles[i].title))
  }

  /** Every (source id, title) pair of the report's groups, in output order. */
  function GroupPairs(groups: seq<NewGroup>): seq<(string, string)> {
    if groups == [] then []
    else GroupPairs(groups[..|groups| - 1]) + EntryPairs(groups[|groups| - 1])
  }

  /** The pairs whose title the matcher accepts, in order. */
  function KeptPairs<R>(ps: seq<(string, string)>, matcher: (string, R) -> bool, rules: R): seq<(string, string)> {
    if ps == [] then []
    else
      var last := ps[|ps| - 1];
      KeptPairs(ps[..|ps| - 1], matcher, rules) + (if matcher(last.1, rules) then [last] else [])
  }

  /** The input pairs the report should show: those the matcher accepts when
      both callables are given, all of them otherwise. */
  function ExpectedPairs<R>(nt: NewTitlesMap, matcher: Option<(string, R) -> bool>, load: Option<() -> R>): seq<(string, string)> {
    if matcher.Some? && load.Some? then KeptPairs(Pairs(nt), matcher.value, load.value()) else Pairs(nt)
  }

  // ---------------------------------------------------------------------
  // Lemmas

  /** Filtering a concatenation filters each part: the filter keeps order. */
  lemma {:induction false} KeptPairsAppend<R>(a: seq<(string, string)>, b: seq<(string, string)>, matcher: (string, R) -> bool, rules: R)
    ensures KeptPairs(a + b, matcher, rules) == KeptPairs(a, matcher, rules) + KeptPairs(b, matcher, rules)
  {
    if b == [] {
      assert a + b == a;
    } else {
      var init, last := b[..|b| - 1], b[|b| - 1];
      assert (a + b)[..|a + b| - 1] == a + init;
      assert (a + b)[|a + b| - 1] == last;
      KeptPairsAppend(a, init, matcher, rules);
    }
  }

  lemma {:induction false} KeptTitlePairs<R>(sourceId: string, titles: SourceTitles, matcher: (string, R) -> bool, rules: R)
    ensures TitlePairs(sourceId, KeptTitles(titles, matcher, rules)) == KeptPairs(TitlePairs(sourceId, titles), matcher, rules)
  {
    if titles != [] {
      var init, last := titles[..|titles| - 1], titles[|titles| - 1];
      KeptTitlePairs(sourceId, init, matcher, rules);
      var tp := TitlePairs(sourceId, titles);
      assert tp[..|tp| - 1] == TitlePairs(sourceId, init);
      var kept := KeptTitles(init, matcher, rules);
      if matcher(last.0, rules) {
        assert TitlePairs(sourceId, kept + [last]) == TitlePairs(sourceId, kept) + [(sourceId, last.0)];
      }
    }
  }

  /** Filtering source by source and then listing the pairs lists exactly
      the accepted pairs, in order. */
  lemma {:induction false} KeptSourcesPairs<R>(nt: NewTitlesMap, matcher: (string, R) -> bool, rules: R)
    ensures Pairs(KeptSources(nt, matcher, rules)) == KeptPairs(Pairs(nt), matcher, rules)
  {
    if nt != [] {
      var init, last := nt[..|nt| - 1], nt[|nt| - 1];
      KeptSourcesPairs(init, matcher, rules);
      KeptPairsAppend(Pairs(init), TitlePairs(last.0, last.1), matcher, rules);
      KeptTitlePairs(last.0, last.1, matcher, rules);
      var kept := KeptTitles(last.1, matcher, rules);
      var ks := KeptSources(init, matcher, rules);
      if kept != [] {
        var ks' := ks + [(last.0, kept)];
        assert ks'[..|ks'| - 1] == ks;
        assert Pairs(ks') == Pairs(ks) + TitlePairs(last.0, kept);
      } else {
        assert TitlePairs(last.0, kept) == [];
        assert KeptSources(nt, matcher, rules) == ks + [] == ks;
      }
    }
  }

  /** A pair is kept exactly when it is in the input and the matcher
      accepts its title. */
  lemma {:induction false} KeptPairsMembers<R>(ps: seq<(string, string)>, matcher: (string, R) -> bool, rules: R)
    ensures forall p :: p in KeptPairs(ps, matcher, rules) <==> p in ps && matcher(p.1, rules)
  {
    if ps != [] {
      KeptPairsMembers(ps[..|ps| - 1], matcher, rules);
      assert ps == ps[..|ps| - 1] + [ps[|ps| - 1]];
    }
  }

  lemma {:induction false} KeptPairsNone<R>(ps: seq<(string, string)>, matcher: (string, R) -> bool, rules: R)
    requires forall p :: p in ps ==> !matcher(p.1, rules)
    ensures KeptPairs(ps, matcher, rules) == []
  {
    if ps != [] {
      KeptPairsNone(ps[..|ps| - 1], matcher, rules);
    }
  }

  /** A source none of whose new titles the matcher accepts gets no group. */
  lemma {:induction false} RejectedSourceHasNoGroup<R>(
    nt: NewTitlesMap, idToName: NameMap, rankThreshold: int,
    matcher: (string, R) -> bool, rules: R, sourceId: string)
    requires forall p :: p in Pairs(nt) && p.0 == sourceId ==> !matcher(p.1, rules)
    ensures forall g :: g in NewGroups(KeptSources(nt, matcher, rules), idToName, rankThreshold) ==> g.sourceId != sourceId
  {
    if nt != [] {
      var init, last := nt[..|nt| - 1], nt[|nt| - 1];
      assert Pairs(nt) == Pairs(init) + TitlePairs(last.0, last.1);
      RejectedSourceHasNoGroup(init, idToName, rankThreshold, matcher, rules, sourceId);
      var kept := KeptTitles(last.1, matcher, rules);
      var ks := KeptSources(init, matcher, rules);
      if last.0 == sourceId {
        KeptTitlePairs(sourceId, last.1, matcher, rules);
        KeptPairsNone(TitlePairs(sourceId, last.1), matcher, rules);
        assert |TitlePairs(sourceId, kept)| == |kept|;
      }
      if kept != [] {
        var ks' := ks + [(last.0, kept)];
        assert ks'[..|ks'| - 1] == ks;
      } else {
        assert KeptSources(nt, matcher, rules) == ks + [] == ks;
      }
    }
  }

  /** Grouping neither drops, adds nor reorders a (source, title) pair. */
  lemma {:induction false} NewGroupsPairs(nt: NewTitlesMap, idToName: NameMap, rankThreshold: int)
    ensures GroupPairs(NewGroups(nt, idToName, rankThreshold)) == Pairs(nt)
  {
    if nt != [] {
      var init, last := nt[..|nt| - 1], nt[|nt| - 1];
      NewGroupsPairs(init, idToName, rankThreshold);
      var name := SourceName(idToName, last.0);
      var entries := NewTitleEntries(last.1, name, rankThreshold);
      var gs := NewGroups(init, idToName, rankThreshold);
      if entries != [] {
        var g := NewGroup(last.0, name, entries);
        var gs' := gs + [g];
        assert gs'[..|gs'| - 1] == gs;
        assert EntryPairs(g) == TitlePairs(last.0, last.1);
        assert GroupPairs(gs') == GroupPairs(gs) + EntryPairs(g);
      } else {
        assert TitlePairs(last.0, last.1) == [];
        assert NewGroups(nt, idToName, rankThreshold) == gs + [] == gs;
      }
    }
  }

  /** The number of title entries of a list of groups is the number of its
      pairs. */
  lemma {:induction false} TotalTitlesPairs(groups: seq<NewGroup>)
    ensures TotalTitles(groups) == |GroupPairs(groups)|
  {
    if groups != [] {
      TotalTitlesPairs(groups[..|groups| - 1]);
    }
  }

  /** Every group built has at least one title, carries the resolved name of
      its source, and every entry in it has the fixed new-item shape. */
  lemma {:induction false} NewGroupsShape(nt: NewTitlesMap, idToName: NameMap, rankThreshold: int)
    ensures forall g :: g in NewGroups(nt, idToName, rankThreshold) ==>
      && g.titles != []
      && g.sourceName == SourceName(idToName, g.sourceId)
      && forall e :: e in g.titles ==>
           e.isNew && e.count == 1 && e.timeDisplay == "" && e.rankThreshold == rankThreshold
           && e.sourceName == g.sourceName
  {
    if nt != [] {
      NewGroupsShape(nt[..|nt| - 1], idToName, rankThreshold);
    }
  }

  /** The matcher property of the new-items section: a new title appears in
      the report exactly when the matcher accepts it (every title when the
      callables are not both given), sources and titles keep their input
      order, and `total_new_count` is the number of those titles. */
  lemma SectionPairs<R>(
    mode: string, showNewSection: bool,
    newTitles: Option<NewTitlesMap>, idToName: Option<NameMap>, rankThreshold: int,
    matcher: Option<(string, R) -> bool>, load: Option<() -> R>)
    requires !HideNewSection(mode, showNewSection) && Truthy(newTitles) && Truthy(idToName)
    ensures var section := NewTitlesSection(mode, showNewSection, newTitles, idToName, rankThreshold, matcher, load);
      && GroupPairs(section) == ExpectedPairs(newTitles.value, matcher, load)
      && TotalTitles(section) == |ExpectedPairs(newTitles.value, matcher, load)|
  {
    var selected := SelectedTitles(newTitles.value, matcher, load);
    NewGroupsPairs(selected, idToName.value, rankThreshold);
    TotalTitlesPairs(NewGroups(selected, idToName.value, rankThreshold));
    if matcher.Some? && load.Some? {
      KeptSourcesPairs(newTitles.value, matcher.value, load.value());
    }
  }
}
