/**
 * StepExtractor (scraper/pcvideoscrapper/step_extractor.py): search hits
 * from the video-search client become assembly steps. Each hit gets a
 * confidence tier, a description capped at 500 characters, at most five
 * visual cues, a component and an action (the query's expectation, else a
 * keyword guess) and the warnings its description triggers; the steps of
 * all queries are then sorted by start time and numbered 1..n.
 *
 * The search client is a parameter: a function from (query, video id,
 * page limit) to the hits it returns.
 */
module StepExtractor {
  import opened Wrappers
  import opened Text
  import opened Sequences
  import opened Keywords
  import opened Schemas
  import opened Sorting

  // ---------------------------------------------------------------------
  // Search hits
  // ---------------------------------------------------------------------

  /** One element of a module's "conversation" or "visual" list: a dict, with or without "value", or anything else. */
  datatype Entry = Dict(value: Option<string>) | NotADict

  /** One module of a hit; a missing or empty list is the empty sequence. */
  datatype Module = Module(conversation: seq<Entry>, visual: seq<Entry>)

  /** A search hit; a key missing from the hit's dict is None. */
  datatype SearchResult = SearchResult(
    start: Option<real>,
    end: Option<real>,
    score: Option<real>,
    confidence: Option<string>,
    modules: seq<Module>)

  /** The client: query, video id and page limit to the hits found. */
  type SearchClient = (SemanticQuery, string, nat) -> seq<SearchResult>

  const PageLimit: nat := 10

  /** The eleven default queries, in the order they are run. */
  const SemanticQueries: seq<SemanticQuery> := [
    SemanticQuery("Show when the CPU is inserted into the motherboard socket", Some(CPU), Some(Insert), 0.7),
    SemanticQuery("Find moments where RAM memory modules are installed into slots", Some(RAM), Some(Insert), 0.7),
    SemanticQuery("Show when the GPU graphics card is installed into the PCIe slot", Some(GPU), Some(Insert), 0.7),
    SemanticQuery("Find when the CPU cooler is mounted on top of the processor", Some(Cooler), Some(Mount), 0.7),
    SemanticQuery("Show when the power supply PSU is installed into the case", Some(PSU), Some(Mount), 0.7),
    SemanticQuery("Find moments where storage drives or SSDs are being installed", Some(Storage), Some(Mount), 0.7),
    SemanticQuery("Show when cables are being connected to the motherboard or components", Some(Cables), Some(Connect), 0.7),
    SemanticQuery("Find when the creator shows correct alignment or orientation of components", None, Some(Align), 0.7),
    SemanticQuery("When does the creator warn about mistakes or show incorrect installation", None, None, 0.7),
    SemanticQuery("Find steps where force should not be applied or warnings about damage", None, None, 0.7),
    SemanticQuery("Show moments where locks or latches are being secured", None, Some(Lock), 0.7)
  ]

  // ---------------------------------------------------------------------
  // Confidence tiers
  // ---------------------------------------------------------------------

  /** The tier of a hit: the label "high" or a score above 0.8, else "medium" or above 0.6, else inferred. */
  function Confidence(score: real, given: string): (c: SourceConfidence)
    ensures c == ExplicitlyShown <==> given == "high" || score > 0.8
    ensures c == VerballyExplained <==> given != "high" && score <= 0.8 && (given == "medium" || score > 0.6)
    ensures c == Inferred <==> given != "high" && given != "medium" && score <= 0.6
  {
    if given == "high" || score > 0.8 then ExplicitlyShown
    else if given == "medium" || score > 0.6 then VerballyExplained
    else Inferred
  }

  function Rank(c: SourceConfidence): nat {
    match c
    case Inferred => 0
    case VerballyExplained => 1
    case ExplicitlyShown => 2
  }

  /** A higher score never lowers the tier. */
  lemma ConfidenceMonotone(s1: real, s2: real, given: string)
    requires s1 <= s2
    ensures Rank(Confidence(s1, given)) <= Rank(Confidence(s2, given))
  {
  }

  // ---------------------------------------------------------------------
  // _detect_component and _detect_action
  // ---------------------------------------------------------------------

  const ComponentKeywords: seq<(ComponentType, seq<string>)> := [
    (CPU, ["cpu", "processor", "ryzen", "intel"]),
    (RAM, ["ram", "memory", "dimm"]),
    (GPU, ["gpu", "graphics card", "video card"]),
    (Cooler, ["cooler", "heatsink", "fan"]),
    (PSU, ["psu", "power supply"]),
    (Storage, ["ssd", "nvme", "storage", "hard drive"]),
    (Motherboard, ["motherboard", "mobo"]),
    (Cables, ["cable", "wire", "connector"])
  ]

  const ActionKeywords: seq<(ActionType, seq<string>)> := [
    (Insert, ["insert", "installing", "install", "put in", "slot in"]),
    (Mount, ["mount", "mounting", "screw", "attach"]),
    (Connect, ["connect", "plug", "cable", "wire"]),
    (Align, ["align", "orientation", "direction", "arrow"]),
    (Lock, ["lock", "latch", "secure", "clip"]),
    (Remove, ["remove", "take out", "uninstall"])
  ]

  /** The component of the first keyword group found in the lowercased text; Motherboard when none is. */
  function DetectComponent(text: string): (c: ComponentType)
    ensures forall i: nat :: FirstGroup(ComponentKeywords, Lower(text), i) ==> c == ComponentKeywords[i].0
    ensures NoGroup(ComponentKeywords, Lower(text)) ==> c == Motherboard
  {
    Classify(ComponentKeywords, Motherboard, Lower(text))
  }

  /** The action of the first keyword group found in the lowercased text; Insert when none is. */
  function DetectAction(text: string): (a: ActionType)
    ensures forall i: nat :: FirstGroup(ActionKeywords, Lower(text), i) ==> a == ActionKeywords[i].0
    ensures NoGroup(ActionKeywords, Lower(text)) ==> a == Insert
  {
    Classify(ActionKeywords, Insert, Lower(text))
  }

  /** Detection ignores case. */
  lemma DetectIgnoresCase(text: string)
    ensures DetectComponent(Lower(text)) == DetectComponent(text)
    ensures DetectAction(Lower(text)) == DetectAction(text)
  {
    LowerIdempotent(text);
  }

  /** A CPU word decides the component, whatever else the text mentions. */
  lemma CpuWordWins(text: string, k: nat)
    requires k < |ComponentKeywords[0].1| && Contains(Lower(text), ComponentKeywords[0].1[k])
    ensures DetectComponent(text) == CPU
  {
    FirstGroupWins(ComponentKeywords, Motherboard, Lower(text), k);
  }

  /** An insert word decides the action, whatever else the text mentions. */
  lemma InsertWordWins(text: string, k: nat)
    requires k < |ActionKeywords[0].1| && Contains(Lower(text), ActionKeywords[0].1[k])
    ensures DetectAction(text) == Insert
  {
    FirstGroupWins(ActionKeywords, Insert, Lower(text), k);
  }

  // ---------------------------------------------------------------------
  // _extract_errors
  // ---------------------------------------------------------------------

  /** (trigger, message) pairs, in the order they are tried. */
  const ErrorPhrases: seq<(string, string)> := [
    ("don't force", "Do not apply excessive force"),
    ("avoid touching", "Avoid touching sensitive components"),
    ("wrong orientation", "Incorrect orientation"),
    ("pins bent", "Risk of bent pins"),
    ("not aligned", "Component not properly aligned"),
    ("forget to", "May forget this step"),
    ("common mistake", "Common mistake"),
    ("be careful", "Exercise caution"),
    ("damage", "Risk of component damage")
  ]

  /** The messages of the pairs whose trigger occurs in `text`, in table order. */
  function Fired(table: seq<(string, string)>, text: string): seq<string>
    decreases |table|
  {
    if table == [] then []
    else
      var last := table[|table| - 1];
      Fired(table[..|table| - 1], text) + (if Contains(text, last.0) then [last.1] else [])
  }

  function Messages(table: seq<(string, string)>): (r: seq<string>)
    ensures |r| == |table| && forall k :: 0 <= k < |r| ==> r[k] == table[k].1
  {
    seq(|table|, k requires 0 <= k < |table| => table[k].1)
  }

  ghost predicate NoDuplicates(s: seq<string>) {
    forall i, j :: 0 <= i < j < |s| ==> s[i] != s[j]
  }

  /** _extract_errors: test each trigger against the lowercased text and collect the messages. */
  method ExtractErrors(text: string) returns (errors: seq<string>)
    ensures errors == Fired(ErrorPhrases, Lower(text))
  {
    errors := [];
    var textLower := Lower(text);
    for i := 0 to |ErrorPhrases|
      invariant errors == Fired(ErrorPhrases[..i], textLower)
    {
      var (trigger, message) := ErrorPhrases[i];
      assert ErrorPhrases[..i + 1][..i] == ErrorPhrases[..i];
      if Contains(textLower, trigger) {
        errors := errors + [message];
      }
    }
    assert ErrorPhrases[..|ErrorPhrases|] == ErrorPhrases;
  }

  /** A message is reported iff its trigger occurs. */
  lemma {:induction false} FiredMembership(table: seq<(string, string)>, text: string, m: string)
    ensures m in Fired(table, text) <==> exists k :: 0 <= k < |table| && table[k].1 == m && Contains(text, table[k].0)
    decreases |table|
  {
    if table != [] {
      var init := table[..|table| - 1];
      FiredMembership(init, text, m);
      if m in Fired(table, text) && m !in Fired(init, text) {
        assert table[|table| - 1].1 == m;
      }
      if exists k :: 0 <= k < |table| && table[k].1 == m && Contains(text, table[k].0) {
        var k :| 0 <= k < |table| && table[k].1 == m && Contains(text, table[k].0);
        if k < |init| {
          assert init[k] == table[k];
        }
      }
    }
  }

  /** The reported messages keep the table order. */
  lemma {:induction false} FiredInOrder(table: seq<(string, string)>, text: string)
    ensures Subseq(Fired(table, text), Messages(table))
    decreases |table|
  {
    if table != [] {
      var init := table[..|table| - 1];
      var last := table[|table| - 1];
      FiredInOrder(init, text);
      SubseqExtend(Fired(init, text), Messages(init), last.1, Contains(text, last.0));
      assert Messages(init) + [last.1] == Messages(table);
      assert Fired(table, text) == if Contains(text, last.0) then Fired(init, text) + [last.1] else Fired(init, text);
    }
  }

  /** With distinct messages, none is reported twice. */
  lemma {:induction false} FiredNoDuplicates(table: seq<(string, string)>, text: string)
    requires forall i, j :: 0 <= i < j < |table| ==> table[i].1 != table[j].1
    ensures NoDuplicates(Fired(table, text))
    decreases |table|
  {
    if table != [] {
      var init := table[..|table| - 1];
      var last := table[|table| - 1];
      FiredNoDuplicates(init, text);
      FiredMembership(init, text, last.1);
    }
  }

  /** The messages of the source's table are distinct, so each is reported at most once. */
  lemma ErrorsReportedOnce(text: string)
    ensures NoDuplicates(Fired(ErrorPhrases, Lower(text)))
  {
    FiredNoDuplicates(ErrorPhrases, Lower(text));
  }

  // ---------------------------------------------------------------------
  // _result_to_assembly_step
  // ---------------------------------------------------------------------

  /** The "value" of every dict entry that has one, in order. */
  function EntryValues(entries: seq<Entry>): seq<string>
    decreases |entries|
  {
    if entries == [] then []
    else
      var last := entries[|entries| - 1];
      EntryValues(entries[..|entries| - 1]) + (if last.Dict? && last.value.Some? then [last.value.value] else [])
  }

  /** The conversation values of all modules, module by module. */
  function ConversationValues(modules: seq<Module>): seq<string>
    decreases |modules|
  {
    if modules == [] then []
    else ConversationValues(modules[..|modules| - 1]) + EntryValues(modules[|modules| - 1].conversation)
  }

  /** The visual values of all modules, module by module. */
  function VisualValues(modules: seq<Module>): seq<string>
    decreases |modules|
  {
    if modules == [] then []
    else VisualValues(modules[..|modules| - 1]) + EntryValues(modules[|modules| - 1].visual)
  }

  const MaxDescription: nat := 500
  const MaxVisualCues: nat := 5

  /** The description used when a hit has no conversation values. */
  function DefaultDescription(expected: Option<ComponentType>): string {
    "Assembly step for " + match expected
                           case Some(c) => c.Format()
                           case None => "component"
  }

  /** The conversation values joined by spaces, or the default text, cut to 500 characters. */
  function Description(parts: seq<string>, expected: Option<ComponentType>): (d: string)
    ensures |d| <= MaxDescription
    ensures parts != [] && |Join(parts, " ")| <= MaxDescription ==> d == Join(parts, " ")
    ensures parts != [] && |Join(parts, " ")| > MaxDescription ==> d == Join(parts, " ")[..MaxDescription]
    ensures parts == [] && |DefaultDescription(expected)| <= MaxDescription ==> d == DefaultDescription(expected)
    ensures parts == [] && |DefaultDescription(expected)| > MaxDescription ==> d == DefaultDescription(expected)[..MaxDescription]
  {
    var full := if parts != [] then Join(parts, " ") else DefaultDescription(expected);
    Take(full, MaxDescription)
  }

  /** The step a hit becomes. */
  function StepOf(r: SearchResult, metadata: VideoMetadata,
                  expectedComponent: Option<ComponentType>, expectedAction: Option<ActionType>): (step: AssemblyStep)
    ensures step.description == Description(ConversationValues(r.modules), expectedComponent)
    ensures |step.visualCues| == if |VisualValues(r.modules)| < MaxVisualCues then |VisualValues(r.modules)| else MaxVisualCues
    ensures forall k :: 0 <= k < |step.visualCues| ==> step.visualCues[k] == VisualValues(r.modules)[k]
    ensures expectedComponent.Some? ==> step.component == expectedComponent.value
    ensures expectedComponent.None? ==> step.component == DetectComponent(step.description)
    ensures expectedAction.Some? ==> step.action == expectedAction.value
    ensures expectedAction.None? ==> step.action == DetectAction(step.description)
    ensures step.commonErrors == Fired(ErrorPhrases, Lower(step.description))
    ensures step.platform == if metadata.platform.Some? then metadata.platform.value else UnknownPlatform
    ensures step.formFactor == if metadata.formFactor.Some? then metadata.formFactor.value else UnknownFormFactor
    ensures step.timestamp.start == (if r.start.Some? then r.start.value else 0.0)
    ensures step.timestamp.end == (if r.end.Some? then r.end.value else 0.0)
    ensures step.videoId == metadata.videoId
    ensures step.sourceConfidence == Confidence(if r.score.Some? then r.score.value else 0.0,
                                                if r.confidence.Some? then r.confidence.value else "low")
    ensures step.stepOrder.None?
  {
    var description := Description(ConversationValues(r.modules), expectedComponent);
    AssemblyStep(
      expectedComponent.GetOr(DetectComponent(description)),
      expectedAction.GetOr(DetectAction(description)),
      metadata.platform.GetOr(UnknownPlatform),
      metadata.formFactor.GetOr(UnknownFormFactor),
      None,
      description,
      Take(VisualValues(r.modules), MaxVisualCues),
      Fired(ErrorPhrases, Lower(description)),
      Timestamp(r.start.GetOr(0.0), r.end.GetOr(0.0)),
      metadata.videoId,
      Confidence(r.score.GetOr(0.0), r.confidence.GetOr("low")))
  }

  /** The values of one list of entries, appended to `acc`. */
  method AppendValues(acc: seq<string>, entries: seq<Entry>) returns (r: seq<string>)
    ensures r == acc + EntryValues(entries)
  {
    r := acc;
    for j := 0 to |entries|
      invariant r == acc + EntryValues(entries[..j])
    {
      assert entries[..j + 1][..j] == entries[..j];
      if entries[j].Dict? && entries[j].value.Some? {
        r := r + [entries[j].value.value];
      }
    }
    assert entries[..|entries|] == entries;
  }

  /** _result_to_assembly_step: walk the modules collecting conversation and visual values, then build the step. */
  method ResultToAssemblyStep(r: SearchResult, metadata: VideoMetadata,
                              expectedComponent: Option<ComponentType>, expectedAction: Option<ActionType>)
    returns (step: AssemblyStep)
    ensures step == StepOf(r, metadata, expectedComponent, expectedAction)
  {
    var timestamp := Timestamp(r.start.GetOr(0.0), r.end.GetOr(0.0));
    var score := r.score.GetOr(0.0);
    var given := r.confidence.GetOr("low");
    var sourceConfidence := Confidence(score, given);
    var descriptionParts := [];
    var visualCues := [];
    for i := 0 to |r.modules|
      invariant descriptionParts == ConversationValues(r.modules[..i])
      invariant visualCues == VisualValues(r.modules[..i])
    {
      assert r.modules[..i + 1][..i] == r.modules[..i];
      descriptionParts := AppendValues(descriptionParts, r.modules[i].conversation);
      visualCues := AppendValues(visualCues, r.modules[i].visual);
    }
    assert r.modules[..|r.modules|] == r.modules;
    var description := Description(descriptionParts, expectedComponent);
    var component := expectedComponent.GetOr(DetectComponent(description));
    var action := expectedAction.GetOr(DetectAction(description));
    var commonErrors := ExtractErrors(description);
    step := AssemblyStep(component, action, metadata.platform.GetOr(UnknownPlatform),
                         metadata.formFactor.GetOr(UnknownFormFactor), None, description,
                         Take(visualCues, MaxVisualCues), commonErrors, timestamp,
                         metadata.videoId, sourceConfidence);
  }

  // ---------------------------------------------------------------------
  // extract_steps_from_video
  // ---------------------------------------------------------------------

  /** `custom_queries or SEMANTIC_QUERIES`: the defaults when no list or an empty list is given. */
  function QueriesUsed(custom: Option<seq<SemanticQuery>>): (q: seq<SemanticQuery>)
    ensures custom.None? || custom.value == [] ==> q == SemanticQueries
    ensures custom.Some? && custom.value != [] ==> q == custom.value
    ensures q != []
  {
    match custom
    case Some(qs) => if qs != [] then qs else SemanticQueries
    case None => SemanticQueries
  }

  /** The steps of one query's hits, in hit order. */
  function QuerySteps(q: SemanticQuery, hits: seq<SearchResult>, metadata: VideoMetadata): (r: seq<AssemblyStep>)
    ensures |r| == |hits|
  {
    Map(QueryStep(q, metadata), hits)
  }

  /** The conversion applied to each hit of one query. */
  function QueryStep(q: SemanticQuery, metadata: VideoMetadata): SearchResult -> AssemblyStep {
    hit => StepOf(hit, metadata, q.component, q.action)
  }

  /** The steps of all queries before sorting, query by query. */
  function Collected(queries: seq<SemanticQuery>, videoId: string, metadata: VideoMetadata,
                     search: SearchClient): (r: seq<AssemblyStep>)
    ensures forall k :: 0 <= k < |r| ==> r[k].stepOrder.None?
    decreases |queries|
  {
    if queries == [] then []
    else
      var q := queries[|queries| - 1];
      Collected(queries[..|queries| - 1], videoId, metadata, search)
      + QuerySteps(q, search(q, videoId, PageLimit), metadata)
  }

  /** The key of `all_steps.sort`: start times in non-decreasing order. */
  predicate StartLe(a: AssemblyStep, b: AssemblyStep) {
    a.timestamp.start <= b.timestamp.start
  }

  lemma StartLeOrders()
    ensures Total(StartLe) && Transitive(StartLe)
  {
  }

  /** The steps with their numbering removed. */
  function Unnumbered(steps: seq<AssemblyStep>): (r: seq<AssemblyStep>)
    ensures |r| == |steps| && forall k :: 0 <= k < |r| ==> r[k] == steps[k].(stepOrder := None)
  {
    seq(|steps|, k requires 0 <= k < |steps| => steps[k].(stepOrder := None))
  }

  /** The steps of one query, appended to `acc`. */
  method AppendQuerySteps(acc: seq<AssemblyStep>, q: SemanticQuery, hits: seq<SearchResult>, metadata: VideoMetadata)
    returns (r: seq<AssemblyStep>)
    ensures r == acc + QuerySteps(q, hits, metadata)
  {
    ghost var convert := QueryStep(q, metadata);
    r := acc;
    for j := 0 to |hits|
      invariant r == acc + Map(convert, hits[..j])
    {
      var step := ResultToAssemblyStep(hits[j], metadata, q.component, q.action);
      assert step == convert(hits[j]);
      MapExtend(acc, convert, hits, j);
      r := r + [step];
    }
    assert hits[..|hits|] == hits;
  }

  /** Run every query and convert its hits, query by query. */
  method CollectSteps(queries: seq<SemanticQuery>, videoId: string, metadata: VideoMetadata, search: SearchClient)
    returns (allSteps: seq<AssemblyStep>)
    ensures allSteps == Collected(queries, videoId, metadata, search)
  {
    allSteps := [];
    for i := 0 to |queries|
      invariant allSteps == Collected(queries[..i], videoId, metadata, search)
    {
      var query := queries[i];
      var results := search(query, videoId, PageLimit);
      assert queries[..i + 1][..i] == queries[..i];
      allSteps := AppendQuerySteps(allSteps, query, results, metadata);
    }
    assert queries[..|queries|] == queries;
  }

  /** `step.step_order = idx + 1` for every step, in place. */
  method NumberSteps(s: seq<AssemblyStep>) returns (r: seq<AssemblyStep>)
    ensures |r| == |s| && forall k :: 0 <= k < |r| ==> r[k] == s[k].(stepOrder := Some(k + 1))
  {
    r := s;
    for i := 0 to |r|
      invariant |r| == |s|
      invariant forall k :: 0 <= k < i ==> r[k] == s[k].(stepOrder := Some(k + 1))
      invariant forall k :: i <= k < |r| ==> r[k] == s[k]
    {
      r := r[i := r[i].(stepOrder := Some(i + 1))];
    }
  }

  /** Sorting keeps the steps unnumbered. */
  lemma SortedUnnumbered(all: seq<AssemblyStep>)
    requires forall k :: 0 <= k < |all| ==> all[k].stepOrder.None?
    ensures var sorted := SortBy(all, StartLe);
            forall k :: 0 <= k < |sorted| ==> sorted[k].stepOrder.None?
  {
    var sorted := SortBy(all, StartLe);
    SortByPermutes(all, StartLe);
    forall k | 0 <= k < |sorted|
      ensures sorted[k].stepOrder.None?
    {
      assert sorted[k] in multiset(all);
    }
  }

  /** Numbering sorted, unnumbered steps yields the promises of extract_steps_from_video. */
  lemma NumberedSortedSteps(all: seq<AssemblyStep>, steps: seq<AssemblyStep>)
    requires forall k :: 0 <= k < |all| ==> all[k].stepOrder.None?
    requires var sorted := SortBy(all, StartLe);
             |steps| == |sorted| && forall k :: 0 <= k < |steps| ==> steps[k] == sorted[k].(stepOrder := Some(k + 1))
    ensures |steps| == |all| && multiset(Unnumbered(steps)) == multiset(all)
    ensures forall i :: 0 <= i < |steps| ==> steps[i].stepOrder == Some(i + 1)
    ensures forall i :: 0 < i < |steps| ==> steps[i - 1].timestamp.start <= steps[i].timestamp.start
    ensures forall k :: EquivTo(Unnumbered(steps), k, StartLe) == EquivTo(all, k, StartLe)
  {
    var sorted := SortBy(all, StartLe);
    StartLeOrders();
    SortBySorted(all, StartLe);
    SortByPermutes(all, StartLe);
    SortByLength(all, StartLe);
    SortedUnnumbered(all);
    assert Unnumbered(steps) == sorted;
    forall i | 0 < i < |steps|
      ensures steps[i - 1].timestamp.start <= steps[i].timestamp.start
    {
      assert StartLe(sorted[i - 1], sorted[i]);
    }
    forall k
      ensures EquivTo(Unnumbered(steps), k, StartLe) == EquivTo(all, k, StartLe)
    {
      SortByStable(all, k, StartLe);
    }
  }

  /**
   * extract_steps_from_video: run every query, convert its hits, sort the
   * steps by start time (stably) and number them from 1.
   */
  method ExtractStepsFromVideo(videoId: string, metadata: VideoMetadata,
                               customQueries: Option<seq<SemanticQuery>>, search: SearchClient)
    returns (steps: seq<AssemblyStep>)
    ensures var all := Collected(QueriesUsed(customQueries), videoId, metadata, search);
            |steps| == |all| && multiset(Unnumbered(steps)) == multiset(all)
    ensures forall i :: 0 <= i < |steps| ==> steps[i].stepOrder == Some(i + 1)
    ensures forall i :: 0 < i < |steps| ==> steps[i - 1].timestamp.start <= steps[i].timestamp.start
    ensures forall k :: EquivTo(Unnumbered(steps), k, StartLe)
                        == EquivTo(Collected(QueriesUsed(customQueries), videoId, metadata, search), k, StartLe)
  {
    var queries := QueriesUsed(customQueries);
    var allSteps := CollectSteps(queries, videoId, metadata, search);
    ghost var all := allSteps;
    allSteps := SortBy(allSteps, StartLe);
    steps := NumberSteps(allSteps);
    NumberedSortedSteps(all, steps);
  }
}
