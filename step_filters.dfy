/**
 * The step filters (scraper/pcvideoscrapper/scraper/filter_results.py):
 * each given criterion narrows the list of step dictionaries with a list
 * comprehension; text criteria compare lowercased, time criteria compare
 * the step's start time with inclusive bounds.
 */
module StepFilters {
  import opened Wrappers
  import opened Text
  import opened Sequences

  /** A float bound or time: finite, or one of the infinities a float can hold. */
  datatype Ext = NegInf | Fin(value: real) | PosInf

  predicate ExtLe(a: Ext, b: Ext) {
    match (a, b)
    case (NegInf, _) => true
    case (_, PosInf) => true
    case (Fin(x), Fin(y)) => x <= y
    case _ => false
  }

  /** The keys of a step dictionary the filters read; a missing key (or a missing "timestamp") is None. */
  datatype StepRecord = StepRecord(
    component: Option<string>,
    action: Option<string>,
    start: Option<real>,
    sourceConfidence: Option<string>)

  datatype Criteria = Criteria(
    component: Option<string>,
    action: Option<string>,
    minTimestamp: Option<Ext>,
    maxTimestamp: Option<Ext>,
    confidence: Option<string>)

  /** A text criterion takes part when it is given and non-empty (Python truthiness). */
  predicate Given(c: Option<string>) {
    c.Some? && c.value != ""
  }

  /** `s.get(key, "").lower() == wanted.lower()`. */
  predicate FieldIs(field: Option<string>, wanted: string) {
    Lower(field.GetOr("")) == Lower(wanted)
  }

  /** `start >= min`, a missing start counting as 0. */
  predicate AfterMin(s: StepRecord, min: Ext) {
    ExtLe(min, Fin(s.start.GetOr(0.0)))
  }

  /** `start <= max`, a missing start counting as +infinity. */
  predicate BeforeMax(s: StepRecord, max: Ext) {
    ExtLe(match s.start case Some(t) => Fin(t) case None => PosInf, max)
  }

  predicate ComponentOk(c: Criteria, s: StepRecord) {
    Given(c.component) ==> FieldIs(s.component, c.component.value)
  }

  predicate ActionOk(c: Criteria, s: StepRecord) {
    Given(c.action) ==> FieldIs(s.action, c.action.value)
  }

  predicate MinOk(c: Criteria, s: StepRecord) {
    c.minTimestamp.Some? ==> AfterMin(s, c.minTimestamp.value)
  }

  predicate MaxOk(c: Criteria, s: StepRecord) {
    c.maxTimestamp.Some? ==> BeforeMax(s, c.maxTimestamp.value)
  }

  predicate ConfidenceOk(c: Criteria, s: StepRecord) {
    Given(c.confidence) ==> FieldIs(s.sourceConfidence, c.confidence.value)
  }

  /** A step passes the criteria: every given criterion holds of it. */
  predicate Accepts(c: Criteria, s: StepRecord) {
    ComponentOk(c, s) && ActionOk(c, s) && MinOk(c, s) && MaxOk(c, s) && ConfidenceOk(c, s)
  }

  predicate NoCriteria(c: Criteria) {
    !Given(c.component) && !Given(c.action) && c.minTimestamp.None? && c.maxTimestamp.None? && !Given(c.confidence)
  }

  function ByComponent(steps: seq<StepRecord>, c: Option<string>): seq<StepRecord> {
    if Given(c) then Filter(steps, (s: StepRecord) => FieldIs(s.component, c.value)) else steps
  }

  function ByAction(steps: seq<StepRecord>, a: Option<string>): seq<StepRecord> {
    if Given(a) then Filter(steps, (s: StepRecord) => FieldIs(s.action, a.value)) else steps
  }

  function ByMin(steps: seq<StepRecord>, min: Option<Ext>): seq<StepRecord> {
    if min.Some? then Filter(steps, (s: StepRecord) => AfterMin(s, min.value)) else steps
  }

  function ByMax(steps: seq<StepRecord>, max: Option<Ext>): seq<StepRecord> {
    if max.Some? then Filter(steps, (s: StepRecord) => BeforeMax(s, max.value)) else steps
  }

  function ByConfidence(steps: seq<StepRecord>, c: Option<string>): seq<StepRecord> {
    if Given(c) then Filter(steps, (s: StepRecord) => FieldIs(s.sourceConfidence, c.value)) else steps
  }

  /** filter_steps: the criteria applied in turn: component, action, min, max, confidence. */
  function FilterSteps(steps: seq<StepRecord>, c: Criteria): (r: seq<StepRecord>)
    ensures |r| <= |steps|
  {
    ByConfidence(ByMax(ByMin(ByAction(ByComponent(steps, c.component), c.action), c.minTimestamp), c.maxTimestamp), c.confidence)
  }

  /** filter_by_semantic_query: the component filter, then the action filter. */
  function FilterBySemanticQuery(steps: seq<StepRecord>, component: Option<string>, action: Option<string>): (r: seq<StepRecord>)
    ensures |r| <= |steps|
  {
    ByAction(ByComponent(steps, component), action)
  }

  // A stage whose criterion is absent keeps everything, so every stage is one comprehension.

  lemma ComponentStage(steps: seq<StepRecord>, c: Criteria, p: StepRecord -> bool)
    requires forall s :: p(s) == ComponentOk(c, s)
    ensures ByComponent(steps, c.component) == Filter(steps, p)
  {
    if Given(c.component) {
      FilterCongruent(steps, (s: StepRecord) => FieldIs(s.component, c.component.value), p);
    } else {
      FilterAll(steps, p);
    }
  }

  lemma ActionStage(steps: seq<StepRecord>, c: Criteria, p: StepRecord -> bool)
    requires forall s :: p(s) == ActionOk(c, s)
    ensures ByAction(steps, c.action) == Filter(steps, p)
  {
    if Given(c.action) {
      FilterCongruent(steps, (s: StepRecord) => FieldIs(s.action, c.action.value), p);
    } else {
      FilterAll(steps, p);
    }
  }

  lemma MinStage(steps: seq<StepRecord>, c: Criteria, p: StepRecord -> bool)
    requires forall s :: p(s) == MinOk(c, s)
    ensures ByMin(steps, c.minTimestamp) == Filter(steps, p)
  {
    if c.minTimestamp.Some? {
      FilterCongruent(steps, (s: StepRecord) => AfterMin(s, c.minTimestamp.value), p);
    } else {
      FilterAll(steps, p);
    }
  }

  lemma MaxStage(steps: seq<StepRecord>, c: Criteria, p: StepRecord -> bool)
    requires forall s :: p(s) == MaxOk(c, s)
    ensures ByMax(steps, c.maxTimestamp) == Filter(steps, p)
  {
    if c.maxTimestamp.Some? {
      FilterCongruent(steps, (s: StepRecord) => BeforeMax(s, c.maxTimestamp.value), p);
    } else {
      FilterAll(steps, p);
    }
  }

  lemma ConfidenceStage(steps: seq<StepRecord>, c: Criteria, p: StepRecord -> bool)
    requires forall s :: p(s) == ConfidenceOk(c, s)
    ensures ByConfidence(steps, c.confidence) == Filter(steps, p)
  {
    if Given(c.confidence) {
      FilterCongruent(steps, (s: StepRecord) => FieldIs(s.sourceConfidence, c.confidence.value), p);
    } else {
      FilterAll(steps, p);
    }
  }

  /** filter_steps keeps exactly the steps that pass every given criterion, in input order. */
  lemma FilterStepsIsAccepts(steps: seq<StepRecord>, c: Criteria)
    ensures FilterSteps(steps, c) == Filter(steps, s => Accepts(c, s))
  {
    var p1 := s => ComponentOk(c, s);
    var p2 := s => ActionOk(c, s);
    var p3 := s => MinOk(c, s);
    var p4 := s => MaxOk(c, s);
    var p5 := s => ConfidenceOk(c, s);
    var a2 := s => ComponentOk(c, s) && ActionOk(c, s);
    var a3 := s => a2(s) && MinOk(c, s);
    var a4 := s => a3(s) && MaxOk(c, s);
    var t1 := ByComponent(steps, c.component);
    ComponentStage(steps, c, p1);
    var t2 := ByAction(t1, c.action);
    ActionStage(t1, c, p2);
    FilterFilter(steps, p1, p2, a2);
    var t3 := ByMin(t2, c.minTimestamp);
    MinStage(t2, c, p3);
    FilterFilter(steps, a2, p3, a3);
    var t4 := ByMax(t3, c.maxTimestamp);
    MaxStage(t3, c, p4);
    FilterFilter(steps, a3, p4, a4);
    ConfidenceStage(t4, c, p5);
    FilterFilter(steps, a4, p5, s => Accepts(c, s));
  }

  /** The result is a subsequence of the input: nothing added, nothing reordered. */
  lemma FilterStepsSubseq(steps: seq<StepRecord>, c: Criteria)
    ensures Subseq(FilterSteps(steps, c), steps)
  {
    FilterStepsIsAccepts(steps, c);
    FilterSubseq(steps, s => Accepts(c, s));
  }

  /** A step is returned iff it is in the input and passes every given criterion. */
  lemma FilterStepsMembership(steps: seq<StepRecord>, c: Criteria, s: StepRecord)
    ensures s in FilterSteps(steps, c) <==> s in steps && Accepts(c, s)
  {
    FilterStepsIsAccepts(steps, c);
    FilterMembership(steps, x => Accepts(c, x), s);
  }

  /** With no criterion given the input comes back unchanged. */
  lemma FilterStepsNoCriteria(steps: seq<StepRecord>, c: Criteria)
    requires NoCriteria(c)
    ensures FilterSteps(steps, c) == steps
  {
    FilterStepsIsAccepts(steps, c);
    FilterAll(steps, s => Accepts(c, s));
  }

  /** Filtering twice with the same criteria is filtering once. */
  lemma FilterStepsIdempotent(steps: seq<StepRecord>, c: Criteria)
    ensures FilterSteps(FilterSteps(steps, c), c) == FilterSteps(steps, c)
  {
    FilterStepsIsAccepts(steps, c);
    FilterStepsIsAccepts(FilterSteps(steps, c), c);
    FilterIdempotent(steps, s => Accepts(c, s));
  }

  /** Under a finite or -infinity max bound, no step without a start time is returned. */
  lemma MissingStartDroppedByMax(steps: seq<StepRecord>, c: Criteria, s: StepRecord)
    requires c.maxTimestamp.Some? && c.maxTimestamp.value != PosInf
    requires s in FilterSteps(steps, c)
    ensures s.start.Some?
  {
    FilterStepsMembership(steps, c, s);
  }

  /** Both time bounds are inclusive: a start equal to a finite bound passes it. */
  lemma BoundsInclusive(s: StepRecord, t: real)
    requires s.start == Some(t)
    ensures AfterMin(s, Fin(t)) && BeforeMax(s, Fin(t))
  {
  }

  /** A missing start passes any min bound up to 0 and fails a min bound above 0. */
  lemma MissingStartIsZeroForMin(s: StepRecord, m: real)
    requires s.start.None?
    ensures AfterMin(s, Fin(m)) <==> m <= 0.0
  {
  }

  /** filter_by_semantic_query is filter_steps given only the component and the action. */
  lemma SemanticQueryIsFilterSteps(steps: seq<StepRecord>, component: Option<string>, action: Option<string>)
    ensures FilterBySemanticQuery(steps, component, action)
            == FilterSteps(steps, Criteria(component, action, None, None, None))
  {
  }

  /** With no component, filter_by_semantic_query applies the action filter alone. */
  lemma SemanticQueryActionOnly(steps: seq<StepRecord>, action: Option<string>)
    ensures FilterBySemanticQuery(steps, None, action) == ByAction(steps, action)
  {
  }

  /** Text criteria ignore case on both sides. */
  lemma FieldIsIgnoresCase(field: string, wanted: string)
    ensures FieldIs(Some(field), wanted) == FieldIs(Some(Lower(field)), Upper(wanted))
  {
    LowerIdempotent(field);
    LowerOfUpper(wanted);
  }
}
