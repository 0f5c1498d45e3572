/** `score_scenario`: ten weighted dimensions, one of which asks the plan's transitive support. */
module ScenarioScore {
  import opened Options
  import opened Text
  import opened Graphs
  import opened PlanSupport

  /** The `expected` entry of a scenario; an absent list is empty. */
  datatype Expected = Expected(
    clarification: bool,
    tools: Option<set<string>>,
    toolKinds: Option<set<string>>,
    toolCount: nat,
    bindEntities: bool,
    facts: seq<string>,
    deps: seq<(string, string)>,
    parallel: bool,
    parallelGroups: bool,
    disabledRefused: bool,
    failure: bool,
    partial: bool,
    forbidden: seq<string>,
    maxTools: Option<int>,
    minTools: int)

  /** What a run showed; `final` is the final text in lower case, `order` the order of `planned`. */
  datatype Observed = Observed(
    planned: Planned,
    order: seq<string>,
    waves: seq<int>,
    bound: set<string>,
    final: string,
    toolsUsed: seq<string>,
    toolErrors: seq<string>,
    askedClarification: bool,
    unachievable: bool)

  datatype Scores = Scores(
    intent: real, resolution: real, binding: real, topology: real, parallelism: real,
    artifacts: real, recovery: real, validation: real, grounding: real, efficiency: real)

  datatype Verdict = Raised | Scored(scores: Scores, total: real)

  function Total(s: Scores): real {
    s.intent * 10.0 + s.resolution * 15.0 + s.binding * 10.0 + s.topology * 15.0 + s.parallelism * 10.0
    + s.artifacts * 10.0 + s.recovery * 10.0 + s.validation * 5.0 + s.grounding * 10.0 + s.efficiency * 5.0
  }

  function Mark(ok: bool): real {
    if ok then 1.0 else 0.0
  }

  predicate Mentions(final: string, text: string) {
    Contains(final, Lower(text))
  }

  predicate AllMentioned(final: string, texts: seq<string>) {
    forall t | t in texts :: Mentions(final, t)
  }

  predicate NoneMentioned(final: string, texts: seq<string>) {
    forall t | t in texts :: !Mentions(final, t)
  }

  function PlannedOps(o: Observed): set<string> {
    set n | n in o.planned :: o.planned[n].op
  }

  function UsedTools(o: Observed): set<string> {
    set t | t in o.toolsUsed
  }

  predicate Resolved(e: Expected, o: Observed) {
    if o.unachievable then true
    else if e.tools.Some? then (if PlannedOps(o) != {} then PlannedOps(o) else UsedTools(o)) == e.tools.value
    else if e.toolKinds.Some? then PlannedOps(o) == e.toolKinds.value
    else true
  }

  predicate IsEntity(fact: string) {
    |fact| > 3 && ' ' !in fact
  }

  function Entities(facts: seq<string>): seq<string> {
    if facts == [] then [] else (if IsEntity(facts[0]) then [facts[0]] else []) + Entities(facts[1..])
  }

  predicate Bound(bound: set<string>, entity: string) {
    exists b | b in bound :: Contains(Lower(b), Lower(entity))
  }

  function Matched(bound: set<string>, entities: seq<string>): (m: nat)
    ensures m <= |entities|
  {
    if entities == [] then 0 else (if Bound(bound, entities[0]) then 1 else 0) + Matched(bound, entities[1..])
  }

  function Share(m: nat, n: nat): real
    requires n > 0
  {
    m as real / n as real
  }

  function BindingScore(e: Expected, o: Observed): real {
    var entities := Entities(e.facts);
    if e.bindEntities && entities != [] then Share(Matched(o.bound, entities), |entities|) else 1.0
  }

  /** The first node, in plan order, that performs an operation. */
  function FirstWithOp(o: Observed, op: string, k: nat): Option<string>
    requires k <= |o.order| && forall n | n in o.order :: n in o.planned
    decreases |o.order| - k
  {
    if k == |o.order| then None
    else if o.planned[o.order[k]].op == op then Some(o.order[k])
    else FirstWithOp(o, op, k + 1)
  }

  /** The expected producer feeds the first node that performs the consumer. */
  ghost predicate DependencyMet(o: Observed, dep: (string, string))
    requires forall n | n in o.order :: n in o.planned
  {
    var consumer := FirstWithOp(o, dep.1, 0);
    consumer.Some? && dep.0 in SupportOf(o.planned, consumer.value)
  }

  ghost predicate DependenciesMet(o: Observed, deps: seq<(string, string)>, k: nat)
    requires k <= |deps| && forall n | n in o.order :: n in o.planned
  {
    forall i | 0 <= i < k :: DependencyMet(o, deps[i])
  }

  function WaveCount(indices: seq<int>): int {
    if indices == [] then 0 else
      var rest := WaveCount(indices[1..]);
      if |indices| == 1 || indices[0] + 1 > rest then indices[0] + 1 else rest
  }

  function Clamp(r: real): real {
    if r > 0.0 then r else 0.0
  }

  function ParallelismScore(e: Expected, o: Observed): real {
    if !e.parallel then 1.0
    else
      var waves := WaveCount(o.waves);
      var expected := if e.parallelGroups then 2 else if e.toolCount >= 4 then 3 else 1;
      if waves <= expected then 1.0 else Clamp(1.0 - (waves - expected) as real * 0.25)
  }

  function RecoveryScore(e: Expected, o: Observed): real {
    if e.disabledRefused then Mark("failing_probe" !in PlannedOps(o) && "failing_probe" !in UsedTools(o))
    else if e.partial then
      Mark(AllMentioned(o.final, e.facts)
           || exists w | w in ["couldn't", "failed", "no result", "not found", "unable"] :: Contains(o.final, w))
    else 1.0
  }

  function EfficiencyScore(e: Expected, o: Observed): real {
    match e.maxTools
    case None => 1.0
    case Some(most) =>
      var over := if |o.toolsUsed| - most > 0 then |o.toolsUsed| - most else 0;
      var under := if e.minTools - |o.toolsUsed| > 0 then e.minTools - |o.toolsUsed| else 0;
      Clamp(1.0 - (over + under) as real * 0.2)
  }

  /** The ten scores, given what the topology check found. */
  function ScoresWith(e: Expected, o: Observed, topologyOk: bool): Scores {
    var factsOk := AllMentioned(o.final, e.facts);
    Scores(
      Mark(!e.clarification || o.askedClarification),
      Mark(Resolved(e, o)),
      BindingScore(e, o),
      Mark(topologyOk),
      ParallelismScore(e, o),
      Mark(factsOk),
      RecoveryScore(e, o),
      Mark(e.failure || o.toolErrors == []),
      Mark(factsOk) * Mark(NoneMentioned(o.final, e.forbidden)),
      EfficiencyScore(e, o))
  }

  ghost function ScoresOf(e: Expected, o: Observed): Scores
    requires forall n | n in o.order :: n in o.planned
  {
    ScoresWith(e, o, DependenciesMet(o, e.deps, |e.deps|))
  }

  /** The recursion over the plan exceeds the interpreter's limit: always on a cyclic plan,
      never on an acyclic one with no more nodes than the limit. */
  predicate TooDeep(o: Observed, depth: nat) {
    SupportsWithin(o.planned, o.order, |o.order|, depth).None?
  }

  lemma TooDeepIf(o: Observed, depth: nat)
    requires forall n :: n in o.order <==> n in o.planned
    ensures !Acyclic(Resolvable(o.planned)) ==> TooDeep(o, depth)
    ensures Acyclic(Resolvable(o.planned)) && depth >= |o.planned.Keys| ==> !TooDeep(o, depth)
  {
    FinishesIffAcyclic(o.planned, o.order);
  }

  /** `None` when the support walk raises. */
  method TopologyOk(o: Observed, deps: seq<(string, string)>, depth: nat) returns (ok: Option<bool>)
    requires forall n :: n in o.order <==> n in o.planned
    ensures ok.None? <==> deps != [] && TooDeep(o, depth)
    ensures ok.Some? ==> (ok.value <==> DependenciesMet(o, deps, |deps|))
  {
    if deps == [] {
      return Some(true);
    }
    var supports := TransitiveSupports(o.planned, o.order, depth);
    if supports.None? {
      return None;
    }
    var i := 0;
    while i < |deps|
      invariant 0 <= i <= |deps|
      invariant DependenciesMet(o, deps, i)
    {
      var consumerKey := FirstWithOp(o, deps[i].1, 0);
      FirstIsPlanned(o, deps[i].1, 0);
      if consumerKey.None? || deps[i].0 !in supports.value[consumerKey.value] {
        assert !DependencyMet(o, deps[i]);
        return Some(false);
      }
      i := i + 1;
    }
    return Some(true);
  }

  lemma {:induction false} FirstIsPlanned(o: Observed, op: string, k: nat)
    requires k <= |o.order| && forall n | n in o.order :: n in o.planned
    ensures var first := FirstWithOp(o, op, k);
            first.Some? ==> first.value in o.planned && o.planned[first.value].op == op
    decreases |o.order| - k
  {
    if k < |o.order| && o.planned[o.order[k]].op != op {
      FirstIsPlanned(o, op, k + 1);
    }
  }

  /** Scoring raises when the support walk does, and for a scenario that expects a failure: its
      honesty test iterates over a boolean, unless the scenario is about a refused tool. */
  method ScoreScenario(e: Expected, o: Observed, depth: nat) returns (v: Verdict)
    requires forall n :: n in o.order <==> n in o.planned
    ensures v.Raised? <==> (e.failure && !e.disabledRefused) || (e.deps != [] && TooDeep(o, depth))
    ensures v.Scored? ==> v.scores == ScoresOf(e, o) && v.total == Total(v.scores)
  {
    var topologyOk := TopologyOk(o, e.deps, depth);
    if topologyOk.None? {
      return Raised;
    }
    if e.failure && !e.disabledRefused {
      return Raised;
    }
    var scores := ScoresWith(e, o, topologyOk.value);
    v := Scored(scores, Total(scores));
  }

  // ------------------------------------------------------------------
  // What a score says
  // ------------------------------------------------------------------

  /** The first planned node with an operation, in plan order. */
  lemma {:induction false} FirstIsFirst(o: Observed, op: string, k: nat)
    requires k <= |o.order| && forall n | n in o.order :: n in o.planned
    ensures match FirstWithOp(o, op, k)
            case None => forall i | k <= i < |o.order| :: o.planned[o.order[i]].op != op
            case Some(n) =>
              exists i | k <= i < |o.order| ::
                o.order[i] == n && o.planned[n].op == op && forall j | k <= j < i :: o.planned[o.order[j]].op != op
    decreases |o.order| - k
  {
    if k < |o.order| && o.planned[o.order[k]].op != op {
      FirstIsFirst(o, op, k + 1);
    }
  }

  /** The answer has the text somewhere, in whatever case. */
  ghost predicate Says(final: string, text: string) {
    exists i: nat :: OccursAt(final, Lower(text), i)
  }

  lemma MentionsIff(final: string, texts: seq<string>)
    ensures AllMentioned(final, texts) <==> forall t | t in texts :: Says(final, t)
    ensures NoneMentioned(final, texts) <==> forall t | t in texts :: !Says(final, t)
  {
    forall t | t in texts
      ensures Mentions(final, t) <==> Says(final, t)
    {
      ContainsIff(final, Lower(t));
    }
  }

  /** Facts and honesty: what earns the full mark, and that anything else earns nothing. */
  lemma AnswerMarks(e: Expected, o: Observed, topologyOk: bool)
    ensures var s := ScoresWith(e, o, topologyOk);
            && s.intent == (if e.clarification && !o.askedClarification then 0.0 else 1.0)
            && s.topology == (if topologyOk then 1.0 else 0.0)
            && s.artifacts == (if forall f | f in e.facts :: Says(o.final, f) then 1.0 else 0.0)
            && s.validation == (if !e.failure && o.toolErrors != [] then 0.0 else 1.0)
            && s.grounding == (if (forall f | f in e.facts :: Says(o.final, f)) && (forall f | f in e.forbidden :: !Says(o.final, f))
                               then 1.0 else 0.0)
  {
    MentionsIff(o.final, e.facts);
    MentionsIff(o.final, e.forbidden);
  }

  /** Exactly the expected tools: those planned or, when nothing was planned, those used; kinds
      count when no tools are named. */
  lemma ResolutionMark(e: Expected, o: Observed, topologyOk: bool)
    ensures ScoresWith(e, o, topologyOk).resolution ==
            if || o.unachievable
               || (e.tools.None? && e.toolKinds.None?)
               || (e.tools.None? && e.toolKinds.Some? && Performs(o, e.toolKinds.value))
               || (e.tools.Some? && |o.planned| > 0 && Performs(o, e.tools.value))
               || (e.tools.Some? && |o.planned| == 0 && forall t :: t in e.tools.value <==> t in o.toolsUsed)
            then 1.0 else 0.0
  {
    if |o.planned| == 0 {
      assert o.planned == map[];
    } else {
      var n :| n in o.planned;
      assert o.planned[n].op in PlannedOps(o);
    }
    PerformsIff(o);
    if e.tools.Some? {
      assert UsedTools(o) == e.tools.value <==> forall t :: t in e.tools.value <==> t in o.toolsUsed;
    }
  }

  /** The operations of the plan are exactly these. */
  ghost predicate Performs(o: Observed, ops: set<string>) {
    && (forall n | n in o.planned :: o.planned[n].op in ops)
    && (forall op | op in ops :: exists n :: n in o.planned && o.planned[n].op == op)
  }

  lemma PerformsIff(o: Observed)
    ensures forall ops :: Performs(o, ops) <==> PlannedOps(o) == ops
  {
    forall ops
      ensures Performs(o, ops) <==> PlannedOps(o) == ops
    {
      if PlannedOps(o) == ops {
        assert forall n | n in o.planned :: o.planned[n].op in PlannedOps(o);
      }
      if Performs(o, ops) {
        assert forall op :: op in PlannedOps(o) <==> op in ops;
      }
    }
  }

  /** Some bound value has the fact in it, in whatever case. */
  ghost predicate Binds(bound: set<string>, fact: string) {
    exists b | b in bound :: Says(Lower(b), fact)
  }

  lemma BoundIff(bound: set<string>, fact: string)
    ensures Bound(bound, fact) <==> Binds(bound, fact)
  {
    forall b | b in bound
      ensures Contains(Lower(b), Lower(fact)) <==> Says(Lower(b), fact)
    {
      ContainsIff(Lower(b), Lower(fact));
    }
  }

  lemma {:induction false} EntitiesAre(facts: seq<string>, f: string)
    ensures f in Entities(facts) <==> f in facts && |f| > 3 && ' ' !in f
  {
    if facts != [] {
      EntitiesAre(facts[1..], f);
    }
  }

  lemma {:induction false} MatchedIs(bound: set<string>, entities: seq<string>)
    ensures Matched(bound, entities) == |entities| <==> forall f | f in entities :: Binds(bound, f)
    ensures Matched(bound, entities) == 0 <==> forall f | f in entities :: !Binds(bound, f)
  {
    if entities != [] {
      MatchedIs(bound, entities[1..]);
      BoundIff(bound, entities[0]);
      assert forall f :: f in entities <==> f == entities[0] || f in entities[1..];
    }
  }

  /** The bound entities of two lists are counted one list after the other. */
  lemma {:induction false} MatchedOfTwo(bound: set<string>, a: seq<string>, b: seq<string>)
    ensures Matched(bound, a + b) == Matched(bound, a) + Matched(bound, b)
  {
    if a == [] {
      assert a + b == b;
    } else {
      MatchedOfTwo(bound, a[1..], b);
      assert (a + b)[0] == a[0] && (a + b)[1..] == a[1..] + b;
    }
  }

  /** Every mention of an entity counts once. */
  lemma {:induction false} EntitiesCount(facts: seq<string>, f: string)
    ensures multiset(Entities(facts))[f] == if IsEntity(f) then multiset(facts)[f] else 0
  {
    if facts != [] {
      EntitiesCount(facts[1..], f);
      assert facts == [facts[0]] + facts[1..];
    }
  }

  /** A fact that names an entity: one longer word. */
  predicate NamesEntity(e: Expected, f: string) {
    f in e.facts && |f| > 3 && ' ' !in f
  }

  ghost predicate AllBound(e: Expected, o: Observed) {
    forall f | NamesEntity(e, f) :: Binds(o.bound, f)
  }

  ghost predicate NoneBound(e: Expected, o: Observed) {
    forall f | NamesEntity(e, f) :: !Binds(o.bound, f)
  }

  lemma EntitiesBound(e: Expected, o: Observed)
    ensures Entities(e.facts) != [] <==> exists f :: NamesEntity(e, f)
    ensures Matched(o.bound, Entities(e.facts)) == |Entities(e.facts)| <==> AllBound(e, o)
    ensures Matched(o.bound, Entities(e.facts)) == 0 <==> NoneBound(e, o)
  {
    var entities := Entities(e.facts);
    MatchedIs(o.bound, entities);
    forall f
      ensures f in entities <==> NamesEntity(e, f)
    {
      EntitiesAre(e.facts, f);
    }
    if entities != [] {
      assert entities[0] in entities;
    }
  }

  /** Binding is the share of the entities that were bound: all of it exactly when each was,
      none exactly when there are some and none was. */
  lemma BindingMark(e: Expected, o: Observed)
    ensures BindingScore(e, o) == 1.0 <==> !e.bindEntities || AllBound(e, o)
    ensures BindingScore(e, o) == 0.0 <==> e.bindEntities && (exists f :: NamesEntity(e, f)) && NoneBound(e, o)
    ensures e.bindEntities && Entities(e.facts) != [] ==>
              BindingScore(e, o) == Share(Matched(o.bound, Entities(e.facts)), |Entities(e.facts)|)
  {
    EntitiesBound(e, o);
    if e.bindEntities && Entities(e.facts) != [] {
      ShareExtremes(Matched(o.bound, Entities(e.facts)), |Entities(e.facts)|);
    }
  }

  lemma ShareExtremes(m: nat, n: nat)
    requires n > 0
    ensures Share(m, n) == 1.0 <==> m == n
    ensures Share(m, n) == 0.0 <==> m == 0
  {
  }

  /** As many parts make up the number. */
  lemma ShareIs(m: nat, n: nat)
    requires n > 0
    ensures Share(m, n) * n as real == m as real
  {
  }

  /** The highest wave index, counted from one. */
  lemma {:induction false} WaveCountIs(indices: seq<int>)
    ensures indices == [] ==> WaveCount(indices) == 0
    ensures forall i | 0 <= i < |indices| :: indices[i] < WaveCount(indices)
    ensures indices != [] ==> exists i :: 0 <= i < |indices| && WaveCount(indices) == indices[i] + 1
  {
    if indices != [] {
      var rest := indices[1..];
      WaveCountIs(rest);
      assert forall i | 1 <= i < |indices| :: indices[i] == rest[i - 1];
      if |indices| > 1 && WaveCount(indices) == WaveCount(rest) {
        var i :| 0 <= i < |rest| && WaveCount(rest) == rest[i] + 1;
        assert indices[i + 1] == rest[i];
      } else {
        assert WaveCount(indices) == indices[0] + 1;
      }
    }
  }

  /** The waves a parallel scenario may take: two for groups, three from four tools on, else one. */
  function AllowedWaves(e: Expected): int {
    if e.parallelGroups then 2 else if e.toolCount < 4 then 1 else 3
  }

  /** Each wave too many costs a quarter, until nothing is left. */
  lemma ParallelismMark(e: Expected, o: Observed)
    ensures var excess := WaveCount(o.waves) - AllowedWaves(e);
            ParallelismScore(e, o) ==
            if !e.parallel || excess <= 0 then 1.0
            else if excess == 1 then 0.75 else if excess == 2 then 0.5 else if excess == 3 then 0.25 else 0.0
  {
  }

  /** Calls outside the expected range cost a fifth each, until nothing is left. */
  lemma EfficiencyMark(e: Expected, o: Observed)
    ensures e.maxTools.None? ==> EfficiencyScore(e, o) == 1.0
    ensures e.maxTools.Some? && e.minTools <= e.maxTools.value ==>
              var n, least, most := |o.toolsUsed|, e.minTools, e.maxTools.value;
              && (EfficiencyScore(e, o) == 1.0 <==> least <= n <= most)
              && (n > most ==> EfficiencyScore(e, o) == if n - most >= 5 then 0.0 else 1.0 - (n - most) as real / 5.0)
              && (n < least ==> EfficiencyScore(e, o) == if least - n >= 5 then 0.0 else 1.0 - (least - n) as real / 5.0)
  {
  }

  const DISCLOSURES := {"couldn't", "failed", "no result", "not found", "unable"}

  /** Recovery: a refused tool must show nowhere; a partial success must keep the facts or say
      what is missing; nothing else is asked. */
  lemma RecoveryMark(e: Expected, o: Observed)
    ensures RecoveryScore(e, o) ==
            if e.disabledRefused then
              (if (exists n :: n in o.planned && o.planned[n].op == "failing_probe") || "failing_probe" in o.toolsUsed then 0.0 else 1.0)
            else if e.partial && !(forall f | f in e.facts :: Says(o.final, f)) && !Discloses(o.final) then 0.0
            else 1.0
  {
    MentionsIff(o.final, e.facts);
    DisclosesIff(o.final);
    assert "failing_probe" in PlannedOps(o) <==> exists n :: n in o.planned && o.planned[n].op == "failing_probe";
  }

  ghost predicate Discloses(final: string) {
    exists w, i: nat :: w in DISCLOSURES && OccursAt(final, w, i)
  }

  lemma DisclosesIff(final: string)
    ensures Discloses(final) <==>
              exists w | w in ["couldn't", "failed", "no result", "not found", "unable"] :: Contains(final, w)
  {
    var words := ["couldn't", "failed", "no result", "not found", "unable"];
    assert forall w :: w in words <==> w in DISCLOSURES;
    forall w | w in words
      ensures Contains(final, w) <==> exists i: nat :: OccursAt(final, w, i)
    {
      ContainsIff(final, w);
    }
  }

  /** The weights: what is missing in a dimension is missing in the total, times its weight. */
  lemma WeightsAre(s: Scores)
    ensures 100.0 - Total(s) ==
            10.0 * (1.0 - s.intent) + 15.0 * (1.0 - s.resolution) + 10.0 * (1.0 - s.binding) + 15.0 * (1.0 - s.topology)
            + 10.0 * (1.0 - s.parallelism) + 10.0 * (1.0 - s.artifacts) + 10.0 * (1.0 - s.recovery)
            + 5.0 * (1.0 - s.validation) + 10.0 * (1.0 - s.grounding) + 5.0 * (1.0 - s.efficiency)
  {
  }

  // ------------------------------------------------------------------
  // What a total says
  // ------------------------------------------------------------------

  predicate UnitRange(r: real) {
    0.0 <= r <= 1.0
  }

  lemma FractionInRange(m: nat, n: nat)
    requires m <= n && n > 0
    ensures UnitRange(Share(m, n))
  {
  }

  lemma PartsInRange(e: Expected, o: Observed)
    requires forall n | n in o.order :: n in o.planned
    ensures var s := ScoresOf(e, o);
            && UnitRange(s.intent) && UnitRange(s.resolution) && UnitRange(s.binding) && UnitRange(s.topology)
            && UnitRange(s.parallelism) && UnitRange(s.artifacts) && UnitRange(s.recovery) && UnitRange(s.validation)
            && UnitRange(s.grounding) && UnitRange(s.efficiency)
            && (s.artifacts == 0.0 ==> s.grounding == 0.0)
  {
    var entities := Entities(e.facts);
    if entities != [] {
      FractionInRange(Matched(o.bound, entities), |entities|);
    }
  }

  /** Every total lies between 0 and 100. */
  lemma TotalInRange(e: Expected, o: Observed)
    requires forall n | n in o.order :: n in o.planned
    ensures 0.0 <= Total(ScoresOf(e, o)) <= 100.0
  {
    PartsInRange(e, o);
  }

  /** `d` performs the producer, `n` the consumer, and `d` feeds `n`. */
  ghost predicate FedBy(o: Observed, dep: (string, string), d: string, n: string) {
    && d in o.planned && n in o.planned && Feeds(Resolvable(o.planned), d, n)
    && o.planned[d].op == dep.0 && o.planned[n].op == dep.1
  }

  ghost predicate DependencyFed(o: Observed, dep: (string, string)) {
    exists d, n :: FedBy(o, dep, d, n)
  }

  /** A reported total (rounded to one decimal) of 90 or more is reached only if the right tools
      were resolved, every expected fact is in the answer, and for every expected dependency
      some planned node performing the producer feeds one performing the consumer. */
  lemma NinetyMeansGrounded(e: Expected, o: Observed, reported: real)
    requires forall n :: n in o.order <==> n in o.planned
    requires Total(ScoresOf(e, o)) - 0.05 <= reported <= Total(ScoresOf(e, o)) + 0.05
    requires reported >= 90.0
    ensures Resolved(e, o) && AllMentioned(o.final, e.facts)
    ensures forall i | 0 <= i < |e.deps| :: DependencyFed(o, e.deps[i])
  {
    PartsInRange(e, o);
    assert DependenciesMet(o, e.deps, |e.deps|);
    forall i | 0 <= i < |e.deps|
      ensures DependencyFed(o, e.deps[i])
    {
      assert DependencyMet(o, e.deps[i]);
      FirstIsPlanned(o, e.deps[i].1, 0);
      var n := FirstWithOp(o, e.deps[i].1, 0).value;
      var d :| d in o.planned && Feeds(Resolvable(o.planned), d, n) && o.planned[d].op == e.deps[i].0;
      assert FedBy(o, e.deps[i], d, n);
    }
  }
}
