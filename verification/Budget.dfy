/** `ReasoningBudget`: fixed limits, a ledger of what was reserved, and the state carrier
    that moves both from node to node. */
module Budget {
  import opened Options

  /** A ledger key.  Every key but `Recovery` and `OtherKey` names a limit attribute. */
  datatype Key =
    | WallTimeMs | GraphSteps | Replans | RecoveryAttempts | LlmCalls | ToolCalls | CostUsd
    | Recovery | OtherKey(name: string)

  datatype Limits = Limits(
    wallTimeMs: real, graphSteps: int, replans: int, recoveryAttempts: int,
    llmCalls: int, toolCalls: int, costUsd: real)

  const DEFAULTS := Limits(120000.0, 50, 4, 3, 30, 40, 1.0)

  type Ledger = map<Key, real>

  /** `getattr(self, f"max_{key}", None)` */
  function LimitOf(l: Limits, key: Key): Option<real> {
    match key
    case WallTimeMs => Some(l.wallTimeMs)
    case GraphSteps => Some(l.graphSteps as real)
    case Replans => Some(l.replans as real)
    case RecoveryAttempts => Some(l.recoveryAttempts as real)
    case LlmCalls => Some(l.llmCalls as real)
    case ToolCalls => Some(l.toolCalls as real)
    case CostUsd => Some(l.costUsd)
    case Recovery => None
    case OtherKey(_) => None
  }

  function Used(ledger: Ledger, key: Key): real {
    if key in ledger then ledger[key] else 0.0
  }

  function Max(a: real, b: real): real {
    if a >= b then a else b
  }

  /** Whether a reservation goes through. */
  predicate Granted(l: Limits, ledger: Ledger, key: Key, amount: real) {
    LimitOf(l, key).None? || Used(ledger, key) + amount <= LimitOf(l, key).value
  }

  /** The ledger after asking for a reservation; keys without a limit are never recorded. */
  function Reserve(l: Limits, ledger: Ledger, key: Key, amount: real): Ledger {
    if LimitOf(l, key).Some? && Granted(l, ledger, key, amount)
    then ledger[key := Used(ledger, key) + amount] else ledger
  }

  function Settle(ledger: Ledger, actual: real): Ledger {
    if actual > 0.0 then ledger[CostUsd := Used(ledger, CostUsd) + actual] else ledger
  }

  /** Key by key the larger of the two; only the keys of `b` are looked at. */
  function Join(a: Ledger, b: Ledger): Ledger {
    map k | k in a.Keys + b.Keys :: if k in b then Max(Used(a, k), b[k]) else a[k]
  }

  datatype Dimension = WallTime | Spent(key: Key)

  /** The dimensions `exceeded` looks at, in its order, with the limit it compares to. */
  function Watched(l: Limits): seq<(Key, real)> {
    [(GraphSteps, l.graphSteps as real), (Replans, l.replans as real),
     (Recovery, l.recoveryAttempts as real), (LlmCalls, l.llmCalls as real),
     (ToolCalls, l.toolCalls as real), (CostUsd, l.costUsd)]
  }

  function FirstSpent(watched: seq<(Key, real)>, ledger: Ledger): Option<Dimension> {
    if watched == [] then None
    else if Used(ledger, watched[0].0) >= watched[0].1 then Some(Spent(watched[0].0))
    else FirstSpent(watched[1..], ledger)
  }

  /** `exceeded`, with the elapsed wall time given. */
  function Exhausted(l: Limits, ledger: Ledger, elapsedMs: real): Option<Dimension> {
    if elapsedMs > l.wallTimeMs then Some(WallTime) else FirstSpent(Watched(l), ledger)
  }

  /** The limit `exceeded` holds a key against. */
  function WatchedLimit(l: Limits, key: Key): Option<real> {
    match key
    case Recovery => Some(l.recoveryAttempts as real)
    case RecoveryAttempts => None
    case WallTimeMs => None
    case _ => LimitOf(l, key)
  }

  /** A watched dimension of the ledger has reached its limit. */
  predicate IsSpent(l: Limits, ledger: Ledger, key: Key) {
    WatchedLimit(l, key).Some? && Used(ledger, key) >= WatchedLimit(l, key).value
  }

  ghost predicate SomethingSpent(l: Limits, ledger: Ledger) {
    exists key :: IsSpent(l, ledger, key)
  }

  lemma WatchedIs(l: Limits, key: Key)
    ensures forall i | 0 <= i < |Watched(l)| :: WatchedLimit(l, Watched(l)[i].0) == Some(Watched(l)[i].1)
    ensures WatchedLimit(l, key).Some? ==> exists i | 0 <= i < |Watched(l)| :: Watched(l)[i].0 == key
  {
    var w := Watched(l);
    assert w[0].0 == GraphSteps && w[1].0 == Replans && w[2].0 == Recovery;
    assert w[3].0 == LlmCalls && w[4].0 == ToolCalls && w[5].0 == CostUsd;
  }

  /** Position `i` of the watched dimensions is the first spent one. */
  predicate FirstAt(watched: seq<(Key, real)>, ledger: Ledger, i: nat) {
    && i < |watched| && Used(ledger, watched[i].0) >= watched[i].1
    && forall j | 0 <= j < i :: Used(ledger, watched[j].0) < watched[j].1
  }

  lemma {:induction false} FirstSpentIn(watched: seq<(Key, real)>, ledger: Ledger)
    ensures match FirstSpent(watched, ledger)
            case Some(d) => exists i: nat :: FirstAt(watched, ledger, i) && d == Spent(watched[i].0)
            case None => forall i | 0 <= i < |watched| :: Used(ledger, watched[i].0) < watched[i].1
  {
    if watched != [] {
      if Used(ledger, watched[0].0) >= watched[0].1 {
        assert FirstAt(watched, ledger, 0);
      } else {
        var rest := watched[1..];
        FirstSpentIn(rest, ledger);
        assert forall i | 1 <= i < |watched| :: watched[i] == rest[i - 1];
        match FirstSpent(rest, ledger) {
          case Some(d) =>
            var i: nat :| FirstAt(rest, ledger, i) && d == Spent(rest[i].0);
            assert FirstAt(watched, ledger, i + 1);
          case None =>
        }
      }
    }
  }

  /** What `exceeded` reports is the first spent dimension, and it reports one whenever there is one. */
  lemma FirstSpentIff(l: Limits, ledger: Ledger)
    ensures FirstSpent(Watched(l), ledger).Some? <==> SomethingSpent(l, ledger)
    ensures FirstSpent(Watched(l), ledger).Some? ==>
              exists i: nat :: FirstAt(Watched(l), ledger, i) && FirstSpent(Watched(l), ledger).value == Spent(Watched(l)[i].0)
  {
    var w := Watched(l);
    FirstSpentIn(w, ledger);
    match FirstSpent(w, ledger) {
      case Some(_) =>
        var i: nat :| FirstAt(w, ledger, i);
        WatchedIs(l, w[i].0);
        assert IsSpent(l, ledger, w[i].0);
      case None =>
        forall key
          ensures !IsSpent(l, ledger, key)
        {
          WatchedIs(l, key);
        }
    }
  }

  ghost predicate Below(a: Ledger, b: Ledger) {
    forall k :: Used(a, k) <= Used(b, k)
  }

  /** A ledger that only grows stays exhausted. */
  lemma SpentStays(l: Limits, a: Ledger, b: Ledger)
    requires Below(a, b) && SomethingSpent(l, a)
    ensures SomethingSpent(l, b)
  {
    var key :| IsSpent(l, a, key);
    assert IsSpent(l, b, key);
  }

  // ------------------------------------------------------------------
  // The carrier
  // ------------------------------------------------------------------

  /** A value found in a state dictionary: something `float` accepts, or not. */
  datatype Scalar = Number(r: real) | NotANumber

  datatype Carrier = Carrier(
    wallTimeMs: Option<Scalar>, graphSteps: Option<Scalar>, replans: Option<Scalar>,
    recoveryAttempts: Option<Scalar>, llmCalls: Option<Scalar>, toolCalls: Option<Scalar>,
    costUsd: Option<Scalar>, startedAt: Option<Scalar>, consumed: map<Key, Scalar>)

  /** Everything a budget object holds. */
  datatype Snapshot = Snapshot(limits: Limits, startedAt: real, consumed: Ledger)

  function Encode(s: Snapshot): Carrier {
    var l := s.limits;
    Carrier(Some(Number(l.wallTimeMs)), Some(Number(l.graphSteps as real)), Some(Number(l.replans as real)),
            Some(Number(l.recoveryAttempts as real)), Some(Number(l.llmCalls as real)),
            Some(Number(l.toolCalls as real)), Some(Number(l.costUsd)), Some(Number(s.startedAt)),
            map k | k in s.consumed :: Number(s.consumed[k]))
  }

  /** Python's `int` on a float. */
  function Truncate(r: real): int {
    if r >= 0.0 then r.Floor else -((-r).Floor)
  }

  predicate Bad(v: Option<Scalar>) {
    v == Some(NotANumber)
  }

  function NumberOr(v: Option<Scalar>, default: real): real {
    match v
    case Some(Number(r)) => r
    case _ => default
  }

  predicate Readable(c: Carrier) {
    && !Bad(c.wallTimeMs) && !Bad(c.graphSteps) && !Bad(c.replans) && !Bad(c.recoveryAttempts)
    && !Bad(c.llmCalls) && !Bad(c.toolCalls) && !Bad(c.costUsd) && !Bad(c.startedAt)
    && forall k | k in c.consumed :: c.consumed[k].Number?
  }

  function NumbersOf(consumed: map<Key, Scalar>): Ledger {
    map k | k in consumed && consumed[k].Number? :: consumed[k].r
  }

  /** `budget_from_state`: a missing entry takes its default, and one unreadable entry makes
      the whole budget a fresh default one. */
  function Decode(carrier: Option<Carrier>, now: real): Snapshot {
    if carrier.None? || !Readable(carrier.value) then Snapshot(DEFAULTS, now, map[])
    else
      var c := carrier.value;
      Snapshot(
        Limits(NumberOr(c.wallTimeMs, 120000.0), Truncate(NumberOr(c.graphSteps, 50.0)),
               Truncate(NumberOr(c.replans, 4.0)), Truncate(NumberOr(c.recoveryAttempts, 3.0)),
               Truncate(NumberOr(c.llmCalls, 30.0)), Truncate(NumberOr(c.toolCalls, 40.0)),
               NumberOr(c.costUsd, 1.0)),
        NumberOr(c.startedAt, now),
        NumbersOf(c.consumed))
  }

  // ------------------------------------------------------------------
  // The object
  // ------------------------------------------------------------------

  /** `done` holds the readable entries outside `pending`. */
  ghost predicate Visited(entries: map<Key, Scalar>, pending: set<Key>, done: Ledger) {
    && (forall k :: k in done <==> k in entries && k !in pending && entries[k].Number?)
    && forall k | k in done :: done[k] == entries[k].r
  }

  lemma JoinOne(a: Ledger, done: Ledger, key: Key, v: real)
    requires key !in done
    ensures Join(a, done)[key := Max(Used(Join(a, done), key), v)] == Join(a, done[key := v])
  {
  }

  class ReasoningBudget {
    const limits: Limits
    const startedAt: real
    var consumed: Ledger

    constructor (s: Snapshot)
      ensures limits == s.limits && startedAt == s.startedAt && consumed == s.consumed
    {
      limits, startedAt, consumed := s.limits, s.startedAt, s.consumed;
    }

    function State(): Snapshot
      reads this
    {
      Snapshot(limits, startedAt, consumed)
    }

    method Consume(key: Key, amount: real) returns (ok: bool)
      modifies this`consumed
      ensures ok == Granted(limits, old(consumed), key, amount)
      ensures consumed == Reserve(limits, old(consumed), key, amount)
      ensures amount >= 0.0 && SomethingSpent(limits, old(consumed)) ==> SomethingSpent(limits, consumed)
    {
      ghost var before := consumed;
      if amount >= 0.0 && SomethingSpent(limits, before) {
        SpentStays(limits, before, Reserve(limits, before, key, amount));
      }
      var limit := LimitOf(limits, key);
      if limit.None? {
        return true;
      }
      var used := Used(consumed, key) + amount;
      if used > limit.value {
        return false;
      }
      consumed := consumed[key := used];
      return true;
    }

    method SettleCost(actual: real)
      modifies this`consumed
      ensures consumed == Settle(old(consumed), actual)
      ensures SomethingSpent(limits, old(consumed)) ==> SomethingSpent(limits, consumed)
    {
      ghost var before := consumed;
      if SomethingSpent(limits, before) {
        SpentStays(limits, before, Settle(before, actual));
      }
      if actual > 0.0 {
        consumed := consumed[CostUsd := Used(consumed, CostUsd) + actual];
      }
    }

    /** The largest amount a reservation would be granted for, or 0; a key without a limit
        always has one unit left. */
    function Remaining(key: Key): (r: real)
      reads this
      ensures r >= 0.0 && (r > 0.0 ==> Granted(limits, consumed, key, r))
      ensures LimitOf(limits, key).Some? ==> forall amount :: Granted(limits, consumed, key, amount) ==> amount <= r
      ensures LimitOf(limits, key).None? ==> r == 1.0 && forall amount :: Granted(limits, consumed, key, amount)
    {
      if LimitOf(limits, key).None? then 1.0 else Max(0.0, LimitOf(limits, key).value - Used(consumed, key))
    }

    /** A dimension is reported exactly when the wall time has run out or some watched dimension
        has reached its limit; the wall time goes first, then the first spent dimension. */
    function Exceeded(now: real): (d: Option<Dimension>)
      reads this
      ensures d.Some? <==> (now - startedAt) * 1000.0 > limits.wallTimeMs || SomethingSpent(limits, consumed)
      ensures d == Some(WallTime) <==> (now - startedAt) * 1000.0 > limits.wallTimeMs
      ensures d.Some? && d.value.Spent? ==>
                exists i: nat :: FirstAt(Watched(limits), consumed, i) && d.value == Spent(Watched(limits)[i].0)
    {
      FirstSpentIff(limits, consumed);
      Exhausted(limits, consumed, (now - startedAt) * 1000.0)
    }

    /** Unreadable entries of the carrier are skipped; the clock and the limits stay. */
    method Merge(other: Carrier)
      modifies this`consumed
      ensures consumed == Join(old(consumed), NumbersOf(other.consumed))
      ensures SomethingSpent(limits, old(consumed)) ==> SomethingSpent(limits, consumed)
    {
      var pending := other.consumed.Keys;
      ghost var done: Ledger := map[];
      assert Join(consumed, done) == consumed;
      while pending != {}
        invariant pending <= other.consumed.Keys
        invariant Visited(other.consumed, pending, done)
        invariant consumed == Join(old(consumed), done)
        decreases pending
      {
        var key :| key in pending;
        pending := pending - {key};
        match other.consumed[key] {
          case Number(v) =>
            JoinOne(old(consumed), done, key, v);
            done := done[key := v];
            consumed := consumed[key := Max(Used(consumed, key), v)];
          case NotANumber =>
        }
      }
      assert done == NumbersOf(other.consumed);
      if SomethingSpent(limits, old(consumed)) {
        SpentStays(limits, old(consumed), consumed);
      }
    }

    method ToDict() returns (c: Carrier)
      ensures c == Encode(State())
    {
      c := Carrier(Some(Number(limits.wallTimeMs)), Some(Number(limits.graphSteps as real)),
                   Some(Number(limits.replans as real)), Some(Number(limits.recoveryAttempts as real)),
                   Some(Number(limits.llmCalls as real)), Some(Number(limits.toolCalls as real)),
                   Some(Number(limits.costUsd)), Some(Number(startedAt)),
                   map k | k in consumed :: Number(consumed[k]));
    }
  }

  method BudgetFromState(carrier: Option<Carrier>, now: real) returns (b: ReasoningBudget)
    ensures fresh(b) && b.State() == Decode(carrier, now)
  {
    b := new ReasoningBudget(Decode(carrier, now));
  }
}
