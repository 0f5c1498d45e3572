/** What the budget enforces, and where concurrent copies of it stop enforcing it. */
module BudgetTheorems {
  import opened Options
  import opened Budget

  datatype Op = Reserving(key: Key, amount: real) | Settling(actual: real)

  function Apply(l: Limits, ledger: Ledger, op: Op): Ledger {
    match op
    case Reserving(key, amount) => Reserve(l, ledger, key, amount)
    case Settling(actual) => Settle(ledger, actual)
  }

  function Verdict(l: Limits, ledger: Ledger, op: Op): bool {
    match op
    case Reserving(key, amount) => Granted(l, ledger, key, amount)
    case Settling(_) => true
  }

  function Run(l: Limits, ledger: Ledger, ops: seq<Op>): Ledger
    decreases |ops|
  {
    if ops == [] then ledger else Run(l, Apply(l, ledger, ops[0]), ops[1..])
  }

  function Verdicts(l: Limits, ledger: Ledger, ops: seq<Op>): seq<bool>
    decreases |ops|
  {
    if ops == [] then [] else [Verdict(l, ledger, ops[0])] + Verdicts(l, Apply(l, ledger, ops[0]), ops[1..])
  }

  lemma Regroup(a: seq<bool>, b: seq<bool>, c: seq<bool>)
    ensures (a + b) + c == a + (b + c)
  {
  }

  lemma {:induction false} RunAppend(l: Limits, ledger: Ledger, a: seq<Op>, b: seq<Op>)
    ensures Run(l, ledger, a + b) == Run(l, Run(l, ledger, a), b)
    ensures Verdicts(l, ledger, a + b) == Verdicts(l, ledger, a) + Verdicts(l, Run(l, ledger, a), b)
    decreases |a|
  {
    if a == [] {
      assert a + b == b;
    } else {
      var next := Apply(l, ledger, a[0]);
      RunAppend(l, next, a[1..], b);
      assert (a + b)[0] == a[0] && (a + b)[1..] == a[1..] + b;
      Regroup([Verdict(l, ledger, a[0])], Verdicts(l, next, a[1..]), Verdicts(l, Run(l, next, a[1..]), b));
    }
  }

  // ------------------------------------------------------------------
  // Interleavings
  // ------------------------------------------------------------------

  predicate Touches(op: Op, key: Key) {
    match op
    case Reserving(k, _) => k == key
    case Settling(_) => key == CostUsd
  }

  function Calls(ops: seq<Op>, key: Key): nat {
    if ops == [] then 0 else (if Touches(ops[0], key) then 1 else 0) + Calls(ops[1..], key)
  }

  /** How many operations on `key` are granted. */
  function Grants(l: Limits, ledger: Ledger, ops: seq<Op>, key: Key): nat
    decreases |ops|
  {
    if ops == [] then 0 else
      (if Touches(ops[0], key) && Verdict(l, ledger, ops[0]) then 1 else 0)
      + Grants(l, Apply(l, ledger, ops[0]), ops[1..], key)
  }

  /** Every operation on `key` reserves exactly one unit. */
  predicate UnitCalls(ops: seq<Op>, key: Key) {
    forall i | 0 <= i < |ops| && Touches(ops[i], key) :: ops[i] == Reserving(key, 1.0)
  }

  lemma OtherKeysUntouched(l: Limits, ledger: Ledger, op: Op, key: Key)
    requires !Touches(op, key)
    ensures Used(Apply(l, ledger, op), key) == Used(ledger, key)
    ensures key in Apply(l, ledger, op) <==> key in ledger
  {
  }

  function Least(a: int, b: int): int {
    if a <= b then a else b
  }

  lemma OneUnit(l: Limits, ledger: Ledger, op: Op, key: Key, limit: int, used: int)
    requires LimitOf(l, key) == Some(limit as real) && Used(ledger, key) == used as real && used <= limit
    requires op == Reserving(key, 1.0)
    ensures Verdict(l, ledger, op) <==> used < limit
    ensures Used(Apply(l, ledger, op), key) == (if used < limit then used + 1 else used) as real
  {
    assert used as real + 1.0 == (used + 1) as real;
  }

  /** However `n` unit reservations of a key are interleaved with work on other keys, exactly
      min(n, limit - used) of them are granted, and the ledger records just those. */
  lemma {:induction false} UnitReservations(l: Limits, ledger: Ledger, ops: seq<Op>, key: Key, limit: int, used: int)
    requires LimitOf(l, key) == Some(limit as real) && Used(ledger, key) == used as real && used <= limit
    requires UnitCalls(ops, key)
    ensures Grants(l, ledger, ops, key) == Least(Calls(ops, key), limit - used)
    ensures Used(Run(l, ledger, ops), key) == (used + Grants(l, ledger, ops, key)) as real
    decreases |ops|
  {
    if ops != [] {
      var next := Apply(l, ledger, ops[0]);
      if Touches(ops[0], key) {
        OneUnit(l, ledger, ops[0], key, limit, used);
        if used < limit {
          UnitReservations(l, next, ops[1..], key, limit, used + 1);
        } else {
          UnitReservations(l, next, ops[1..], key, limit, used);
        }
      } else {
        OtherKeysUntouched(l, ledger, ops[0], key);
        UnitReservations(l, next, ops[1..], key, limit, used);
      }
    }
  }

  /** The operations on one key, in order. */
  function Only(ops: seq<Op>, key: Key): seq<Op> {
    if ops == [] then [] else (if Touches(ops[0], key) then [ops[0]] else []) + Only(ops[1..], key)
  }

  lemma OnlyNext(ops: seq<Op>, key: Key)
    requires ops != []
    ensures Touches(ops[0], key) ==> Only(ops, key) != [] && Only(ops, key)[0] == ops[0] && Only(ops, key)[1..] == Only(ops[1..], key)
    ensures !Touches(ops[0], key) ==> Only(ops, key) == Only(ops[1..], key)
  {
  }

  lemma SameOnKey(l: Limits, a: Ledger, b: Ledger, op: Op, key: Key)
    requires Touches(op, key) && Used(a, key) == Used(b, key)
    ensures Used(Apply(l, a, op), key) == Used(Apply(l, b, op), key)
    ensures Verdict(l, a, op) == Verdict(l, b, op)
  {
  }

  /** Keys do not interfere: what is granted and recorded for one depends only on the
      operations on it, whatever the others do in between. */
  lemma {:induction false} KeysDoNotInterfere(l: Limits, a: Ledger, b: Ledger, ops: seq<Op>, key: Key)
    requires Used(a, key) == Used(b, key)
    ensures Used(Run(l, a, ops), key) == Used(Run(l, b, Only(ops, key)), key)
    ensures Grants(l, a, ops, key) == Grants(l, b, Only(ops, key), key)
    decreases |ops|
  {
    if ops != [] {
      if Touches(ops[0], key) {
        SameOnKey(l, a, b, ops[0], key);
        OnlyNext(ops, key);
        KeysDoNotInterfere(l, Apply(l, a, ops[0]), Apply(l, b, ops[0]), ops[1..], key);
      } else {
        OtherKeysUntouched(l, a, ops[0], key);
        OnlyNext(ops, key);
        KeysDoNotInterfere(l, Apply(l, a, ops[0]), b, ops[1..], key);
      }
    }
  }

  // ------------------------------------------------------------------
  // The order of ledgers
  // ------------------------------------------------------------------

  predicate NonNegative(ledger: Ledger) {
    forall k | k in ledger :: ledger[k] >= 0.0
  }

  predicate NonNegativeOp(op: Op) {
    op.Reserving? ==> op.amount >= 0.0
  }

  lemma {:induction false} RunRaises(l: Limits, ledger: Ledger, ops: seq<Op>)
    requires forall op | op in ops :: NonNegativeOp(op)
    ensures Below(ledger, Run(l, ledger, ops)) && ledger.Keys <= Run(l, ledger, ops).Keys
    ensures NonNegative(ledger) ==> NonNegative(Run(l, ledger, ops))
    decreases |ops|
  {
    if ops != [] {
      assert NonNegativeOp(ops[0]);
      RunRaises(l, Apply(l, ledger, ops[0]), ops[1..]);
      assert Below(ledger, Apply(l, ledger, ops[0]));
    }
  }

  /** Once a ledger dimension is exhausted it stays so under every later reservation,
      settlement and merge, and `exceeded` reports at whatever time it is asked. */
  lemma ExhaustionIsFinal(l: Limits, ledger: Ledger, ops: seq<Op>, other: Ledger)
    requires SomethingSpent(l, ledger) && forall op | op in ops :: NonNegativeOp(op)
    ensures SomethingSpent(l, Run(l, ledger, ops))
    ensures SomethingSpent(l, Join(ledger, other))
    ensures forall elapsed :: Exhausted(l, ledger, elapsed).Some?
  {
    RunRaises(l, ledger, ops);
    SpentStays(l, ledger, Run(l, ledger, ops));
    SpentStays(l, ledger, Join(ledger, other));
    FirstSpentIff(l, ledger);
  }

  /** One dimension: it stays exhausted exactly when the amount does not take it below its limit. */
  lemma StaysSpentIff(l: Limits, ledger: Ledger, key: Key, amount: real)
    requires LimitOf(l, key).Some? && Used(ledger, key) >= LimitOf(l, key).value
    ensures Used(Reserve(l, ledger, key, amount), key) >= LimitOf(l, key).value
            <==> Used(ledger, key) + amount >= LimitOf(l, key).value
  {
  }

  lemma OtherKeysStay(l: Limits, ledger: Ledger, key: Key, amount: real, other: Key)
    requires other != key || LimitOf(l, key).None?
    ensures IsSpent(l, Reserve(l, ledger, key, amount), other) <==> IsSpent(l, ledger, other)
  {
  }

  /** The whole ledger: a reservation clears the exhaustion exactly when it is on the only spent
      dimension, that dimension is recorded at all, and the amount takes it below its limit. */
  lemma ReservationReopensIff(l: Limits, ledger: Ledger, key: Key, amount: real)
    requires SomethingSpent(l, ledger)
    ensures !SomethingSpent(l, Reserve(l, ledger, key, amount)) <==>
              && IsSpent(l, ledger, key) && (forall k | IsSpent(l, ledger, k) :: k == key)
              && key != Recovery && Used(ledger, key) + amount < WatchedLimit(l, key).value
  {
    var after := Reserve(l, ledger, key, amount);
    if !SomethingSpent(l, after) {
      forall k | IsSpent(l, ledger, k)
        ensures k == key && LimitOf(l, key).Some?
      {
        if k != key || LimitOf(l, key).None? {
          OtherKeysStay(l, ledger, key, amount, k);
        }
      }
      assert !IsSpent(l, after, key);
      StaysSpentIff(l, ledger, key, amount);
    } else if IsSpent(l, ledger, key) && key != Recovery {
      var k :| IsSpent(l, after, k);
      StaysSpentIff(l, ledger, key, amount);
      if k != key {
        OtherKeysStay(l, ledger, key, amount, k);
      }
    }
  }

  /** Giving back one call of thirty used up by default. */
  lemma NegativeReservationReopens(ledger: Ledger)
    requires ledger == map[LlmCalls := 30.0]
    ensures SomethingSpent(DEFAULTS, ledger) && !SomethingSpent(DEFAULTS, Reserve(DEFAULTS, ledger, LlmCalls, -1.0))
  {
    assert IsSpent(DEFAULTS, ledger, LlmCalls);
    ReservationReopensIff(DEFAULTS, ledger, LlmCalls, -1.0);
  }

  /** What no limit is named after is always granted and never recorded. */
  lemma {:induction false} UnlimitedNeverRecorded(l: Limits, ledger: Ledger, ops: seq<Op>, key: Key)
    requires LimitOf(l, key).None?
    ensures Used(Run(l, ledger, ops), key) == Used(ledger, key)
    ensures Grants(l, ledger, ops, key) == Calls(ops, key)
    decreases |ops|
  {
    if ops != [] {
      UnlimitedNeverRecorded(l, Apply(l, ledger, ops[0]), ops[1..], key);
    }
  }

  /** The recovery dimension never fills up: asking for it is always granted and never
      recorded, because no limit carries its name. */
  lemma RecoveryNeverRecorded(l: Limits, ledger: Ledger, ops: seq<Op>)
    ensures Used(Run(l, ledger, ops), Recovery) == Used(ledger, Recovery)
    ensures Grants(l, ledger, ops, Recovery) == Calls(ops, Recovery)
  {
    UnlimitedNeverRecorded(l, ledger, ops, Recovery);
  }

  // ------------------------------------------------------------------
  // Which dimension is reported
  // ------------------------------------------------------------------

  /** The order in which `exceeded` looks at the dimensions. */
  function Rank(key: Key): nat {
    match key
    case GraphSteps => 0
    case Replans => 1
    case Recovery => 2
    case LlmCalls => 3
    case ToolCalls => 4
    case CostUsd => 5
    case _ => 6
  }

  lemma RankIs(l: Limits)
    ensures |Watched(l)| == 6 && forall i | 0 <= i < 6 :: Rank(Watched(l)[i].0) == i
    ensures forall k | Rank(k) < 6 :: k == Watched(l)[Rank(k)].0
  {
    var w := Watched(l);
    assert w[0].0 == GraphSteps && w[1].0 == Replans && w[2].0 == Recovery;
    assert w[3].0 == LlmCalls && w[4].0 == ToolCalls && w[5].0 == CostUsd;
  }

  /** A spent dimension is reported exactly while the wall time lasts and no dimension before it
      is spent too. */
  lemma ReportedIff(l: Limits, ledger: Ledger, elapsed: real, key: Key)
    ensures Exhausted(l, ledger, elapsed) == Some(Spent(key)) <==>
              elapsed <= l.wallTimeMs && IsSpent(l, ledger, key) && forall k | Rank(k) < Rank(key) :: !IsSpent(l, ledger, k)
  {
    var w := Watched(l);
    RankIs(l);
    FirstSpentIff(l, ledger);
    WatchedIs(l, key);
    if FirstSpent(w, ledger).Some? {
      var i: nat :| FirstAt(w, ledger, i) && FirstSpent(w, ledger).value == Spent(w[i].0);
      assert Rank(w[i].0) == i && IsSpent(l, ledger, w[i].0);
      forall k | Rank(k) < i
        ensures !IsSpent(l, ledger, k)
      {
        assert w[Rank(k)].0 == k;
      }
    } else if IsSpent(l, ledger, key) {
      assert SomethingSpent(l, ledger);
    }
  }

  /** A settlement is added to the reservation made for the same call: the ledger shows the
      actual cost alone only if nothing was reserved for it. */
  lemma SettlementIsAdded(l: Limits, ledger: Ledger, estimate: real, actual: real)
    requires estimate >= 0.0 && actual > 0.0 && Granted(l, ledger, CostUsd, estimate)
    ensures Used(Run(l, ledger, [Reserving(CostUsd, estimate), Settling(actual)]), CostUsd) == Used(ledger, CostUsd) + actual
            <==> estimate == 0.0
  {
    var ops := [Reserving(CostUsd, estimate), Settling(actual)];
    var reserved := Reserve(l, ledger, CostUsd, estimate);
    assert ops[1..] == [Settling(actual)] && ops[1..][1..] == [];
    assert Run(l, ledger, ops) == Run(l, reserved, ops[1..]) == Run(l, Settle(reserved, actual), ops[1..][1..]);
    assert Used(reserved, CostUsd) == Used(ledger, CostUsd) + estimate;
  }

  // ------------------------------------------------------------------
  // Merging is the least upper bound
  // ------------------------------------------------------------------

  lemma JoinIsLeastUpperBound(a: Ledger, b: Ledger, c: Ledger)
    requires NonNegative(a) && NonNegative(b) && NonNegative(c)
    ensures Below(a, Join(a, b)) && Below(b, Join(a, b))
    ensures Below(a, c) && Below(b, c) <==> Below(Join(a, b), c)
  {
  }

  lemma JoinCommutes(a: Ledger, b: Ledger)
    requires NonNegative(a) && NonNegative(b)
    ensures Join(a, b) == Join(b, a)
  {
  }

  lemma JoinAssociates(a: Ledger, b: Ledger, c: Ledger)
    requires NonNegative(a) && NonNegative(b) && NonNegative(c)
    ensures Join(Join(a, b), c) == Join(a, Join(b, c))
  {
  }

  lemma JoinIdempotent(a: Ledger)
    ensures Join(a, a) == a
  {
  }

  lemma JoinUsed(a: Ledger, b: Ledger, k: Key)
    requires NonNegative(a) && NonNegative(b)
    ensures Used(Join(a, b), k) == Max(Used(a, k), Used(b, k))
    ensures NonNegative(Join(a, b))
  {
  }

  /** A runner that has seen the ledger a node started from ends up with the node's ledger. */
  lemma MergeBackIsExact(l: Limits, ledger: Ledger, ops: seq<Op>)
    requires NonNegative(ledger) && forall op | op in ops :: NonNegativeOp(op)
    ensures Join(ledger, Run(l, ledger, ops)) == Run(l, ledger, ops)
  {
    var after := Run(l, ledger, ops);
    RunRaises(l, ledger, ops);
    assert Join(ledger, after).Keys == after.Keys;
    forall k | k in after
      ensures Join(ledger, after)[k] == after[k]
    {
      assert Used(ledger, k) <= Used(after, k);
    }
  }

  // ------------------------------------------------------------------
  // Forks
  // ------------------------------------------------------------------

  /** Ledgers forked from `base`, one for each list of operations, merged into `runner` in turn. */
  function MergeForks(l: Limits, base: Ledger, runner: Ledger, forks: seq<seq<Op>>): Ledger
    decreases |forks|
  {
    if forks == [] then runner else MergeForks(l, base, Join(runner, Run(l, base, forks[0])), forks[1..])
  }

  /** What each fork spends on `key`. */
  function Spends(l: Limits, base: Ledger, forks: seq<seq<Op>>, key: Key): seq<real> {
    if forks == [] then [] else
      [Used(Run(l, base, forks[0]), key) - Used(base, key)] + Spends(l, base, forks[1..], key)
  }

  function Total(spends: seq<real>): real {
    if spends == [] then 0.0 else spends[0] + Total(spends[1..])
  }

  function Largest(spends: seq<real>): real {
    if spends == [] then 0.0 else Max(spends[0], Largest(spends[1..]))
  }

  lemma {:induction false} LargestNonNegative(spends: seq<real>)
    ensures Largest(spends) >= 0.0
  {
    if spends != [] {
      LargestNonNegative(spends[1..]);
    }
  }

  predicate NonNegativeOps(ops: seq<Op>) {
    forall op | op in ops :: NonNegativeOp(op)
  }

  lemma {:induction false} SpendsNonNegative(l: Limits, base: Ledger, forks: seq<seq<Op>>, key: Key)
    requires forall ops | ops in forks :: NonNegativeOps(ops)
    ensures forall i | 0 <= i < |Spends(l, base, forks, key)| :: Spends(l, base, forks, key)[i] >= 0.0
    decreases |forks|
  {
    if forks != [] {
      assert NonNegativeOps(forks[0]);
      RunRaises(l, base, forks[0]);
      assert Used(base, key) <= Used(Run(l, base, forks[0]), key);
      SpendsNonNegative(l, base, forks[1..], key);
    }
  }

  lemma SpendsCons(l: Limits, base: Ledger, forks: seq<seq<Op>>, key: Key)
    requires forks != []
    ensures Largest(Spends(l, base, forks, key)) ==
            Max(Used(Run(l, base, forks[0]), key) - Used(base, key), Largest(Spends(l, base, forks[1..], key)))
  {
  }

  /** Merging the forks records the largest spend, not the sum. */
  lemma {:induction false} MergeRecordsLargest(l: Limits, base: Ledger, runner: Ledger, forks: seq<seq<Op>>, key: Key)
    requires NonNegative(base) && NonNegative(runner) && forall ops | ops in forks :: NonNegativeOps(ops)
    requires Used(base, key) <= Used(runner, key)
    ensures Used(MergeForks(l, base, runner, forks), key) ==
            Max(Used(runner, key), Used(base, key) + Largest(Spends(l, base, forks, key)))
    decreases |forks|
  {
    if forks != [] {
      var fork := Run(l, base, forks[0]);
      assert NonNegativeOps(forks[0]);
      RunRaises(l, base, forks[0]);
      JoinUsed(runner, fork, key);
      MergeRecordsLargest(l, base, Join(runner, fork), forks[1..], key);
      SpendsCons(l, base, forks, key);
    }
  }

  /** No two entries are positive. */
  predicate AtMostOnePositive(spends: seq<real>) {
    forall i, j | 0 <= i < j < |spends| :: spends[i] == 0.0 || spends[j] == 0.0
  }

  lemma {:induction false} LargestIsTotalIff(spends: seq<real>)
    requires forall i | 0 <= i < |spends| :: spends[i] >= 0.0
    ensures 0.0 <= Largest(spends) <= Total(spends)
    ensures Largest(spends) == 0.0 <==> forall i | 0 <= i < |spends| :: spends[i] == 0.0
    ensures Largest(spends) == Total(spends) <==> AtMostOnePositive(spends)
  {
    if spends != [] {
      var rest := spends[1..];
      assert forall i | 0 <= i < |rest| :: rest[i] == spends[i + 1];
      LargestIsTotalIff(rest);
      assert forall i | 1 <= i < |spends| :: spends[i] == rest[i - 1];
      assert AtMostOnePositive(spends) <==>
             AtMostOnePositive(rest) && (spends[0] == 0.0 || forall i | 0 <= i < |rest| :: rest[i] == 0.0);
    }
  }

  lemma MergedLedger(l: Limits, base: Ledger, forks: seq<seq<Op>>, key: Key)
    requires NonNegative(base) && forall ops | ops in forks :: NonNegativeOps(ops)
    ensures Used(MergeForks(l, base, base, forks), key) == Used(base, key) + Largest(Spends(l, base, forks, key))
    ensures forall i | 0 <= i < |Spends(l, base, forks, key)| :: Spends(l, base, forks, key)[i] >= 0.0
  {
    MergeRecordsLargest(l, base, base, forks, key);
    SpendsNonNegative(l, base, forks, key);
    LargestNonNegative(Spends(l, base, forks, key));
  }

  /** The merged ledger tells the true spend exactly when at most one fork spent on the key. */
  lemma MergeExactIff(l: Limits, base: Ledger, forks: seq<seq<Op>>, key: Key)
    requires NonNegative(base) && forall ops | ops in forks :: NonNegativeOps(ops)
    ensures Used(MergeForks(l, base, base, forks), key) == Used(base, key) + Total(Spends(l, base, forks, key))
            <==> AtMostOnePositive(Spends(l, base, forks, key))
  {
    MergedLedger(l, base, forks, key);
    LargestIsTotalIff(Spends(l, base, forks, key));
  }

  /** Nothing is settled on `key`: settlements are recorded past the limit. */
  predicate ReservesOnly(ops: seq<Op>, key: Key) {
    forall i | 0 <= i < |ops| && Touches(ops[i], key) :: ops[i].Reserving?
  }

  lemma {:induction false} RunWithinLimit(l: Limits, ledger: Ledger, ops: seq<Op>, key: Key)
    requires LimitOf(l, key).Some? && Used(ledger, key) <= LimitOf(l, key).value
    requires ReservesOnly(ops, key)
    ensures Used(Run(l, ledger, ops), key) <= LimitOf(l, key).value
    decreases |ops|
  {
    if ops != [] {
      assert ReservesOnly(ops[1..], key);
      RunWithinLimit(l, Apply(l, ledger, ops[0]), ops[1..], key);
    }
  }

  /** `left` for each of `n`. */
  function Times(n: nat, left: real): real {
    if n == 0 then 0.0 else left + Times(n - 1, left)
  }

  lemma {:induction false} TimesIsProduct(n: nat, left: real)
    ensures Times(n, left) == n as real * left
  {
    if n > 0 {
      TimesIsProduct(n - 1, left);
      assert n as real * left == (n - 1) as real * left + left;
    }
  }

  /** Forks can spend at most what was left when they forked, once for each fork. */
  lemma {:induction false} ForksSpendAtMost(l: Limits, base: Ledger, forks: seq<seq<Op>>, key: Key)
    requires LimitOf(l, key).Some? && Used(base, key) <= LimitOf(l, key).value
    requires forall ops | ops in forks :: ReservesOnly(ops, key)
    ensures Total(Spends(l, base, forks, key)) <= Times(|forks|, LimitOf(l, key).value - Used(base, key))
    decreases |forks|
  {
    if forks != [] {
      assert forks[0] in forks;
      RunWithinLimit(l, base, forks[0], key);
      ForksSpendAtMost(l, base, forks[1..], key);
    }
  }

  /** What the forks are granted together when each may still take `left`. */
  function GrantsInAll(forks: seq<seq<Op>>, key: Key, left: int): int {
    if forks == [] then 0 else Least(Calls(forks[0], key), left) + GrantsInAll(forks[1..], key, left)
  }

  lemma {:induction false} ForkedUnits(l: Limits, base: Ledger, forks: seq<seq<Op>>, key: Key, limit: int, used: int)
    requires LimitOf(l, key) == Some(limit as real) && Used(base, key) == used as real && used <= limit
    requires forall ops | ops in forks :: UnitCalls(ops, key)
    ensures Total(Spends(l, base, forks, key)) == GrantsInAll(forks, key, limit - used) as real
    decreases |forks|
  {
    if forks != [] {
      assert forks[0] in forks;
      ForkedUnits(l, base, forks[1..], key, limit, used);
      UnitReservations(l, base, forks[0], key, limit, used);
    }
  }

  /** Reserving before executing does not keep concurrent copies of the budget inside the
      limit: for unit reservations they stay inside it exactly when the calls each fork may
      still make, added up over the forks, fit into what was left. */
  lemma ForksStayWithinLimitIff(l: Limits, base: Ledger, forks: seq<seq<Op>>, key: Key, limit: int, used: int)
    requires LimitOf(l, key) == Some(limit as real) && Used(base, key) == used as real && used <= limit
    requires forall ops | ops in forks :: UnitCalls(ops, key)
    ensures Used(base, key) + Total(Spends(l, base, forks, key)) <= limit as real <==>
              GrantsInAll(forks, key, limit - used) <= limit - used
  {
    ForkedUnits(l, base, forks, key, limit, used);
    assert Used(base, key) + Total(Spends(l, base, forks, key)) == (used + GrantsInAll(forks, key, limit - used)) as real;
  }

  // ------------------------------------------------------------------
  // Threading the budget through the carrier
  // ------------------------------------------------------------------

  lemma EncodeDecode(s: Snapshot, now: real)
    ensures Decode(Some(Encode(s)), now) == s
  {
    assert NumbersOf(Encode(s).consumed) == s.consumed;
  }

  /** The carrier entry that bears a key's name. */
  function EntryOf(c: Carrier, key: Key): Option<Scalar> {
    match key
    case WallTimeMs => c.wallTimeMs
    case GraphSteps => c.graphSteps
    case Replans => c.replans
    case RecoveryAttempts => c.recoveryAttempts
    case LlmCalls => c.llmCalls
    case ToolCalls => c.toolCalls
    case CostUsd => c.costUsd
    case _ => None
  }

  /** The limit of a key is what the carrier shows under its name. */
  lemma LimitsAreCarried(s: Snapshot, key: Key)
    ensures LimitOf(s.limits, key).Some? <==> EntryOf(Encode(s), key).Some?
    ensures LimitOf(s.limits, key).Some? ==> EntryOf(Encode(s), key) == Some(Number(LimitOf(s.limits, key).value))
  {
  }

  /** A missing entry takes its default and leaves the others alone. */
  lemma MissingEntries(s: Snapshot, now: real)
    ensures var c := Encode(s);
            && Decode(Some(c.(wallTimeMs := None)), now) == s.(limits := s.limits.(wallTimeMs := 120000.0))
            && Decode(Some(c.(graphSteps := None)), now) == s.(limits := s.limits.(graphSteps := 50))
            && Decode(Some(c.(replans := None)), now) == s.(limits := s.limits.(replans := 4))
            && Decode(Some(c.(recoveryAttempts := None)), now) == s.(limits := s.limits.(recoveryAttempts := 3))
            && Decode(Some(c.(llmCalls := None)), now) == s.(limits := s.limits.(llmCalls := 30))
            && Decode(Some(c.(toolCalls := None)), now) == s.(limits := s.limits.(toolCalls := 40))
            && Decode(Some(c.(costUsd := None)), now) == s.(limits := s.limits.(costUsd := 1.0))
            && Decode(Some(c.(startedAt := None)), now) == s.(startedAt := now)
            && Decode(Some(c.(consumed := map[])), now) == s.(consumed := map[])
  {
    EncodeDecode(s, now);
    assert NumbersOf(Encode(s).consumed) == s.consumed;
    assert NumbersOf(map[]) == map[];
  }

  /** Without a carrier, or with an entry that is no number, the budget is a fresh default one. */
  lemma UnreadableCarrier(carrier: Option<Carrier>, now: real)
    ensures (carrier.None? || exists key :: EntryOf(carrier.value, key) == Some(NotANumber)) ==>
              Decode(carrier, now) == Snapshot(Limits(120000.0, 50, 4, 3, 30, 40, 1.0), now, map[])
    ensures carrier.Some?
            && (carrier.value.startedAt == Some(NotANumber)
                || exists k :: k in carrier.value.consumed && carrier.value.consumed[k] == NotANumber) ==>
              Decode(carrier, now) == Snapshot(Limits(120000.0, 50, 4, 3, 30, 40, 1.0), now, map[])
  {
  }

  /** A limit given as a fraction is cut towards zero. */
  lemma TruncateIs(r: real)
    ensures r >= 0.0 ==> Truncate(r) as real <= r < Truncate(r) as real + 1.0
    ensures Truncate(-r) == -Truncate(r)
  {
    if r == 0.0 {
      assert -r == r;
    }
  }

  /** One node: rebuild the budget from the carrier, work with it, hand the carrier on. */
  method NodeVisit(carrier: Option<Carrier>, now: real, ops: seq<Op>) returns (next: Carrier, verdicts: seq<bool>)
    ensures var s := Decode(carrier, now);
            && next == Encode(s.(consumed := Run(s.limits, s.consumed, ops)))
            && verdicts == Verdicts(s.limits, s.consumed, ops)
  {
    ghost var s := Decode(carrier, now);
    var budget := BudgetFromState(carrier, now);
    assert budget.State() == s;
    verdicts := [];
    var i := 0;
    while i < |ops|
      invariant 0 <= i <= |ops|
      invariant budget.limits == s.limits && budget.startedAt == s.startedAt
      invariant budget.consumed == Run(s.limits, s.consumed, ops[..i])
      invariant verdicts == Verdicts(s.limits, s.consumed, ops[..i])
      decreases |ops| - i
    {
      assert ops[..i + 1] == ops[..i] + [ops[i]];
      RunAppend(s.limits, s.consumed, ops[..i], [ops[i]]);
      match ops[i] {
        case Reserving(key, amount) =>
          var ok := budget.Consume(key, amount);
          verdicts := verdicts + [ok];
        case Settling(actual) =>
          budget.SettleCost(actual);
          verdicts := verdicts + [true];
      }
      i := i + 1;
    }
    assert ops[..|ops|] == ops;
    next := budget.ToDict();
  }

  /** What one node leaves in the carrier. */
  function CarrierAfter(carrier: Carrier, now: real, ops: seq<Op>): Carrier {
    var s := Decode(Some(carrier), now);
    Encode(s.(consumed := Run(s.limits, s.consumed, ops)))
  }

  function VerdictsAt(carrier: Carrier, now: real, ops: seq<Op>): seq<bool> {
    var s := Decode(Some(carrier), now);
    Verdicts(s.limits, s.consumed, ops)
  }

  datatype NodeWork = NodeWork(now: real, ops: seq<Op>)

  /** The carrier, the verdicts and the runner's ledger after the nodes ran one after another;
      the runner merges every carrier it sees. */
  datatype Threaded = Threaded(carrier: Carrier, verdicts: seq<bool>, runner: Ledger)

  function Thread(start: Threaded, nodes: seq<NodeWork>): Threaded
    decreases |nodes|
  {
    if nodes == [] then start else
      var next := CarrierAfter(start.carrier, nodes[0].now, nodes[0].ops);
      Thread(Threaded(next,
                      start.verdicts + VerdictsAt(start.carrier, nodes[0].now, nodes[0].ops),
                      Join(start.runner, NumbersOf(next.consumed))),
             nodes[1..])
  }

  function AllOps(nodes: seq<NodeWork>): seq<Op> {
    if nodes == [] then [] else nodes[0].ops + AllOps(nodes[1..])
  }

  /** One node on a carrier that holds `s`: the runner that had `s` too ends with the same ledger. */
  lemma OneNode(s: Snapshot, now: real, ops: seq<Op>)
    requires NonNegative(s.consumed) && forall op | op in ops :: NonNegativeOp(op)
    ensures var next := s.(consumed := Run(s.limits, s.consumed, ops));
            && CarrierAfter(Encode(s), now, ops) == Encode(next)
            && VerdictsAt(Encode(s), now, ops) == Verdicts(s.limits, s.consumed, ops)
            && Join(s.consumed, NumbersOf(Encode(next).consumed)) == next.consumed
            && NonNegative(next.consumed)
  {
    EncodeDecode(s, now);
    EncodeDecode(s.(consumed := Run(s.limits, s.consumed, ops)), now);
    RunRaises(s.limits, s.consumed, ops);
    MergeBackIsExact(s.limits, s.consumed, ops);
  }

  lemma ThreadOne(s: Snapshot, nodes: seq<NodeWork>, verdicts: seq<bool>)
    requires nodes != [] && NonNegative(s.consumed) && forall op | op in nodes[0].ops :: NonNegativeOp(op)
    ensures var next := s.(consumed := Run(s.limits, s.consumed, nodes[0].ops));
            && NonNegative(next.consumed)
            && Thread(Threaded(Encode(s), verdicts, s.consumed), nodes) ==
               Thread(Threaded(Encode(next), verdicts + Verdicts(s.limits, s.consumed, nodes[0].ops), next.consumed), nodes[1..])
  {
    OneNode(s, nodes[0].now, nodes[0].ops);
  }

  lemma AllOpsSplit(nodes: seq<NodeWork>)
    requires nodes != [] && forall op | op in AllOps(nodes) :: NonNegativeOp(op)
    ensures AllOps(nodes) == nodes[0].ops + AllOps(nodes[1..])
    ensures forall op | op in nodes[0].ops :: NonNegativeOp(op)
    ensures forall op | op in AllOps(nodes[1..]) :: NonNegativeOp(op)
  {
  }

  /** Rebuilding the budget at every node is the same as sharing one object: same verdicts,
      same ledger, same start of the clock, and the runner's copy never falls behind. */
  lemma {:induction false} ThreadingIsSharing(s: Snapshot, nodes: seq<NodeWork>, verdicts: seq<bool>)
    requires NonNegative(s.consumed) && forall op | op in AllOps(nodes) :: NonNegativeOp(op)
    ensures var shared := Run(s.limits, s.consumed, AllOps(nodes));
            Thread(Threaded(Encode(s), verdicts, s.consumed), nodes) ==
            Threaded(Encode(s.(consumed := shared)), verdicts + Verdicts(s.limits, s.consumed, AllOps(nodes)), shared)
    decreases |nodes|
  {
    if nodes == [] {
      assert verdicts + [] == verdicts;
    } else {
      var ops, rest := nodes[0].ops, AllOps(nodes[1..]);
      AllOpsSplit(nodes);
      ThreadOne(s, nodes, verdicts);
      var next, own := s.(consumed := Run(s.limits, s.consumed, ops)), Verdicts(s.limits, s.consumed, ops);
      ThreadingIsSharing(next, nodes[1..], verdicts + own);
      RunAppend(s.limits, s.consumed, ops, rest);
      Regroup(verdicts, own, Verdicts(s.limits, next.consumed, rest));
    }
  }
}
