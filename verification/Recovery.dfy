/** RecoveryManager and the node that feeds it: every failure set gets one strategy. */
module Recovery {
  import opened Text

  datatype Action = Retry | SelfHeal | Replan | Fail

  datatype Decision = Decision(action: Action, round: int)

  datatype Failure = Failure(taskId: string, status: string)

  predicate IsDigits(s: string) {
    s != [] && forall i | 0 <= i < |s| :: '0' <= s[i] <= '9'
  }

  predicate IsStructural(f: Failure) {
    var status := Lower(f.status);
    if status == "timeout" || status == "rate_limited" then false
    else if status == "uncertain" then false
    else if IsDigits(status) && "5" <= status then false
    else status == "unavailable" || status == "tool_not_found"
  }

  predicate IsContract(f: Failure) {
    Lower(f.status) == "validation_error"
  }

  predicate AnyStructural(failures: seq<Failure>) {
    exists f | f in failures :: IsStructural(f)
  }

  predicate AnyContract(failures: seq<Failure>) {
    exists f | f in failures :: IsContract(f)
  }

  /** What the graph state tells the manager beside the failures. */
  datatype Situation = Situation(
    maxReplanRounds: int,
    replanRounds: int,
    retriesLeft: int,
    hasFallback: bool,
    approvalBlocked: bool,
    budgetViolated: bool,
    workflowOwned: bool)

  function Decide(failures: seq<Failure>, s: Situation): Decision {
    if s.workflowOwned then Decision(Fail, s.replanRounds)
    else if s.replanRounds >= s.maxReplanRounds then Decision(Fail, s.replanRounds)
    else if failures == [] && !s.approvalBlocked && !s.budgetViolated then Decision(Fail, 0)
    else if AnyStructural(failures) || s.approvalBlocked || s.budgetViolated then Decision(Replan, s.replanRounds + 1)
    else if AnyContract(failures) && s.hasFallback then Decision(SelfHeal, s.replanRounds)
    else if AnyContract(failures) then Decision(Replan, s.replanRounds + 1)
    else if s.retriesLeft > 0 then Decision(Retry, s.replanRounds)
    else Decision(Fail, s.replanRounds)
  }

  // ------------------------------------------------------------------
  // Collecting failures
  // ------------------------------------------------------------------

  datatype ToolResult = ToolResult(taskId: string, status: string)

  function FailedResults(results: seq<ToolResult>, k: nat): seq<Failure>
    requires k <= |results|
  {
    if k == 0 then [] else
      FailedResults(results, k - 1) +
      if results[k - 1].status != "success" then [Failure(results[k - 1].taskId, results[k - 1].status)] else []
  }

  /** Ids the validator rejected join as contract failures unless already known. */
  function ValidationFailures(known: set<string>, ids: seq<string>, k: nat): seq<Failure>
    requires k <= |ids|
  {
    if k == 0 then [] else
      ValidationFailures(known, ids, k - 1) +
      if ids[k - 1] != "" && ids[k - 1] !in known then [Failure(ids[k - 1], "validation_error")] else []
  }

  function KnownIds(failures: seq<Failure>): set<string> {
    set f | f in failures :: f.taskId
  }

  function Collected(results: seq<ToolResult>, rejected: seq<string>): seq<Failure> {
    var failed := FailedResults(results, |results|);
    failed + ValidationFailures(KnownIds(failed), rejected, |rejected|)
  }

  method CollectFailures(results: seq<ToolResult>, rejected: seq<string>) returns (failures: seq<Failure>)
    ensures failures == Collected(results, rejected)
  {
    failures := [];
    for k := 0 to |results|
      invariant failures == FailedResults(results, k)
    {
      if results[k].status != "success" {
        failures := failures + [Failure(results[k].taskId, results[k].status)];
      }
    }
    ghost var failed := failures;
    var knownIds := set f | f in failures :: f.taskId;
    for k := 0 to |rejected|
      invariant failures == failed + ValidationFailures(knownIds, rejected, k)
    {
      if rejected[k] != "" && rejected[k] !in knownIds {
        failures := failures + [Failure(rejected[k], "validation_error")];
      }
    }
  }

  // ------------------------------------------------------------------
  // Laws of the decision
  // ------------------------------------------------------------------

  /** Without fallback candidates nothing is healed; a replan needs rounds left and a run that
      no workflow owns. */
  lemma ReplanNeeds(failures: seq<Failure>, s: Situation)
    ensures !s.hasFallback ==> Decide(failures, s).action != SelfHeal
    ensures Decide(failures, s).action.Replan? ==> s.replanRounds < s.maxReplanRounds && !s.workflowOwned
  {
  }

  /** The decision does not depend on the order of the failures. */
  lemma DecisionIgnoresOrder(a: seq<Failure>, b: seq<Failure>, s: Situation)
    requires multiset(a) == multiset(b)
    ensures Decide(a, s) == Decide(b, s)
  {
    assert forall f :: f in a <==> f in multiset(a);
    assert forall f :: f in b <==> f in multiset(b);
    assert |a| == |multiset(a)| && |b| == |multiset(b)|;
  }

  /** More failures never weaken a replan into a retry, and never change a retry except into
      a healing or a replan. */
  lemma MoreFailuresNeverRelax(a: seq<Failure>, extra: seq<Failure>, s: Situation)
    ensures Decide(a, s).action == Replan ==> Decide(a + extra, s).action == Replan
    ensures Decide(a, s).action == Retry ==> Decide(a + extra, s).action in {Retry, SelfHeal, Replan}
    ensures Decide(a + extra, s).action == Retry && a != [] ==> Decide(a, s).action == Retry
  {
    assert forall f :: f in a + extra <==> f in a || f in extra;
  }

  /** The only failures ever retried: at least one, none structural, none a contract
      violation; everything else ("uncertain" included) is retried while retries are left. */
  lemma RetryIff(failures: seq<Failure>, s: Situation)
    ensures Decide(failures, s).action == Retry <==>
              && !s.workflowOwned && s.replanRounds < s.maxReplanRounds
              && !s.approvalBlocked && !s.budgetViolated
              && failures != [] && s.retriesLeft > 0
              && forall f | f in failures :: Lower(f.status) !in {"unavailable", "tool_not_found", "validation_error"}
  {
    assert AnyStructural(failures) <==> exists f | f in failures :: Lower(f.status) in {"unavailable", "tool_not_found"} by {
      forall f | f in failures
        ensures IsStructural(f) <==> Lower(f.status) in {"unavailable", "tool_not_found"}
      {
        StructuralIff(f);
      }
    }
  }

  /** Exactly when the manager asks for a new plan. */
  lemma ReplanIff(failures: seq<Failure>, s: Situation)
    requires !s.hasFallback
    ensures Decide(failures, s).action == Replan <==>
              && !s.workflowOwned && s.replanRounds < s.maxReplanRounds
              && (s.approvalBlocked || s.budgetViolated
                  || exists f | f in failures :: Lower(f.status) in {"unavailable", "tool_not_found", "validation_error"})
  {
    forall f | f in failures
      ensures IsStructural(f) <==> Lower(f.status) in {"unavailable", "tool_not_found"}
    {
      StructuralIff(f);
    }
  }

  /** The early exits of the classifier change nothing: two statuses are structural. */
  lemma StructuralIff(f: Failure)
    ensures IsStructural(f) <==> Lower(f.status) in {"unavailable", "tool_not_found"}
  {
    var status := Lower(f.status);
    if status == "unavailable" {
      assert status[0] == 'u';
    } else if status == "tool_not_found" {
      assert status[0] == 't';
    }
  }

  /** An interrupted call whose outcome is unknown is retried although the classifier's
      comment says it never is: exactly when a retry is left and nothing forbids recovery. */
  lemma UncertainIsRetriedIff(taskId: string, s: Situation)
    ensures Decide([Failure(taskId, "uncertain")], s).action == Retry <==>
              && !s.workflowOwned && s.replanRounds < s.maxReplanRounds
              && !s.approvalBlocked && !s.budgetViolated && s.retriesLeft > 0
  {
    RetryIff([Failure(taskId, "uncertain")], s);
    assert Lower("uncertain") == "uncertain";
  }

  lemma {:induction false} ValidationFailureListed(known: set<string>, ids: seq<string>, k: nat, id: string)
    requires k <= |ids| && id in ids[..k] && id != "" && id !in known
    ensures Failure(id, "validation_error") in ValidationFailures(known, ids, k)
  {
    if ids[k - 1] != id {
      assert ids[..k] == ids[..k - 1] + [ids[k - 1]];
      ValidationFailureListed(known, ids, k - 1, id);
    }
  }

  lemma {:induction false} FailedResultsAre(results: seq<ToolResult>, k: nat, f: Failure)
    requires k <= |results|
    ensures f in FailedResults(results, k) <==>
              exists i | 0 <= i < k :: results[i].status != "success" && f == Failure(results[i].taskId, results[i].status)
  {
    if k > 0 {
      FailedResultsAre(results, k - 1, f);
    }
  }

  /** Some result that did not succeed is about this task. */
  predicate HasFailed(results: seq<ToolResult>, id: string) {
    exists r | r in results :: r.status != "success" && r.taskId == id
  }

  /** The validator rejected a task that has not failed. */
  predicate NewlyRejected(results: seq<ToolResult>, rejected: seq<string>, id: string) {
    id in rejected && id != "" && !HasFailed(results, id)
  }

  lemma {:induction false} ValidationFailuresAre(known: set<string>, ids: seq<string>, k: nat, f: Failure)
    requires k <= |ids|
    ensures f in ValidationFailures(known, ids, k) <==>
              f.status == "validation_error" && f.taskId in ids[..k] && f.taskId != "" && f.taskId !in known
  {
    if k > 0 {
      ValidationFailuresAre(known, ids, k - 1, f);
      assert ids[..k] == ids[..k - 1] + [ids[k - 1]];
    }
  }

  lemma KnownIdsAre(results: seq<ToolResult>, id: string)
    ensures id in KnownIds(FailedResults(results, |results|)) <==> HasFailed(results, id)
  {
    var failed := FailedResults(results, |results|);
    if id in KnownIds(failed) {
      var f :| f in failed && f.taskId == id;
      FailedResultsAre(results, |results|, f);
    }
    if r :| r in results && r.status != "success" && r.taskId == id {
      var i :| 0 <= i < |results| && results[i] == r;
      FailedResultsAre(results, |results|, Failure(id, r.status));
    }
  }

  /** The failures are the results that did not succeed and the newly rejected tasks, and no more. */
  lemma CollectedIff(results: seq<ToolResult>, rejected: seq<string>, f: Failure)
    ensures f in Collected(results, rejected) <==>
              || (f.status != "success" && ToolResult(f.taskId, f.status) in results)
              || (f.status == "validation_error" && NewlyRejected(results, rejected, f.taskId))
  {
    var failed := FailedResults(results, |results|);
    FailedResultsAre(results, |results|, f);
    if ToolResult(f.taskId, f.status) in results {
      var i :| 0 <= i < |results| && results[i] == ToolResult(f.taskId, f.status);
    }
    ValidationFailuresAre(KnownIds(failed), rejected, |rejected|, f);
    assert rejected[..|rejected|] == rejected;
    KnownIdsAre(results, f.taskId);
  }

  lemma {:induction false} FailedResultsKnown(results: seq<ToolResult>, k: nat)
    requires k <= |results|
    ensures forall i | 0 <= i < |FailedResults(results, k)| :: HasFailed(results, FailedResults(results, k)[i].taskId)
  {
    if k > 0 {
      FailedResultsKnown(results, k - 1);
      assert results[k - 1] in results;
    }
  }

  /** The failed results come first. */
  lemma FailedResultsFirst(results: seq<ToolResult>, rejected: seq<string>, i: nat, j: nat)
    requires i < j < |Collected(results, rejected)| && HasFailed(results, Collected(results, rejected)[j].taskId)
    ensures HasFailed(results, Collected(results, rejected)[i].taskId)
  {
    var failed := FailedResults(results, |results|);
    var others := ValidationFailures(KnownIds(failed), rejected, |rejected|);
    FailedResultsKnown(results, |results|);
    if j >= |failed| {
      var f := Collected(results, rejected)[j];
      assert f == others[j - |failed|] && f in others;
      ValidationFailuresAre(KnownIds(failed), rejected, |rejected|, f);
      KnownIdsAre(results, f.taskId);
      assert false;
    }
  }

  /** The round a decision carries. */
  lemma RoundIs(failures: seq<Failure>, s: Situation)
    ensures Decide(failures, s).action == Replan ==> Decide(failures, s).round == s.replanRounds + 1
    ensures Decide(failures, s).action in {Retry, SelfHeal} ==> Decide(failures, s).round == s.replanRounds
    ensures Decide(failures, s).action == Fail ==>
              Decide(failures, s).round ==
              if !s.workflowOwned && s.replanRounds < s.maxReplanRounds && failures == [] then 0 else s.replanRounds
  {
  }

  /** A validation failure on a task that no failed result mentions is never retried. */
  lemma RejectedTaskNeverRetried(results: seq<ToolResult>, rejected: seq<string>, id: string, s: Situation)
    requires id in rejected && id != ""
    requires forall r | r in results && r.status != "success" :: r.taskId != id
    ensures Decide(Collected(results, rejected), s).action != Retry
  {
    var failed := FailedResults(results, |results|);
    if id in KnownIds(failed) {
      var f :| f in failed && f.taskId == id;
      FailedResultsAre(results, |results|, f);
    }
    assert rejected[..|rejected|] == rejected;
    ValidationFailureListed(KnownIds(failed), rejected, |rejected|, id);
    assert IsContract(Failure(id, "validation_error")) by {
      assert Lower("validation_error") == "validation_error";
    }
    assert Failure(id, "validation_error") in Collected(results, rejected);
  }
}
