/** One personal-event run: claim an attempt, create the remote subscriptions, save
    the run state, then settle the claim and roll back or stream
    (internal/app/event_personal_command.go and event_personal_attempts.go).

    The control service, the run-state file and the attempt store are outside this
    program: every answer they can give is an argument of the run, and every request
    made to them is an element of the run's trace. */
module SubscriptionRun {
  import opened GoStrings

  /** What the code asks of an error: does it wrap a cancellation, and is it the
      control service rejecting the runtime token? */
  datatype Failure = Failure(canceled: bool, tokenRejected: bool)

  datatype CreateReply =
    | CreateFailed(error: Failure)
    | NoSubscription
    | Subscribed(id: string)

  datatype SaveReply = Saved | SaveFailed(error: Failure)

  /** The answers one plan meets. */
  datatype Reply = Reply(create: CreateReply, save: SaveReply)

  /** The context a remote delete runs under. */
  datatype Context = Background | RunContext

  /** The answers met once per run, and the two looks at the run's own context. */
  datatype Conditions = Conditions(
    runtimeToken: bool,
    canceledAtCleanup: bool,
    canceledAtSettlement: bool,
    settlementStored: bool,
    streamed: bool)

  datatype Op =
    | Claim(fingerprints: seq<string>)
    | Create(eventKey: string)
    | Lookup(id: string)
    | Save(id: string)
    | CompleteSuccess
    | CompleteFailure(succeeded: seq<string>, failed: string)
    | Release
    | Delete(id: string, context: Context)
    | RemoveStates(ids: seq<string>)
    | Stream(ids: seq<string>)

  datatype Report =
    | Streamed(ok: bool)
    | TokenRejected
    | Guarded
    | Cause
    | Classified
    | OutputModeRejected

  datatype Plan = Plan(eventKey: string, fingerprint: string)

  const UNCLASSIFIED := Failure(false, false)

  // Vocabulary of the specification

  function Reversed<T>(s: seq<T>): (r: seq<T>)
    ensures |r| == |s|
    ensures forall i | 0 <= i < |s| :: r[i] == s[|s| - 1 - i]
  {
    if s == [] then [] else Reversed(s[1..]) + [s[0]]
  }

  ghost predicate Distinct<T(!new)>(s: seq<T>) {
    forall i, j | 0 <= i < j < |s| :: s[i] != s[j]
  }

  function Fingerprints(plans: seq<Plan>): (r: seq<string>)
    ensures |r| == |plans|
    ensures forall i | 0 <= i < |plans| :: r[i] == plans[i].fingerprint
  {
    seq(|plans|, i requires 0 <= i < |plans| => plans[i].fingerprint)
  }

  function TrimmedIds(ids: seq<string>): (r: seq<string>)
    ensures |r| == |ids|
    ensures forall i | 0 <= i < |ids| :: r[i] == TrimSpace(ids[i])
  {
    seq(|ids|, i requires 0 <= i < |ids| => TrimSpace(ids[i]))
  }

  /** The ids of a trace's remote deletes, in order. */
  function Deleted(trace: seq<Op>): seq<string> {
    if trace == [] then []
    else (if trace[0].Delete? then [trace[0].id] else []) + Deleted(trace[1..])
  }

  /** The id lists handed to the run-state removal, in order. */
  function Removed(trace: seq<Op>): seq<seq<string>> {
    if trace == [] then []
    else (if trace[0].RemoveStates? then [trace[0].ids] else []) + Removed(trace[1..])
  }

  /** The operations that end a claim. */
  function Settlements(trace: seq<Op>): seq<Op> {
    if trace == [] then []
    else (if IsSettlement(trace[0]) then [trace[0]] else []) + Settlements(trace[1..])
  }

  predicate IsSettlement(op: Op) {
    op.CompleteSuccess? || op.CompleteFailure? || op.Release?
  }

  /** An operation that none of the projections keeps. */
  predicate Inert(op: Op) {
    !op.Delete? && !op.RemoveStates? && !IsSettlement(op)
  }

  lemma {:induction false} InertProjects(ops: seq<Op>)
    requires forall op | op in ops :: Inert(op)
    ensures Deleted(ops) == [] && Removed(ops) == [] && Settlements(ops) == []
  {
    if ops != [] {
      assert ops[0] in ops;
      InertProjects(ops[1..]);
    }
  }

  lemma SingletonProjects(op: Op)
    ensures Deleted([op]) == if op.Delete? then [op.id] else []
    ensures Removed([op]) == if op.RemoveStates? then [op.ids] else []
    ensures Settlements([op]) == if IsSettlement(op) then [op] else []
  {
    assert [op][0] == op && [op][1..] == [];
  }

  lemma {:induction false} DeletedConcat(a: seq<Op>, b: seq<Op>)
    ensures Deleted(a + b) == Deleted(a) + Deleted(b)
  {
    if a == [] {
      assert a + b == b;
    } else {
      DeletedConcat(a[1..], b);
      assert (a + b)[0] == a[0] && (a + b)[1..] == a[1..] + b;
      var head := if a[0].Delete? then [a[0].id] else [];
      assert head + (Deleted(a[1..]) + Deleted(b)) == (head + Deleted(a[1..])) + Deleted(b);
    }
  }

  lemma {:induction false} RemovedConcat(a: seq<Op>, b: seq<Op>)
    ensures Removed(a + b) == Removed(a) + Removed(b)
  {
    if a == [] {
      assert a + b == b;
    } else {
      RemovedConcat(a[1..], b);
      assert (a + b)[0] == a[0] && (a + b)[1..] == a[1..] + b;
      var head := if a[0].RemoveStates? then [a[0].ids] else [];
      assert head + (Removed(a[1..]) + Removed(b)) == (head + Removed(a[1..])) + Removed(b);
    }
  }

  lemma {:induction false} SettlementsConcat(a: seq<Op>, b: seq<Op>)
    ensures Settlements(a + b) == Settlements(a) + Settlements(b)
  {
    if a == [] {
      assert a + b == b;
    } else {
      SettlementsConcat(a[1..], b);
      assert (a + b)[0] == a[0] && (a + b)[1..] == a[1..] + b;
      var head := if IsSettlement(a[0]) then [a[0]] else [];
      assert head + (Settlements(a[1..]) + Settlements(b)) == (head + Settlements(a[1..])) + Settlements(b);
    }
  }

  lemma ProjectionsConcat(a: seq<Op>, b: seq<Op>)
    ensures Deleted(a + b) == Deleted(a) + Deleted(b)
    ensures Removed(a + b) == Removed(a) + Removed(b)
    ensures Settlements(a + b) == Settlements(a) + Settlements(b)
  {
    DeletedConcat(a, b);
    RemovedConcat(a, b);
    SettlementsConcat(a, b);
  }

  // The multi-event run, specified

  /** Reply `i` follows accepted replies with raw ids `before` and is accepted too:
      the service created a subscription with an id that is neither blank nor taken. */
  predicate Accepts(reply: Reply, before: seq<string>) {
    && reply.create.Subscribed?
    && !Blank(reply.create.id)
    && TrimSpace(reply.create.id) !in TrimmedIds(before)
  }

  /** From reply `i` on, the first reply that stops the loop, or their number. */
  function StopsAt(replies: seq<Reply>, i: nat, before: seq<string>): (n: nat)
    requires i <= |replies|
    ensures i <= n <= |replies|
    decreases |replies| - i
  {
    if i == |replies| || !Accepts(replies[i], before) || replies[i].save.SaveFailed? then i
    else StopsAt(replies, i + 1, before + [replies[i].create.id])
  }

  /** The raw ids the run accepts: a subscription is accepted before its run state is
      saved, so the one whose save fails is among them. */
  function Accepted(replies: seq<Reply>, i: nat, before: seq<string>): (r: seq<string>)
    requires i <= |replies|
    ensures before <= r
    ensures StopsAt(replies, i, before) - i <= |r| - |before| <= StopsAt(replies, i, before) - i + 1
    decreases |replies| - i
  {
    if i == |replies| || !Accepts(replies[i], before) then before
    else
      var after := before + [replies[i].create.id];
      if replies[i].save.SaveFailed? then after else Accepted(replies, i + 1, after)
  }

  /** The requests of the creation loop from plan `i` on. */
  function Requests(plans: seq<Plan>, replies: seq<Reply>, i: nat, before: seq<string>): seq<Op>
    requires |plans| == |replies| && i <= |plans|
    decreases |plans| - i
  {
    if i == |plans| then []
    else if !Accepts(replies[i], before) then [Create(plans[i].eventKey)]
    else
      [Create(plans[i].eventKey), Save(TrimSpace(replies[i].create.id))] +
      (if replies[i].save.SaveFailed? then []
       else Requests(plans, replies, i + 1, before + [replies[i].create.id]))
  }

  /** The error the loop hands to the failure path for reply `i`. */
  function CauseOf(reply: Reply, before: seq<string>): Failure {
    if reply.create.CreateFailed? then reply.create.error
    else if Accepts(reply, before) && reply.save.SaveFailed? then reply.save.error
    else UNCLASSIFIED
  }

  /** Newest first, each subscription is deleted; then their run states go. */
  function Rollback(created: seq<string>, context: Context): seq<Op> {
    var ids := Reversed(TrimmedIds(created));
    seq(|ids|, i requires 0 <= i < |ids| => Delete(ids[i], context)) +
    (if ids == [] then [] else [RemoveStates(ids)])
  }

  lemma {:induction false} DeletesProject(ids: seq<string>, context: Context)
    ensures var ops := seq(|ids|, i requires 0 <= i < |ids| => Delete(ids[i], context));
            Deleted(ops) == ids && Removed(ops) == [] && Settlements(ops) == []
  {
    var ops := seq(|ids|, i requires 0 <= i < |ids| => Delete(ids[i], context));
    if ids != [] {
      var rest := ids[1..];
      DeletesProject(rest, context);
      assert ops[1..] == seq(|rest|, i requires 0 <= i < |rest| => Delete(rest[i], context));
      assert ids == [ids[0]] + rest;
    }
  }

  lemma RollbackProjects(created: seq<string>, context: Context)
    ensures var ids := Reversed(TrimmedIds(created));
            && Deleted(Rollback(created, context)) == ids
            && Removed(Rollback(created, context)) == (if created == [] then [] else [ids])
            && Settlements(Rollback(created, context)) == []
  {
    var ids := Reversed(TrimmedIds(created));
    var deletes := seq(|ids|, i requires 0 <= i < |ids| => Delete(ids[i], context));
    DeletesProject(ids, context);
    var tail := if ids == [] then [] else [RemoveStates(ids)];
    SingletonProjects(RemoveStates(ids));
    ProjectionsConcat(deletes, tail);
  }

  lemma {:induction false} RequestsAreInert(plans: seq<Plan>, replies: seq<Reply>, i: nat, before: seq<string>)
    requires |plans| == |replies| && i <= |plans|
    ensures forall op | op in Requests(plans, replies, i, before) :: Inert(op)
    decreases |plans| - i
  {
    if i < |plans| && Accepts(replies[i], before) && replies[i].save.Saved? {
      RequestsAreInert(plans, replies, i + 1, before + [replies[i].create.id]);
    }
  }

  /** How a failed loop ends the claim. */
  function SettlementOfFailure(plans: seq<Plan>, n: nat, cause: Failure, conditions: Conditions): Op
    requires n < |plans|
  {
    if conditions.runtimeToken && cause.tokenRejected then Release
    else if cause.canceled || conditions.canceledAtSettlement then Release
    else CompleteFailure(Fingerprints(plans[..n]), plans[n].fingerprint)
  }

  function CleanupContext(cause: Failure, conditions: Conditions): Context {
    if cause.canceled || conditions.canceledAtCleanup then RunContext else Background
  }

  /** The end of a run whose every plan succeeded. */
  function ClosingOfSuccess(created: seq<string>, conditions: Conditions): seq<Op> {
    [CompleteSuccess] +
    (if conditions.settlementStored then [Stream(created)] else []) +
    Rollback(created, Background)
  }

  /** The end of a run whose plan `n` failed: the claim is settled before the rollback,
      except after a token rejection. */
  function ClosingOfFailure(plans: seq<Plan>, n: nat, created: seq<string>, cause: Failure,
      conditions: Conditions): seq<Op>
    requires n < |plans|
  {
    var settlement := [SettlementOfFailure(plans, n, cause, conditions)];
    var rollback := Rollback(created, CleanupContext(cause, conditions));
    if conditions.runtimeToken && cause.tokenRejected then rollback + settlement else settlement + rollback
  }

  /** The whole trace of a multi-event run that got its claim. */
  function ManyTrace(plans: seq<Plan>, replies: seq<Reply>, conditions: Conditions): seq<Op>
    requires |plans| == |replies|
  {
    var n := StopsAt(replies, 0, []);
    var created := Accepted(replies, 0, []);
    [Claim(Fingerprints(plans))] + Requests(plans, replies, 0, []) +
    if n == |plans| then ClosingOfSuccess(created, conditions)
    else ClosingOfFailure(plans, n, created, CauseOf(replies[n], created[..n]), conditions)
  }

  /** The operation that ends the claim of a multi-event run. */
  function ManySettlement(plans: seq<Plan>, replies: seq<Reply>, conditions: Conditions): (op: Op)
    requires |plans| == |replies|
    ensures IsSettlement(op)
  {
    var n := StopsAt(replies, 0, []);
    if n == |plans| then CompleteSuccess
    else SettlementOfFailure(plans, n, CauseOf(replies[n], Accepted(replies, 0, [])[..n]), conditions)
  }

  /** What the caller of a multi-event run is told. */
  function ManyReport(replies: seq<Reply>, conditions: Conditions): Report {
    var n := StopsAt(replies, 0, []);
    if n < |replies| then ReportOfFailure(CauseOf(replies[n], Accepted(replies, 0, [])[..n]), conditions)
    else if conditions.settlementStored then Streamed(conditions.streamed)
    else Guarded
  }

  // The multi-event run, step by step

  /** Ends a failed claim; without a reservation there is nothing to end. */
  method FinishFailure(reserved: bool, items: seq<Plan>, failedIndex: int, succeededCount: int, cause: Failure,
      conditions: Conditions)
    returns (ops: seq<Op>, report: Report)
    ensures !reserved ==> ops == [] && report == Cause
    ensures reserved && !(0 <= succeededCount <= failedIndex < |items|) ==> ops == [] && report == Guarded
    ensures reserved && 0 <= succeededCount <= failedIndex < |items| ==>
              if cause.canceled || conditions.canceledAtSettlement then ops == [Release] && report == Cause
              else
                && ops == [CompleteFailure(Fingerprints(items[..succeededCount]), items[failedIndex].fingerprint)]
                && report == if conditions.settlementStored then Classified else Guarded
  {
    if !reserved {
      return [], Cause;
    }
    if failedIndex < 0 || failedIndex >= |items| || succeededCount < 0 || succeededCount > failedIndex {
      return [], Guarded;
    }
    if cause.canceled || conditions.canceledAtSettlement {
      return [Release], Cause;
    }
    var succeeded: seq<string> := [];
    for i := 0 to succeededCount
      invariant succeeded == Fingerprints(items[..i])
    {
      succeeded := succeeded + [items[i].fingerprint];
    }
    ops := [CompleteFailure(succeeded, items[failedIndex].fingerprint)];
    report := if conditions.settlementStored then Classified else Guarded;
  }

  /** Gives the claim back after the control service rejected the runtime token. */
  method ReleaseTokenFailure(reserved: bool, conditions: Conditions) returns (ops: seq<Op>, report: Report)
    ensures ops == if reserved then [Release] else []
    ensures report == if reserved && !conditions.settlementStored then Guarded else TokenRejected
  {
    if !reserved {
      return [], TokenRejected;
    }
    ops := [Release];
    report := if conditions.settlementStored then TokenRejected else Guarded;
  }

  method Cleanup(created: seq<string>, context: Context) returns (ops: seq<Op>)
    ensures ops == Rollback(created, context)
  {
    var ids: seq<string> := [];
    var deletes: seq<Op> := [];
    ghost var all := Reversed(TrimmedIds(created));
    for i := |created| downto 0
      invariant ids == all[..|created| - i]
      invariant deletes == seq(|ids|, j requires 0 <= j < |ids| => Delete(ids[j], context))
    {
      var id := TrimSpace(created[i]);
      ids := ids + [id];
      deletes := deletes + [Delete(id, context)];
    }
    assert ids == all;
    ops := if |ids| > 0 then deletes + [RemoveStates(ids)] else deletes;
  }

  method FailAndCleanup(plans: seq<Plan>, created: seq<string>, failedIndex: int, succeededCount: int,
      cause: Failure, conditions: Conditions)
    returns (ops: seq<Op>, report: Report)
    requires 0 <= succeededCount == failedIndex < |plans|
    ensures ops == ClosingOfFailure(plans, failedIndex, created, cause, conditions)
    ensures report == ReportOfFailure(cause, conditions)
  {
    var context := Background;
    if cause.canceled || conditions.canceledAtCleanup {
      context := RunContext;
    }
    var rollback: seq<Op>;
    var settlement: seq<Op>;
    if conditions.runtimeToken && cause.tokenRejected {
      rollback := Cleanup(created, context);
      settlement, report := ReleaseTokenFailure(true, conditions);
      ops := rollback + settlement;
      return;
    }
    settlement, report := FinishFailure(true, plans, failedIndex, succeededCount, cause, conditions);
    rollback := Cleanup(created, context);
    ops := settlement + rollback;
  }

  /** What the caller is told when a claimed batch fails. */
  function ReportOfFailure(cause: Failure, conditions: Conditions): Report {
    if conditions.runtimeToken && cause.tokenRejected then
      if conditions.settlementStored then TokenRejected else Guarded
    else if cause.canceled || conditions.canceledAtSettlement then Cause
    else if conditions.settlementStored then Classified
    else Guarded
  }

  /** One plan of the batch: the request, the checks on its answer and the run state. */
  method CreateOne(plan: Plan, reply: Reply, created: seq<string>, seen: set<string>)
    returns (ops: seq<Op>, created': seq<string>, seen': set<string>, failed: bool, succeeded: nat, cause: Failure)
    requires forall id :: id in seen <==> id in TrimmedIds(created)
    ensures created' == if Accepts(reply, created) then created + [reply.create.id] else created
    ensures ops == if Accepts(reply, created)
              then [Create(plan.eventKey), Save(TrimSpace(reply.create.id))] else [Create(plan.eventKey)]
    ensures failed <==> !Accepts(reply, created) || reply.save.SaveFailed?
    ensures failed ==> cause == CauseOf(reply, created)
    ensures succeeded == |created|
    ensures !failed ==> forall id :: id in seen' <==> id in TrimmedIds(created')
  {
    ops, created', seen', failed, succeeded, cause :=
      [Create(plan.eventKey)], created, seen, true, |created|, UNCLASSIFIED;
    match reply.create {
      case CreateFailed(error) =>
        cause := error;
      case NoSubscription =>
      case Subscribed(rawId) =>
        var id := TrimSpace(rawId);
        if id == "" || id in seen {
          return;
        }
        seen' := seen + {id};
        created' := created + [rawId];
        assert TrimmedIds(created') == TrimmedIds(created) + [id];
        ops := ops + [Save(id)];
        match reply.save {
          case SaveFailed(error) =>
            succeeded, cause := |created'| - 1, error;
          case Saved =>
            failed := false;
        }
    }
  }

  /** The creation loop. It ends at the first failure, with the index of the failed
      plan and the number of plans that succeeded before it. */
  method CreateAll(plans: seq<Plan>, replies: seq<Reply>)
    returns (requests: seq<Op>, created: seq<string>, stopped: nat, succeeded: nat, cause: Failure)
    requires |plans| == |replies|
    ensures requests == Requests(plans, replies, 0, [])
    ensures created == Accepted(replies, 0, [])
    ensures stopped == StopsAt(replies, 0, [])
    ensures stopped < |plans| ==> succeeded == stopped && cause == CauseOf(replies[stopped], created[..stopped])
  {
    requests, created, cause := [], [], UNCLASSIFIED;
    var seen: set<string> := {};
    for i := 0 to |plans|
      invariant |created| == i
      invariant forall id :: id in seen <==> id in TrimmedIds(created)
      invariant StopsAt(replies, 0, []) == StopsAt(replies, i, created)
      invariant Accepted(replies, 0, []) == Accepted(replies, i, created)
      invariant Requests(plans, replies, 0, []) == requests + Requests(plans, replies, i, created)
    {
      ghost var before, done := created, requests;
      var ops, failed;
      ops, created, seen, failed, succeeded, cause := CreateOne(plans[i], replies[i], created, seen);
      requests := requests + ops;
      if failed {
        assert Requests(plans, replies, i, before) == ops;
        assert created[..i] == before;
        stopped := i;
        return;
      }
      assert done + (ops + Requests(plans, replies, i + 1, created)) ==
        requests + Requests(plans, replies, i + 1, created);
    }
    stopped, succeeded := |plans|, |plans|;
  }

  /** The end of a run whose every plan succeeded: complete the claim, stream, and in
      any case clean up. */
  method Finish(created: seq<string>, conditions: Conditions) returns (ops: seq<Op>, report: Report)
    ensures ops == ClosingOfSuccess(created, conditions)
    ensures report == if conditions.settlementStored then Streamed(conditions.streamed) else Guarded
  {
    ops := [CompleteSuccess];
    var rollback: seq<Op>;
    if !conditions.settlementStored {
      rollback := Cleanup(created, Background);
      return ops + [] + rollback, Guarded;
    }
    ops := ops + [Stream(created)];
    rollback := Cleanup(created, Background);
    return ops + rollback, Streamed(conditions.streamed);
  }

  /** The batch run after its claim was granted. */
  method ConsumeMany(plans: seq<Plan>, replies: seq<Reply>, conditions: Conditions)
    returns (trace: seq<Op>, report: Report)
    requires |plans| == |replies|
    ensures trace == ManyTrace(plans, replies, conditions)
    ensures report == ManyReport(replies, conditions)
  {
    trace := [Claim(Fingerprints(plans))];
    var requests, created, stopped, succeeded, cause := CreateAll(plans, replies);
    trace := trace + requests;
    var closing: seq<Op>;
    if stopped < |plans| {
      closing, report := FailAndCleanup(plans, created, stopped, succeeded, cause, conditions);
    } else {
      closing, report := Finish(created, conditions);
    }
    trace := trace + closing;
  }

  // What every multi-event run keeps

  lemma {:induction false} AcceptedIsDistinct(replies: seq<Reply>, i: nat, before: seq<string>)
    requires i <= |replies|
    requires Distinct(TrimmedIds(before))
    requires forall id | id in before :: !Blank(id)
    ensures Distinct(TrimmedIds(Accepted(replies, i, before)))
    ensures forall id | id in Accepted(replies, i, before) :: !Blank(id)
    decreases |replies| - i
  {
    if i < |replies| && Accepts(replies[i], before) {
      var after := before + [replies[i].create.id];
      assert TrimmedIds(after) == TrimmedIds(before) + [TrimSpace(replies[i].create.id)];
      if replies[i].save.Saved? {
        AcceptedIsDistinct(replies, i + 1, after);
      }
    }
  }

  /** Reply `j` was asked for by the loop: every earlier plan succeeded. */
  predicate Asked(replies: seq<Reply>, j: nat) {
    j < |replies| && j <= StopsAt(replies, 0, [])
  }

  lemma {:induction false} AcceptedCoversReplies(replies: seq<Reply>, i: nat, before: seq<string>, j: nat)
    requires i <= j < |replies| && j <= StopsAt(replies, i, before)
    requires replies[j].create.Subscribed? && !Blank(replies[j].create.id)
    ensures TrimSpace(replies[j].create.id) in TrimmedIds(Accepted(replies, i, before))
    decreases j - i
  {
    var all := Accepted(replies, i, before);
    assert forall k | 0 <= k < |before| :: TrimmedIds(all)[k] == TrimmedIds(before)[k];
    if Accepts(replies[i], before) {
      var after := before + [replies[i].create.id];
      if replies[i].save.SaveFailed? || i == j {
        assert after <= all;
        assert TrimmedIds(all)[|before|] == TrimSpace(replies[i].create.id);
      } else {
        AcceptedCoversReplies(replies, i + 1, after, j);
      }
    }
  }

  lemma {:induction false} AcceptedComesFromReplies(replies: seq<Reply>, i: nat, before: seq<string>, k: nat)
    requires i <= |replies|
    requires |before| <= k < |Accepted(replies, i, before)|
    ensures i + k - |before| < |replies| && i + k - |before| <= StopsAt(replies, i, before)
    ensures replies[i + k - |before|].create == Subscribed(Accepted(replies, i, before)[k])
    decreases |replies| - i
  {
    var after := before + [replies[i].create.id];
    assert after <= Accepted(replies, i, before);
    if k > |before| {
      AcceptedComesFromReplies(replies, i + 1, after, k);
    }
  }

  lemma ReversedKeeps(ids: seq<string>)
    ensures forall id :: id in Reversed(ids) <==> id in ids
    ensures Distinct(ids) ==> Distinct(Reversed(ids))
  {
    forall id | id in ids
      ensures id in Reversed(ids)
    {
      var k :| 0 <= k < |ids| && ids[k] == id;
      assert Reversed(ids)[|ids| - 1 - k] == id;
    }
  }

  lemma ClosingOfSuccessProjects(created: seq<string>, conditions: Conditions)
    ensures
      var ops, ids := ClosingOfSuccess(created, conditions), Reversed(TrimmedIds(created));
      && Deleted(ops) == ids
      && Removed(ops) == (if created == [] then [] else [ids])
      && Settlements(ops) == [CompleteSuccess]
  {
    var stream := if conditions.settlementStored then [Stream(created)] else [];
    SingletonProjects(CompleteSuccess);
    InertProjects(stream);
    RollbackProjects(created, Background);
    ProjectionsConcat([CompleteSuccess], stream);
    ProjectionsConcat([CompleteSuccess] + stream, Rollback(created, Background));
  }

  lemma ClosingOfFailureProjects(plans: seq<Plan>, n: nat, created: seq<string>, cause: Failure, conditions: Conditions)
    requires n < |plans|
    ensures
      var ops, ids := ClosingOfFailure(plans, n, created, cause, conditions), Reversed(TrimmedIds(created));
      && Deleted(ops) == ids
      && Removed(ops) == (if created == [] then [] else [ids])
      && Settlements(ops) == [SettlementOfFailure(plans, n, cause, conditions)]
  {
    var settlement := [SettlementOfFailure(plans, n, cause, conditions)];
    SingletonProjects(settlement[0]);
    var context := CleanupContext(cause, conditions);
    RollbackProjects(created, context);
    ProjectionsConcat(settlement, Rollback(created, context));
    ProjectionsConcat(Rollback(created, context), settlement);
  }

  lemma HeadIsInert(plans: seq<Plan>, replies: seq<Reply>)
    requires |plans| == |replies|
    ensures forall op | op in [Claim(Fingerprints(plans))] + Requests(plans, replies, 0, []) :: Inert(op)
  {
    RequestsAreInert(plans, replies, 0, []);
  }

  /** The trace of a multi-event run, projected on deletes, removals and settlements. */
  lemma ManyProjects(plans: seq<Plan>, replies: seq<Reply>, conditions: Conditions)
    requires |plans| == |replies|
    ensures
      var trace, created := ManyTrace(plans, replies, conditions), Accepted(replies, 0, []);
      && Deleted(trace) == Reversed(TrimmedIds(created))
      && Removed(trace) == (if created == [] then [] else [Reversed(TrimmedIds(created))])
      && Settlements(trace) == [ManySettlement(plans, replies, conditions)]
  {
    var created, n := Accepted(replies, 0, []), StopsAt(replies, 0, []);
    var head := [Claim(Fingerprints(plans))] + Requests(plans, replies, 0, []);
    HeadIsInert(plans, replies);
    InertProjects(head);
    if n == |plans| {
      ClosingOfSuccessProjects(created, conditions);
      ProjectionsConcat(head, ClosingOfSuccess(created, conditions));
    } else {
      var cause := CauseOf(replies[n], created[..n]);
      ClosingOfFailureProjects(plans, n, created, cause, conditions);
      ProjectionsConcat(head, ClosingOfFailure(plans, n, created, cause, conditions));
    }
  }

  /** What a run accepts is exactly what the service gave it: ids in request order, all
      different after trimming; every returned id that is not blank is among them. */
  lemma AcceptedMeaning(replies: seq<Reply>)
    ensures
      var created := Accepted(replies, 0, []);
      && Distinct(TrimmedIds(created))
      && (forall k: nat | k < |created| ::
            Asked(replies, k) && replies[k].create == Subscribed(created[k]) && !Blank(created[k]))
      && (forall j: nat | Asked(replies, j) && replies[j].create.Subscribed? && !Blank(replies[j].create.id) ::
            TrimSpace(replies[j].create.id) in TrimmedIds(created))
  {
    var created := Accepted(replies, 0, []);
    AcceptedIsDistinct(replies, 0, []);
    forall k: nat | k < |created|
      ensures Asked(replies, k) && replies[k].create == Subscribed(created[k]) && !Blank(created[k])
    {
      AcceptedComesFromReplies(replies, 0, [], k);
      assert created[k] in created;
    }
    forall j: nat | Asked(replies, j) && replies[j].create.Subscribed? && !Blank(replies[j].create.id)
      ensures TrimSpace(replies[j].create.id) in TrimmedIds(created)
    {
      AcceptedCoversReplies(replies, 0, [], j);
    }
  }

  /** Conservation. On every way out of the run, what is deleted is what was accepted,
      newest first and nothing twice; the run-state removal gets the same ids; and no
      subscription the service returned under a usable id is left behind. */
  lemma ManyConserves(plans: seq<Plan>, replies: seq<Reply>, conditions: Conditions)
    requires |plans| == |replies|
    ensures
      var deleted := Deleted(ManyTrace(plans, replies, conditions));
      && deleted == Reversed(TrimmedIds(Accepted(replies, 0, [])))
      && Distinct(deleted)
      && Removed(ManyTrace(plans, replies, conditions)) == (if deleted == [] then [] else [deleted])
      && (forall j: nat | Asked(replies, j) && replies[j].create.Subscribed? && !Blank(replies[j].create.id) ::
            TrimSpace(replies[j].create.id) in deleted)
  {
    AcceptedMeaning(replies);
    ManyProjects(plans, replies, conditions);
    ReversedKeeps(TrimmedIds(Accepted(replies, 0, [])));
  }

  /** Every claim is settled exactly once: as a success when no plan failed, and
      otherwise released or recorded against the failed plan, with exactly the earlier
      plans reported as succeeded. */
  lemma ManySettlesOnce(plans: seq<Plan>, replies: seq<Reply>, conditions: Conditions)
    requires |plans| == |replies|
    ensures
      var settled := Settlements(ManyTrace(plans, replies, conditions));
      var n := StopsAt(replies, 0, []);
      && |settled| == 1
      && (settled[0].CompleteSuccess? <==> n == |plans|)
      && (settled[0].CompleteFailure? ==>
            && settled[0].failed == plans[n].fingerprint
            && settled[0].succeeded == Fingerprints(plans)[..n])
  {
    var n := StopsAt(replies, 0, []);
    ManyProjects(plans, replies, conditions);
    assert n < |plans| ==> Fingerprints(plans[..n]) == Fingerprints(plans)[..n];
  }

  /** Where a trace settles its claim relative to its deletes. */
  ghost predicate SettledBeforeDeletes(trace: seq<Op>) {
    forall s, d | 0 <= s < |trace| && 0 <= d < |trace| && IsSettlement(trace[s]) && trace[d].Delete? :: s < d
  }

  ghost predicate SettledAfterDeletes(trace: seq<Op>) {
    forall s, d | 0 <= s < |trace| && 0 <= d < |trace| && IsSettlement(trace[s]) && trace[d].Delete? :: d < s
  }

  lemma InertPrefixKeepsOrder(head: seq<Op>, tail: seq<Op>)
    requires forall op | op in head :: Inert(op)
    ensures SettledBeforeDeletes(tail) ==> SettledBeforeDeletes(head + tail)
    ensures SettledAfterDeletes(tail) ==> SettledAfterDeletes(head + tail)
  {
    var trace := head + tail;
    assert forall k | 0 <= k < |head| :: trace[k] in head;
    assert forall k | |head| <= k < |trace| :: trace[k] == tail[k - |head|];
  }

  lemma SettlementFirst(settlement: seq<Op>, rollback: seq<Op>)
    requires forall op | op in settlement :: !op.Delete?
    requires forall op | op in rollback :: !IsSettlement(op)
    ensures SettledBeforeDeletes(settlement + rollback)
    ensures SettledAfterDeletes(rollback + settlement)
  {
    var first, last := settlement + rollback, rollback + settlement;
    assert forall k | 0 <= k < |settlement| :: first[k] in settlement;
    assert forall k | |settlement| <= k < |first| :: first[k] in rollback;
    assert forall k | 0 <= k < |rollback| :: last[k] in rollback;
    assert forall k | |rollback| <= k < |last| :: last[k] in settlement;
  }

  lemma RollbackNeverSettles(created: seq<string>, context: Context)
    ensures forall op | op in Rollback(created, context) :: !IsSettlement(op)
  {
  }

  lemma ClosingOrder(plans: seq<Plan>, n: nat, created: seq<string>, cause: Failure, conditions: Conditions)
    ensures SettledBeforeDeletes(ClosingOfSuccess(created, conditions))
    ensures n < |plans| ==>
              if conditions.runtimeToken && cause.tokenRejected
              then SettledAfterDeletes(ClosingOfFailure(plans, n, created, cause, conditions))
              else SettledBeforeDeletes(ClosingOfFailure(plans, n, created, cause, conditions))
  {
    var context := CleanupContext(cause, conditions);
    RollbackNeverSettles(created, Background);
    RollbackNeverSettles(created, context);
    SettlementFirst(
      [CompleteSuccess] + (if conditions.settlementStored then [Stream(created)] else []),
      Rollback(created, Background));
    if n < |plans| {
      SettlementFirst([SettlementOfFailure(plans, n, cause, conditions)], Rollback(created, context));
    }
  }

  /** The claim is settled before any remote delete, so a slow rollback cannot outlive
      the lease of an open claim. Only a rejected runtime token turns the order round. */
  lemma ManySettlesFirst(plans: seq<Plan>, replies: seq<Reply>, conditions: Conditions)
    requires |plans| == |replies|
    ensures
      var n := StopsAt(replies, 0, []);
      if n < |plans| && conditions.runtimeToken && CauseOf(replies[n], Accepted(replies, 0, [])[..n]).tokenRejected
      then SettledAfterDeletes(ManyTrace(plans, replies, conditions))
      else SettledBeforeDeletes(ManyTrace(plans, replies, conditions))
  {
    var n, created := StopsAt(replies, 0, []), Accepted(replies, 0, []);
    var head := [Claim(Fingerprints(plans))] + Requests(plans, replies, 0, []);
    HeadIsInert(plans, replies);
    if n == |plans| {
      ClosingOrder(plans, n, created, UNCLASSIFIED, conditions);
      InertPrefixKeepsOrder(head, ClosingOfSuccess(created, conditions));
    } else {
      var cause := CauseOf(replies[n], created[..n]);
      ClosingOrder(plans, n, created, cause, conditions);
      InertPrefixKeepsOrder(head, ClosingOfFailure(plans, n, created, cause, conditions));
    }
  }

  /** The ids a run streams are the ids it deletes, newest first, if and only if the service
      gave every one of them without surrounding space: the run streams them as they came
      and deletes them trimmed. */
  lemma StreamedAreDeletedIff(plans: seq<Plan>, replies: seq<Reply>, conditions: Conditions)
    requires |plans| == |replies| && StopsAt(replies, 0, []) == |plans| && conditions.settlementStored
    ensures
      var created, trace := Accepted(replies, 0, []), ManyTrace(plans, replies, conditions);
      && Stream(created) in trace
      && (Deleted(trace) == Reversed(created) <==> forall k | 0 <= k < |created| :: TrimSpace(created[k]) == created[k])
  {
    var created := Accepted(replies, 0, []);
    ManyProjects(plans, replies, conditions);
    assert Stream(created) in ClosingOfSuccess(created, conditions);
    var deleted, streamed := Reversed(TrimmedIds(created)), Reversed(created);
    if deleted == streamed {
      forall k | 0 <= k < |created|
        ensures TrimSpace(created[k]) == created[k]
      {
        assert deleted[|created| - 1 - k] == streamed[|created| - 1 - k];
      }
    }
    assert (forall k | 0 <= k < |created| :: TrimSpace(created[k]) == created[k]) ==> TrimmedIds(created) == created;
  }

  /** An id with a space behind it is streamed with it and deleted without. */
  lemma SpacedIdIsStreamed(plan: Plan, conditions: Conditions)
    requires conditions.settlementStored
    ensures
      var trace := ManyTrace([plan], [Reply(Subscribed("s "), Saved)], conditions);
      Stream(["s "]) in trace && Deleted(trace) == ["s"]
  {
    SpaceIsTrimmed();
    OneIdIsStreamed(plan, "s ", conditions);
  }

  lemma OneIdIsStreamed(plan: Plan, id: string, conditions: Conditions)
    requires conditions.settlementStored && !Blank(id)
    ensures
      var trace := ManyTrace([plan], [Reply(Subscribed(id), Saved)], conditions);
      Stream([id]) in trace && Deleted(trace) == [TrimSpace(id)]
  {
    var replies := [Reply(Subscribed(id), Saved)];
    OneSubscription(id);
    StreamedAreDeletedIff([plan], replies, conditions);
    ManyProjects([plan], replies, conditions);
    ReversedOne(TrimmedIds([id]));
  }

  lemma ReversedOne(ids: seq<string>)
    requires |ids| == 1
    ensures Reversed(ids) == [ids[0]]
  {
  }

  lemma SpaceIsTrimmed()
    ensures TrimSpace("s ") == "s"
  {
    assert TrimLeft("s ") == "s " && "s "[..1] == "s" && TrimRight("s") == "s";
  }

  lemma OneSubscription(id: string)
    requires !Blank(id)
    ensures
      var replies := [Reply(Subscribed(id), Saved)];
      StopsAt(replies, 0, []) == 1 && Accepted(replies, 0, []) == [id]
  {
    var replies := [Reply(Subscribed(id), Saved)];
    assert Accepts(replies[0], []);
    assert [] + [id] == [id];
    assert StopsAt(replies, 1, [id]) == 1 && Accepted(replies, 1, [id]) == [id];
  }
}
