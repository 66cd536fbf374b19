/** What the traces and reports of personal-event runs say, operation by operation: their
    order, the requests they start with, the stream, the contexts of the deletes, and when
    a failed claim is released or recorded (internal/app/event_personal_command.go). */
module RunOrder {
  import opened GoStrings
  import opened SubscriptionRun
  import Single = SingleRun

  /** Where an operation belongs: the claim, the requests, the settlement, the stream, the
      deletes, the run states. A late settlement comes after everything. */
  function Rank(op: Op, late: bool): nat {
    match op
    case Claim(_) => 0
    case Create(_) => 1
    case Lookup(_) => 1
    case Save(_) => 1
    case CompleteSuccess => if late then 6 else 2
    case CompleteFailure(_, _) => if late then 6 else 2
    case Release => if late then 6 else 2
    case Stream(_) => 3
    case Delete(_, _) => 4
    case RemoveStates(_) => 5
  }

  ghost predicate InOrder(trace: seq<Op>, late: bool) {
    forall i, j | 0 <= i < j < |trace| :: Rank(trace[i], late) <= Rank(trace[j], late)
  }

  ghost predicate Within(trace: seq<Op>, late: bool, low: nat, high: nat) {
    forall op | op in trace :: low <= Rank(op, late) <= high
  }

  lemma OrderedConcat(a: seq<Op>, b: seq<Op>, late: bool, low: nat, middle: nat, next: nat, high: nat)
    requires InOrder(a, late) && InOrder(b, late)
    requires Within(a, late, low, middle) && Within(b, late, next, high) && middle <= next
    ensures InOrder(a + b, late)
              && Within(a + b, late, if low <= next then low else next, if middle <= high then high else middle)
  {
    var all := a + b;
    forall i, j | 0 <= i < j < |all|
      ensures Rank(all[i], late) <= Rank(all[j], late)
    {
      assert i < |a| ==> all[i] in a;
      assert j >= |a| ==> all[j] in b && all[j] == b[j - |a|];
      assert i >= |a| ==> all[i] == b[i - |a|];
    }
  }

  lemma SameRankInOrder(ops: seq<Op>, late: bool, rank: nat)
    requires Within(ops, late, rank, rank)
    ensures InOrder(ops, late)
  {
    assert forall k | 0 <= k < |ops| :: ops[k] in ops;
  }

  lemma RollbackInOrder(created: seq<string>, context: Context, late: bool)
    ensures InOrder(Rollback(created, context), late) && Within(Rollback(created, context), late, 4, 5)
  {
    var ids := Reversed(TrimmedIds(created));
    var deletes := seq(|ids|, i requires 0 <= i < |ids| => Delete(ids[i], context));
    var removal := if ids == [] then [] else [RemoveStates(ids)];
    SameRankInOrder(deletes, late, 4);
    OrderedConcat(deletes, removal, late, 4, 4, 5, 5);
  }

  lemma {:induction false} RequestsRankOne(plans: seq<Plan>, replies: seq<Reply>, i: nat, before: seq<string>,
      late: bool)
    requires |plans| == |replies| && i <= |plans|
    ensures Within(Requests(plans, replies, i, before), late, 1, 1)
    decreases |plans| - i
  {
    if i < |plans| && Accepts(replies[i], before) && replies[i].save.Saved? {
      RequestsRankOne(plans, replies, i + 1, before + [replies[i].create.id], late);
    }
  }

  /** The claim and the requests. */
  function Head(plans: seq<Plan>, replies: seq<Reply>): seq<Op>
    requires |plans| == |replies|
  {
    [Claim(Fingerprints(plans))] + Requests(plans, replies, 0, [])
  }

  lemma HeadInOrder(plans: seq<Plan>, replies: seq<Reply>, late: bool)
    requires |plans| == |replies|
    ensures InOrder(Head(plans, replies), late) && Within(Head(plans, replies), late, 0, 1)
  {
    RequestsRankOne(plans, replies, 0, [], late);
    SameRankInOrder(Requests(plans, replies, 0, []), late, 1);
    OrderedConcat([Claim(Fingerprints(plans))], Requests(plans, replies, 0, []), late, 0, 0, 1, 1);
  }

  // The run for several events

  /** Plan `n` failed because the service rejected the runtime token. */
  predicate TokenRejectedAt(replies: seq<Reply>, n: nat, before: seq<string>, conditions: Conditions)
    requires n < |replies|
  {
    conditions.runtimeToken && FailsWith(replies[n], before).tokenRejected
  }

  /** The error a reply fails with: that of the request, or that of the run state of an
      accepted subscription, or one that says nothing. */
  function FailsWith(reply: Reply, before: seq<string>): Failure {
    match reply.create
    case CreateFailed(error) => error
    case NoSubscription => Failure(false, false)
    case Subscribed(id) =>
      if TrimSpace(id) == "" || TrimSpace(id) in TrimmedIds(before) then Failure(false, false)
      else if reply.save.SaveFailed? then reply.save.error
      else Failure(false, false)
  }

  /** The trace of a run is in order: claim, requests, settlement, stream, deletes, run
      states. Only after a rejected runtime token the settlement comes last. */
  lemma ManyInOrder(plans: seq<Plan>, replies: seq<Reply>, conditions: Conditions)
    requires |plans| == |replies|
    ensures
      var n, created := StopsAt(replies, 0, []), Accepted(replies, 0, []);
      var late := n < |plans| && TokenRejectedAt(replies, n, created[..n], conditions);
      InOrder(ManyTrace(plans, replies, conditions), late)
  {
    var n, created := StopsAt(replies, 0, []), Accepted(replies, 0, []);
    if n == |plans| {
      HeadInOrder(plans, replies, false);
      SuccessInOrder(created, conditions);
      OrderedConcat(Head(plans, replies), ClosingOfSuccess(created, conditions), false, 0, 1, 2, 5);
    } else {
      var cause := CauseOf(replies[n], created[..n]);
      FailsWithCause(replies[n], created[..n]);
      var late := conditions.runtimeToken && cause.tokenRejected;
      HeadInOrder(plans, replies, late);
      FailureInOrder(plans, n, created, cause, conditions);
      OrderedConcat(Head(plans, replies), ClosingOfFailure(plans, n, created, cause, conditions), late, 0, 1, 2, 6);
    }
  }

  lemma FailsWithCause(reply: Reply, before: seq<string>)
    ensures FailsWith(reply, before) == CauseOf(reply, before)
  {
  }

  lemma SuccessInOrder(created: seq<string>, conditions: Conditions)
    ensures InOrder(ClosingOfSuccess(created, conditions), false)
              && Within(ClosingOfSuccess(created, conditions), false, 2, 5)
  {
    var stream := if conditions.settlementStored then [Stream(created)] else [];
    RollbackInOrder(created, Background, false);
    OrderedConcat([CompleteSuccess], stream, false, 2, 2, 3, 3);
    OrderedConcat([CompleteSuccess] + stream, Rollback(created, Background), false, 2, 3, 4, 5);
  }

  lemma FailureInOrder(plans: seq<Plan>, n: nat, created: seq<string>, cause: Failure, conditions: Conditions)
    requires n < |plans|
    ensures
      var late := conditions.runtimeToken && cause.tokenRejected;
      var ops := ClosingOfFailure(plans, n, created, cause, conditions);
      InOrder(ops, late) && Within(ops, late, 2, 6)
  {
    var late := conditions.runtimeToken && cause.tokenRejected;
    var settlement := [SettlementOfFailure(plans, n, cause, conditions)];
    var rollback := Rollback(created, CleanupContext(cause, conditions));
    RollbackInOrder(created, CleanupContext(cause, conditions), late);
    if late {
      OrderedConcat(rollback, settlement, late, 4, 5, 6, 6);
    } else {
      OrderedConcat(settlement, rollback, late, 2, 2, 4, 5);
    }
  }

  ghost predicate NoStream(ops: seq<Op>) {
    forall op | op in ops :: !op.Stream?
  }

  ghost predicate StreamsOnce(trace: seq<Op>, ids: seq<string>) {
    exists i | 0 <= i < |trace| :: trace[i] == Stream(ids) && forall j | 0 <= j < |trace| && j != i :: !trace[j].Stream?
  }

  lemma OneStream(before: seq<Op>, ids: seq<string>, after: seq<Op>)
    requires NoStream(before) && NoStream(after)
    ensures StreamsOnce(before + [Stream(ids)] + after, ids)
  {
    var trace, i := before + [Stream(ids)] + after, |before|;
    forall j | 0 <= j < |trace| && j != i
      ensures !trace[j].Stream?
    {
      assert if j < i then trace[j] in before else trace[j] in after;
    }
    assert trace[i] == Stream(ids);
  }

  lemma RollbackHasNoStream(created: seq<string>, context: Context)
    ensures NoStream(Rollback(created, context))
    ensures forall op | op in Rollback(created, context) && op.Delete? :: op.context == context
  {
  }

  lemma FailureHasNoStream(plans: seq<Plan>, n: nat, created: seq<string>, cause: Failure, conditions: Conditions)
    requires n < |plans|
    ensures NoStream(ClosingOfFailure(plans, n, created, cause, conditions))
    ensures forall op | op in ClosingOfFailure(plans, n, created, cause, conditions) && op.Delete? ::
              op.context == CleanupContext(cause, conditions)
  {
    RollbackHasNoStream(created, CleanupContext(cause, conditions));
  }

  lemma HeadHasOnlyRequests(plans: seq<Plan>, replies: seq<Reply>)
    requires |plans| == |replies|
    ensures forall op | op in Head(plans, replies) :: !op.Stream? && !op.Delete?
  {
    HeadInOrder(plans, replies, false);
  }

  lemma SuccessStreams(head: seq<Op>, created: seq<string>, conditions: Conditions)
    requires NoStream(head)
    ensures
      if conditions.settlementStored then StreamsOnce(head + ClosingOfSuccess(created, conditions), created)
      else NoStream(head + ClosingOfSuccess(created, conditions))
  {
    RollbackHasNoStream(created, Background);
    if conditions.settlementStored {
      OneStream(head + [CompleteSuccess], created, Rollback(created, Background));
      assert head + ClosingOfSuccess(created, conditions) ==
        (head + [CompleteSuccess]) + [Stream(created)] + Rollback(created, Background);
    }
  }

  /** A run streams if and only if every plan succeeded and the completion was stored; then
      exactly once, and all accepted ids. */
  lemma ManyStreamsOnce(plans: seq<Plan>, replies: seq<Reply>, conditions: Conditions)
    requires |plans| == |replies|
    ensures
      var trace := ManyTrace(plans, replies, conditions);
      if StopsAt(replies, 0, []) == |plans| && conditions.settlementStored then
        StreamsOnce(trace, Accepted(replies, 0, []))
      else
        NoStream(trace)
  {
    var n, created := StopsAt(replies, 0, []), Accepted(replies, 0, []);
    HeadHasOnlyRequests(plans, replies);
    if n == |plans| {
      SuccessStreams(Head(plans, replies), created, conditions);
    } else {
      FailureHasNoStream(plans, n, created, CauseOf(replies[n], created[..n]), conditions);
    }
  }

  /** Whatever stands before the stream and behind it: it streams only what is claimed,
      created, saved and settled, and deletes nothing before. */
  lemma StreamStandsBetween(plans: seq<Plan>, replies: seq<Reply>, conditions: Conditions, i: nat, k: nat)
    requires |plans| == |replies|
    requires i < |ManyTrace(plans, replies, conditions)| && k < |ManyTrace(plans, replies, conditions)|
    requires ManyTrace(plans, replies, conditions)[i].Stream?
    ensures
      var op := ManyTrace(plans, replies, conditions)[k];
      && (op.Claim? || op.Create? || op.Save? || IsSettlement(op) ==> k < i)
      && (op.Delete? || op.RemoveStates? ==> k > i)
  {
    var trace := ManyTrace(plans, replies, conditions);
    ManyStreamsOnce(plans, replies, conditions);
    ManyInOrder(plans, replies, conditions);
    HasStream(trace, i);
    StreamByRank(trace, i, k);
  }

  lemma HasStream(trace: seq<Op>, i: nat)
    requires i < |trace| && trace[i].Stream?
    ensures !NoStream(trace)
  {
    assert trace[i] in trace;
  }

  lemma StreamByRank(trace: seq<Op>, i: nat, k: nat)
    requires InOrder(trace, false) && i < |trace| && k < |trace| && trace[i].Stream?
    ensures
      var op := trace[k];
      && (op.Claim? || op.Create? || op.Save? || IsSettlement(op) ==> k < i)
      && (op.Delete? || op.RemoveStates? ==> k > i)
  {
    assert i < k ==> Rank(trace[i], false) <= Rank(trace[k], false);
    assert k < i ==> Rank(trace[k], false) <= Rank(trace[i], false);
  }

  /** Operations that start with a request and a saved run state for each of some ids. */
  ghost predicate Pairs(plans: seq<Plan>, requests: seq<Op>, ids: seq<string>, i: nat) {
    && |requests| >= 2 * |ids| && i + |ids| <= |plans|
    && forall k: nat | k < |ids| :: PairAt(plans, requests, ids, i, k)
  }

  ghost predicate PairAt(plans: seq<Plan>, requests: seq<Op>, ids: seq<string>, i: nat, k: nat)
    requires |requests| >= 2 * |ids| && i + |ids| <= |plans| && k < |ids|
  {
    requests[2 * k] == Create(plans[i + k].eventKey) && requests[2 * k + 1] == Save(TrimSpace(ids[k]))
  }

  lemma PairMore(plans: seq<Plan>, rest: seq<Op>, ids: seq<string>, i: nat, id: string)
    requires i < |plans| && Pairs(plans, rest, ids, i + 1)
    ensures Pairs(plans, [Create(plans[i].eventKey), Save(TrimSpace(id))] + rest, [id] + ids, i)
  {
    var requests, all := [Create(plans[i].eventKey), Save(TrimSpace(id))] + rest, [id] + ids;
    forall k: nat | k < |all|
      ensures PairAt(plans, requests, all, i, k)
    {
      if k > 0 {
        assert PairAt(plans, rest, ids, i + 1, k - 1);
        assert requests[2 * k] == rest[2 * (k - 1)] && requests[2 * k + 1] == rest[2 * (k - 1) + 1];
      }
    }
  }

  lemma LastPair(plans: seq<Plan>, i: nat, id: string)
    requires i < |plans|
    ensures Pairs(plans, [Create(plans[i].eventKey), Save(TrimSpace(id))], [id], i)
  {
    PairMore(plans, [], [], i, id);
    assert [Create(plans[i].eventKey), Save(TrimSpace(id))] + [] == [Create(plans[i].eventKey), Save(TrimSpace(id))];
    assert [id] + [] == [id];
  }

  lemma {:induction false} RequestsAre(plans: seq<Plan>, replies: seq<Reply>, i: nat, before: seq<string>)
    requires |plans| == |replies| && i <= |plans|
    ensures Pairs(plans, Requests(plans, replies, i, before), Accepted(replies, i, before)[|before|..], i)
    ensures |Requests(plans, replies, i, before)| <= 2 * (|Accepted(replies, i, before)| - |before|) + 1
    decreases |plans| - i
  {
    if i < |plans| && Accepts(replies[i], before) {
      if replies[i].save.Saved? {
        RequestsAre(plans, replies, i + 1, before + [replies[i].create.id]);
        SavedStep(plans, replies, i, before);
      } else {
        LastPair(plans, i, replies[i].create.id);
        assert Accepted(replies, i, before)[|before|..] == [replies[i].create.id];
      }
    }
  }

  lemma SavedStep(plans: seq<Plan>, replies: seq<Reply>, i: nat, before: seq<string>)
    requires |plans| == |replies| && i < |plans| && Accepts(replies[i], before) && replies[i].save.Saved?
    requires
      var after := before + [replies[i].create.id];
      Pairs(plans, Requests(plans, replies, i + 1, after), Accepted(replies, i + 1, after)[|after|..], i + 1)
    ensures Pairs(plans, Requests(plans, replies, i, before), Accepted(replies, i, before)[|before|..], i)
  {
    var id := replies[i].create.id;
    var after := before + [id];
    var all, rest := Accepted(replies, i + 1, after), Requests(plans, replies, i + 1, after);
    PairMore(plans, rest, all[|after|..], i, id);
    assert Accepted(replies, i, before) == all && all[..|after|] == after;
    assert all[|before|] == after[|before|] == id;
    assert all[|before|..] == [id] + all[|after|..];
    assert Requests(plans, replies, i, before) == [Create(plans[i].eventKey), Save(TrimSpace(id))] + rest;
  }

  /** A run starts with the claim of its fingerprints; then each accepted subscription is
      requested and its run state saved, plan by plan. */
  lemma ManyStarts(plans: seq<Plan>, replies: seq<Reply>, conditions: Conditions, k: nat)
    requires |plans| == |replies| && k < |Accepted(replies, 0, [])|
    ensures
      var trace, created := ManyTrace(plans, replies, conditions), Accepted(replies, 0, []);
      && |trace| > 2 * k + 2 && k < |plans|
      && trace[0] == Claim(Fingerprints(plans))
      && trace[2 * k + 1] == Create(plans[k].eventKey)
      && trace[2 * k + 2] == Save(TrimSpace(created[k]))
  {
    var created := Accepted(replies, 0, []);
    var requests := Requests(plans, replies, 0, []);
    RequestsAre(plans, replies, 0, []);
    assert created[0..] == created;
    assert PairAt(plans, requests, created, 0, k);
    HeadIsFront(plans, replies, conditions);
    BehindFirst(Claim(Fingerprints(plans)), requests, 2 * k);
    BehindFirst(Claim(Fingerprints(plans)), requests, 2 * k + 1);
  }

  lemma BehindFirst(first: Op, rest: seq<Op>, i: nat)
    requires i < |rest|
    ensures ([first] + rest)[i + 1] == rest[i] && ([first] + rest)[0] == first
  {
  }

  lemma HeadIsFront(plans: seq<Plan>, replies: seq<Reply>, conditions: Conditions)
    requires |plans| == |replies|
    ensures Head(plans, replies) <= ManyTrace(plans, replies, conditions)
  {
  }

  /** The deletes run under the run's own context exactly if a failed run was canceled, by
      its error or otherwise. */
  lemma DeletesRunUnder(plans: seq<Plan>, replies: seq<Reply>, conditions: Conditions)
    requires |plans| == |replies|
    ensures
      var n, created := StopsAt(replies, 0, []), Accepted(replies, 0, []);
      forall op | op in ManyTrace(plans, replies, conditions) && op.Delete? ::
        op.context == RunContext <==>
        n < |plans| && (FailsWith(replies[n], created[..n]).canceled || conditions.canceledAtCleanup)
  {
    var n, created := StopsAt(replies, 0, []), Accepted(replies, 0, []);
    HeadHasOnlyRequests(plans, replies);
    if n < |plans| {
      FailsWithCause(replies[n], created[..n]);
      FailureHasNoStream(plans, n, created, CauseOf(replies[n], created[..n]), conditions);
    } else {
      SuccessDeletes(created, conditions);
    }
  }

  lemma SuccessDeletes(created: seq<string>, conditions: Conditions)
    ensures forall op | op in ClosingOfSuccess(created, conditions) && op.Delete? :: op.context == Background
  {
    RollbackHasNoStream(created, Background);
  }

  /** How a run ends its claim: as a success if no plan failed; otherwise it gives the claim
      back after a rejected runtime token or a cancellation, and records the failure else. */
  lemma ManySettlesAs(plans: seq<Plan>, replies: seq<Reply>, conditions: Conditions)
    requires |plans| == |replies|
    ensures
      var n, created := StopsAt(replies, 0, []), Accepted(replies, 0, []);
      Settlements(ManyTrace(plans, replies, conditions)) ==
      if n == |plans| then [CompleteSuccess]
      else if TokenRejectedAt(replies, n, created[..n], conditions)
        || FailsWith(replies[n], created[..n]).canceled || conditions.canceledAtSettlement then [Release]
      else [CompleteFailure(Fingerprints(plans)[..n], plans[n].fingerprint)]
  {
    var n, created := StopsAt(replies, 0, []), Accepted(replies, 0, []);
    ManyProjects(plans, replies, conditions);
    if n < |plans| {
      FailsWithCause(replies[n], created[..n]);
      PrefixFingerprints(plans, n);
    }
  }

  lemma PrefixFingerprints(plans: seq<Plan>, n: nat)
    requires n <= |plans|
    ensures Fingerprints(plans[..n]) == Fingerprints(plans)[..n]
  {
  }

  /** What the caller of a run is told, case by case. */
  lemma ManyReportsAs(replies: seq<Reply>, conditions: Conditions)
    ensures
      var n, created, report := StopsAt(replies, 0, []), Accepted(replies, 0, []), ManyReport(replies, conditions);
      if n == |replies| then
        (report == Streamed(conditions.streamed) <==> conditions.settlementStored)
          && (report == Guarded <==> !conditions.settlementStored)
      else
        var rejected := TokenRejectedAt(replies, n, created[..n], conditions);
        var canceled := FailsWith(replies[n], created[..n]).canceled || conditions.canceledAtSettlement;
        && (report == TokenRejected <==> rejected && conditions.settlementStored)
        && (report == Cause <==> !rejected && canceled)
        && (report == Classified <==> !rejected && !canceled && conditions.settlementStored)
        && (report == Guarded <==> !conditions.settlementStored && (rejected || !canceled))
  {
    var n, created := StopsAt(replies, 0, []), Accepted(replies, 0, []);
    if n < |replies| {
      FailsWithCause(replies[n], created[..n]);
    }
  }

  // The run for one event

  /** The trace of a single-event run is in the same order. */
  lemma SingleInOrder(options: Single.Options, fingerprint: string, replies: Single.Replies, conditions: Conditions)
    ensures InOrder(Single.SingleTrace(options, fingerprint, replies, conditions), false)
  {
    var opening := Single.OpeningOps(options, fingerprint);
    var ensured := Single.Ensure(options, replies);
    OpeningInOrder(options, fingerprint);
    match Single.StageOf(options, replies)
    case NotCreated =>
      var settled := Single.FailureSettlement(options, fingerprint, Single.CauseOfNothing(ensured), true, conditions);
      SameRankInOrder(settled, false, 2);
      OrderedConcat(opening, settled, false, 0, 1, 2, 2);
    case Running =>
      OrderedConcat(opening, [Save(ensured.id)], false, 0, 1, 1, 1);
      ClosingInOrder(options, fingerprint, ensured.id, replies.save, conditions);
      OrderedConcat(opening + [Save(ensured.id)],
        Single.ClosingOps(options, fingerprint, ensured.id, replies.save, conditions), false, 0, 1, 2, 5);
    case _ =>
  }

  lemma OpeningInOrder(options: Single.Options, fingerprint: string)
    ensures InOrder(Single.OpeningOps(options, fingerprint), false)
    ensures Within(Single.OpeningOps(options, fingerprint), false, 0, 1)
  {
  }

  lemma OwnedRollbackInOrder(options: Single.Options, id: string, context: Context)
    ensures InOrder(Single.OwnedRollback(options, id, context), false)
    ensures Within(Single.OwnedRollback(options, id, context), false, 4, 5)
  {
  }

  lemma StreamedInOrder(settled: seq<Op>, stream: seq<Op>, options: Single.Options, id: string)
    requires Within(settled, false, 2, 2) && Within(stream, false, 3, 3)
    ensures
      var ops := settled + stream + Single.OwnedRollback(options, id, Background);
      InOrder(ops, false) && Within(ops, false, 2, 5)
  {
    var rollback := Single.OwnedRollback(options, id, Background);
    SameRankInOrder(settled, false, 2);
    SameRankInOrder(stream, false, 3);
    OwnedRollbackInOrder(options, id, Background);
    OrderedConcat(settled, stream, false, 2, 2, 3, 3);
    OrderedConcat(settled + stream, rollback, false, 2, 3, 4, 5);
  }

  lemma ClosingInOrder(options: Single.Options, fingerprint: string, id: string, save: SaveReply,
      conditions: Conditions)
    ensures
      var ops := Single.ClosingOps(options, fingerprint, id, save, conditions);
      InOrder(ops, false) && Within(ops, false, 2, 5)
  {
    match save
    case SaveFailed(error) =>
      var context := CleanupContext(error, conditions);
      var settled := Single.FailureSettlement(options, fingerprint, error, false, conditions);
      OwnedRollbackInOrder(options, id, context);
      SameRankInOrder(settled, false, 2);
      OrderedConcat(settled, Single.OwnedRollback(options, id, context), false, 2, 2, 4, 5);
    case Saved =>
      StreamedInOrder(
        if Single.SelfCreated(options) then [CompleteSuccess] else [],
        if Single.SelfCreated(options) && !conditions.settlementStored then [] else [Stream([id])],
        options, id);
  }

  /** The run has a subscription, may print it and has saved its run state. */
  predicate GoesOn(options: Single.Options, replies: Single.Replies) {
    Single.StageOf(options, replies).Running? && replies.save.Saved?
  }

  /** A single-event run streams if and only if it has saved the run state of a subscription
      it may print and the completion of its claim, if it has one, is stored. It streams
      that subscription, whose run state it saved, and tells its caller how that went. */
  lemma SingleStreamsIff(options: Single.Options, fingerprint: string, replies: Single.Replies, conditions: Conditions)
    ensures
      var trace, id := Single.SingleTrace(options, fingerprint, replies, conditions), Single.Ensure(options, replies);
      var streams := GoesOn(options, replies) && (Single.SelfCreated(options) ==> conditions.settlementStored);
      && (streams ==> Stream([id.id]) in trace && Save(id.id) in trace)
      && (forall op | op in trace :: op.Stream? ==> streams && op == Stream([id.id]))
      && (Single.SingleReport(options, replies, conditions) == Streamed(conditions.streamed) <==> streams)
  {
    var trace, ensured := Single.SingleTrace(options, fingerprint, replies, conditions),
      Single.Ensure(options, replies);
    OpeningInOrder(options, fingerprint);
    if Single.StageOf(options, replies).Running? {
      var closing := Single.ClosingOps(options, fingerprint, ensured.id, replies.save, conditions);
      assert trace == Single.OpeningOps(options, fingerprint) + [Save(ensured.id)] + closing;
      if GoesOn(options, replies) && (Single.SelfCreated(options) ==> conditions.settlementStored) {
        assert Stream([ensured.id]) in closing;
      }
    }
  }

  /** What the caller of a failed single-event run is told, and how its claim ends. */
  lemma SingleFailsAs(options: Single.Options, fingerprint: string, replies: Single.Replies, conditions: Conditions)
    requires Single.StageOf(options, replies).NotCreated?
              || (Single.StageOf(options, replies).Running? && replies.save.SaveFailed?)
    ensures
      var requested, ensured := Single.StageOf(options, replies).NotCreated?, Single.Ensure(options, replies);
      var error :=
        if !requested then replies.save.error
        else if ensured.EnsureFailed? then ensured.error
        else Failure(false, false);
      var rejected := requested && conditions.runtimeToken && error.tokenRejected;
      var canceled := error.canceled || conditions.canceledAtSettlement;
      var claimed, stored := Blank(options.subscribeId), conditions.settlementStored;
      var report := Single.SingleReport(options, replies, conditions);
      && Settlements(Single.SingleTrace(options, fingerprint, replies, conditions)) ==
         (if !claimed then [] else if rejected || canceled then [Release] else [CompleteFailure([], fingerprint)])
      && (report == TokenRejected <==> rejected && (claimed ==> stored))
      && (report == Cause <==> !rejected && (!claimed || canceled))
      && (report == Classified <==> !rejected && claimed && !canceled && stored)
      && (report == Guarded <==> claimed && !stored && (rejected || !canceled))
  {
    Single.SingleConserves(options, fingerprint, replies, conditions);
  }

  /** A single-event run starts with its claim and the request of its event, or with the
      lookup of the subscription it was given. */
  lemma SingleStarts(options: Single.Options, fingerprint: string, replies: Single.Replies, conditions: Conditions)
    ensures
      var trace := Single.SingleTrace(options, fingerprint, replies, conditions);
      if Single.StageOf(options, replies).NotStarted? then trace == []
      else if Blank(options.subscribeId) then [Claim([fingerprint]), Create(options.eventKey)] <= trace
      else [Lookup(options.subscribeId)] <= trace
  {
  }

  /** Its deletes run under its own context exactly if its run state could not be saved
      because it was canceled, by its error or otherwise. */
  lemma SingleDeletesUnder(options: Single.Options, fingerprint: string, replies: Single.Replies,
      conditions: Conditions)
    ensures
      forall op | op in Single.SingleTrace(options, fingerprint, replies, conditions) && op.Delete? ::
        op.context == RunContext <==>
        replies.save.SaveFailed? && (replies.save.error.canceled || conditions.canceledAtCleanup)
  {
    OpeningInOrder(options, fingerprint);
  }

  // Where the loop stops

  /** A reply that brings a new subscription with a saved run state, after others. */
  predicate Succeeds(reply: Reply, before: seq<Reply>) {
    && reply.create.Subscribed? && TrimSpace(reply.create.id) != "" && reply.save == Saved
    && forall j | 0 <= j < |before| :: before[j].create.Subscribed? ==>
          TrimSpace(before[j].create.id) != TrimSpace(reply.create.id)
  }

  /** The raw ids of replies that all brought a subscription. */
  function IdsOf(replies: seq<Reply>): (ids: seq<string>)
    requires forall j | 0 <= j < |replies| :: replies[j].create.Subscribed?
    ensures |ids| == |replies| && forall j | 0 <= j < |ids| :: ids[j] == replies[j].create.id
  {
    seq(|replies|, j requires 0 <= j < |replies| => replies[j].create.id)
  }

  lemma SucceedsMeans(reply: Reply, before: seq<Reply>)
    requires forall j | 0 <= j < |before| :: before[j].create.Subscribed?
    ensures Succeeds(reply, before) <==> Accepts(reply, IdsOf(before)) && reply.save.Saved?
  {
    var ids := IdsOf(before);
    if reply.create.Subscribed? {
      assert TrimSpace(reply.create.id) in TrimmedIds(ids) <==>
        exists j | 0 <= j < |ids| :: TrimmedIds(ids)[j] == TrimSpace(reply.create.id);
      assert forall j | 0 <= j < |ids| :: TrimmedIds(ids)[j] == TrimSpace(before[j].create.id);
    }
  }

  lemma {:induction false} StopsFrom(replies: seq<Reply>, i: nat)
    requires i <= |replies| && forall j | 0 <= j < i :: replies[j].create.Subscribed?
    ensures
      var n := StopsAt(replies, i, IdsOf(replies[..i]));
      && (forall k: nat | i <= k < n :: Succeeds(replies[k], replies[..k]))
      && (n < |replies| ==> !Succeeds(replies[n], replies[..n]))
    decreases |replies| - i
  {
    if i < |replies| {
      SucceedsMeans(replies[i], replies[..i]);
      if Succeeds(replies[i], replies[..i]) {
        StopsFrom(replies, i + 1);
        assert IdsOf(replies[..i + 1]) == IdsOf(replies[..i]) + [replies[i].create.id];
      }
    }
  }

  /** The creation loop stops at the first plan that does not succeed: whose request fails
      or brings nothing, a blank id or one already given, or whose run state is not saved. */
  lemma StopsAtFirstFailure(replies: seq<Reply>)
    ensures
      var n := StopsAt(replies, 0, []);
      && (forall k: nat | k < n :: Succeeds(replies[k], replies[..k]))
      && (n < |replies| ==> !Succeeds(replies[n], replies[..n]))
  {
    assert IdsOf(replies[..0]) == [];
    StopsFrom(replies, 0);
  }
}
