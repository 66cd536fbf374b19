/** The run for one event key: create a subscription, or reuse one by id
    (internal/app/event_personal_command.go, runPersonalEventConsumeSingle). */
module SingleRun {
  import opened GoStrings
  import opened SubscriptionRun

  const VOIP_INVITE := "user_voip_call_receive_invite"

  /** The options that decide how events may be printed. */
  datatype OutputMode = OutputMode(flatten: bool, debugRaw: bool, rawFormat: bool)

  datatype Options = Options(
    subscribeId: string,
    eventKey: string,
    ephemeral: bool,
    mode: OutputMode)

  datatype LookupReply =
    | LookupFailed(error: Failure)
    | NotFound
    | Found(eventKey: string)

  /** The answers one run meets. `checked` is the outcome of every other check made
      before the claim, `granted` the answer to the claim, and `usable` the outcome of
      the registry checks on the event key of a reused subscription. */
  datatype Replies = Replies(
    checked: bool,
    granted: bool,
    create: CreateReply,
    lookup: LookupReply,
    usable: bool,
    save: SaveReply)

  datatype Ensured =
    | EnsureFailed(error: Failure)
    | Nothing
    | Subscription(id: string, eventKey: string)

  predicate OutputModeAllowed(keys: seq<string>, mode: OutputMode) {
    && !(mode.flatten && (mode.debugRaw || mode.rawFormat))
    && (mode.rawFormat && !mode.debugRaw ==> forall key | key in keys :: TrimSpace(key) != VOIP_INVITE)
  }

  predicate SelfCreated(options: Options) {
    Blank(options.subscribeId)
  }

  predicate Owned(options: Options) {
    SelfCreated(options) || options.ephemeral
  }

  /** The event key a reused subscription runs under; "" when the keys disagree or
      there is none. */
  function ReusedKey(options: Options, found: string): string {
    var requested, actual := TrimSpace(options.eventKey), TrimSpace(found);
    if requested != "" && actual != "" && requested != actual then ""
    else if actual == "" then requested
    else actual
  }

  function Ensure(options: Options, replies: Replies): Ensured {
    if SelfCreated(options) then
      match replies.create
      case CreateFailed(error) => EnsureFailed(error)
      case NoSubscription => Nothing
      case Subscribed(id) => Subscription(id, options.eventKey)
    else
      match replies.lookup
      case LookupFailed(error) => EnsureFailed(error)
      case NotFound => EnsureFailed(UNCLASSIFIED)
      case Found(key) =>
        if ReusedKey(options, key) == "" || !replies.usable then EnsureFailed(UNCLASSIFIED)
        else Subscription(TrimSpace(options.subscribeId), ReusedKey(options, key))
  }

  /** The run got past its local checks and, when it creates, past the claim. */
  predicate Started(options: Options, replies: Replies) {
    && replies.checked
    && OutputModeAllowed([options.eventKey], options.mode)
    && (SelfCreated(options) ==> replies.granted)
  }

  /** The remote side answered with a subscription the run can use. */
  predicate Usable(ensured: Ensured) {
    ensured.Subscription? && !Blank(ensured.id)
  }

  /** The error of a run that got no subscription it can use. */
  function CauseOfNothing(ensured: Ensured): Failure {
    if ensured.EnsureFailed? then ensured.error else UNCLASSIFIED
  }

  /** How far a run gets. */
  datatype Stage = NotStarted | NotCreated | Unprintable | Running

  function StageOf(options: Options, replies: Replies): Stage {
    var ensured := Ensure(options, replies);
    if !Started(options, replies) then NotStarted
    else if !Usable(ensured) then NotCreated
    else if !OutputModeAllowed([ensured.eventKey], options.mode) then Unprintable
    else Running
  }

  // The run, specified

  /** How a failed run ends its claim, if it has one. Only an error of the subscription
      request itself can be a rejection of the runtime token. */
  function FailureSettlement(options: Options, fingerprint: string, cause: Failure, requested: bool,
      conditions: Conditions): seq<Op>
  {
    if !SelfCreated(options) then []
    else if (requested && conditions.runtimeToken && cause.tokenRejected) || cause.canceled
      || conditions.canceledAtSettlement
    then [Release]
    else [CompleteFailure([], fingerprint)]
  }

  function OwnedRollback(options: Options, id: string, context: Context): seq<Op> {
    if Owned(options) then [Delete(id, context), RemoveStates([id])] else []
  }

  function OpeningOps(options: Options, fingerprint: string): seq<Op> {
    if SelfCreated(options) then [Claim([fingerprint]), Create(options.eventKey)] else [Lookup(options.subscribeId)]
  }

  /** What the run does once it has a subscription it may print. */
  function ClosingOps(options: Options, fingerprint: string, id: string, save: SaveReply,
      conditions: Conditions): seq<Op>
  {
    match save
    case SaveFailed(error) =>
      FailureSettlement(options, fingerprint, error, false, conditions) +
      OwnedRollback(options, id, CleanupContext(error, conditions))
    case Saved =>
      (if SelfCreated(options) then [CompleteSuccess] else []) +
      (if SelfCreated(options) && !conditions.settlementStored then [] else [Stream([id])]) +
      OwnedRollback(options, id, Background)
  }

  /** How a run that got to save its run state ends its claim, if it has one. */
  function ClosingSettlements(options: Options, fingerprint: string, save: SaveReply, conditions: Conditions): seq<Op> {
    match save
    case SaveFailed(error) => FailureSettlement(options, fingerprint, error, false, conditions)
    case Saved => if SelfCreated(options) then [CompleteSuccess] else []
  }

  /** How a run ends its claim, if it has one. */
  function SingleSettlements(options: Options, fingerprint: string, replies: Replies, conditions: Conditions): seq<Op> {
    match StageOf(options, replies)
    case NotCreated =>
      FailureSettlement(options, fingerprint, CauseOfNothing(Ensure(options, replies)), true, conditions)
    case Running => ClosingSettlements(options, fingerprint, replies.save, conditions)
    case _ => []
  }

  function SingleTrace(options: Options, fingerprint: string, replies: Replies, conditions: Conditions): seq<Op> {
    var ensured := Ensure(options, replies);
    match StageOf(options, replies)
    case NotStarted => []
    case NotCreated =>
      OpeningOps(options, fingerprint) +
      FailureSettlement(options, fingerprint, CauseOfNothing(ensured), true, conditions)
    case Unprintable => OpeningOps(options, fingerprint)
    case Running =>
      OpeningOps(options, fingerprint) + [Save(ensured.id)] +
      ClosingOps(options, fingerprint, ensured.id, replies.save, conditions)
  }

  /** What the caller is told when a run fails. */
  function FailureReport(options: Options, cause: Failure, requested: bool, conditions: Conditions): Report {
    if requested && conditions.runtimeToken && cause.tokenRejected then
      if SelfCreated(options) && !conditions.settlementStored then Guarded else TokenRejected
    else if !SelfCreated(options) || cause.canceled || conditions.canceledAtSettlement then Cause
    else if conditions.settlementStored then Classified
    else Guarded
  }

  /** What the caller of a single-event run is told. */
  function SingleReport(options: Options, replies: Replies, conditions: Conditions): Report {
    var ensured := Ensure(options, replies);
    match StageOf(options, replies)
    case NotStarted =>
      if !replies.checked then Cause
      else if !OutputModeAllowed([options.eventKey], options.mode) then OutputModeRejected
      else Guarded
    case NotCreated =>
      FailureReport(options, CauseOfNothing(ensured), true, conditions)
    case Unprintable => OutputModeRejected
    case Running =>
      if replies.save.SaveFailed? then FailureReport(options, replies.save.error, false, conditions)
      else if SelfCreated(options) && !conditions.settlementStored then Guarded
      else Streamed(conditions.streamed)
  }

  // The run, step by step

  method CleanupOwned(options: Options, id: string, context: Context) returns (ops: seq<Op>)
    ensures ops == OwnedRollback(options, id, context)
  {
    ops := [];
    if Owned(options) {
      ops := [Delete(id, context), RemoveStates([id])];
    }
  }

  /** The check on how events may be printed, key by key. */
  method ValidateOutputMode(keys: seq<string>, mode: OutputMode) returns (allowed: bool)
    ensures allowed <==> OutputModeAllowed(keys, mode)
    ensures allowed <==>
              && !(mode.flatten && mode.debugRaw) && !(mode.flatten && mode.rawFormat)
              && (mode.rawFormat && !mode.debugRaw ==>
                    forall i | 0 <= i < |keys| :: TrimSpace(keys[i]) != "user_voip_call_receive_invite")
  {
    if mode.flatten && mode.debugRaw {
      return false;
    }
    if mode.flatten && mode.rawFormat {
      return false;
    }
    if mode.rawFormat && !mode.debugRaw {
      for i := 0 to |keys|
        invariant forall j | 0 <= j < i :: TrimSpace(keys[j]) != VOIP_INVITE
      {
        if TrimSpace(keys[i]) == VOIP_INVITE {
          return false;
        }
      }
    }
    allowed := true;
  }

  method ConsumeSingle(options: Options, fingerprint: string, replies: Replies, conditions: Conditions)
    returns (trace: seq<Op>, report: Report)
    ensures trace == SingleTrace(options, fingerprint, replies, conditions)
    ensures report == SingleReport(options, replies, conditions)
  {
    trace := [];
    if !replies.checked {
      return [], Cause;
    }
    var allowed := ValidateOutputMode([options.eventKey], options.mode);
    if !allowed {
      return [], OutputModeRejected;
    }
    var selfCreated := SelfCreated(options);
    var items := [Plan(options.eventKey, fingerprint)];
    if selfCreated {
      if !replies.granted {
        return [], Guarded;
      }
      trace := [Claim([fingerprint]), Create(options.eventKey)];
    } else {
      trace := [Lookup(options.subscribeId)];
    }
    var ensured := Ensure(options, replies);
    var settled: seq<Op>;
    if !Usable(ensured) {
      var cause := if ensured.EnsureFailed? then ensured.error else UNCLASSIFIED;
      if conditions.runtimeToken && cause.tokenRejected {
        settled, report := ReleaseTokenFailure(selfCreated, conditions);
      } else {
        settled, report := FinishFailure(selfCreated, items, 0, 0, cause, conditions);
        assert Fingerprints(items[..0]) == [];
      }
      trace := trace + settled;
      return;
    }
    allowed := ValidateOutputMode([ensured.eventKey], options.mode);
    if !allowed {
      return trace, OutputModeRejected;
    }
    trace := trace + [Save(ensured.id)];
    var rollback: seq<Op>;
    if replies.save.SaveFailed? {
      var cause := replies.save.error;
      var context := Background;
      if cause.canceled || conditions.canceledAtCleanup {
        context := RunContext;
      }
      settled, report := FinishFailure(selfCreated, items, 0, 0, cause, conditions);
      assert Fingerprints(items[..0]) == [];
      rollback := CleanupOwned(options, ensured.id, context);
      trace := trace + (settled + rollback);
      return;
    }
    settled := if selfCreated then [CompleteSuccess] else [];
    if selfCreated && !conditions.settlementStored {
      rollback := CleanupOwned(options, ensured.id, Background);
      trace := trace + (settled + [] + rollback);
      report := Guarded;
      return;
    }
    rollback := CleanupOwned(options, ensured.id, Background);
    trace := trace + (settled + [Stream([ensured.id])] + rollback);
    report := Streamed(conditions.streamed);
  }

  // What every single-event run keeps

  lemma OneSettlementProjects(settled: seq<Op>)
    requires |settled| <= 1 && forall op | op in settled :: IsSettlement(op)
    ensures Deleted(settled) == [] && Removed(settled) == [] && Settlements(settled) == settled
  {
    if settled != [] {
      assert settled == [settled[0]] && settled[0] in settled;
      SingletonProjects(settled[0]);
    }
  }

  lemma OwnedRollbackProjects(options: Options, id: string, context: Context)
    ensures
      var ops := OwnedRollback(options, id, context);
      && Deleted(ops) == (if Owned(options) then [id] else [])
      && Removed(ops) == (if Owned(options) then [[id]] else [])
      && Settlements(ops) == []
      && forall op | op in ops :: !IsSettlement(op)
  {
    if Owned(options) {
      SingletonProjects(Delete(id, context));
      SingletonProjects(RemoveStates([id]));
      ProjectionsConcat([Delete(id, context)], [RemoveStates([id])]);
      assert [Delete(id, context)] + [RemoveStates([id])] == OwnedRollback(options, id, context);
    }
  }

  lemma PartsProject(settled: seq<Op>, stream: seq<Op>, rollback: seq<Op>)
    requires |settled| <= 1 && forall op | op in settled :: IsSettlement(op)
    requires forall op | op in stream :: Inert(op)
    requires forall op | op in rollback :: !IsSettlement(op)
    requires Settlements(rollback) == []
    ensures
      var ops := settled + stream + rollback;
      && Deleted(ops) == Deleted(rollback)
      && Removed(ops) == Removed(rollback)
      && Settlements(ops) == settled
      && SettledBeforeDeletes(ops)
  {
    OneSettlementProjects(settled);
    InertProjects(stream);
    ProjectionsConcat(settled, stream);
    ProjectionsConcat(settled + stream, rollback);
    SettlementFirst(settled + stream, rollback);
  }

  lemma ClosingProjects(options: Options, fingerprint: string, id: string, save: SaveReply, conditions: Conditions)
    ensures
      var ops := ClosingOps(options, fingerprint, id, save, conditions);
      && Deleted(ops) == (if Owned(options) then [id] else [])
      && Removed(ops) == (if Owned(options) then [[id]] else [])
      && Settlements(ops) == ClosingSettlements(options, fingerprint, save, conditions)
      && SettledBeforeDeletes(ops)
  {
    match save
    case SaveFailed(error) =>
      var settled := FailureSettlement(options, fingerprint, error, false, conditions);
      var context := CleanupContext(error, conditions);
      OwnedRollbackProjects(options, id, context);
      PartsProject(settled, [], OwnedRollback(options, id, context));
      assert settled + [] == settled;
    case Saved =>
      OwnedRollbackProjects(options, id, Background);
      PartsProject(
        if SelfCreated(options) then [CompleteSuccess] else [],
        if SelfCreated(options) && !conditions.settlementStored then [] else [Stream([id])],
        OwnedRollback(options, id, Background));
  }

  lemma BehindOpening(head: seq<Op>, tail: seq<Op>)
    requires forall op | op in head :: Inert(op)
    requires SettledBeforeDeletes(tail)
    ensures Deleted(head + tail) == Deleted(tail)
    ensures Removed(head + tail) == Removed(tail)
    ensures Settlements(head + tail) == Settlements(tail)
    ensures SettledBeforeDeletes(head + tail)
  {
    InertProjects(head);
    ProjectionsConcat(head, tail);
    InertPrefixKeepsOrder(head, tail);
  }

  lemma RefusedProjects(options: Options, fingerprint: string, cause: Failure, conditions: Conditions)
    ensures
      var ops := OpeningOps(options, fingerprint) + FailureSettlement(options, fingerprint, cause, true, conditions);
      && Deleted(ops) == [] && Removed(ops) == [] && SettledBeforeDeletes(ops)
      && Settlements(ops) == FailureSettlement(options, fingerprint, cause, true, conditions)
  {
    var settled := FailureSettlement(options, fingerprint, cause, true, conditions);
    PartsProject(settled, [], []);
    assert settled + [] + [] == settled;
    BehindOpening(OpeningOps(options, fingerprint), settled);
  }

  lemma OpeningIsInert(options: Options, fingerprint: string, id: string)
    ensures forall op | op in OpeningOps(options, fingerprint) + [Save(id)] :: Inert(op)
  {
  }

  lemma RunningProjects(options: Options, fingerprint: string, id: string, save: SaveReply, conditions: Conditions)
    ensures
      var ops := OpeningOps(options, fingerprint) + [Save(id)] + ClosingOps(options, fingerprint, id, save, conditions);
      && Deleted(ops) == (if Owned(options) then [id] else [])
      && Removed(ops) == (if Owned(options) then [[id]] else [])
      && Settlements(ops) == ClosingSettlements(options, fingerprint, save, conditions)
      && SettledBeforeDeletes(ops)
  {
    OpeningIsInert(options, fingerprint, id);
    ClosingProjects(options, fingerprint, id, save, conditions);
    BehindOpening(
      OpeningOps(options, fingerprint) + [Save(id)], ClosingOps(options, fingerprint, id, save, conditions));
  }

  /** Conservation in a single run, and the settlement of its claim: what is deleted is
      the subscription the run owns and got as far as using; the run-state removal gets
      the same id; a claim is never settled twice, and never after a delete. */
  lemma SingleConserves(options: Options, fingerprint: string, replies: Replies, conditions: Conditions)
    ensures
      var trace, stage := SingleTrace(options, fingerprint, replies, conditions), StageOf(options, replies);
      && Deleted(trace) == (if stage.Running? && Owned(options) then [Ensure(options, replies).id] else [])
      && Removed(trace) == (if stage.Running? && Owned(options) then [[Ensure(options, replies).id]] else [])
      && Settlements(trace) == SingleSettlements(options, fingerprint, replies, conditions)
      && |Settlements(trace)| == (if SelfCreated(options) && (stage.NotCreated? || stage.Running?) then 1 else 0)
      && SettledBeforeDeletes(trace)
  {
    var ensured := Ensure(options, replies);
    match StageOf(options, replies)
    case NotStarted =>
    case NotCreated => RefusedProjects(options, fingerprint, CauseOfNothing(ensured), conditions);
    case Unprintable => InertProjects(OpeningOps(options, fingerprint));
    case Running => RunningProjects(options, fingerprint, ensured.id, replies.save, conditions);
  }

  /** A run that creates its subscription runs under the event key it asked for, so the
      late look at the output mode repeats the first one: from the claim on, every path
      settles the claim, and every usable id is deleted. */
  lemma CreatedIsSettledAndDeleted(options: Options, fingerprint: string, replies: Replies, conditions: Conditions)
    requires SelfCreated(options) && Started(options, replies)
    ensures StageOf(options, replies) != Unprintable
    ensures
      var trace := SingleTrace(options, fingerprint, replies, conditions);
      && |Settlements(trace)| == 1
      && Deleted(trace) ==
         if replies.create.Subscribed? && !Blank(replies.create.id) then [replies.create.id] else []
  {
    SingleConserves(options, fingerprint, replies, conditions);
  }

  /** The claim of such a run is completed exactly if the subscription is usable and its
      run state saved; otherwise it is released, or the failure is recorded under the run's
      own fingerprint. */
  lemma CreatedSettlesAs(options: Options, fingerprint: string, replies: Replies, conditions: Conditions)
    requires SelfCreated(options) && Started(options, replies)
    ensures
      var settled := Settlements(SingleTrace(options, fingerprint, replies, conditions));
      && |settled| == 1
      && (settled[0] == CompleteSuccess <==>
          replies.create.Subscribed? && !Blank(replies.create.id) && replies.save.Saved?)
      && (settled[0] == CompleteSuccess || settled[0] == Release || settled[0] == CompleteFailure([], fingerprint))
  {
    SingleConserves(options, fingerprint, replies, conditions);
  }

  /** A subscription reused by id is deleted exactly when the run is ephemeral, finds
      the subscription and may print its events. So one that is not ephemeral never is,
      and an ephemeral run whose late output check fails leaves it behind. */
  lemma ReusedIsDeletedIff(options: Options, fingerprint: string, replies: Replies, conditions: Conditions)
    requires !SelfCreated(options)
    ensures
      var trace := SingleTrace(options, fingerprint, replies, conditions);
      && Settlements(trace) == []
      && Deleted(trace) ==
         if options.ephemeral && Started(options, replies) && replies.lookup.Found? && replies.usable &&
            ReusedKey(options, replies.lookup.eventKey) != "" &&
            OutputModeAllowed([ReusedKey(options, replies.lookup.eventKey)], options.mode)
         then [TrimSpace(options.subscribeId)]
         else []
  {
    SingleConserves(options, fingerprint, replies, conditions);
    TrimSpaceIdempotent(options.subscribeId);
  }

  /** An ephemeral run in raw format that finds a subscription to the call invite, which
      has no raw format: the subscription is neither printed nor deleted. */
  lemma EphemeralIsLeftBehind(fingerprint: string, conditions: Conditions)
    ensures
      var options := Options("s", "", true, OutputMode(false, false, true));
      var replies := Replies(true, true, NoSubscription, Found(VOIP_INVITE), true, Saved);
      && Usable(Ensure(options, replies))
      && SingleReport(options, replies, conditions) == OutputModeRejected
      && Deleted(SingleTrace(options, fingerprint, replies, conditions)) == []
  {
    var options := Options("s", "", true, OutputMode(false, false, true));
    assert !IsSpace(VOIP_INVITE[0]) && !IsSpace(VOIP_INVITE[|VOIP_INVITE| - 1]);
    assert TrimLeft(VOIP_INVITE) == VOIP_INVITE && TrimSpace(VOIP_INVITE) == VOIP_INVITE;
    assert TrimLeft("s") == "s" && TrimSpace("s") == "s" && TrimSpace("") == "";
    SingletonProjects(Lookup(options.subscribeId));
  }

  /** What a run without a subscription id has is what the service created for its key. */
  lemma CreatedRunHas(options: Options, replies: Replies, id: string)
    requires Blank(options.subscribeId) && replies.create == Subscribed(id)
    ensures Ensure(options, replies) == Subscription(id, options.eventKey)
  {
  }

  /** What a run with a subscription id has is the subscription of that id, under the key
      asked for and found, if these agree where both are given and one of them is. */
  lemma ReusedRunHas(options: Options, replies: Replies, found: string)
    requires !Blank(options.subscribeId) && replies.lookup == Found(found)
    ensures
      var asked, actual := TrimSpace(options.eventKey), TrimSpace(found);
      Ensure(options, replies) ==
      if replies.usable && (asked == actual || asked == "") && actual != "" then
        Subscription(TrimSpace(options.subscribeId), actual)
      else if replies.usable && actual == "" && asked != "" then Subscription(TrimSpace(options.subscribeId), asked)
      else EnsureFailed(Failure(false, false))
  {
  }
}
