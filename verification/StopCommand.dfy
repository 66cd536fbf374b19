/** Stopping personal event subscriptions (internal/app/event_personal_command.go) and
    the file that lists the running ones (internal/event/personal/state.go). What other
    processes make of that file in the meantime, and every answer from outside, are
    arguments; every request is an element of the trace. */
module StopCommand {
  import opened Collections
  import opened GoStrings

  // The file of run states

  /** The listed ids with one more. A blank id is never listed. */
  function Upserted(ids: seq<string>, id: string): seq<string> {
    if id == "" || id in ids then ids else ids + [id]
  }

  /** The listed ids without those removed. */
  function Without(ids: seq<string>, removed: seq<string>): seq<string> {
    if ids == [] then []
    else
      var last := ids[|ids| - 1];
      Without(ids[..|ids| - 1], removed) + if last != "" && last in removed then [] else [last]
  }

  method RemoveStates(ids: seq<string>, removed: seq<string>) returns (kept: seq<string>)
    ensures kept == if removed == [] then ids else Without(ids, removed)
  {
    if removed == [] {
      return ids;
    }
    var gone: set<string> := {};
    for i := 0 to |removed|
      invariant forall id :: id in gone <==> id != "" && id in removed[..i]
    {
      assert removed[..i + 1] == removed[..i] + [removed[i]];
      if removed[i] != "" {
        gone := gone + {removed[i]};
      }
    }
    assert removed[..|removed|] == removed;
    kept := [];
    for i := 0 to |ids|
      invariant kept == Without(ids[..i], removed)
    {
      assert ids[..i + 1][..i] == ids[..i];
      if ids[i] !in gone {
        kept := kept + [ids[i]];
      }
    }
    assert ids[..|ids|] == ids;
  }

  /** Exactly the ids that are removed and not blank go. */
  lemma {:induction false} WithoutMeans(ids: seq<string>, removed: seq<string>, id: string)
    ensures id in Without(ids, removed) <==> id in ids && (id == "" || id !in removed)
  {
    if ids != [] {
      WithoutMeans(ids[..|ids| - 1], removed, id);
      assert ids == ids[..|ids| - 1] + [ids[|ids| - 1]];
    }
  }

  /** Listing an id and removing it again leaves the ids as they were. */
  lemma {:induction false} UpsertThenRemove(ids: seq<string>, id: string)
    requires id !in ids
    ensures Without(Upserted(ids, id), [id]) == ids
  {
    if id == "" {
      NothingRemoved(ids, [id]);
    } else {
      assert (ids + [id])[..|ids|] == ids;
      NothingRemoved(ids, [id]);
    }
  }

  lemma {:induction false} NothingRemoved(ids: seq<string>, removed: seq<string>)
    requires forall id | id in ids :: id == "" || id !in removed
    ensures Without(ids, removed) == ids
  {
    if ids != [] {
      var rest, last := ids[..|ids| - 1], ids[|ids| - 1];
      assert ids == rest + [last];
      NothingRemoved(rest, removed);
    }
  }

  // The command

  datatype StopOptions = StopOptions(subscribeId: string, all: bool)

  datatype BusAnswer = Halted | NotRunning | HaltFailed

  /** What is found at each step; None where a step fails. `listed`, `found` and
      `remaining` are the ids in the file when the targets are listed, when the file is
      rewritten and at the end. */
  datatype Answers = Answers(
    identityKnown: bool,
    listed: Option<seq<string>>,
    deleted: nat -> bool,
    found: Option<seq<string>>,
    remaining: Option<seq<string>>,
    bus: BusAnswer)

  datatype StopOp =
    | Delete(id: string, ok: bool)
    | Rewrite(before: seq<string>, after: seq<string>)
    | StopConsumers(ids: seq<string>)
    | StopBus

  datatype Outcome =
    | BadUsage
    | IdentityFailed
    | ListFailed
    | DeleteFailed(id: string)
    | UpdateFailed
    | ReloadFailed
    | StillRunning
    | BusDown(wasRunning: bool)
    | BusFailed

  function NonEmpty(ids: seq<string>): seq<string> {
    if ids == [] then []
    else NonEmpty(ids[..|ids| - 1]) + if ids[|ids| - 1] == "" then [] else [ids[|ids| - 1]]
  }

  /** The ids a command is about: the one it names, or all that are listed. */
  function Targets(opts: StopOptions, a: Answers): Option<seq<string>> {
    if !Blank(opts.subscribeId) then Some([TrimSpace(opts.subscribeId)])
    else if a.listed.None? then None
    else Some(NonEmpty(a.listed.value))
  }

  predicate Runs(opts: StopOptions, a: Answers) {
    a.identityKnown && (Blank(opts.subscribeId) <==> opts.all) && Targets(opts, a).Some?
  }

  /** The deletes of the first `n` targets. */
  function DeleteOps(targets: seq<string>, deleted: nat -> bool, n: nat): seq<StopOp>
    requires n <= |targets|
  {
    seq(n, i requires 0 <= i < n => Delete(targets[i], deleted(i)))
  }

  predicate AllDeleted(targets: seq<string>, deleted: nat -> bool) {
    forall i: nat | i < |targets| :: deleted(i)
  }

  /** The first target whose delete fails. */
  function FirstFailure(targets: seq<string>, deleted: nat -> bool, i: nat): (n: nat)
    requires i <= |targets|
    ensures i <= n <= |targets| && (forall k: nat | i <= k < n :: deleted(k)) && (n < |targets| ==> !deleted(n))
    decreases |targets| - i
  {
    if i == |targets| || !deleted(i) then i else FirstFailure(targets, deleted, i + 1)
  }

  /** What follows once every target is deleted. */
  function Afterwards(targets: seq<string>, a: Answers): seq<StopOp> {
    if targets != [] && a.found.None? then []
    else
      (if targets == [] then [] else [Rewrite(a.found.value, Without(a.found.value, targets))]) +
      (if exists i | 0 <= i < |targets| :: !Blank(targets[i]) then [StopConsumers(targets)] else []) +
      (if a.remaining == Some([]) then [StopBus] else [])
  }

  /** Every request of a command. */
  function StopTrace(opts: StopOptions, a: Answers): seq<StopOp> {
    if !Runs(opts, a) then []
    else
      var targets := Targets(opts, a).value;
      var n := FirstFailure(targets, a.deleted, 0);
      if n < |targets| then DeleteOps(targets, a.deleted, n + 1)
      else DeleteOps(targets, a.deleted, n) + Afterwards(targets, a)
  }

  method ListTargets(opts: StopOptions, a: Answers) returns (targets: Option<seq<string>>)
    ensures targets == Targets(opts, a)
  {
    var explicit := TrimSpace(opts.subscribeId);
    if explicit != "" {
      return Some([explicit]);
    }
    if a.listed.None? {
      return None;
    }
    var ids: seq<string> := [];
    var states := a.listed.value;
    for i := 0 to |states|
      invariant ids == NonEmpty(states[..i])
    {
      assert states[..i + 1][..i] == states[..i];
      if states[i] != "" {
        ids := ids + [states[i]];
      }
    }
    assert states[..|states|] == states;
    return Some(ids);
  }

  method Stop(opts: StopOptions, a: Answers) returns (outcome: Outcome, trace: seq<StopOp>)
    ensures trace == StopTrace(opts, a)
    ensures outcome.BusDown? || outcome.BusFailed? <==> StopBus in trace
    ensures outcome == BadUsage <==> (TrimSpace(opts.subscribeId) == "") != opts.all
    ensures outcome == IdentityFailed <==> (TrimSpace(opts.subscribeId) == "") == opts.all && !a.identityKnown
    ensures outcome == ListFailed <==>
              TrimSpace(opts.subscribeId) == "" && opts.all && a.identityKnown && a.listed.None?
    ensures outcome.DeleteFailed? <==> Runs(opts, a) && !AllDeleted(Targets(opts, a).value, a.deleted)
    ensures outcome.DeleteFailed? ==> Delete(outcome.id, false) in trace
    ensures Runs(opts, a) && AllDeleted(Targets(opts, a).value, a.deleted) ==>
              EndsAs(outcome, Targets(opts, a).value, a)
  {
    trace := [];
    if Blank(opts.subscribeId) != opts.all {
      return BadUsage, [];
    }
    if !a.identityKnown {
      return IdentityFailed, [];
    }
    var listed := ListTargets(opts, a);
    if listed.None? {
      return ListFailed, [];
    }
    var targets := listed.value;
    var failed;
    failed, trace := DeleteAll(targets, a.deleted);
    if failed.Some? {
      return DeleteFailed(failed.value), trace;
    }
    var rest;
    outcome, rest := FinishStop(targets, a);
    return outcome, trace + rest;
  }

  /** The outcome of a command whose targets are all deleted, told by the first step that
      fails, by the runs that are left, or by what the bus answers. */
  predicate EndsAs(outcome: Outcome, targets: seq<string>, a: Answers) {
    var rewritten := targets == [] || a.found != None;
    && (outcome == UpdateFailed <==> !rewritten)
    && (outcome == ReloadFailed <==> rewritten && a.remaining == None)
    && (outcome == StillRunning <==> rewritten && a.remaining != None && a.remaining != Some([]))
    && (outcome == BusDown(true) <==> rewritten && a.remaining == Some([]) && a.bus == Halted)
    && (outcome == BusDown(false) <==> rewritten && a.remaining == Some([]) && a.bus == NotRunning)
    && (outcome == BusFailed <==> rewritten && a.remaining == Some([]) && a.bus == HaltFailed)
  }

  /** What follows once every target is deleted. */
  method FinishStop(targets: seq<string>, a: Answers) returns (outcome: Outcome, trace: seq<StopOp>)
    ensures trace == Afterwards(targets, a)
    ensures outcome.BusDown? || outcome.BusFailed? <==> StopBus in trace
    ensures EndsAs(outcome, targets, a)
  {
    trace := [];
    if targets != [] {
      if a.found.None? {
        return UpdateFailed, trace;
      }
      var kept := RemoveStates(a.found.value, targets);
      trace := trace + [Rewrite(a.found.value, kept)];
    }
    var hasTarget := HasTarget(targets);
    if hasTarget {
      trace := trace + [StopConsumers(targets)];
    }
    if a.remaining.None? {
      return ReloadFailed, trace;
    }
    if |a.remaining.value| > 0 {
      return StillRunning, trace;
    }
    trace := trace + [StopBus];
    match a.bus {
      case Halted => return BusDown(true), trace;
      case NotRunning => return BusDown(false), trace;
      case HaltFailed => return BusFailed, trace;
    }
  }

  /** Deletes the targets one by one, up to the first failure. */
  method DeleteAll(targets: seq<string>, deleted: nat -> bool) returns (failed: Option<string>, trace: seq<StopOp>)
    ensures
      var n := FirstFailure(targets, deleted, 0);
      && trace == DeleteOps(targets, deleted, if n < |targets| then n + 1 else n)
      && failed == if n < |targets| then Some(targets[n]) else None
    ensures failed.Some? ==> Delete(failed.value, false) in trace
    ensures StopBus !in trace
  {
    trace := [];
    for i := 0 to |targets|
      invariant trace == DeleteOps(targets, deleted, i)
      invariant forall k: nat | k < i :: deleted(k)
    {
      trace := trace + [Delete(targets[i], deleted(i))];
      if !deleted(i) {
        assert trace == DeleteOps(targets, deleted, i + 1);
        assert trace[i] == Delete(targets[i], false);
        return Some(targets[i]), trace;
      }
    }
    return None, trace;
  }

  method HasTarget(targets: seq<string>) returns (found: bool)
    ensures found <==> exists i | 0 <= i < |targets| :: !Blank(targets[i])
  {
    found := false;
    for i := 0 to |targets|
      invariant !exists j | 0 <= j < i :: !Blank(targets[j])
    {
      if TrimSpace(targets[i]) != "" {
        return true;
      }
    }
  }

  // What it promises

  /** The targets are deleted first, in order, and nothing follows one that fails. */
  lemma DeletesComeFirst(opts: StopOptions, a: Answers, k: nat)
    requires Runs(opts, a) && k < |Targets(opts, a).value| && forall j: nat | j < k :: a.deleted(j)
    ensures
      var targets, trace := Targets(opts, a).value, StopTrace(opts, a);
      && k < |trace| && trace[k] == Delete(targets[k], a.deleted(k))
      && (!a.deleted(k) ==> |trace| == k + 1)
  {
    var n := FirstFailure(Targets(opts, a).value, a.deleted, 0);
    assert n >= k;
  }

  function Rank(op: StopOp): nat {
    match op
    case Delete(_, _) => 0
    case Rewrite(_, _) => 1
    case StopConsumers(_) => 2
    case StopBus => 3
  }

  /** Deletes, then the file, then the consumers, then the bus. */
  lemma StopsInOrder(opts: StopOptions, a: Answers, i: nat, j: nat)
    requires i < j < |StopTrace(opts, a)|
    ensures Rank(StopTrace(opts, a)[i]) <= Rank(StopTrace(opts, a)[j])
  {
    var targets := Targets(opts, a).value;
    var n := FirstFailure(targets, a.deleted, 0);
    if n == |targets| {
      var deletes, rest := DeleteOps(targets, a.deleted, n), Afterwards(targets, a);
      assert i >= n ==> StopTrace(opts, a)[i] == rest[i - n];
      assert j >= n ==> StopTrace(opts, a)[j] == rest[j - n];
      AfterwardsInOrder(targets, a);
    }
  }

  lemma AfterwardsInOrder(targets: seq<string>, a: Answers)
    ensures forall i, j | 0 <= i < j < |Afterwards(targets, a)| ::
              Rank(Afterwards(targets, a)[i]) < Rank(Afterwards(targets, a)[j])
  {
  }

  /** The consumers are asked to stop exactly once every target is deleted and the file
      rewritten, if any target is not blank; and exactly the targets' consumers. */
  lemma StopsConsumersIff(opts: StopOptions, a: Answers, ids: seq<string>)
    ensures StopConsumers(ids) in StopTrace(opts, a) <==>
            && Runs(opts, a) && AllDeleted(Targets(opts, a).value, a.deleted) && ids == Targets(opts, a).value
            && (ids == [] || a.found.Some?) && exists i | 0 <= i < |ids| :: TrimSpace(ids[i]) != ""
  {
    if Runs(opts, a) {
      var targets := Targets(opts, a).value;
      var n := FirstFailure(targets, a.deleted, 0);
      assert StopConsumers(ids) !in DeleteOps(targets, a.deleted, n);
      assert n < |targets| ==> StopConsumers(ids) !in DeleteOps(targets, a.deleted, n + 1);
      assert AllDeleted(targets, a.deleted) <==> n == |targets|;
      ConsumersAfterwards(targets, a, ids);
    }
  }

  lemma ConsumersAfterwards(targets: seq<string>, a: Answers, ids: seq<string>)
    ensures StopConsumers(ids) in Afterwards(targets, a) <==>
            && ids == targets && (targets == [] || a.found.Some?)
            && exists i | 0 <= i < |targets| :: TrimSpace(targets[i]) != ""
  {
    assert (exists i | 0 <= i < |targets| :: !Blank(targets[i])) <==>
      exists i | 0 <= i < |targets| :: TrimSpace(targets[i]) != "";
  }

  /** An id leaves the file only after its subscription was deleted in this command. */
  lemma ForgetsOnlyDeleted(opts: StopOptions, a: Answers, before: seq<string>, after: seq<string>, id: string)
    requires Rewrite(before, after) in StopTrace(opts, a) && id in before && id !in after
    ensures Delete(id, true) in StopTrace(opts, a)
  {
    var targets, trace := Targets(opts, a).value, StopTrace(opts, a);
    var deletes := DeleteOps(targets, a.deleted, FirstFailure(targets, a.deleted, 0));
    RewriteMeans(opts, a, before, after);
    WithoutMeans(before, targets, id);
    var i :| 0 <= i < |targets| && targets[i] == id;
    assert deletes[i] == Delete(id, true) && deletes[i] in deletes;
  }

  lemma RewriteMeans(opts: StopOptions, a: Answers, before: seq<string>, after: seq<string>)
    requires Rewrite(before, after) in StopTrace(opts, a)
    ensures Runs(opts, a)
    ensures
      var targets := Targets(opts, a).value;
      && AllDeleted(targets, a.deleted) && FirstFailure(targets, a.deleted, 0) == |targets|
      && StopTrace(opts, a) == DeleteOps(targets, a.deleted, |targets|) + Afterwards(targets, a)
      && a.found == Some(before) && after == Without(before, targets)
  {
  }

  /** Ids the command is not about stay in the file. */
  lemma KeepsOthers(opts: StopOptions, a: Answers, before: seq<string>, after: seq<string>, id: string)
    requires Rewrite(before, after) in StopTrace(opts, a) && id in before
    requires id !in Targets(opts, a).value
    ensures id in after
  {
    RewriteMeans(opts, a, before, after);
    WithoutMeans(before, Targets(opts, a).value, id);
  }

  /** The bus is stopped if and only if every target is deleted, the file is rewritten and
      then no run is left. */
  lemma StopsBusIff(opts: StopOptions, a: Answers)
    ensures StopBus in StopTrace(opts, a) <==>
            && Runs(opts, a) && AllDeleted(Targets(opts, a).value, a.deleted)
            && (Targets(opts, a).value == [] || a.found.Some?) && a.remaining == Some([])
  {
    if Runs(opts, a) {
      var targets := Targets(opts, a).value;
      var n := FirstFailure(targets, a.deleted, 0);
      assert StopBus !in DeleteOps(targets, a.deleted, n);
      assert n < |targets| ==> StopBus !in DeleteOps(targets, a.deleted, n + 1);
      assert AllDeleted(targets, a.deleted) <==> n == |targets|;
      assert StopBus in Afterwards(targets, a) <==> (targets == [] || a.found.Some?) && a.remaining == Some([]);
    }
  }

  lemma {:induction false} NonEmptyMeans(ids: seq<string>, id: string)
    ensures id in NonEmpty(ids) <==> id in ids && id != ""
  {
    if ids != [] {
      NonEmptyMeans(ids[..|ids| - 1], id);
      assert ids == ids[..|ids| - 1] + [ids[|ids| - 1]];
    }
  }

  /** Stopping everything, undisturbed and without a failure, stops the bus if and only if
      no blank id is listed; and the file never comes to list one. */
  lemma StoppingAllStopsBusIff(opts: StopOptions, a: Answers)
    requires Blank(opts.subscribeId) && Runs(opts, a) && AllDeleted(Targets(opts, a).value, a.deleted)
    requires a.found == a.listed
    requires
      var ids := a.listed.value;
      a.remaining == Some(if NonEmpty(ids) == [] then ids else Without(ids, NonEmpty(ids)))
    ensures StopBus in StopTrace(opts, a) <==> "" !in a.listed.value
  {
    var ids, targets := a.listed.value, NonEmpty(a.listed.value);
    forall id
      ensures id in a.remaining.value <==> id in ids && id == ""
    {
      NonEmptyMeans(ids, id);
      WithoutMeans(ids, targets, id);
    }
    assert a.remaining.value != [] ==> a.remaining.value[0] in a.remaining.value;
    StopsBusIff(opts, a);
  }

  /** The ids listed after a history of additions and removals. */
  datatype FileOp = Upsert(id: string) | Remove(ids: seq<string>)

  function ListedAfter(ops: seq<FileOp>): seq<string> {
    if ops == [] then []
    else
      var before := ListedAfter(ops[..|ops| - 1]);
      match ops[|ops| - 1]
      case Upsert(id) => Upserted(before, id)
      case Remove(ids) => Without(before, ids)
  }

  /** Whatever is added and removed, the file lists no blank id, and none twice. */
  lemma {:induction false} ListedStaysProper(ops: seq<FileOp>)
    ensures "" !in ListedAfter(ops)
    ensures forall i, j | 0 <= i < j < |ListedAfter(ops)| :: ListedAfter(ops)[i] != ListedAfter(ops)[j]
  {
    if ops != [] {
      var before := ListedAfter(ops[..|ops| - 1]);
      ListedStaysProper(ops[..|ops| - 1]);
      if ops[|ops| - 1].Remove? {
        WithoutMeans(before, ops[|ops| - 1].ids, "");
        WithoutKeepsDistinct(before, ops[|ops| - 1].ids);
      }
    }
  }

  lemma {:induction false} WithoutKeepsDistinct(ids: seq<string>, removed: seq<string>)
    requires forall i, j | 0 <= i < j < |ids| :: ids[i] != ids[j]
    ensures var kept := Without(ids, removed); forall i, j | 0 <= i < j < |kept| :: kept[i] != kept[j]
  {
    if ids != [] {
      var rest, last := ids[..|ids| - 1], ids[|ids| - 1];
      WithoutKeepsDistinct(rest, removed);
      WithoutMeans(rest, removed, last);
      assert ids == rest + [last];
      assert last !in rest;
    }
  }
}
