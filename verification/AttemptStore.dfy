/** The persistent guard on subscription attempts, shared by every process of one
    identity (internal/event/personal/attempt_store.go). Each operation runs under a file
    lock, so it is one atomic change of the records; times count nanoseconds. */
module AttemptStore {
  import opened Collections
  import Run = SubscriptionRun
  import Single = SingleRun

  const SECOND := 1_000_000_000
  const FAILURE_RESET := 24 * 3600 * SECOND
  const TERMINAL_HOLD := 3600 * SECOND

  datatype State = InFlight | Cooldown | TerminalHold

  datatype Retryability = Unset | Unknown | Retryable | NonRetryable

  /** `leaseUntil` and `nextAllowedAt` count only in the states that use them. */
  datatype Record = Record(
    eventKey: string,
    state: State,
    attemptId: string,
    leaseUntil: int,
    failureCount: nat,
    lastFailureAt: Option<int>,
    nextAllowedAt: int,
    retryability: Retryability)

  type Records = map<string, Record>

  datatype Spec = Spec(fingerprint: string, eventKey: string)

  datatype Claim = Claim(attemptId: string, fingerprints: set<string>, previous: map<string, Option<Record>>)

  datatype Failure = Failure(fingerprint: string, retryability: Retryability, retryAfter: int)

  /** The record is old enough to be forgotten when somebody claims. */
  predicate Forgotten(r: Record, now: int) {
    || (r.lastFailureAt.Some? && now - r.lastFailureAt.value >= FAILURE_RESET && !Suppresses(r, now))
    || (r.state.InFlight? && r.lastFailureAt.None? && now - r.leaseUntil >= FAILURE_RESET)
  }

  /** The record keeps others from claiming its fingerprint. */
  predicate Suppresses(r: Record, now: int) {
    if r.state.InFlight? then r.leaseUntil > now else r.nextAllowedAt > now
  }

  function Pruned(records: Records, now: int): Records {
    map fp | fp in records && !Forgotten(records[fp], now) :: records[fp]
  }

  function FingerprintsOf(specs: seq<Spec>): set<string> {
    set s | s in specs :: s.fingerprint
  }

  /** The event key of the first spec with a fingerprint; later ones are dropped. */
  function EventKeyOf(specs: seq<Spec>, fp: string): string {
    if specs == [] then ""
    else if specs[0].fingerprint == fp then specs[0].eventKey
    else EventKeyOf(specs[1..], fp)
  }

  /** The record a granted claim writes. */
  function Reserve(previous: Option<Record>, eventKey: string, attemptId: string, leaseUntil: int): Record {
    var base := if previous.Some? then previous.value else Record("", InFlight, "", 0, 0, None, 0, Unset);
    base.(eventKey := eventKey, state := InFlight, attemptId := attemptId, leaseUntil := leaseUntil,
          nextAllowedAt := 0, retryability := Unset)
  }

  function ReserveAll(records: Records, specs: seq<Spec>, attemptId: string, leaseUntil: int): Records {
    map fp | fp in records.Keys + FingerprintsOf(specs) ::
      if fp in FingerprintsOf(specs) then Reserve(Lookup(records, fp), EventKeyOf(specs, fp), attemptId, leaseUntil)
      else records[fp]
  }

  predicate OwnsAll(records: Records, claim: Claim) {
    forall fp | fp in claim.fingerprints ::
      fp in records && records[fp].state.InFlight? && records[fp].attemptId == claim.attemptId
  }

  /** A claim as `Claim` hands it out: it remembers every fingerprint's earlier record. */
  predicate WellFormed(claim: Claim) {
    forall fp | fp in claim.fingerprints :: fp in claim.previous
  }

  function Backoff(count: nat): int {
    if count == 1 then 30 * SECOND
    else if count == 2 then 120 * SECOND
    else if count == 3 then 600 * SECOND
    else 1800 * SECOND
  }

  /** The hold after failure number `count`. The jitter is a hash of the fingerprint and
      the count, at most a fifth of the backoff; only its sign matters here. */
  function FailureDelay(count: nat, jitter: nat, failure: Failure): int {
    if failure.retryability.NonRetryable? then TERMINAL_HOLD
    else
      var delay := Backoff(count) + jitter;
      if failure.retryAfter > delay then failure.retryAfter else delay
  }

  function FailureCount(previous: Option<Record>, now: int): nat {
    match previous
    case Some(r) =>
      if r.lastFailureAt.None? || now - r.lastFailureAt.value >= FAILURE_RESET then 1 else r.failureCount + 1
    case None => 1
  }

  function Held(previous: Option<Record>, current: Record, failure: Failure, jitter: nat, now: int): Record {
    var count := FailureCount(previous, now);
    Record(
      current.eventKey,
      if failure.retryability.NonRetryable? then TerminalHold else Cooldown,
      "", 0, count, Some(now),
      now + FailureDelay(count, jitter, failure),
      failure.retryability)
  }

  /** What a completed batch leaves at one fingerprint. */
  function Completed(current: Record, fp: string, claim: Claim, succeeded: seq<string>, failure: Failure,
      jitter: nat, now: int): Option<Record>
    requires fp in claim.previous
  {
    if fp == failure.fingerprint then Some(Held(claim.previous[fp], current, failure, jitter, now))
    else if fp in succeeded then None
    else claim.previous[fp]
  }

  predicate ValidCompletion(claim: Claim, succeeded: seq<string>, failure: Failure) {
    && failure.fingerprint in claim.fingerprints
    && failure.retryability != Unset
    && forall fp | fp in succeeded :: fp in claim.fingerprints && fp != failure.fingerprint
  }

  // Operations, as any process may run them

  datatype Op =
    | ClaimOp(specs: seq<Spec>, lease: int, attemptId: string, now: int)
    | SuccessOp(claim: Claim)
    | FailureOp(claim: Claim, succeeded: seq<string>, failure: Failure, jitter: nat, now: int)
    | ReleaseOp(claim: Claim)

  function Actor(op: Op): string {
    if op.ClaimOp? then op.attemptId else op.claim.attemptId
  }

  predicate Granted(records: Records, op: Op)
    requires op.ClaimOp?
  {
    && op.specs != [] && op.lease > 0
    && forall s | s in op.specs :: s.fingerprint in Pruned(records, op.now) ==>
          !Suppresses(records[s.fingerprint], op.now)
  }

  predicate Accepted(records: Records, op: Op) {
    match op
    case ClaimOp(_, _, _, _) => Granted(records, op)
    case SuccessOp(claim) => WellFormed(claim) && OwnsAll(records, claim)
    case FailureOp(claim, succeeded, failure, _, _) =>
      WellFormed(claim) && OwnsAll(records, claim) && ValidCompletion(claim, succeeded, failure)
    case ReleaseOp(claim) => WellFormed(claim) && OwnsAll(records, claim)
  }

  /** The records after an operation. One that is refused changes nothing. */
  function Apply(records: Records, op: Op): Records {
    if !Accepted(records, op) then records
    else
      match op
      case ClaimOp(specs, lease, attemptId, now) =>
        ReserveAll(Pruned(records, now), specs, attemptId, now + lease)
      case SuccessOp(claim) => records - claim.fingerprints
      case FailureOp(claim, succeeded, failure, jitter, now) =>
        map fp |
          && fp in records
          && (fp in claim.fingerprints ==> Completed(records[fp], fp, claim, succeeded, failure, jitter, now).Some?)
        ::
          if fp in claim.fingerprints then Completed(records[fp], fp, claim, succeeded, failure, jitter, now).value
          else records[fp]
      case ReleaseOp(claim) =>
        map fp | fp in records && (fp in claim.fingerprints ==> claim.previous[fp].Some?) ::
          if fp in claim.fingerprints then claim.previous[fp].value else records[fp]
  }

  function ClaimOf(records: Records, op: Op): Claim
    requires op.ClaimOp?
  {
    var fps := FingerprintsOf(op.specs);
    Claim(op.attemptId, fps, map fp | fp in fps :: Lookup(Pruned(records, op.now), fp))
  }

  function ApplyAll(records: Records, ops: seq<Op>): Records
    decreases |ops|
  {
    if ops == [] then records else ApplyAll(Apply(records, ops[0]), ops[1..])
  }

  // Safety over whole runs

  /** A fingerprint is free: it has no record, or its lease has ended, or its hold has. */
  predicate Free(records: Records, fp: string, now: int) {
    || fp !in records
    || (records[fp].state == InFlight && records[fp].leaseUntil <= now)
    || (records[fp].state != InFlight && records[fp].nextAllowedAt <= now)
  }

  /** A claim with specs and a positive lease is granted exactly if all its fingerprints are
      free. */
  lemma ClaimGrantedIff(records: Records, op: Op)
    requires op.ClaimOp?
    ensures Accepted(records, op) <==>
            op.specs != [] && op.lease > 0 && forall s | s in op.specs :: Free(records, s.fingerprint, op.now)
  {
    forall s | s in op.specs
      ensures Free(records, s.fingerprint, op.now) <==>
              (s.fingerprint in Pruned(records, op.now) ==> !Suppresses(records[s.fingerprint], op.now))
    {
    }
  }

  /** What a granted claim leaves: its fingerprints in flight until the lease ends, with the
      failures they had in the last day; every other record as it was, unless it is free
      and a day old. */
  lemma ClaimReserves(records: Records, op: Op, fp: string)
    requires op.ClaimOp? && Accepted(records, op)
    ensures
      var after := Apply(records, op);
      if fp in FingerprintsOf(op.specs) then
        && fp in after && after[fp].state == InFlight
        && after[fp].attemptId == op.attemptId && after[fp].leaseUntil == op.now + op.lease
        && (fp in records && records[fp].lastFailureAt.Some?
              && op.now - records[fp].lastFailureAt.value < FAILURE_RESET ==>
              after[fp].failureCount == records[fp].failureCount
                && after[fp].lastFailureAt == records[fp].lastFailureAt)
      else if fp in records && fp !in after then
        && Free(records, fp, op.now)
        && op.now - FAILURE_RESET >=
           if records[fp].lastFailureAt.Some? then records[fp].lastFailureAt.value else records[fp].leaseUntil
      else Lookup(after, fp) == Lookup(records, fp)
  {
  }

  /** Operations of other processes that cannot see the lease of `attemptId` expire. */
  ghost predicate Foreign(ops: seq<Op>, attemptId: string, until: int) {
    forall op | op in ops :: Actor(op) != attemptId && (op.ClaimOp? ==> op.now < until)
  }

  /** The records of a claim stand as they were granted. */
  ghost predicate Standing(records: Records, claim: Claim, granted: Records) {
    forall fp | fp in claim.fingerprints :: fp in records && fp in granted && records[fp] == granted[fp]
  }

  lemma ForeignStepKeepsClaim(records: Records, op: Op, claim: Claim, until: int)
    requires OwnsAll(records, claim)
    requires forall fp | fp in claim.fingerprints :: records[fp].leaseUntil == until
    requires Actor(op) != claim.attemptId
    requires op.ClaimOp? ==> op.now < until
    ensures Standing(Apply(records, op), claim, records)
    ensures op.ClaimOp? && FingerprintsOf(op.specs) * claim.fingerprints != {} ==> !Accepted(records, op)
  {
    if op.ClaimOp? {
      forall fp | fp in claim.fingerprints
        ensures fp in Pruned(records, op.now) && Suppresses(records[fp], op.now)
      {
      }
      if Accepted(records, op) {
        forall fp | fp in claim.fingerprints
          ensures fp !in FingerprintsOf(op.specs)
        {
        }
      }
    }
  }

  /** Within its lease a claim is exclusive: whatever other processes do, in any order
      and number, its records stay as granted, so its completion is never stale. */
  lemma {:induction false} LeaseIsExclusive(records: Records, ops: seq<Op>, claim: Claim, until: int)
    requires OwnsAll(records, claim)
    requires forall fp | fp in claim.fingerprints :: records[fp].leaseUntil == until
    requires Foreign(ops, claim.attemptId, until)
    ensures Standing(ApplyAll(records, ops), claim, records)
    ensures OwnsAll(ApplyAll(records, ops), claim)
    decreases |ops|
  {
    if ops != [] {
      assert ops[0] in ops;
      ForeignStepKeepsClaim(records, ops[0], claim, until);
      LeaseIsExclusive(Apply(records, ops[0]), ops[1..], claim, until);
    }
  }

  /** A granted claim owns its fingerprints, and so nobody else can be granted one of
      them, or complete a batch over one, before the lease ends. */
  lemma NoSecondClaim(records: Records, first: Op, ops: seq<Op>, second: Op)
    requires first.ClaimOp? && Accepted(records, first)
    requires Foreign(ops + [second], first.attemptId, first.now + first.lease)
    requires second.ClaimOp? ==> FingerprintsOf(second.specs) * FingerprintsOf(first.specs) != {}
    requires !second.ClaimOp? ==> second.claim.fingerprints * FingerprintsOf(first.specs) != {}
    ensures !Accepted(ApplyAll(Apply(records, first), ops), second)
  {
    var claim, granted := ClaimOf(records, first), Apply(records, first);
    var until := first.now + first.lease;
    assert second in ops + [second];
    assert forall op | op in ops :: op in ops + [second];
    LeaseIsExclusive(granted, ops, claim, until);
    var records' := ApplyAll(granted, ops);
    assert OwnsAll(records', claim);
    ForeignStepKeepsClaim(records', second, claim, until);
  }

  /** A claim that still owns its fingerprints is released to what it remembers. */
  lemma ReleaseAt(records: Records, claim: Claim)
    requires WellFormed(claim) && OwnsAll(records, claim)
    ensures
      var after := Apply(records, ReleaseOp(claim));
      && (forall fp | fp in claim.fingerprints :: Lookup(after, fp) == claim.previous[fp])
      && (forall fp | fp !in claim.fingerprints :: Lookup(after, fp) == Lookup(records, fp))
  {
  }

  /** How long a failure holds its fingerprint: a failure that must not be retried exactly
      an hour, whatever the server asks; any other at least as long as the server asks and
      at least the backoff of its count, which goes on from the failure before unless that
      was a day ago. */
  predicate HeldFor(r: Record, previous: Option<Record>, failure: Failure, now: int) {
    && r.lastFailureAt == Some(now)
    && r.failureCount == (if FailedLately(previous, now) then previous.value.failureCount + 1 else 1)
    && (if failure.retryability.NonRetryable? then
          r.state.TerminalHold? && r.nextAllowedAt == now + TERMINAL_HOLD
        else
          && r.state.Cooldown?
          && r.nextAllowedAt >= now + failure.retryAfter
          && r.nextAllowedAt >= now + Backoff(r.failureCount))
  }

  predicate FailedLately(previous: Option<Record>, now: int) {
    previous.Some? && previous.value.lastFailureAt.Some? && now - previous.value.lastFailureAt.value < FAILURE_RESET
  }

  /** A failed batch that still owns its fingerprints clears what succeeded, holds what
      failed and gives the rest back. */
  lemma FailureAt(records: Records, claim: Claim, succeeded: seq<string>, failure: Failure, jitter: nat, now: int)
    requires WellFormed(claim) && OwnsAll(records, claim) && ValidCompletion(claim, succeeded, failure)
    ensures
      var after, fp := Apply(records, FailureOp(claim, succeeded, failure, jitter, now)), failure.fingerprint;
      && fp in after && HeldFor(after[fp], claim.previous[fp], failure, now) && HeldSince(after, fp, now)
      && (forall fp | fp in succeeded :: fp !in after)
      && (forall fp | fp in claim.fingerprints && fp !in succeeded && fp != failure.fingerprint ::
            Lookup(after, fp) == claim.previous[fp])
      && (forall fp | fp !in claim.fingerprints :: Lookup(after, fp) == Lookup(records, fp))
  {
  }

  predicate HeldSince(records: Records, fp: string, now: int) {
    fp in records && !records[fp].state.InFlight? && records[fp].nextAllowedAt >= now + 30 * SECOND
  }

  /** The backoff of a later failure is never shorter, and up to the fourth it is longer
      than the one before with any jitter of at most a fifth. */
  lemma BackoffGrows(count: nat, jitter: nat)
    requires count > 0 && 5 * jitter <= Backoff(count)
    ensures 30 * 1_000_000_000 <= Backoff(count) <= 1800 * 1_000_000_000
    ensures count >= 4 ==> Backoff(count) == 1800 * 1_000_000_000
    ensures Backoff(count) <= Backoff(count + 1)
    ensures count < 4 ==> Backoff(count) + jitter < Backoff(count + 1)
  {
  }

  /** A fingerprint that failed, is claimed again and fails again within a day: its count
      goes on, and it is held at least as long as the backoff of the failure before. */
  lemma NextFailureHoldsNoShorter(records: Records, held: Record, first: Op, ops: seq<Op>, succeeded: seq<string>,
                                  failure: Failure, jitter: nat, now: int)
    requires Lookup(records, failure.fingerprint) == Some(held)
    requires held.lastFailureAt.Some? && held.failureCount > 0 && now - held.lastFailureAt.value < FAILURE_RESET
    requires first.ClaimOp? && Accepted(records, first) && first.now <= now
    requires Foreign(ops, first.attemptId, first.now + first.lease)
    requires ValidCompletion(ClaimOf(records, first), succeeded, failure)
    ensures
      var op := FailureOp(ClaimOf(records, first), succeeded, failure, jitter, now);
      var after, fp := Apply(ApplyAll(Apply(records, first), ops), op), failure.fingerprint;
      && fp in after && after[fp].failureCount == held.failureCount + 1
      && after[fp].nextAllowedAt - now >= Backoff(held.failureCount + 1) >= Backoff(held.failureCount)
  {
    GrantedStands(records, first, ops);
    assert !Forgotten(held, first.now);
    assert ClaimOf(records, first).previous[failure.fingerprint] == Some(held);
    FailureAt(ApplyAll(Apply(records, first), ops), ClaimOf(records, first), succeeded, failure, jitter, now);
    BackoffGrows(held.failureCount, 0);
  }

  /** Releasing a claim within its lease puts back, at each of its fingerprints, exactly
      the record that was there before the claim, whatever happened elsewhere. */
  lemma ReleaseRestores(records: Records, first: Op, ops: seq<Op>)
    requires first.ClaimOp? && Accepted(records, first)
    requires Foreign(ops, first.attemptId, first.now + first.lease)
    ensures
      var before := ApplyAll(Apply(records, first), ops);
      var after := Apply(before, ReleaseOp(ClaimOf(records, first)));
      && (forall fp | fp in FingerprintsOf(first.specs) :: Lookup(after, fp) == Lookup(Pruned(records, first.now), fp))
      && (forall fp | fp !in FingerprintsOf(first.specs) :: Lookup(after, fp) == Lookup(before, fp))
  {
    GrantedStands(records, first, ops);
    ReleaseAt(ApplyAll(Apply(records, first), ops), ClaimOf(records, first));
  }

  /** A granted claim still owns its fingerprints within its lease. */
  lemma GrantedStands(records: Records, first: Op, ops: seq<Op>)
    requires first.ClaimOp? && Accepted(records, first)
    requires Foreign(ops, first.attemptId, first.now + first.lease)
    ensures WellFormed(ClaimOf(records, first))
    ensures OwnsAll(ApplyAll(Apply(records, first), ops), ClaimOf(records, first))
  {
    LeaseIsExclusive(Apply(records, first), ops, ClaimOf(records, first), first.now + first.lease);
  }

  /** Once the lease of a claim has ended and nobody else touched its fingerprints since, any
      process is granted some or all of them. */
  lemma EndedLeaseIsGranted(records: Records, first: Op, ops: seq<Op>, second: Op)
    requires first.ClaimOp? && Accepted(records, first)
    requires Foreign(ops, first.attemptId, first.now + first.lease)
    requires second.ClaimOp? && second.specs != [] && second.lease > 0
    requires FingerprintsOf(second.specs) <= FingerprintsOf(first.specs) && second.now >= first.now + first.lease
    ensures Accepted(ApplyAll(Apply(records, first), ops), second)
  {
    var granted, claim := Apply(records, first), ClaimOf(records, first);
    LeaseIsExclusive(granted, ops, claim, first.now + first.lease);
    forall s | s in second.specs
      ensures Free(ApplyAll(granted, ops), s.fingerprint, second.now)
    {
      assert s.fingerprint in FingerprintsOf(second.specs);
    }
    ClaimGrantedIff(ApplyAll(granted, ops), second);
  }

  /** Once a hold has ended, its fingerprint can be claimed. */
  lemma EndedHoldIsGranted(records: Records, fp: string, until: int, op: Op)
    requires HoldsUntil(records, fp, until)
    requires op.ClaimOp? && op.specs != [] && op.lease > 0 && op.now >= until && FingerprintsOf(op.specs) == {fp}
    ensures Accepted(records, op)
  {
    forall s | s in op.specs
      ensures Free(records, s.fingerprint, op.now)
    {
      assert s.fingerprint in FingerprintsOf(op.specs);
    }
    ClaimGrantedIff(records, op);
  }

  /** A hold on a fingerprint: nobody may claim it before `until`. */
  predicate HoldsUntil(records: Records, fp: string, until: int) {
    fp in records && !records[fp].state.InFlight? && records[fp].nextAllowedAt == until
  }

  lemma HoldStep(records: Records, op: Op, fp: string, until: int)
    requires HoldsUntil(records, fp, until)
    requires op.ClaimOp? ==> op.now < until
    ensures HoldsUntil(Apply(records, op), fp, until)
    ensures op.ClaimOp? && fp in FingerprintsOf(op.specs) ==> !Accepted(records, op)
  {
    if op.ClaimOp? {
      assert fp in Pruned(records, op.now) && Suppresses(records[fp], op.now);
    }
  }

  /** A hold outlives everything any process does before it ends, the owner included:
      every claim that covers the fingerprint is refused as a whole. */
  lemma {:induction false} HoldIsKept(records: Records, ops: seq<Op>, fp: string, until: int)
    requires HoldsUntil(records, fp, until)
    requires forall op | op in ops :: op.ClaimOp? ==> op.now < until
    ensures HoldsUntil(ApplyAll(records, ops), fp, until)
    ensures forall specs, lease, id, now | now < until && fp in FingerprintsOf(specs) ::
              !Accepted(ApplyAll(records, ops), ClaimOp(specs, lease, id, now))
    decreases |ops|
  {
    if ops == [] {
      forall specs, lease, id, now | now < until && fp in FingerprintsOf(specs)
        ensures !Accepted(records, ClaimOp(specs, lease, id, now))
      {
        HoldStep(records, ClaimOp(specs, lease, id, now), fp, until);
      }
    } else {
      assert ops[0] in ops;
      HoldStep(records, ops[0], fp, until);
      HoldIsKept(Apply(records, ops[0]), ops[1..], fp, until);
    }
  }

  // A multi-event run on the store

  /** The specs a run claims for its plans. */
  function SpecsOf(plans: seq<Run.Plan>): seq<Spec> {
    seq(|plans|, i requires 0 <= i < |plans| => Spec(plans[i].fingerprint, plans[i].eventKey))
  }

  /** The store operation that a settlement of a run's trace stands for. */
  function StoreOp(op: Run.Op, claim: Claim, failure: Failure, jitter: nat, now: int): Op
    requires Run.IsSettlement(op)
  {
    match op
    case CompleteSuccess => SuccessOp(claim)
    case CompleteFailure(succeeded, failed) => FailureOp(claim, succeeded, failure.(fingerprint := failed), jitter, now)
    case _ => ReleaseOp(claim)
  }

  /** What a settled run leaves at a fingerprint of its plans, when plan `n` was the first
      to fail. */
  predicate Settled(settlement: Run.Op, fps: seq<string>, n: nat, fp: string, before: Records, after: Records, now: int)
    requires n <= |fps|
  {
    if settlement.Release? then Lookup(after, fp) == Lookup(before, fp)
    else if fp in fps[..n] then fp !in after
    else if n < |fps| && fp == fps[n] then HeldSince(after, fp, now)
    else Lookup(after, fp) == Lookup(before, fp)
  }

  /** The settlements a batch can get when plan `n` is the first to fail. */
  predicate SettlementFor(settlement: Run.Op, fps: seq<string>, n: nat)
    requires n <= |fps|
  {
    || (n == |fps| && settlement == Run.CompleteSuccess)
    || (n < |fps| && settlement == Run.Release)
    || (n < |fps| && settlement == Run.CompleteFailure(fps[..n], fps[n]))
  }

  /** The store takes the settlement: it only refuses to record a failure under a
      fingerprint that also succeeded. */
  predicate Settleable(settlement: Run.Op, fps: seq<string>, n: nat)
    requires n <= |fps|
  {
    settlement.CompleteFailure? && n < |fps| ==> fps[n] !in fps[..n]
  }

  /** The store takes a settlement exactly in that case, and then settles every plan. */
  lemma SettledOnStore(plans: seq<Run.Plan>, n: nat, settlement: Run.Op, before: Records, middle: Records, claim: Claim,
                       failure: Failure, jitter: nat, now: int)
    requires n <= |plans| && SettlementFor(settlement, Run.Fingerprints(plans), n)
    requires claim.fingerprints == FingerprintsOf(SpecsOf(plans))
    requires WellFormed(claim) && OwnsAll(middle, claim)
    requires forall fp | fp in claim.fingerprints :: claim.previous[fp] == Lookup(before, fp)
    requires failure.retryability != Unset
    ensures
      var op, fps := StoreOp(settlement, claim, failure, jitter, now), Run.Fingerprints(plans);
      && (Accepted(middle, op) <==> Settleable(settlement, fps, n))
      && (Accepted(middle, op) ==>
            forall fp | fp in claim.fingerprints :: Settled(settlement, fps, n, fp, before, Apply(middle, op), now))
  {
    var fps := Run.Fingerprints(plans);
    BatchFingerprints(plans);
    match settlement
    case CompleteFailure(_, _) =>
      assert forall fp | fp in fps[..n] :: exists k | 0 <= k < n :: fp == fps[k];
      if fps[n] !in fps[..n] {
        FailureAt(middle, claim, fps[..n], failure.(fingerprint := fps[n]), jitter, now);
      }
    case Release => ReleaseAt(middle, claim);
    case CompleteSuccess =>
      assert forall fp | fp in claim.fingerprints :: fp in fps;
      assert fps[..n] == fps;
  }

  /** The whole protocol of a multi-event run on the shared store. The claim was granted,
      and other processes did anything they liked until the run settled within its lease.
      Then the settlement is accepted, unless the failed plan shares its fingerprint with
      one before it. Afterwards every fingerprint is cleared after a success; and after a
      failure those of the plans before the failed one are cleared, that of the failed one
      is held, and the others, never tried, are as before the claim. */
  lemma RunSettlesStore(plans: seq<Run.Plan>, replies: seq<Run.Reply>, conditions: Run.Conditions,
                        records: Records, first: Op, ops: seq<Op>, failure: Failure, jitter: nat, now: int)
    requires |plans| == |replies|
    requires first.ClaimOp? && first.specs == SpecsOf(plans) && Accepted(records, first)
    requires Foreign(ops, first.attemptId, first.now + first.lease)
    requires failure.retryability != Unset
    ensures
      var settlement, n := Run.ManySettlement(plans, replies, conditions), Run.StopsAt(replies, 0, []);
      var before, fps := ApplyAll(Apply(records, first), ops), Run.Fingerprints(plans);
      var op := StoreOp(settlement, ClaimOf(records, first), failure, jitter, now);
      && Run.Settlements(Run.ManyTrace(plans, replies, conditions)) == [settlement]
      && (Accepted(before, op) <==> Settleable(settlement, fps, n))
      && (Accepted(before, op) ==>
            forall fp | fp in FingerprintsOf(SpecsOf(plans)) ::
              Settled(settlement, fps, n, fp, Pruned(records, first.now), Apply(before, op), now))
  {
    var n, claim := Run.StopsAt(replies, 0, []), ClaimOf(records, first);
    var settlement := Run.ManySettlement(plans, replies, conditions);
    Run.ManyProjects(plans, replies, conditions);
    assert SettlementFor(settlement, Run.Fingerprints(plans), n) by {
      assert n < |plans| ==> Run.Fingerprints(plans[..n]) == Run.Fingerprints(plans)[..n];
    }
    GrantedStands(records, first, ops);
    var middle := ApplyAll(Apply(records, first), ops);
    SettledOnStore(plans, n, settlement, Pruned(records, first.now), middle, claim, failure, jitter, now);
  }

  lemma BatchFingerprints(plans: seq<Run.Plan>)
    ensures forall fp :: fp in FingerprintsOf(SpecsOf(plans)) <==> fp in Run.Fingerprints(plans)
  {
    var fps := Run.Fingerprints(plans);
    forall fp | fp in fps
      ensures fp in FingerprintsOf(SpecsOf(plans))
    {
      var j :| 0 <= j < |fps| && fps[j] == fp;
      assert SpecsOf(plans)[j] in SpecsOf(plans);
    }
    forall fp | fp in FingerprintsOf(SpecsOf(plans))
      ensures fp in fps
    {
      var j :| 0 <= j < |plans| && SpecsOf(plans)[j].fingerprint == fp;
      assert fps[j] == fp;
    }
  }

  /** The same for a single-event run that creates its subscription: its one settlement is
      always accepted, and afterwards its fingerprint is cleared if the subscription was
      usable and its run state saved, and else held or as before the claim. */
  lemma SingleRunSettlesStore(options: Single.Options, fingerprint: string, replies: Single.Replies,
                              conditions: Run.Conditions, records: Records, first: Op, ops: seq<Op>,
                              failure: Failure, jitter: nat, now: int)
    requires Single.SelfCreated(options) && Single.Started(options, replies)
    requires first.ClaimOp? && first.specs == [Spec(fingerprint, options.eventKey)] && Accepted(records, first)
    requires Foreign(ops, first.attemptId, first.now + first.lease)
    requires failure.retryability != Unset
    ensures
      var settled := Run.Settlements(Single.SingleTrace(options, fingerprint, replies, conditions));
      var before := ApplyAll(Apply(records, first), ops);
      && |settled| == 1 && Run.IsSettlement(settled[0])
      && var op := StoreOp(settled[0], ClaimOf(records, first), failure, jitter, now);
         var after := Apply(before, op);
      && Accepted(before, op)
      && (settled[0].CompleteSuccess? ==> fingerprint !in after)
      && (settled[0].CompleteFailure? ==> HeldSince(after, fingerprint, now))
      && (settled[0].Release? ==> Lookup(after, fingerprint) == Lookup(Pruned(records, first.now), fingerprint))
  {
    var plans, claim := [Run.Plan(options.eventKey, fingerprint)], ClaimOf(records, first);
    Single.CreatedSettlesAs(options, fingerprint, replies, conditions);
    var settlement := Run.Settlements(Single.SingleTrace(options, fingerprint, replies, conditions))[0];
    var n := if settlement.CompleteSuccess? then 1 else 0;
    assert first.specs == SpecsOf(plans) && Run.Fingerprints(plans) == [fingerprint];
    assert fingerprint in claim.fingerprints by { assert first.specs[0] in first.specs; }
    GrantedStands(records, first, ops);
    SettledOnStore(plans, n, settlement, Pruned(records, first.now), ApplyAll(Apply(records, first), ops), claim,
      failure, jitter, now);
  }

  /** Two plans with one fingerprint, which takes two event keys whose shortened hashes
      collide, and the second plan fails: the store refuses to record it. */
  lemma SharedFingerprintIsRefused(records: Records, claim: Claim, failure: Failure, jitter: nat, now: int)
    requires claim.fingerprints == {"f"}
    ensures
      var plans := [Run.Plan("k", "f"), Run.Plan("l", "f")];
      var settlement := Run.CompleteFailure(Run.Fingerprints(plans)[..1], plans[1].fingerprint);
      !Accepted(records, StoreOp(settlement, claim, failure, jitter, now))
  {
    var plans := [Run.Plan("k", "f"), Run.Plan("l", "f")];
    assert Run.Fingerprints(plans)[..1][0] == "f";
  }
}
