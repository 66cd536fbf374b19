/** One `TokenManager.Get`: the optimistic read of a credential between two reads of its
    publication marker (internal/app/access_token_resolve.go). */
module TokenReader {
  import opened Collections
  import opened GoStrings

  const REFRESH_WINDOW := 300
  const MAX_ATTEMPTS := 4

  /** The publication marker of a config directory; a marker without a usable revision
      has the revision "". */
  datatype Marker = Marker(present: bool, revision: string)

  /** A bearer token. `expiresAt` is None for Go's zero time; `origin` counts the
      credential writes of the directory that had happened when it was read. */
  datatype Snapshot = Snapshot(token: string, expiresAt: Option<int>, origin: nat)

  const NO_SNAPSHOT := Snapshot("", None, 0)

  /** What an entry of the cache holds. */
  datatype Cached = Cached(snapshot: Snapshot, revision: string)

  const NOTHING_CACHED := Cached(NO_SNAPSHOT, "")

  predicate Usable(s: Snapshot, now: int) {
    !Blank(s.token) && s.expiresAt.Some? && now < s.expiresAt.value - REFRESH_WINDOW
  }

  datatype Outcome =
    | Hit(snapshot: Snapshot)
    | Resolved(snapshot: Snapshot)
    | NoCredentials
    | ReadFailed
    | ChangedRepeatedly

  /** What the reader is about to do, and what it remembers. */
  datatype Phase =
    | Opening
    | Before(attempt: nat)
    | Resolving(attempt: nat, before: Marker)
    | After(attempt: nat, before: Marker, snapshot: Snapshot)
    | Finished(outcome: Outcome)

  /** The result of one read of the outside world. */
  datatype Observation =
    | MarkerIs(marker: Marker)
    | CredentialIs(snapshot: Snapshot)
    | Failed

  predicate Fits(phase: Phase, seen: Observation) {
    match phase
    case Resolving(_, _) => seen.CredentialIs? || seen.Failed?
    case Finished(_) => false
    case _ => seen.MarkerIs? || seen.Failed?
  }

  predicate Hits(cached: Cached, now: int, marker: Marker) {
    Usable(cached.snapshot, now) && marker.present && marker.revision != "" && marker.revision == cached.revision
  }

  predicate Cacheable(s: Snapshot, now: int, marker: Marker) {
    Usable(s, now) && marker.present && marker.revision != ""
  }

  /** One step of a reader that holds the lock of its entry. */
  function Advance(phase: Phase, cached: Cached, now: int, seen: Observation): (Phase, Cached)
    requires Fits(phase, seen)
  {
    match phase
    case Opening =>
      if seen.Failed? then (Finished(ReadFailed), cached)
      else if Hits(cached, now, seen.marker) then (Finished(Hit(cached.snapshot)), cached)
      else (Before(0), cached)
    case Before(attempt) =>
      if seen.Failed? then (Finished(ReadFailed), cached) else (Resolving(attempt, seen.marker), cached)
    case Resolving(attempt, before) =>
      if seen.Failed? then (Finished(ReadFailed), cached) else (After(attempt, before, seen.snapshot), cached)
    case After(attempt, before, snapshot) =>
      if seen.Failed? then (Finished(ReadFailed), cached)
      else if seen.marker != before then
        (if attempt + 1 < MAX_ATTEMPTS then Before(attempt + 1) else Finished(ChangedRepeatedly), cached)
      else if Blank(snapshot.token) then (Finished(NoCredentials), cached)
      else
        (Finished(Resolved(snapshot)),
         if Cacheable(snapshot, now, seen.marker) then Cached(snapshot, seen.marker.revision) else NOTHING_CACHED)
  }

  /** The answers of one run of the reader, in the order it asks: the opening read, then
      marker, credential, marker for each attempt. */
  predicate Script(seen: seq<Observation>) {
    && |seen| == 1 + 3 * MAX_ATTEMPTS
    && forall i | 0 <= i < |seen| :: if i % 3 == 2 then !seen[i].MarkerIs? else !seen[i].CredentialIs?
  }

  /** Where a phase stands in its script. */
  function Position(phase: Phase): int {
    match phase
    case Opening => 0
    case Before(n) => 1 + 3 * n
    case Resolving(n, _) => 2 + 3 * n
    case After(n, _, _) => 3 + 3 * n
    case Finished(_) => 1 + 3 * MAX_ATTEMPTS
  }

  predicate InRange(phase: Phase) {
    match phase
    case Before(n) => n < MAX_ATTEMPTS
    case Resolving(n, _) => n < MAX_ATTEMPTS
    case After(n, _, _) => n < MAX_ATTEMPTS
    case _ => true
  }

  /** The reader run to its end. */
  function Play(phase: Phase, cached: Cached, now: int, seen: seq<Observation>): (Outcome, Cached)
    requires Script(seen) && InRange(phase)
    decreases 1 + 3 * MAX_ATTEMPTS - Position(phase)
  {
    match phase
    case Finished(outcome) => (outcome, cached)
    case _ =>
      var (phase', cached') := Advance(phase, cached, now, seen[Position(phase)]);
      Play(phase', cached', now, seen)
  }

  /** What a run does to the entry: it is touched only when a credential came back
      between two equal markers, and then holds a usable credential under that marker's
      revision or nothing at all. */
  lemma {:induction false} PlayTouchesEntry(phase: Phase, cached: Cached, now: int, seen: seq<Observation>)
    requires Script(seen) && InRange(phase)
    ensures
      var (outcome, cached') := Play(phase, cached, now, seen);
      if outcome.Resolved? && !phase.Finished?
      then cached' == NOTHING_CACHED
        || (cached'.snapshot == outcome.snapshot && Usable(outcome.snapshot, now) && cached'.revision != "")
      else cached' == cached
    decreases 1 + 3 * MAX_ATTEMPTS - Position(phase)
  {
    if !phase.Finished? {
      var (phase', cached') := Advance(phase, cached, now, seen[Position(phase)]);
      PlayTouchesEntry(phase', cached', now, seen);
    }
  }

  /** A run gives up exactly when it does not hit and each of its attempts reads two
      markers that differ. */
  lemma GivesUpIff(cached: Cached, now: int, seen: seq<Observation>)
    requires Script(seen)
    ensures Play(Opening, cached, now, seen).0 == ChangedRepeatedly <==>
            && seen[0].MarkerIs? && !Hits(cached, now, seen[0].marker)
            && forall n: nat | n < MAX_ATTEMPTS :: AttemptMoved(seen, n)
  {
    if seen[0].MarkerIs? && !Hits(cached, now, seen[0].marker) {
      GivesUpFrom(0, cached, now, seen);
    }
  }

  predicate AttemptMoved(seen: seq<Observation>, n: nat)
    requires Script(seen) && n < MAX_ATTEMPTS
  {
    var before, credential, after := seen[1 + 3 * n], seen[2 + 3 * n], seen[3 + 3 * n];
    !before.Failed? && !credential.Failed? && !after.Failed? && before.marker != after.marker
  }

  lemma PlayStep(phase: Phase, cached: Cached, now: int, seen: seq<Observation>)
    requires Script(seen) && InRange(phase) && !phase.Finished?
    ensures
      var (phase', cached') := Advance(phase, cached, now, seen[Position(phase)]);
      Play(phase, cached, now, seen) ==
        if phase'.Finished? then (phase'.outcome, cached') else Play(phase', cached', now, seen)
  {
    var (phase', cached') := Advance(phase, cached, now, seen[Position(phase)]);
    assert phase'.Finished? ==> Play(phase', cached', now, seen) == (phase'.outcome, cached');
  }

  /** One attempt of the reader, read off its three answers. */
  lemma AttemptUnfolds(attempt: nat, cached: Cached, now: int, seen: seq<Observation>)
    requires Script(seen) && attempt < MAX_ATTEMPTS
    ensures
      var before, credential, after := seen[1 + 3 * attempt], seen[2 + 3 * attempt], seen[3 + 3 * attempt];
      Play(Before(attempt), cached, now, seen) ==
      if before.Failed? || credential.Failed? || after.Failed? then (ReadFailed, cached)
      else if before.marker != after.marker then
        if attempt + 1 < MAX_ATTEMPTS then Play(Before(attempt + 1), cached, now, seen) else (ChangedRepeatedly, cached)
      else if Blank(credential.snapshot.token) then (NoCredentials, cached)
      else (Resolved(credential.snapshot),
            if WorthKeeping(credential.snapshot, now, after.marker)
              then Cached(credential.snapshot, after.marker.revision) else NOTHING_CACHED)
  {
    var before, credential, after := seen[1 + 3 * attempt], seen[2 + 3 * attempt], seen[3 + 3 * attempt];
    PlayStep(Before(attempt), cached, now, seen);
    if before.MarkerIs? {
      PlayStep(Resolving(attempt, before.marker), cached, now, seen);
      if credential.CredentialIs? {
        PlayStep(After(attempt, before.marker, credential.snapshot), cached, now, seen);
      }
    }
  }

  /** A token that lives for more than another five minutes, under a marker that names a
      revision. */
  predicate WorthKeeping(s: Snapshot, now: int, marker: Marker) {
    TrimSpace(s.token) != "" && s.expiresAt.Some? && s.expiresAt.value - now > 300 && marker.present
      && marker.revision != ""
  }

  /** A Get hits exactly if the opening read shows the marker that the cached token was
      stored under and the token is still worth keeping. It answers that token, whatever
      the later reads would give, and leaves it cached. */
  lemma HitIff(cached: Cached, now: int, seen: seq<Observation>)
    requires Script(seen)
    ensures Play(Opening, cached, now, seen).0.Hit? <==>
            && seen[0].MarkerIs? && seen[0].marker.revision == cached.revision
            && WorthKeeping(cached.snapshot, now, seen[0].marker)
    ensures Play(Opening, cached, now, seen).0.Hit? ==>
              Play(Opening, cached, now, seen) == (Hit(cached.snapshot), cached)
  {
    PlayStep(Opening, cached, now, seen);
    if seen[0].MarkerIs? && !Hits(cached, now, seen[0].marker) {
      NoHitFrom(0, cached, now, seen);
    }
  }

  lemma {:induction false} NoHitFrom(attempt: nat, cached: Cached, now: int, seen: seq<Observation>)
    requires Script(seen) && attempt < MAX_ATTEMPTS
    ensures !Play(Before(attempt), cached, now, seen).0.Hit?
    decreases MAX_ATTEMPTS - attempt
  {
    AttemptUnfolds(attempt, cached, now, seen);
    if attempt + 1 < MAX_ATTEMPTS {
      NoHitFrom(attempt + 1, cached, now, seen);
    }
  }

  lemma {:induction false} MovedAttemptsPass(cached: Cached, now: int, seen: seq<Observation>, n: nat)
    requires Script(seen) && n < MAX_ATTEMPTS && forall m: nat | m < n :: AttemptMoved(seen, m)
    ensures Play(Before(0), cached, now, seen) == Play(Before(n), cached, now, seen)
  {
    if n > 0 {
      MovedAttemptsPass(cached, now, seen, n - 1);
      AttemptUnfolds(n - 1, cached, now, seen);
      assert AttemptMoved(seen, n - 1);
    }
  }

  /** A Get that does not hit is decided by the first attempt whose two markers are not
      different. A token read between two equal markers is answered; if it is worth
      keeping, exactly that token and the marker's revision are left in the entry, and else
      nothing. */
  lemma SteadyAttemptDecides(cached: Cached, now: int, seen: seq<Observation>, n: nat)
    requires Script(seen) && seen[0].MarkerIs?
    requires !(seen[0].marker.revision == cached.revision && WorthKeeping(cached.snapshot, now, seen[0].marker))
    requires n < MAX_ATTEMPTS && !AttemptMoved(seen, n) && forall m: nat | m < n :: AttemptMoved(seen, m)
    ensures
      var before, credential, after := seen[1 + 3 * n], seen[2 + 3 * n], seen[3 + 3 * n];
      Play(Opening, cached, now, seen) ==
      if before.Failed? || credential.Failed? || after.Failed? then (ReadFailed, cached)
      else if TrimSpace(credential.snapshot.token) == "" then (NoCredentials, cached)
      else if WorthKeeping(credential.snapshot, now, after.marker) then
        (Resolved(credential.snapshot), Cached(credential.snapshot, after.marker.revision))
      else (Resolved(credential.snapshot), Cached(Snapshot("", None, 0), ""))
  {
    PlayStep(Opening, cached, now, seen);
    assert !Hits(cached, now, seen[0].marker);
    MovedAttemptsPass(cached, now, seen, n);
    AttemptUnfolds(n, cached, now, seen);
  }

  lemma {:induction false} GivesUpFrom(attempt: nat, cached: Cached, now: int, seen: seq<Observation>)
    requires Script(seen) && attempt < MAX_ATTEMPTS
    ensures Play(Before(attempt), cached, now, seen).0 == ChangedRepeatedly <==>
            forall n: nat | attempt <= n < MAX_ATTEMPTS :: AttemptMoved(seen, n)
    decreases MAX_ATTEMPTS - attempt
  {
    AttemptUnfolds(attempt, cached, now, seen);
    if attempt + 1 < MAX_ATTEMPTS {
      GivesUpFrom(attempt + 1, cached, now, seen);
    }
    if !AttemptMoved(seen, attempt) {
      assert Play(Before(attempt), cached, now, seen).0 != ChangedRepeatedly;
    } else if attempt + 1 < MAX_ATTEMPTS {
      assert Play(Before(attempt), cached, now, seen) == Play(Before(attempt + 1), cached, now, seen);
    }
  }

  // Resolving a credential through the edition's hooks

  /** What the auth store of a directory answers. */
  datatype DirAnswer = DirFails | DirHas(snapshot: Snapshot)

  /** What an edition's own token provider answers, and whether it asked the store. */
  datatype ProviderAnswer = ProviderFails | Provides(token: string, askedStore: bool)

  datatype Hooks = Hooks(opaqueStorage: bool, provider: Option<ProviderAnswer>)

  function WithoutExpiry(s: Snapshot): Snapshot {
    s.(expiresAt := None)
  }

  function ResolveWithEdition(hooks: Hooks, dir: DirAnswer): Observation {
    match hooks.provider
    case None =>
      if dir.DirFails? then Failed
      else CredentialIs(if hooks.opaqueStorage then WithoutExpiry(dir.snapshot) else dir.snapshot)
    case Some(ProviderFails) => Failed
    case Some(Provides(raw, askedStore)) =>
      var token := TrimSpace(raw);
      if token == "" then Failed
      else if askedStore && dir.DirHas? && token == dir.snapshot.token then
        CredentialIs(if hooks.opaqueStorage then WithoutExpiry(dir.snapshot) else dir.snapshot)
      else CredentialIs(Snapshot(token, None, 0))
  }

  /** The token comes from the store: nothing else provides it, or the provider asked the
      store and passes its answer on. */
  predicate StoreAnswered(hooks: Hooks, dir: DirAnswer) {
    match hooks.provider
    case None => dir.DirHas?
    case Some(ProviderFails) => false
    case Some(Provides(raw, askedStore)) => askedStore && dir.DirHas? && TrimSpace(raw) == dir.snapshot.token
  }

  /** What the store answered comes through as it is, with its expiry, unless the storage is
      opaque. */
  lemma StoreTokenComesThrough(hooks: Hooks, dir: DirAnswer)
    requires StoreAnswered(hooks, dir) && dir.snapshot.token != ""
    ensures ResolveWithEdition(hooks, dir) ==
            var Snapshot(token, expiresAt, origin) := dir.snapshot;
            CredentialIs(Snapshot(token, if hooks.opaqueStorage then None else expiresAt, origin))
  {
  }

  /** A token the edition may replace behind the store's back is never cached: neither
      one from opaque storage nor one that does not come from the store, even if it reads
      like the store's. */
  lemma EditionTokenIsNotCached(hooks: Hooks, dir: DirAnswer, attempt: nat, before: Marker, cached: Cached, now: int)
    requires ResolveWithEdition(hooks, dir).CredentialIs?
    requires hooks.opaqueStorage || !StoreAnswered(hooks, dir)
    ensures
      var seen := ResolveWithEdition(hooks, dir);
      var (phase, cached') := Advance(After(attempt, before, seen.snapshot), cached, now, MarkerIs(before));
      phase == Finished(Resolved(seen.snapshot)) ==> cached' == NOTHING_CACHED
  {
  }
}
