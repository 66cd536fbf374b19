/** The process cache of access tokens under concurrent readers, publishers and
    invalidations (internal/app/access_token_resolve.go, with the publication marker of
    internal/auth/token.go). Every step below is one atomic access to shared state: one
    map access under the manager's lock, or one read or write of a file or the keychain. */
module TokenCache {
  import opened Collections
  import opened TokenReader

  type Dir = string

  datatype Key = Key(dir: Dir, profile: string)

  /** One `tokenManagerEntry`. `born` counts the invalidations before its creation;
      `writer` is the Get that stored its content, `holder` the Get holding its lock. */
  datatype Entry = Entry(key: Key, born: nat, cached: Cached, writer: Option<nat>, holder: Option<nat>)

  /** One call of `Get`. `epoch` counts the invalidations before it fetched its entry;
      `found` is what its entry held when it took the lock; `source` is the Get whose
      entry content it returned. */
  datatype Get = Get(
    key: Key,
    entry: nat,
    epoch: nat,
    running: bool,
    now: int,
    phase: Phase,
    found: Cached,
    source: Option<nat>)

  /** A publication: in `dir`, credential write number `version`, and then the marker. */
  datatype Publication = Publication(dir: Dir, version: nat)

  datatype World = World(
    writes: map<Dir, nat>,
    markers: map<Dir, Marker>,
    published: map<string, Publication>,
    pending: map<nat, Publication>,
    epoch: nat,
    entries: map<nat, Entry>,
    index: map<Key, nat>,
    gets: map<nat, Get>)

  function Writes(w: World, dir: Dir): nat {
    if dir in w.writes then w.writes[dir] else 0
  }

  function MarkerOf(w: World, dir: Dir): Marker {
    if dir in w.markers then w.markers[dir] else Marker(false, "")
  }

  datatype Step =
    | WriteCredential(publisher: nat, dir: Dir)
    | WriteMarker(publisher: nat, revision: string)
    | DisturbMarker(dir: Dir, present: bool)
    | Invalidate
    | Fetch(get: nat, key: Key, newId: nat)
    | Acquire(get: nat, now: int)
    | Observe(get: nat, seen: Observation)

  /** What the world shows a Get: its marker as it is, a credential that carries the
      number of the latest write, or a failure. A credential without expiry may come
      from elsewhere. */
  predicate Shows(w: World, key: Key, seen: Observation) {
    match seen
    case MarkerIs(m) => m == MarkerOf(w, key.dir)
    case CredentialIs(s) => s.expiresAt.None? || s.origin == Writes(w, key.dir)
    case Failed => true
  }

  predicate Enabled(w: World, s: Step) {
    match s
    case WriteCredential(p, _) => p !in w.pending
    case WriteMarker(p, revision) => p in w.pending && revision != "" && revision !in w.published
    case DisturbMarker(_, _) => true
    case Invalidate => true
    case Fetch(g, _, newId) => g !in w.gets && newId !in w.entries
    case Acquire(g, _) =>
      g in w.gets && !w.gets[g].running && w.gets[g].phase.Opening? &&
      w.gets[g].entry in w.entries && w.entries[w.gets[g].entry].holder.None?
    case Observe(g, seen) =>
      g in w.gets && w.gets[g].running && w.gets[g].entry in w.entries &&
      Fits(w.gets[g].phase, seen) && Shows(w, w.gets[g].key, seen)
  }

  function SetMarker(w: World, dir: Dir, marker: Marker): World {
    w.(markers := w.markers[dir := marker])
  }

  function AddEntry(w: World, key: Key, id: nat): World {
    w.(entries := w.entries[id := Entry(key, w.epoch, NOTHING_CACHED, None, None)], index := w.index[key := id])
  }

  function AddGet(w: World, g: nat, key: Key, id: nat): World {
    w.(gets := w.gets[g := Get(key, id, w.epoch, false, 0, Opening, NOTHING_CACHED, None)])
  }

  function DoFetch(w: World, g: nat, key: Key, newId: nat): World {
    if key in w.index then AddGet(w, g, key, w.index[key]) else AddGet(AddEntry(w, key, newId), g, key, newId)
  }

  function DoAcquire(w: World, g: nat, now: int): World
    requires g in w.gets && w.gets[g].entry in w.entries
  {
    var get := w.gets[g];
    w.(gets := w.gets[g := get.(running := true, now := now, found := w.entries[get.entry].cached)],
       entries := w.entries[get.entry := w.entries[get.entry].(holder := Some(g))])
  }

  function DoObserve(w: World, g: nat, seen: Observation): World
    requires g in w.gets && w.gets[g].entry in w.entries && Fits(w.gets[g].phase, seen)
  {
    var get := w.gets[g];
    var entry := w.entries[get.entry];
    var (phase, cached) := Advance(get.phase, entry.cached, get.now, seen);
    var get' := get.(
      phase := phase,
      running := !phase.Finished?,
      source := if phase.Finished? && phase.outcome.Hit? then entry.writer else None);
    var entry' := entry.(
      cached := cached,
      writer := if phase.Finished? && phase.outcome.Resolved? then Some(g) else entry.writer,
      holder := if phase.Finished? then None else entry.holder);
    w.(gets := w.gets[g := get'], entries := w.entries[get.entry := entry'])
  }

  function Apply(w: World, s: Step): World
    requires Enabled(w, s)
  {
    match s
    case WriteCredential(p, dir) =>
      var n := Writes(w, dir) + 1;
      w.(writes := w.writes[dir := n], pending := w.pending[p := Publication(dir, n)])
    case WriteMarker(p, revision) =>
      var pub := w.pending[p];
      SetMarker(w, pub.dir, Marker(true, revision)).(
        published := w.published[revision := pub], pending := w.pending - {p})
    case DisturbMarker(dir, present) => SetMarker(w, dir, Marker(present, ""))
    case Invalidate => w.(index := map[], epoch := w.epoch + 1)
    case Fetch(g, key, newId) => DoFetch(w, g, key, newId)
    case Acquire(g, now) => DoAcquire(w, g, now)
    case Observe(g, seen) => DoObserve(w, g, seen)
  }

  // Invariants

  /** The revision was published for the directory, after a write that has happened. */
  ghost predicate Published(w: World, dir: Dir, revision: string) {
    revision in w.published && w.published[revision].dir == dir && w.published[revision].version <= Writes(w, dir)
  }

  ghost predicate DiskOk(w: World) {
    && (forall p | p in w.pending :: w.pending[p].version <= Writes(w, w.pending[p].dir))
    && (forall dir | dir in w.markers && w.markers[dir].revision != "" :: Published(w, dir, w.markers[dir].revision))
  }

  /** A snapshot filed under a revision is at least as new as that publication. */
  ghost predicate AtLeastAsNew(w: World, s: Snapshot, revision: string) {
    revision in w.published && s.origin >= w.published[revision].version
  }

  ghost predicate EntryOk(w: World, e: Entry) {
    && e.born <= w.epoch
    && (e.cached.revision == "" ==> e.cached == NOTHING_CACHED)
    && (e.cached.revision != "" ==>
          && Published(w, e.key.dir, e.cached.revision)
          && AtLeastAsNew(w, e.cached.snapshot, e.cached.revision)
          && e.cached.snapshot.origin <= Writes(w, e.key.dir)
          && e.cached.snapshot.expiresAt.Some?
          && e.writer.Some?)
  }

  /** Entry `i` was last written by a Get that had fetched this very entry. */
  ghost predicate WriterOk(w: World, i: nat)
    requires i in w.entries
  {
    w.entries[i].writer.Some? ==>
      w.entries[i].writer.value in w.gets && w.gets[w.entries[i].writer.value].entry == i
  }

  ghost predicate IndexOk(w: World) {
    forall k | k in w.index ::
      w.index[k] in w.entries && w.entries[w.index[k]].key == k && w.entries[w.index[k]].born == w.epoch
  }

  /** What a running reader has established. */
  ghost predicate PhaseOk(w: World, g: Get) {
    var dir := g.key.dir;
    match g.phase
    case Before(n) => n < MAX_ATTEMPTS
    case Resolving(n, before) =>
      n < MAX_ATTEMPTS && (before.revision != "" ==> Published(w, dir, before.revision))
    case After(n, before, s) =>
      && n < MAX_ATTEMPTS
      && (before.revision != "" ==> Published(w, dir, before.revision))
      && (s.expiresAt.Some? ==>
            s.origin <= Writes(w, dir) && (before.revision != "" ==> AtLeastAsNew(w, s, before.revision)))
    case _ => true
  }

  ghost predicate GetOk(w: World, g: nat)
    requires g in w.gets
  {
    var get := w.gets[g];
    && get.entry in w.entries
    && w.entries[get.entry].key == get.key
    && w.entries[get.entry].born == get.epoch
    && get.epoch <= w.epoch
    && (get.running ==> w.entries[get.entry].holder == Some(g) && w.entries[get.entry].cached == get.found)
    && (!get.phase.Opening? && !get.phase.Finished? ==> get.running)
    && PhaseOk(w, get)
    && (get.phase.Finished? && get.phase.outcome.Hit? ==>
          && get.source.Some? && get.source.value in w.gets
          && w.gets[get.source.value].entry == get.entry)
    && (get.source.Some? ==> get.phase.Finished? && get.phase.outcome.Hit?)
  }

  ghost predicate Inv(w: World) {
    && DiskOk(w)
    && IndexOk(w)
    && (forall i | i in w.entries :: EntryOk(w, w.entries[i]) && WriterOk(w, i))
    && (forall g | g in w.gets :: GetOk(w, g))
  }

  /** A process starts with an empty cache over whatever the disk holds. */
  ghost predicate Init(w: World) {
    DiskOk(w) && w.entries == map[] && w.index == map[] && w.gets == map[] && w.epoch == 0
  }

  // Every step keeps the invariant

  /** The disk of `w'` continues that of `w`. */
  ghost predicate Continues(w: World, w': World) {
    && (forall dir: Dir :: Writes(w, dir) <= Writes(w', dir))
    && (forall r | r in w.published :: r in w'.published && w'.published[r] == w.published[r])
  }

  /** Entries and Gets keep what never changes about them. */
  ghost predicate Grows(w: World, w': World) {
    && Continues(w, w') && w.epoch <= w'.epoch
    && (forall i | i in w.entries ::
          i in w'.entries && w'.entries[i].key == w.entries[i].key && w'.entries[i].born == w.entries[i].born)
    && (forall g | g in w.gets :: g in w'.gets && w'.gets[g].entry == w.gets[g].entry)
  }

  ghost predicate SameDisk(w: World, w': World) {
    w'.writes == w.writes && w'.markers == w.markers && w'.published == w.published && w'.pending == w.pending
  }

  lemma SameDiskContinues(w: World, w': World)
    requires SameDisk(w, w')
    ensures Continues(w, w')
    ensures DiskOk(w) ==> DiskOk(w')
  {
  }

  lemma UntouchedEntry(w: World, w': World, i: nat)
    requires Grows(w, w')
    requires i in w.entries && EntryOk(w, w.entries[i]) && WriterOk(w, i)
    requires w'.entries[i].cached == w.entries[i].cached && w'.entries[i].writer == w.entries[i].writer
    ensures EntryOk(w', w'.entries[i]) && WriterOk(w', i)
  {
  }

  lemma ContinuingKeepsPhase(w: World, w': World, g: Get)
    requires Continues(w, w')
    requires PhaseOk(w, g)
    ensures PhaseOk(w', g)
  {
  }

  lemma UntouchedGet(w: World, w': World, g: nat)
    requires Grows(w, w')
    requires g in w.gets && GetOk(w, g) && w'.gets[g] == w.gets[g]
    requires w.gets[g].running ==>
               && w'.entries[w.gets[g].entry].holder == Some(g)
               && w'.entries[w.gets[g].entry].cached == w.entries[w.gets[g].entry].cached
    ensures GetOk(w', g)
  {
    ContinuingKeepsPhase(w, w', w.gets[g]);
  }

  lemma WriteCredentialContinues(w: World, p: nat, dir: Dir)
    requires Inv(w) && Enabled(w, WriteCredential(p, dir))
    ensures
      var w' := Apply(w, WriteCredential(p, dir));
      Continues(w, w') && DiskOk(w')
  {
  }

  lemma SetMarkerContinues(w: World, dir: Dir, marker: Marker)
    ensures Continues(w, SetMarker(w, dir, marker))
  {
  }

  lemma WriteMarkerContinues(w: World, p: nat, revision: string)
    requires Inv(w) && Enabled(w, WriteMarker(p, revision))
    ensures
      var w' := Apply(w, WriteMarker(p, revision));
      Continues(w, w') && DiskOk(w')
  {
    SetMarkerContinues(w, w.pending[p].dir, Marker(true, revision));
  }

  /** Steps that leave every entry and every Get alone. */
  lemma OuterStepKeeps(w: World, w': World)
    requires Inv(w) && DiskOk(w') && IndexOk(w') && Continues(w, w') && w.epoch <= w'.epoch
    requires w'.entries == w.entries && w'.gets == w.gets
    ensures Inv(w')
  {
    forall i | i in w'.entries
      ensures EntryOk(w', w'.entries[i]) && WriterOk(w', i)
    {
      UntouchedEntry(w, w', i);
    }
    forall g | g in w'.gets
      ensures GetOk(w', g)
    {
      assert GetOk(w, g);
      UntouchedGet(w, w', g);
    }
  }

  lemma AddEntryKeeps(w: World, key: Key, id: nat)
    requires Inv(w) && id !in w.entries
    ensures Inv(AddEntry(w, key, id))
  {
    var w' := AddEntry(w, key, id);
    SameDiskContinues(w, w');
    forall i | i in w'.entries
      ensures EntryOk(w', w'.entries[i]) && WriterOk(w', i)
    {
      if i != id {
        UntouchedEntry(w, w', i);
      }
    }
    forall g | g in w'.gets
      ensures GetOk(w', g)
    {
      assert GetOk(w, g);
      UntouchedGet(w, w', g);
    }
  }

  lemma AddGetKeeps(w: World, g: nat, key: Key)
    requires Inv(w) && g !in w.gets && key in w.index
    ensures Inv(AddGet(w, g, key, w.index[key]))
  {
    var w' := AddGet(w, g, key, w.index[key]);
    SameDiskContinues(w, w');
    forall i | i in w'.entries
      ensures EntryOk(w', w'.entries[i]) && WriterOk(w', i)
    {
      UntouchedEntry(w, w', i);
    }
    forall h | h in w'.gets
      ensures GetOk(w', h)
    {
      if h != g {
        assert GetOk(w, h);
        UntouchedGet(w, w', h);
      }
    }
  }

  /** Updates of one entry and one Get. */
  lemma EntryUpdateGrows(w: World, w': World, id: nat, g: nat)
    requires id in w.entries && id in w'.entries && g in w.gets && g in w'.gets
    requires w' == w.(entries := w.entries[id := w'.entries[id]], gets := w.gets[g := w'.gets[g]])
    requires w'.entries[id].key == w.entries[id].key && w'.entries[id].born == w.entries[id].born
    requires w'.gets[g].entry == w.gets[g].entry
    requires Continues(w, w')
    ensures Grows(w, w')
    ensures IndexOk(w) ==> IndexOk(w')
  {
  }

  lemma AcquireKeeps(w: World, g: nat, now: int)
    requires Inv(w) && Enabled(w, Acquire(g, now))
    ensures Inv(Apply(w, Acquire(g, now)))
  {
    var w' := DoAcquire(w, g, now);
    SameDiskContinues(w, w');
    EntryUpdateGrows(w, w', w.gets[g].entry, g);
    forall i | i in w'.entries
      ensures EntryOk(w', w'.entries[i]) && WriterOk(w', i)
    {
      UntouchedEntry(w, w', i);
    }
    forall h | h in w'.gets
      ensures GetOk(w', h)
    {
      assert GetOk(w, h);
      if h != g {
        UntouchedGet(w, w', h);
      }
    }
  }

  /** The heart of the protocol: what one read of a running reader establishes. */
  lemma AdvanceKeepsPhase(w: World, get: Get, cached: Cached, seen: Observation)
    requires DiskOk(w) && PhaseOk(w, get)
    requires Fits(get.phase, seen) && Shows(w, get.key, seen)
    ensures PhaseOk(w, get.(phase := Advance(get.phase, cached, get.now, seen).0))
  {
    match get.phase
    case Before(_) =>
      assert seen.MarkerIs? && seen.marker.revision != "" ==> get.key.dir in w.markers;
    case _ =>
  }

  lemma ObservedPhaseOk(w: World, g: nat, seen: Observation)
    requires Inv(w) && Enabled(w, Observe(g, seen))
    ensures PhaseOk(DoObserve(w, g, seen), DoObserve(w, g, seen).gets[g])
  {
    assert GetOk(w, g);
    var w', get := DoObserve(w, g, seen), w.gets[g];
    AdvanceKeepsPhase(w, get, w.entries[get.entry].cached, seen);
    SameDiskContinues(w, w');
    var advanced := get.(phase := Advance(get.phase, w.entries[get.entry].cached, get.now, seen).0);
    ContinuingKeepsPhase(w, w', advanced);
    assert w'.gets[g] == advanced.(running := w'.gets[g].running, source := w'.gets[g].source);
  }

  /** And what it leaves in the entry. */
  lemma ObservedEntryOk(w: World, g: nat, seen: Observation)
    requires Inv(w) && Enabled(w, Observe(g, seen))
    ensures
      var w' := DoObserve(w, g, seen);
      EntryOk(w', w'.entries[w.gets[g].entry])
  {
    assert GetOk(w, g) && EntryOk(w, w.entries[w.gets[g].entry]);
  }

  lemma ObservedSourceOk(w: World, g: nat, seen: Observation)
    requires Inv(w) && Enabled(w, Observe(g, seen))
    ensures
      var w' := DoObserve(w, g, seen);
      GetOk(w', g) && WriterOk(w', w.gets[g].entry)
  {
    var id := w.gets[g].entry;
    ObservedPhaseOk(w, g, seen);
    assert GetOk(w, g) && WriterOk(w, id) && EntryOk(w, w.entries[id]);
  }

  lemma ObserveKeeps(w: World, g: nat, seen: Observation)
    requires Inv(w) && Enabled(w, Observe(g, seen))
    ensures Inv(Apply(w, Observe(g, seen)))
  {
    var w' := DoObserve(w, g, seen);
    var id := w.gets[g].entry;
    ObservedEntryOk(w, g, seen);
    ObservedSourceOk(w, g, seen);
    SameDiskContinues(w, w');
    EntryUpdateGrows(w, w', id, g);
    forall i | i in w'.entries
      ensures EntryOk(w', w'.entries[i]) && WriterOk(w', i)
    {
      if i != id {
        UntouchedEntry(w, w', i);
      }
    }
    forall h | h in w'.gets
      ensures GetOk(w', h)
    {
      if h != g {
        assert GetOk(w, h) && GetOk(w, g);
        UntouchedGet(w, w', h);
      }
    }
  }

  lemma StepKeeps(w: World, s: Step)
    requires Inv(w) && Enabled(w, s)
    ensures Inv(Apply(w, s))
  {
    match s
    case Invalidate => OuterStepKeeps(w, Apply(w, s));
    case Fetch(g, key, newId) =>
      if key in w.index {
        AddGetKeeps(w, g, key);
      } else {
        AddEntryKeeps(w, key, newId);
        AddGetKeeps(AddEntry(w, key, newId), g, key);
      }
    case Acquire(g, now) => AcquireKeeps(w, g, now);
    case Observe(g, seen) => ObserveKeeps(w, g, seen);
    case WriteCredential(p, dir) =>
      WriteCredentialContinues(w, p, dir);
      OuterStepKeeps(w, Apply(w, s));
    case WriteMarker(p, revision) =>
      WriteMarkerContinues(w, p, revision);
      OuterStepKeeps(w, Apply(w, s));
    case DisturbMarker(dir, present) =>
      SetMarkerContinues(w, dir, Marker(present, ""));
      OuterStepKeeps(w, Apply(w, s));
  }

  // Whole runs

  /** A run of the process: any number of Gets, publishers and invalidations, their
      steps interleaved in any order. */
  ghost predicate Run(ws: seq<World>, steps: seq<Step>) {
    && |ws| == |steps| + 1
    && Init(ws[0])
    && forall i {:trigger steps[i]} | 0 <= i < |steps| ::
          Enabled(ws[i], steps[i]) && ws[i + 1] == Apply(ws[i], steps[i])
  }

  lemma {:induction false} RunKeeps(ws: seq<World>, steps: seq<Step>, i: nat)
    requires Run(ws, steps) && i < |ws|
    ensures Inv(ws[i])
  {
    if i > 0 {
      RunKeeps(ws, steps, i - 1);
      StepKeeps(ws[i - 1], steps[i - 1]);
    }
  }

  /** A hit is as fresh as the marker it saw: the token was read after the credential
      write that the marker's revision was published for, and when nothing was written
      since, it is the current one. */
  lemma HitIsFresh(ws: seq<World>, steps: seq<Step>, i: nat, g: nat, marker: Marker, s: Snapshot)
    requires Run(ws, steps) && i < |steps|
    requires steps[i] == Observe(g, MarkerIs(marker))
    requires ws[i].gets[g].phase == Opening && ws[i + 1].gets[g].phase == Finished(Hit(s))
    ensures
      var dir := ws[i].gets[g].key.dir;
      && marker == MarkerOf(ws[i], dir)
      && marker.revision in ws[i].published && ws[i].published[marker.revision].dir == dir
      && ws[i].published[marker.revision].version <= s.origin <= Writes(ws[i], dir)
      && s.expiresAt.Some? && ws[i].gets[g].now < s.expiresAt.value - REFRESH_WINDOW
  {
    RunKeeps(ws, steps, i);
    var entry := ws[i].entries[ws[i].gets[g].entry];
    assert GetOk(ws[i], g) && EntryOk(ws[i], entry);
  }

  /** The Get took the lock in `start` and has kept what it recorded then. */
  ghost predicate Since(start: World, w: World, g: nat) {
    && g in start.gets && start.gets[g].entry in start.entries && g in w.gets
    && w.gets[g].key == start.gets[g].key && w.gets[g].entry == start.gets[g].entry
    && w.gets[g].found == start.entries[start.gets[g].entry].cached
    && (w.gets[g].running || w.gets[g].phase.Finished?)
  }

  lemma SinceStep(start: World, w: World, s: Step, g: nat)
    requires Since(start, w, g) && Enabled(w, s)
    ensures Since(start, Apply(w, s), g)
  {
    match s
    case Acquire(h, _) => assert h != g;
    case Observe(_, _) =>
    case _ =>
  }

  lemma {:induction false} RecordIsKept(ws: seq<World>, steps: seq<Step>, a: nat, b: nat, g: nat)
    requires Run(ws, steps) && a < b <= |steps|
    requires steps[a].Acquire? && steps[a].get == g
    ensures Since(ws[a], ws[b], g)
    decreases b
  {
    if b > a + 1 {
      RecordIsKept(ws, steps, a, b - 1, g);
      SinceStep(ws[a], ws[b - 1], steps[b - 1], g);
    } else {
      assert Enabled(ws[a], steps[a]) && ws[a + 1] == Apply(ws[a], steps[a]);
    }
  }

  /** Reader `g` reads a marker in step `open` and another one in step `close`. */
  ghost predicate ReadsDiffer(steps: seq<Step>, g: nat, open: nat, close: nat) {
    && open < close < |steps|
    && exists m, m' :: m != m' && steps[open] == Observe(g, MarkerIs(m)) && steps[close] == Observe(g, MarkerIs(m'))
  }

  /** A window between `a` and `b`, behind the one before it, opened and closed by reads
      that differ. */
  ghost predicate WindowAt(steps: seq<Step>, g: nat, a: nat, b: nat, windows: seq<(nat, nat)>, n: nat)
    requires n < |windows|
  {
    && (if n == 0 then a else windows[n - 1].1) < windows[n].0
    && windows[n].1 < b
    && ReadsDiffer(steps, g, windows[n].0, windows[n].1)
  }

  ghost predicate Windows(steps: seq<Step>, g: nat, a: nat, b: nat, windows: seq<(nat, nat)>) {
    forall n: nat | n < |windows| :: WindowAt(steps, g, a, b, windows, n)
  }

  /** How many windows a phase has behind it. */
  function WindowsBehind(phase: Phase): nat {
    match phase
    case Before(n) => n
    case Resolving(n, _) => n
    case After(n, _, _) => n
    case Finished(outcome) => if outcome.ChangedRepeatedly? then MAX_ATTEMPTS else 0
    case Opening => 0
  }

  /** The marker a phase compares with, if it is between two reads. */
  function OpenedWith(phase: Phase): Option<Marker> {
    match phase
    case Resolving(_, before) => Some(before)
    case After(_, before, _) => Some(before)
    case _ => None
  }

  /** Where the last of the windows ends. */
  function EndOf(windows: seq<(nat, nat)>, a: nat): nat {
    if windows == [] then a else windows[|windows| - 1].1
  }

  /** The windows behind a phase, and the read that opened the one it is in. */
  ghost predicate PhaseHistory(steps: seq<Step>, g: nat, a: nat, b: nat, phase: Phase, windows: seq<(nat, nat)>,
      open: nat)
  {
    && |windows| == WindowsBehind(phase)
    && Windows(steps, g, a, b, windows)
    && (OpenedWith(phase).Some? ==>
          && EndOf(windows, a) < open < b <= |steps|
          && steps[open] == Observe(g, MarkerIs(OpenedWith(phase).value)))
  }

  lemma WindowsStay(steps: seq<Step>, g: nat, a: nat, b: nat, windows: seq<(nat, nat)>)
    requires Windows(steps, g, a, b, windows)
    ensures Windows(steps, g, a, b + 1, windows)
    ensures windows != [] ==> EndOf(windows, a) < b
  {
    assert windows != [] ==> WindowAt(steps, g, a, b, windows, |windows| - 1);
    var b' := b + 1;
    forall n: nat | n < |windows|
      ensures WindowAt(steps, g, a, b', windows, n)
    {
      assert WindowAt(steps, g, a, b, windows, n);
    }
  }

  lemma WindowsGrow(steps: seq<Step>, g: nat, a: nat, b: nat, windows: seq<(nat, nat)>, open: nat)
    requires Windows(steps, g, a, b, windows) && EndOf(windows, a) < open && ReadsDiffer(steps, g, open, b)
    ensures Windows(steps, g, a, b + 1, windows + [(open, b)])
  {
    var more, b' := windows + [(open, b)], b + 1;
    forall n: nat | n < |more|
      ensures WindowAt(steps, g, a, b', more, n)
    {
      assert n > 0 ==> more[n - 1] == windows[n - 1];
      if n < |windows| {
        assert more[n] == windows[n] && WindowAt(steps, g, a, b, windows, n);
      }
    }
  }

  /** A read of the reader goes on with its history. */
  lemma ReadGoesOn(steps: seq<Step>, g: nat, a: nat, b: nat, phase: Phase, cached: Cached, now: int, seen: Observation,
                   windows: seq<(nat, nat)>, open: nat) returns (windows': seq<(nat, nat)>, open': nat)
    requires a < b < |steps| && steps[b] == Observe(g, seen) && Fits(phase, seen) && InRange(phase)
    requires PhaseHistory(steps, g, a, b, phase, windows, open)
    ensures PhaseHistory(steps, g, a, b + 1, Advance(phase, cached, now, seen).0, windows', open')
  {
    WindowsStay(steps, g, a, b, windows);
    windows', open' := [], open;
    if !seen.Failed? {
      match phase
      case Opening =>
      case Before(_) => windows', open' := windows, b;
      case Resolving(_, _) => windows' := windows;
      case After(_, before, _) =>
        if seen.marker != before {
          assert steps[open] == Observe(g, MarkerIs(before)) && steps[b] == Observe(g, MarkerIs(seen.marker));
          WindowsGrow(steps, g, a, b, windows, open);
          windows' := windows + [(open, b)];
        }
    }
  }

  /** Somebody else's step leaves a reader's phase; its own is a read. */
  lemma PhaseStep(w: World, s: Step, g: nat)
    requires Enabled(w, s) && g in w.gets && (w.gets[g].running || w.gets[g].phase.Finished?)
    ensures g in Apply(w, s).gets
    ensures if s.Observe? && s.get == g
            then
              && Fits(w.gets[g].phase, s.seen) && w.gets[g].entry in w.entries
              && Apply(w, s).gets[g].phase ==
                 Advance(w.gets[g].phase, w.entries[w.gets[g].entry].cached, w.gets[g].now, s.seen).0
            else Apply(w, s).gets[g].phase == w.gets[g].phase
  {
  }

  lemma PhaseHistoryStep(w: World, steps: seq<Step>, g: nat, a: nat, b: nat, windows: seq<(nat, nat)>, open: nat)
    returns (windows': seq<(nat, nat)>, open': nat)
    requires a < b < |steps| && Enabled(w, steps[b]) && g in w.gets && (w.gets[g].running || w.gets[g].phase.Finished?)
    requires PhaseOk(w, w.gets[g]) && PhaseHistory(steps, g, a, b, w.gets[g].phase, windows, open)
    ensures g in Apply(w, steps[b]).gets
    ensures PhaseHistory(steps, g, a, b + 1, Apply(w, steps[b]).gets[g].phase, windows', open')
  {
    var get := w.gets[g];
    PhaseStep(w, steps[b], g);
    if steps[b].Observe? && steps[b].get == g {
      windows', open' := ReadGoesOn(steps, g, a, b, get.phase, w.entries[get.entry].cached, get.now, steps[b].seen,
        windows, open);
    } else {
      WindowsStay(steps, g, a, b, windows);
      windows', open' := windows, open;
    }
  }

  lemma AcquiringOpens(w: World, s: Step)
    requires s.Acquire? && Enabled(w, s)
    ensures s.get in Apply(w, s).gets && Apply(w, s).gets[s.get].phase == Opening
  {
  }

  lemma {:induction false} HistoryOf(ws: seq<World>, steps: seq<Step>, a: nat, b: nat, g: nat)
    returns (windows: seq<(nat, nat)>, open: nat)
    requires Run(ws, steps) && a < b <= |steps|
    requires steps[a].Acquire? && steps[a].get == g
    ensures g in ws[b].gets && PhaseHistory(steps, g, a, b, ws[b].gets[g].phase, windows, open)
    decreases b
  {
    if b == a + 1 {
      AcquiringOpens(ws[a], steps[a]);
      assert ws[a + 1] == Apply(ws[a], steps[a]);
      windows, open := [], 0;
    } else {
      var earlier, opened' := HistoryOf(ws, steps, a, b - 1, g);
      windows, open := HistoryGoesOn(ws, steps, a, b - 1, g, earlier, opened');
    }
  }

  lemma HistoryGoesOn(ws: seq<World>, steps: seq<Step>, a: nat, b: nat, g: nat, windows: seq<(nat, nat)>, open: nat)
    returns (windows': seq<(nat, nat)>, open': nat)
    requires Run(ws, steps) && a < b < |steps|
    requires steps[a].Acquire? && steps[a].get == g && g in ws[b].gets
    requires PhaseHistory(steps, g, a, b, ws[b].gets[g].phase, windows, open)
    ensures g in ws[b + 1].gets && PhaseHistory(steps, g, a, b + 1, ws[b + 1].gets[g].phase, windows', open')
  {
    RecordIsKept(ws, steps, a, b, g);
    RunKeeps(ws, steps, b);
    assert Enabled(ws[b], steps[b]) && ws[b + 1] == Apply(ws[b], steps[b]);
    assert GetOk(ws[b], g);
    windows', open' := PhaseHistoryStep(ws[b], steps, g, a, b, windows, open);
  }

  /** The step changes what the marker of the directory says. */
  ghost predicate Changes(ws: seq<World>, dir: Dir, k: nat) {
    k + 1 < |ws| && MarkerOf(ws[k], dir) != MarkerOf(ws[k + 1], dir)
  }

  lemma {:induction false} SomeStepChanges(ws: seq<World>, dir: Dir, a: nat, b: nat)
    requires a <= b < |ws| && MarkerOf(ws[a], dir) != MarkerOf(ws[b], dir)
    ensures exists k: nat :: a <= k < b && Changes(ws, dir, k)
  {
    if MarkerOf(ws[a], dir) == MarkerOf(ws[b - 1], dir) {
      assert Changes(ws, dir, b - 1);
    } else {
      SomeStepChanges(ws, dir, a, b - 1);
    }
  }

  /** A window in which the marker really changed. */
  ghost predicate ChangesWithin(ws: seq<World>, dir: Dir, window: (nat, nat)) {
    exists k: nat :: window.0 <= k < window.1 && Changes(ws, dir, k)
  }

  /** A Get reports a repeatedly changing publication only if the marker really changed
      while it held the lock: once in each of four disjoint windows, those between the two
      marker reads of its attempts. */
  lemma GivingUpTakesFourChanges(ws: seq<World>, steps: seq<Step>, a: nat, b: nat, g: nat)
    requires Run(ws, steps) && a < b <= |steps|
    requires steps[a].Acquire? && steps[a].get == g
    requires g in ws[b].gets && ws[b].gets[g].phase == Finished(ChangedRepeatedly)
    ensures exists windows :: |windows| == 4 && Windows(steps, g, a, b, windows)
                              && forall n | 0 <= n < 4 :: ChangesWithin(ws, ws[b].gets[g].key.dir, windows[n])
  {
    var windows, _ := HistoryOf(ws, steps, a, b, g);
    var dir := ws[b].gets[g].key.dir;
    forall n | 0 <= n < 4
      ensures ChangesWithin(ws, dir, windows[n])
    {
      WindowsAreLate(steps, g, a, b, windows, n);
      ReadsSeeChange(ws, steps, a, b, g, windows[n].0, windows[n].1);
    }
  }

  lemma {:induction false} WindowsAreLate(steps: seq<Step>, g: nat, a: nat, b: nat, windows: seq<(nat, nat)>, n: nat)
    requires Windows(steps, g, a, b, windows) && n < |windows|
    ensures a < windows[n].0 < windows[n].1 < b && ReadsDiffer(steps, g, windows[n].0, windows[n].1)
  {
    assert WindowAt(steps, g, a, b, windows, n);
    if n > 0 {
      WindowsAreLate(steps, g, a, b, windows, n - 1);
    }
  }

  lemma ReadsSeeChange(ws: seq<World>, steps: seq<Step>, a: nat, b: nat, g: nat, open: nat, close: nat)
    requires Run(ws, steps) && a < open < close < b <= |steps|
    requires steps[a].Acquire? && steps[a].get == g && g in ws[b].gets
    requires ReadsDiffer(steps, g, open, close)
    ensures ChangesWithin(ws, ws[b].gets[g].key.dir, (open, close))
  {
    RecordIsKept(ws, steps, a, b, g);
    RecordIsKept(ws, steps, a, open, g);
    RecordIsKept(ws, steps, a, close, g);
    assert Enabled(ws[open], steps[open]) && Enabled(ws[close], steps[close]);
    SomeStepChanges(ws, ws[b].gets[g].key.dir, open, close);
  }

  /** A Get that does not resolve a credential leaves its entry as it found it when it
      took the lock: giving up, failing and hitting store nothing. */
  lemma UnresolvedLeavesEntry(ws: seq<World>, steps: seq<Step>, a: nat, i: nat, g: nat, seen: Observation)
    requires Run(ws, steps) && a < i < |steps|
    requires steps[a].Acquire? && steps[a].get == g
    requires steps[i] == Observe(g, seen)
    requires ws[i + 1].gets[g].phase.Finished? && !ws[i + 1].gets[g].phase.outcome.Resolved?
    ensures
      var id := ws[i].gets[g].entry;
      && id == ws[a].gets[g].entry && id in ws[a].entries && id in ws[i + 1].entries
      && ws[i + 1].entries[id].cached == ws[a].entries[id].cached
  {
    RunKeeps(ws, steps, i);
    assert GetOk(ws[i], g);
    RecordIsKept(ws, steps, a, i, g);
  }

  /** A Get stays, with its entry and epoch. */
  ghost predicate Keeps(w: World, w': World, g: nat) {
    && w.epoch <= w'.epoch
    && (g in w.gets ==> g in w'.gets && w'.gets[g].entry == w.gets[g].entry && w'.gets[g].epoch == w.gets[g].epoch)
    && (g in w'.gets && g !in w.gets ==> w'.gets[g].epoch >= w.epoch)
  }

  lemma KeepsStep(w: World, s: Step, g: nat)
    requires Enabled(w, s)
    ensures Keeps(w, Apply(w, s), g)
  {
  }

  lemma {:induction false} HistoryIsKept(ws: seq<World>, steps: seq<Step>, a: nat, b: nat, g: nat)
    requires Run(ws, steps) && a <= b < |ws|
    ensures Keeps(ws[a], ws[b], g)
    decreases b
  {
    if a < b {
      HistoryIsKept(ws, steps, a, b - 1, g);
      KeepsStep(ws[b - 1], steps[b - 1], g);
    }
  }

  /** `Invalidate` is a barrier. A Get that fetched its entry before the invalidation
      and one that fetches after it never have an entry in common, and the later one
      never returns what the earlier one stored. */
  lemma InvalidateIsBarrier(ws: seq<World>, steps: seq<Step>, i: nat, b: nat, early: nat, late: nat)
    requires Run(ws, steps) && i < b < |ws| && steps[i] == Invalidate
    requires early in ws[i].gets
    requires late in ws[b].gets && late !in ws[i].gets
    ensures ws[b].gets[late].entry != ws[i].gets[early].entry
    ensures ws[b].gets[late].phase.Finished? && ws[b].gets[late].phase.outcome.Hit? ==>
              ws[b].gets[late].source.Some? && ws[b].gets[late].source.value != early
  {
    RunKeeps(ws, steps, i);
    RunKeeps(ws, steps, b);
    HistoryIsKept(ws, steps, i, b, early);
    HistoryIsKept(ws, steps, i + 1, b, late);
    assert GetOk(ws[i], early);
    assert GetOk(ws[b], early) && GetOk(ws[b], late);
  }

  /** Calls for different config directories or profiles never share an entry. */
  lemma KeysNeverShare(ws: seq<World>, steps: seq<Step>, i: nat, g: nat, h: nat)
    requires Run(ws, steps) && i < |ws|
    requires g in ws[i].gets && h in ws[i].gets && ws[i].gets[g].key != ws[i].gets[h].key
    ensures ws[i].gets[g].entry != ws[i].gets[h].entry
  {
    RunKeeps(ws, steps, i);
    assert GetOk(ws[i], g) && GetOk(ws[i], h);
  }
}
