/** The token manager as an object: entries by config directory and profile, and the
    bounded retry loop of `Get` (internal/app/access_token_resolve.go). The answers of
    the marker file and the credential store come in as a script. */
module TokenManager {
  import opened GoStrings
  import opened TokenReader
  import TokenCache

  type Key = TokenCache.Key

  datatype Answer = Explicit(token: string) | NoConfigDir | Answered(outcome: Outcome)

  class Entry {
    var snapshot: Snapshot
    var revision: string

    constructor ()
      ensures Content() == NOTHING_CACHED
    {
      snapshot, revision := NO_SNAPSHOT, "";
    }

    function Content(): Cached
      reads this
    {
      Cached(snapshot, revision)
    }

    /** The body of `Get` under the entry's lock. */
    method ReadThrough(now: int, seen: seq<Observation>) returns (outcome: Outcome)
      requires Script(seen)
      modifies this
      ensures (outcome, Content()) == Play(Opening, old(Content()), now, seen)
    {
      ghost var cached := Content();
      if seen[0].Failed? {
        return ReadFailed;
      }
      var marker := seen[0].marker;
      if Usable(snapshot, now) && marker.present && marker.revision != "" && marker.revision == revision {
        return Hit(snapshot);
      }
      for attempt := 0 to MAX_ATTEMPTS
        invariant Content() == cached
        invariant Play(Opening, cached, now, seen) ==
                  if attempt < MAX_ATTEMPTS
                    then Play(Before(attempt), cached, now, seen) else (ChangedRepeatedly, cached)
      {
        var before, credential, after := seen[1 + 3 * attempt], seen[2 + 3 * attempt], seen[3 + 3 * attempt];
        AttemptUnfolds(attempt, cached, now, seen);
        if before.Failed? || credential.Failed? || after.Failed? {
          return ReadFailed;
        }
        if before.marker != after.marker {
          continue;
        }
        if Blank(credential.snapshot.token) {
          return NoCredentials;
        }
        if Usable(credential.snapshot, now) && after.marker.present && after.marker.revision != "" {
          snapshot, revision := credential.snapshot, after.marker.revision;
        } else {
          snapshot, revision := NO_SNAPSHOT, "";
        }
        return Resolved(credential.snapshot);
      }
      outcome := ChangedRepeatedly;
    }
  }

  class Manager {
    var entries: map<Key, Entry>

    constructor ()
      ensures Valid() && entries == map[]
    {
      entries := map[];
    }

    /** No two keys share an entry. */
    ghost predicate Valid()
      reads this
    {
      forall k, l | k in entries && l in entries && k != l :: entries[k] != entries[l]
    }

    /** What is cached for a key. */
    ghost function CachedFor(key: Key): Cached
      reads this, entries.Values
    {
      if key in entries then entries[key].Content() else NOTHING_CACHED
    }

    method EntryFor(key: Key) returns (entry: Entry)
      requires Valid()
      modifies this
      ensures Valid()
      ensures key in entries && entry == entries[key]
      ensures key in old(entries) ==> entries == old(entries)
      ensures key !in old(entries) ==>
                fresh(entry) && entries == old(entries)[key := entry] && entry.Content() == NOTHING_CACHED
    {
      if key !in entries {
        var created := new Entry();
        entries := entries[key := created];
      }
      entry := entries[key];
    }

    /** Every key starts afresh; entries that Gets still hold are no longer reachable. */
    method Invalidate()
      modifies this
      ensures Valid() && entries == map[]
    {
      entries := map[];
    }

    /** One call: its answer and the new content of the key's entry are those of the
        reader run on what was cached, and no other key's entry changes. */
    method Get(key: Key, explicitToken: string, now: int, seen: seq<Observation>) returns (answer: Answer)
      requires Valid() && Script(seen)
      modifies this, entries.Values
      ensures Valid()
      ensures !Blank(explicitToken) ==>
                answer == Explicit(TrimSpace(explicitToken)) && entries == old(entries)
                && CachedFor(key) == old(CachedFor(key))
      ensures Blank(explicitToken) && Blank(key.dir) ==>
                answer == NoConfigDir && entries == old(entries) && CachedFor(key) == old(CachedFor(key))
      ensures Blank(explicitToken) && !Blank(key.dir) ==>
                && answer.Answered?
                && (answer.outcome, CachedFor(key)) == Play(Opening, old(CachedFor(key)), now, seen)
      ensures forall k | k in old(entries) && k != key ::
                k in entries && entries[k] == old(entries[k]) && entries[k].Content() == old(entries[k].Content())
      ensures forall k | k in entries :: fresh(entries[k]) || (k in old(entries) && entries[k] == old(entries[k]))
    {
      var token := TrimSpace(explicitToken);
      if token != "" {
        return Explicit(token);
      }
      if Blank(key.dir) {
        return NoConfigDir;
      }
      var entry := EntryFor(key);
      var outcome := entry.ReadThrough(now, seen);
      answer := Answered(outcome);
    }
  }

  /** Two calls for one key without an invalidation between them. If the first one resolved
      a token between two equal markers, and that token is worth keeping then and still is
      at the second call, whose opening read shows the same marker, the second call answers
      it from the cache, whatever its other reads would give. */
  method GetAgain(m: Manager, key: Key, now: int, seen: seq<Observation>, later: int, again: seq<Observation>, n: nat)
    returns (first: Answer, second: Answer)
    requires m.Valid() && !Blank(key.dir) && Script(seen) && Script(again)
    requires n < MAX_ATTEMPTS && !AttemptMoved(seen, n) && forall i: nat | i < n :: AttemptMoved(seen, i)
    requires seen[3 + 3 * n].MarkerIs? && again[0] == seen[3 + 3 * n]
    modifies m, m.entries.Values
    ensures
      first.Answered? && first.outcome.Resolved?
      && WorthKeeping(first.outcome.snapshot, now, again[0].marker)
      && WorthKeeping(first.outcome.snapshot, later, again[0].marker) ==>
        second == Answered(Hit(first.outcome.snapshot))
  {
    ghost var cached := m.CachedFor(key);
    first := m.Get(key, "", now, seen);
    if first.outcome.Resolved? {
      HitIff(cached, now, seen);
      SteadyAttemptDecides(cached, now, seen, n);
    }
    HitIff(m.CachedFor(key), later, again);
    second := m.Get(key, "", later, again);
  }
}
