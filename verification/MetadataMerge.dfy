/** Merging the tools that live servers list into the previous diagnostic snapshot
    (cmd/fetch_mcp_metadata/main.go). What each server answers, the registry and the
    extraction of parameters from a schema are arguments. */
module MetadataMerge {
  import opened Collections
  import opened GoStrings
  import opened Json

  /** An entry of the snapshot: an object, or the null the snapshot may hold instead. */
  datatype Entry = NullEntry | Entry(fields: map<string, Value>)

  type Snapshot = map<string, Entry>

  /** The registry's `interface_ref` of each canonical path. */
  type Registry = map<string, map<string, string>>

  datatype Tool = Tool(name: string, title: string, description: string, schema: Option<Value>)

  /** A server and what `tools/list` gives for it, nothing when the call fails. */
  datatype Server = Server(id: string, endpoint: string, answer: Option<seq<Tool>>)

  /** A listed tool under its live key. */
  datatype Live = Live(key: string, tool: Tool)

  const REF_FIELD := "interface_ref"

  function LiveKey(serverId: string, name: string): string {
    serverId + "." + name
  }

  // Which live key feeds a canonical

  /** The interface_ref of an entry, unless it is missing or null. */
  function ReviewedRef(entry: Entry): Option<Value> {
    if entry.Entry? && REF_FIELD in entry.fields && entry.fields[REF_FIELD] != Null then
      Some(entry.fields[REF_FIELD])
    else None
  }

  function Text(fields: map<string, Value>, key: string): string {
    if key in fields && fields[key].Str? then fields[key].s else ""
  }

  /** The live key an interface_ref names, if it names a complete one. */
  function NamedKey(ref: Value): Option<string> {
    if !ref.Obj? || Text(ref.fields, "product_id") == "" || Text(ref.fields, "rpc_name") == "" then None
    else Some(LiveKey(Text(ref.fields, "product_id"), Text(ref.fields, "rpc_name")))
  }

  /** The live key, other than its own name, that a canonical's reviewed entry names. */
  function CrossKey(prev: Snapshot, registry: Registry, canonical: string): Option<string> {
    if canonical !in registry || canonical !in prev then None
    else
      match ReviewedRef(prev[canonical])
      case None => None
      case Some(ref) =>
        match NamedKey(ref)
        case None => None
        case Some(key) => if key == canonical then None else Some(key)
  }

  /** The one live key a canonical of the registry takes its data from. */
  function Feeder(prev: Snapshot, registry: Registry, canonical: string): string {
    match CrossKey(prev, registry, canonical)
    case None => canonical
    case Some(key) => key
  }

  ghost function Elements(names: seq<string>): set<string> {
    set c | c in names
  }

  /** The canonicals a live key feeds. */
  ghost function FedFrom(prev: Snapshot, registry: Registry, key: string): set<string> {
    set c | c in registry && Feeder(prev, registry, c) == key
  }

  // What the snapshot should become

  function RefValue(ref: map<string, string>): Value {
    Obj(map key | key in ref :: Str(ref[key]))
  }

  /** The interface_ref a refresh keeps: the reviewed one, or else the registry's. */
  function KeptRef(table: Snapshot, canonical: string, fallback: map<string, string>): Value {
    if canonical in table && ReviewedRef(table[canonical]).Some? then ReviewedRef(table[canonical]).value
    else RefValue(fallback)
  }

  /** What a listed tool shows: its title, its description and its parameters. */
  function Shown(tool: Tool, extract: Value -> Value): (string, string, Option<Value>) {
    (tool.title, tool.description, if tool.schema.Some? then Some(extract(tool.schema.value)) else None)
  }

  function Refreshed(shown: (string, string, Option<Value>), ref: Value): Entry {
    var fields := map["title" := Str(shown.0), "description" := Str(shown.1), REF_FIELD := ref];
    Entry(if shown.2.Some? then fields["parameters" := shown.2.value] else fields)
  }

  /** The last listed tool with a live key. */
  function LastWith(live: seq<Live>, key: string): Option<Tool> {
    if live == [] then None
    else if live[|live| - 1].key == key then Some(live[|live| - 1].tool)
    else LastWith(live[..|live| - 1], key)
  }

  /** The entry of a canonical after some tools have been listed. */
  function FedEntry(prev: Snapshot, registry: Registry, live: seq<Live>, canonical: string,
      extract: Value -> Value): Option<Entry>
  {
    if canonical !in registry then Lookup(prev, canonical)
    else
      match LastWith(live, Feeder(prev, registry, canonical))
      case None => Lookup(prev, canonical)
      case Some(tool) => Some(Refreshed(Shown(tool, extract), KeptRef(prev, canonical, registry[canonical])))
  }

  /** The entry of a canonical in the snapshot that is written. */
  function FinalEntry(prev: Snapshot, registry: Registry, live: seq<Live>, canonical: string,
      extract: Value -> Value): Option<Entry>
  {
    match FedEntry(prev, registry, live, canonical, extract)
    case Some(entry) => Some(entry)
    case None => if canonical in registry then Some(Stub(registry[canonical])) else None
  }

  /** The tools with a name among those a server lists, in order. */
  function Named(id: string, tools: seq<Tool>): seq<Live> {
    if tools == [] then []
    else
      var last := tools[|tools| - 1];
      Named(id, tools[..|tools| - 1]) + if Blank(last.name) then [] else [Live(LiveKey(id, TrimSpace(last.name)), last)]
  }

  predicate Answered(s: Server) {
    !Blank(s.endpoint) && s.answer.Some?
  }

  function Listed(s: Server): seq<Live> {
    if Answered(s) then Named(s.id, s.answer.value) else []
  }

  /** Every tool the servers list, in the order they are asked. */
  function LiveOf(servers: seq<Server>): seq<Live> {
    if servers == [] then [] else LiveOf(servers[..|servers| - 1]) + Listed(servers[|servers| - 1])
  }

  // The merge

  /** The table being built, written to in place. */
  class Table {
    var entries: Snapshot

    constructor (prev: Snapshot)
      ensures entries == prev
    {
      entries := prev;
    }

    /** Refreshes one entry, keeping its reviewed interface_ref. */
    method MergeLiveTool(canonical: string, tool: Tool, fallback: map<string, string>, extract: Value -> Value)
      modifies this
      ensures entries == old(entries)[canonical :=
                Refreshed(Shown(tool, extract), KeptRef(old(entries), canonical, fallback))]
    {
      var ref := RefValue(fallback);
      if canonical in entries && entries[canonical].Entry? {
        var previous := entries[canonical].fields;
        if REF_FIELD in previous && previous[REF_FIELD] != Null {
          ref := previous[REF_FIELD];
        }
      }
      var fields := map["title" := Str(tool.title), "description" := Str(tool.description), REF_FIELD := ref];
      if tool.schema.Some? {
        fields := fields["parameters" := extract(tool.schema.value)];
      }
      entries := entries[canonical := Entry(fields)];
    }

    /** Refreshes several entries from one tool, beside those it has refreshed. */
    method MergeAll(canonicals: seq<string>, tool: Tool, registry: Registry, extract: Value -> Value,
        ghost before: Snapshot, ghost done: set<string>)
      requires forall c | c in canonicals :: c in registry
      requires RefreshedOn(before, entries, done, registry, tool, extract)
      modifies this
      ensures RefreshedOn(before, entries, done + Elements(canonicals), registry, tool, extract)
    {
      ghost var now := done;
      for i := 0 to |canonicals|
        invariant now == done + Elements(canonicals[..i])
        invariant RefreshedOn(before, entries, now, registry, tool, extract)
      {
        assert canonicals[..i + 1] == canonicals[..i] + [canonicals[i]];
        RefreshOneMore(before, entries, now, canonicals[i], registry, tool, extract);
        MergeLiveTool(canonicals[i], tool, registry[canonicals[i]], extract);
        now := now + {canonicals[i]};
      }
      assert canonicals[..|canonicals|] == canonicals;
    }

    /** Gives one listed tool to the canonicals it feeds: the one of its own name, unless
        a reviewed identity owns that, and those whose reviewed identity it is. */
    method Feed(key: string, tool: Tool, registry: Registry, crossRefs: map<string, seq<string>>,
        crossOwned: set<string>, extract: Value -> Value, ghost prev: Snapshot)
      requires IndexOf(crossRefs, crossOwned, prev, registry)
      modifies this
      ensures RefreshedOn(old(entries), entries, FedFrom(prev, registry, key), registry, tool, extract)
    {
      ghost var direct := {};
      if key in registry && key !in crossOwned {
        RefreshOneMore(entries, entries, {}, key, registry, tool, extract);
        MergeLiveTool(key, tool, registry[key], extract);
        direct := {key};
      }
      var canonicals := if key in crossRefs then crossRefs[key] else [];
      FedCanonicals(key, direct, canonicals, crossRefs, crossOwned, prev, registry);
      MergeAll(canonicals, tool, registry, extract, old(entries), direct);
    }
  }

  /** A table in which exactly some canonicals are refreshed from a tool. */
  ghost predicate RefreshedOn(before: Snapshot, after: Snapshot, canonicals: set<string>, registry: Registry,
      tool: Tool, extract: Value -> Value)
  {
    && canonicals <= registry.Keys
    && (forall c | c in canonicals ::
          c in after && after[c] == Refreshed(Shown(tool, extract), KeptRef(before, c, registry[c])))
    && (forall c | c !in canonicals :: Lookup(after, c) == Lookup(before, c))
  }

  lemma KeptRefIsReviewed(table: Snapshot, canonical: string, fallback: map<string, string>,
      shown: (string, string, Option<Value>))
    ensures ReviewedRef(Refreshed(shown, KeptRef(table, canonical, fallback))) ==
              Some(KeptRef(table, canonical, fallback))
  {
    var ref := KeptRef(table, canonical, fallback);
    var fields := Refreshed(shown, ref).fields;
    assert REF_FIELD in fields && fields[REF_FIELD] == ref;
  }

  lemma RefreshOneMore(before: Snapshot, now: Snapshot, done: set<string>, canonical: string, registry: Registry,
      tool: Tool, extract: Value -> Value)
    requires RefreshedOn(before, now, done, registry, tool, extract) && canonical in registry
    ensures
      var entry := Refreshed(Shown(tool, extract), KeptRef(now, canonical, registry[canonical]));
      RefreshedOn(before, now[canonical := entry], done + {canonical}, registry, tool, extract)
  {
    if canonical in done {
      KeptRefIsReviewed(before, canonical, registry[canonical], Shown(tool, extract));
    } else {
      assert Lookup(now, canonical) == Lookup(before, canonical);
    }
  }

  /** The canonicals a key feeds directly and through the index are those it feeds. */
  lemma FedCanonicals(key: string, direct: set<string>, canonicals: seq<string>, crossRefs: map<string, seq<string>>,
      crossOwned: set<string>, prev: Snapshot, registry: Registry)
    requires IndexOf(crossRefs, crossOwned, prev, registry)
    requires direct == if key in registry && key !in crossOwned then {key} else {}
    requires canonicals == if key in crossRefs then crossRefs[key] else []
    ensures direct + Elements(canonicals) == FedFrom(prev, registry, key)
    ensures forall c | c in canonicals :: c in registry
  {
    forall c
      ensures c in direct || c in canonicals <==> c in registry && Feeder(prev, registry, c) == key
    {
      assert c in canonicals <==> CrossKey(prev, registry, c) == Some(key);
    }
  }

  /** The index of reviewed cross-server identities, and the canonicals in it. */
  ghost predicate IndexOf(crossRefs: map<string, seq<string>>, crossOwned: set<string>, prev: Snapshot,
      registry: Registry)
  {
    && (forall key, c :: key in crossRefs && c in crossRefs[key] <==> CrossKey(prev, registry, c) == Some(key))
    && (forall c :: c in crossOwned <==> CrossKey(prev, registry, c).Some?)
  }

  /** Indexes the reviewed cross-server identities of the registry's canonicals. */
  method BuildCrossServerRefs(prev: Snapshot, registry: Registry) returns (index: map<string, seq<string>>)
    ensures forall key, c :: key in index && c in index[key] <==> CrossKey(prev, registry, c) == Some(key)
  {
    index := map[];
    var todo := prev.Keys;
    while todo != {}
      invariant todo <= prev.Keys
      invariant forall key, c :: key in index && c in index[key] <==>
                c !in todo && CrossKey(prev, registry, c) == Some(key)
    {
      var canonical :| canonical in todo;
      todo := todo - {canonical};
      if canonical !in registry {
        continue;
      }
      var entry := prev[canonical];
      if entry.NullEntry? || REF_FIELD !in entry.fields || !entry.fields[REF_FIELD].Obj? {
        continue;
      }
      var ref := entry.fields[REF_FIELD].fields;
      var product, rpc := Text(ref, "product_id"), Text(ref, "rpc_name");
      if product == "" || rpc == "" {
        continue;
      }
      var key := LiveKey(product, rpc);
      if key == canonical {
        continue;
      }
      assert CrossKey(prev, registry, canonical) == Some(key);
      index := index[key := (if key in index then index[key] else []) + [canonical]];
    }
  }

  /** The canonicals that appear anywhere in the index. */
  method OwnedIn(index: map<string, seq<string>>) returns (owned: set<string>)
    ensures forall c :: c in owned <==> exists key :: key in index && c in index[key]
  {
    owned := {};
    var todo := index.Keys;
    while todo != {}
      invariant todo <= index.Keys
      invariant forall c :: c in owned <==> exists key :: key in index && key !in todo && c in index[key]
    {
      var key :| key in todo;
      todo := todo - {key};
      owned := owned + set c | c in index[key];
    }
  }

  /** The table says of every canonical what the tools listed so far make of it. */
  ghost predicate Reflects(table: Snapshot, prev: Snapshot, registry: Registry, live: seq<Live>,
      extract: Value -> Value)
  {
    forall c :: Lookup(table, c) == FedEntry(prev, registry, live, c, extract)
  }

  lemma FedEntryKeepsRef(prev: Snapshot, registry: Registry, live: seq<Live>, table: Snapshot, canonical: string,
      extract: Value -> Value)
    requires canonical in registry && Lookup(table, canonical) == FedEntry(prev, registry, live, canonical, extract)
    ensures KeptRef(table, canonical, registry[canonical]) == KeptRef(prev, canonical, registry[canonical])
  {
    match LastWith(live, Feeder(prev, registry, canonical)) {
      case None =>
      case Some(tool) => KeptRefIsReviewed(prev, canonical, registry[canonical], Shown(tool, extract));
    }
  }

  lemma FeedReflects(before: Snapshot, after: Snapshot, prev: Snapshot, registry: Registry, live: seq<Live>,
      key: string, tool: Tool, extract: Value -> Value)
    requires Reflects(before, prev, registry, live, extract)
    requires RefreshedOn(before, after, FedFrom(prev, registry, key), registry, tool, extract)
    ensures Reflects(after, prev, registry, live + [Live(key, tool)], extract)
  {
    var more := live + [Live(key, tool)];
    assert more[..|more| - 1] == live;
    forall c
      ensures Lookup(after, c) == FedEntry(prev, registry, more, c, extract)
    {
      assert Lookup(before, c) == FedEntry(prev, registry, live, c, extract);
      if c in FedFrom(prev, registry, key) {
        FedEntryKeepsRef(prev, registry, live, before, c, extract);
      }
    }
  }

  /** The canonicals of the registry nothing is known of. */
  ghost function Gaps(prev: Snapshot, registry: Registry, live: seq<Live>): set<string> {
    set c | c in registry && c !in prev && LastWith(live, Feeder(prev, registry, c)) == None
  }

  function FailedIds(servers: seq<Server>): seq<string> {
    if servers == [] then []
    else
      var last := servers[|servers| - 1];
      FailedIds(servers[..|servers| - 1]) + if !Blank(last.endpoint) && last.answer.None? then [last.id] else []
  }

  function RawTools(servers: seq<Server>): nat {
    if servers == [] then 0
    else
      var last := servers[|servers| - 1];
      RawTools(servers[..|servers| - 1]) + if Answered(last) then |last.answer.value| else 0
  }

  /** Feeds the table with everything one server lists. */
  method FeedServer(table: Table, s: Server, tools: seq<Tool>, registry: Registry,
      crossRefs: map<string, seq<string>>, crossOwned: set<string>,
    extract: Value -> Value, ghost prev: Snapshot, ghost live: seq<Live>)
    requires IndexOf(crossRefs, crossOwned, prev, registry)
    requires Reflects(table.entries, prev, registry, live, extract)
    modifies table
    ensures Reflects(table.entries, prev, registry, live + Named(s.id, tools), extract)
  {
    assert live + [] == live;
    for i := 0 to |tools|
      invariant Reflects(table.entries, prev, registry, live + Named(s.id, tools[..i]), extract)
    {
      var name := TrimSpace(tools[i].name);
      assert tools[..i + 1][..i] == tools[..i];
      if name == "" {
        assert Named(s.id, tools[..i + 1]) == Named(s.id, tools[..i]);
        continue;
      }
      var key := LiveKey(s.id, name);
      ghost var before, sofar := table.entries, live + Named(s.id, tools[..i]);
      table.Feed(key, tools[i], registry, crossRefs, crossOwned, extract, prev);
      FeedReflects(before, table.entries, prev, registry, sofar, key, tools[i], extract);
      assert live + Named(s.id, tools[..i + 1]) == sofar + [Live(key, tools[i])];
    }
    assert tools[..|tools|] == tools;
  }

  function Stub(ref: map<string, string>): Entry {
    Entry(map[REF_FIELD := RefValue(ref)])
  }

  /** A table in which some of the canonicals have a stub where they had nothing. */
  ghost predicate FilledOn(before: Snapshot, after: Snapshot, canonicals: set<string>, registry: Registry) {
    && canonicals <= registry.Keys
    && (forall c | c in canonicals && c !in before :: c in after && after[c] == Stub(registry[c]))
    && (forall c | c !in canonicals || c in before :: Lookup(after, c) == Lookup(before, c))
  }

  lemma FillOneMore(before: Snapshot, now: Snapshot, done: set<string>, canonical: string, registry: Registry)
    requires FilledOn(before, now, done, registry) && canonical in registry && canonical !in done
    ensures
      if canonical in now then FilledOn(before, now, done + {canonical}, registry)
      else FilledOn(before, now[canonical := Stub(registry[canonical])], done + {canonical}, registry)
    ensures canonical in now <==> canonical in before
  {
    assert Lookup(now, canonical) == Lookup(before, canonical);
    if canonical !in now {
      FillMissing(before, now, done, canonical, registry);
    }
  }

  lemma FillMissing(before: Snapshot, now: Snapshot, done: set<string>, canonical: string, registry: Registry)
    requires FilledOn(before, now, done, registry) && canonical in registry
    requires canonical !in now && canonical !in before
    ensures FilledOn(before, now[canonical := Stub(registry[canonical])], done + {canonical}, registry)
  {
    var more, after := done + {canonical}, now[canonical := Stub(registry[canonical])];
    forall c | c !in more || c in before
      ensures Lookup(after, c) == Lookup(before, c)
    {
      assert Lookup(now, c) == Lookup(before, c);
    }
  }

  lemma OneMoreOutside(todo: set<string>, done: set<string>, known: set<string>, c: string)
    requires c in todo && todo !! done
    ensures todo - {c} !! done + {c} && (todo - {c}) + (done + {c}) == todo + done
    ensures |(done + {c}) - known| == |done - known| + if c in known then 0 else 1
  {
    if c in known {
      assert (done + {c}) - known == done - known;
    } else {
      assert (done + {c}) - known == (done - known) + {c};
    }
  }

  /** Gives the canonicals of the registry that are still missing a stub each. */
  method FillGaps(table: Table, registry: Registry) returns (stubs: nat)
    modifies table
    ensures FilledOn(old(table.entries), table.entries, registry.Keys, registry)
    ensures stubs == |registry.Keys - old(table.entries).Keys|
  {
    stubs := 0;
    var todo := registry.Keys;
    ghost var before, done := table.entries, {};
    while todo != {}
      invariant todo !! done && todo + done == registry.Keys
      invariant FilledOn(before, table.entries, done, registry)
      invariant stubs == |done - before.Keys|
    {
      var canonical :| canonical in todo;
      FillOneMore(before, table.entries, done, canonical, registry);
      OneMoreOutside(todo, done, before.Keys, canonical);
      todo := todo - {canonical};
      done := done + {canonical};
      if canonical in table.entries {
        continue;
      }
      table.entries := table.entries[canonical := Stub(registry[canonical])];
      stubs := stubs + 1;
    }
    assert done == registry.Keys;
  }

  /** The table that is written says of every canonical what the inputs make of it. */
  ghost predicate Finished(table: Snapshot, prev: Snapshot, registry: Registry, live: seq<Live>,
      extract: Value -> Value)
  {
    forall c :: Lookup(table, c) == FinalEntry(prev, registry, live, c, extract)
  }

  lemma FilledIsFinished(fed: Snapshot, table: Snapshot, prev: Snapshot, registry: Registry, live: seq<Live>,
      extract: Value -> Value)
    requires Reflects(fed, prev, registry, live, extract)
    requires FilledOn(fed, table, registry.Keys, registry)
    ensures Finished(table, prev, registry, live, extract)
  {
    forall c
      ensures Lookup(table, c) == FinalEntry(prev, registry, live, c, extract)
    {
      assert Lookup(fed, c) == FedEntry(prev, registry, live, c, extract);
    }
  }

  lemma OneServerMore(servers: seq<Server>, i: nat)
    requires i < |servers|
    ensures LiveOf(servers[..i + 1]) == LiveOf(servers[..i]) + Listed(servers[i])
    ensures !Answered(servers[i]) ==> LiveOf(servers[..i + 1]) == LiveOf(servers[..i])
    ensures FailedIds(servers[..i + 1]) ==
              FailedIds(servers[..i]) +
              if !Blank(servers[i].endpoint) && servers[i].answer.None? then [servers[i].id] else []
    ensures RawTools(servers[..i + 1]) ==
              RawTools(servers[..i]) + if Answered(servers[i]) then |servers[i].answer.value| else 0
  {
    assert servers[..i + 1][..i] == servers[..i];
  }

  /** The whole merge: asks the servers one by one, skipping those without an endpoint and
      those that fail, and fills the gaps. */
  method Merge(servers: seq<Server>, prev: Snapshot, registry: Registry, extract: Value -> Value)
    returns (table: Table, failed: seq<string>, totalRaw: nat, stubs: nat)
    ensures fresh(table)
    ensures Finished(table.entries, prev, registry, LiveOf(servers), extract)
    ensures failed == FailedIds(servers) && totalRaw == RawTools(servers)
    ensures stubs == |Gaps(prev, registry, LiveOf(servers))|
  {
    table := new Table(prev);
    failed, totalRaw := [], 0;
    var crossRefs := BuildCrossServerRefs(prev, registry);
    var crossOwned := OwnedIn(crossRefs);
    OwnedMeansIndexed(crossRefs, crossOwned, prev, registry);
    for i := 0 to |servers|
      invariant fresh(table)
      invariant Reflects(table.entries, prev, registry, LiveOf(servers[..i]), extract)
      invariant failed == FailedIds(servers[..i]) && totalRaw == RawTools(servers[..i])
    {
      var s := servers[i];
      OneServerMore(servers, i);
      if Blank(s.endpoint) {
        continue;
      }
      if s.answer.None? {
        failed := failed + [s.id];
        continue;
      }
      totalRaw := totalRaw + |s.answer.value|;
      FeedServer(table, s, s.answer.value, registry, crossRefs, crossOwned, extract, prev, LiveOf(servers[..i]));
    }
    assert servers[..|servers|] == servers;
    ghost var fed := table.entries;
    stubs := FillGaps(table, registry);
    GapsAreMissing(fed, prev, registry, LiveOf(servers), extract);
    FilledIsFinished(fed, table.entries, prev, registry, LiveOf(servers), extract);
  }

  lemma OwnedMeansIndexed(crossRefs: map<string, seq<string>>, crossOwned: set<string>, prev: Snapshot,
      registry: Registry)
    requires forall key, c :: key in crossRefs && c in crossRefs[key] <==> CrossKey(prev, registry, c) == Some(key)
    requires forall c :: c in crossOwned <==> exists key :: key in crossRefs && c in crossRefs[key]
    ensures IndexOf(crossRefs, crossOwned, prev, registry)
  {
  }

  lemma GapsAreMissing(fed: Snapshot, prev: Snapshot, registry: Registry, live: seq<Live>, extract: Value -> Value)
    requires Reflects(fed, prev, registry, live, extract)
    ensures registry.Keys - fed.Keys == Gaps(prev, registry, live)
  {
    forall c
      ensures c in registry.Keys - fed.Keys <==> c in Gaps(prev, registry, live)
    {
      assert Lookup(fed, c) == FedEntry(prev, registry, live, c, extract);
    }
  }

  // What survives

  /** Every reviewed interface_ref survives, whatever the servers list. */
  lemma ReviewedRefSurvives(prev: Snapshot, registry: Registry, live: seq<Live>, canonical: string,
      extract: Value -> Value)
    requires canonical in prev && ReviewedRef(prev[canonical]).Some?
    ensures FinalEntry(prev, registry, live, canonical, extract).Some?
    ensures ReviewedRef(FinalEntry(prev, registry, live, canonical, extract).value) == ReviewedRef(prev[canonical])
  {
    if canonical in registry {
      match LastWith(live, Feeder(prev, registry, canonical)) {
        case None =>
        case Some(tool) => KeptRefIsReviewed(prev, canonical, registry[canonical], Shown(tool, extract));
      }
    }
  }

  /** The snapshot holds exactly the canonicals of the registry and of the previous one.
      One of the registry lacks an interface_ref only if nothing feeds it and its previous
      entry lacked one. */
  lemma SnapshotCovers(prev: Snapshot, registry: Registry, live: seq<Live>, canonical: string, extract: Value -> Value)
    ensures FinalEntry(prev, registry, live, canonical, extract).Some? <==> canonical in registry || canonical in prev
    ensures canonical in registry ==>
              (ReviewedRef(FinalEntry(prev, registry, live, canonical, extract).value).None? <==>
               && LastWith(live, Feeder(prev, registry, canonical)).None?
               && canonical in prev && ReviewedRef(prev[canonical]).None?)
  {
    if canonical in registry {
      match LastWith(live, Feeder(prev, registry, canonical)) {
        case None =>
          if canonical !in prev {
            assert ReviewedRef(Stub(registry[canonical])) == Some(RefValue(registry[canonical]));
          }
        case Some(tool) => KeptRefIsReviewed(prev, canonical, registry[canonical], Shown(tool, extract));
      }
    }
  }

  // What the written entries hold, field by field

  /** What a listing gives: each named tool of each server that answers, under the server's
      id, a dot and the tool's trimmed name. */
  lemma {:induction false} ListedIff(servers: seq<Server>, x: Live)
    ensures x in LiveOf(servers) <==>
            exists s | s in servers ::
              && TrimSpace(s.endpoint) != "" && s.answer.Some? && x.tool in s.answer.value
              && TrimSpace(x.tool.name) != "" && x.key == s.id + "." + TrimSpace(x.tool.name)
  {
    if servers != [] {
      var rest, last := servers[..|servers| - 1], servers[|servers| - 1];
      assert servers == rest + [last];
      ListedIff(rest, x);
      if Answered(last) {
        NamedIff(last.id, last.answer.value, x);
      }
    }
  }

  lemma {:induction false} NamedIff(id: string, tools: seq<Tool>, x: Live)
    ensures x in Named(id, tools) <==>
            x.tool in tools && TrimSpace(x.tool.name) != "" && x.key == id + "." + TrimSpace(x.tool.name)
  {
    if tools != [] {
      assert tools == tools[..|tools| - 1] + [tools[|tools| - 1]];
      NamedIff(id, tools[..|tools| - 1], x);
    }
  }

  /** The last tool listed under a key decides. */
  lemma {:induction false} LastWithIsLast(live: seq<Live>, key: string, i: nat)
    requires i < |live| && live[i].key == key && forall j | i < j < |live| :: live[j].key != key
    ensures LastWith(live, key) == Some(live[i].tool)
  {
    if i < |live| - 1 {
      LastWithIsLast(live[..|live| - 1], key, i);
    }
  }

  /** A canonical is fed under the identity its previous entry was reviewed to have, if that
      names both a product and an RPC, and else under its own name. */
  lemma FeederIs(prev: Snapshot, registry: Registry, c: string, product: string, rpc: string)
    requires c in registry && c in prev && prev[c].Entry? && product != "" && rpc != ""
    requires "interface_ref" in prev[c].fields && prev[c].fields["interface_ref"].Obj?
    requires "product_id" in prev[c].fields["interface_ref"].fields
              && "rpc_name" in prev[c].fields["interface_ref"].fields
    requires prev[c].fields["interface_ref"].fields["product_id"] == Str(product)
    requires prev[c].fields["interface_ref"].fields["rpc_name"] == Str(rpc)
    ensures Feeder(prev, registry, c) == product + "." + rpc
  {
    assert NamedKey(prev[c].fields["interface_ref"]) == Some(product + "." + rpc);
  }

  lemma UnreviewedFeedsItself(prev: Snapshot, registry: Registry, c: string)
    requires c !in prev || !prev[c].Entry? || "interface_ref" !in prev[c].fields
              || !prev[c].fields["interface_ref"].Obj?
    ensures Feeder(prev, registry, c) == c
  {
  }

  /** The reference of an entry: the reviewed one, or else the registry's, as an object of
      texts. */
  predicate HoldsRef(entry: Entry, prev: Snapshot, c: string, ref: map<string, string>) {
    && entry.Entry? && "interface_ref" in entry.fields
    && if c in prev && prev[c].Entry? && "interface_ref" in prev[c].fields && prev[c].fields["interface_ref"] != Null
       then entry.fields["interface_ref"] == prev[c].fields["interface_ref"]
       else
         && entry.fields["interface_ref"].Obj?
         && entry.fields["interface_ref"].fields.Keys == ref.Keys
         && forall key | key in ref :: entry.fields["interface_ref"].fields[key] == Str(ref[key])
  }

  /** The written entry of a canonical that is fed: title, description and parameters are
      those of the last tool listed under its feeder, and besides there is only the
      reference. */
  lemma FedEntryHolds(prev: Snapshot, registry: Registry, live: seq<Live>, table: Snapshot, c: string, tool: Tool,
      extract: Value -> Value)
    requires Finished(table, prev, registry, live, extract)
    requires c in registry && LastWith(live, Feeder(prev, registry, c)) == Some(tool)
    ensures c in table && HoldsRef(table[c], prev, c, registry[c])
    ensures
      var fields := table[c].fields;
      && "title" in fields && fields["title"] == Str(tool.title)
      && "description" in fields && fields["description"] == Str(tool.description)
      && ("parameters" in fields <==> tool.schema.Some?)
      && (tool.schema.Some? ==> fields["parameters"] == extract(tool.schema.value))
      && fields.Keys <= {"title", "description", "parameters", "interface_ref"}
  {
    assert Lookup(table, c) == FinalEntry(prev, registry, live, c, extract);
    RefreshedHolds(tool, KeptRef(prev, c, registry[c]), extract);
  }

  lemma RefreshedHolds(tool: Tool, ref: Value, extract: Value -> Value)
    ensures
      var fields := Refreshed(Shown(tool, extract), ref).fields;
      && "title" in fields && fields["title"] == Str(tool.title)
      && "description" in fields && fields["description"] == Str(tool.description)
      && "interface_ref" in fields && fields["interface_ref"] == ref
      && ("parameters" in fields <==> tool.schema.Some?)
      && (tool.schema.Some? ==> fields["parameters"] == extract(tool.schema.value))
      && fields.Keys <= {"title", "description", "parameters", "interface_ref"}
  {
  }

  /** The other written entries: what nothing feeds is as it was, and what was not there is a
      bare reference if the registry has it. */
  lemma UnfedEntryHolds(prev: Snapshot, registry: Registry, live: seq<Live>, table: Snapshot, c: string,
      extract: Value -> Value)
    requires Finished(table, prev, registry, live, extract)
    requires c in registry ==> forall x | x in live :: x.key != Feeder(prev, registry, c)
    ensures c in prev ==> c in table && table[c] == prev[c]
    ensures c !in prev && c in registry ==>
              c in table && HoldsRef(table[c], prev, c, registry[c]) && table[c].fields.Keys == {"interface_ref"}
    ensures c !in prev && c !in registry ==> c !in table
  {
    assert Lookup(table, c) == FinalEntry(prev, registry, live, c, extract);
    if c in registry {
      LastWithIsListed(live, Feeder(prev, registry, c));
    }
  }

  // The order of servers and tools

  lemma {:induction false} LastWithIsListed(live: seq<Live>, key: string)
    ensures LastWith(live, key).Some? ==> Live(key, LastWith(live, key).value) in live
    ensures LastWith(live, key).None? ==> forall x | x in live :: x.key != key
  {
    if live != [] {
      var last := live[|live| - 1];
      assert live == live[..|live| - 1] + [last];
      LastWithIsListed(live[..|live| - 1], key);
    }
  }

  /** Tools that feed the same canonical show the same. */
  ghost predicate FeedsAgree(prev: Snapshot, registry: Registry, live: seq<Live>, extract: Value -> Value) {
    forall c, x, y | c in registry && x in live && y in live && x.key == Feeder(prev, registry, c)
      && y.key == Feeder(prev, registry, c) ::
      Shown(x.tool, extract) == Shown(y.tool, extract)
  }

  ghost predicate SameOutcome(prev: Snapshot, registry: Registry, live: seq<Live>, other: seq<Live>,
      extract: Value -> Value)
  {
    forall c :: FinalEntry(prev, registry, live, c, extract) == FinalEntry(prev, registry, other, c, extract)
  }

  ghost predicate OrderIndependent(prev: Snapshot, registry: Registry, live: seq<Live>, extract: Value -> Value) {
    forall other | multiset(other) == multiset(live) :: SameOutcome(prev, registry, live, other, extract)
  }

  lemma AgreeingFeedsSettleEntry(prev: Snapshot, registry: Registry, live: seq<Live>, other: seq<Live>, c: string,
      extract: Value -> Value)
    requires FeedsAgree(prev, registry, live, extract) && multiset(other) == multiset(live)
    ensures FinalEntry(prev, registry, live, c, extract) == FinalEntry(prev, registry, other, c, extract)
  {
    if c in registry {
      var key := Feeder(prev, registry, c);
      LastWithIsListed(live, key);
      LastWithIsListed(other, key);
      assert forall x :: x in live <==> x in multiset(live);
      assert forall x :: x in other <==> x in multiset(other);
      assert LastWith(live, key).Some? <==> LastWith(other, key).Some?;
      if LastWith(live, key).Some? {
        var x, y := Live(key, LastWith(live, key).value), Live(key, LastWith(other, key).value);
        assert x in live && y in live;
        assert Shown(x.tool, extract) == Shown(y.tool, extract);
      }
    }
  }

  /** The listed tools with the one at `i` moved to the end. */
  function MovedLast(live: seq<Live>, i: nat): seq<Live>
    requires i < |live|
  {
    live[..i] + live[i + 1..] + [live[i]]
  }

  lemma MovedLastFeeds(prev: Snapshot, registry: Registry, live: seq<Live>, i: nat, c: string, extract: Value -> Value)
    requires i < |live| && c in registry && live[i].key == Feeder(prev, registry, c)
    ensures multiset(MovedLast(live, i)) == multiset(live)
    ensures FinalEntry(prev, registry, MovedLast(live, i), c, extract) ==
            Some(Refreshed(Shown(live[i].tool, extract), KeptRef(prev, c, registry[c])))
  {
    assert live == live[..i] + [live[i]] + live[i + 1..];
    var moved := MovedLast(live, i);
    assert moved[|moved| - 1] == live[i];
  }

  lemma RefreshedShows(a: (string, string, Option<Value>), b: (string, string, Option<Value>), ref: Value)
    requires Refreshed(a, ref) == Refreshed(b, ref)
    ensures a == b
  {
    var f, g := Refreshed(a, ref).fields, Refreshed(b, ref).fields;
    assert f["title"] == Str(a.0) && f["description"] == Str(a.1) && g["title"] == Str(b.0)
      && g["description"] == Str(b.1);
    assert "parameters" in f <==> a.2.Some?;
    assert "parameters" in g <==> b.2.Some?;
    assert a.2.Some? ==> f["parameters"] == a.2.value;
    assert b.2.Some? ==> g["parameters"] == b.2.value;
  }

  /** The snapshot does not depend on the order in which tools are listed if and only if
      tools that feed the same canonical show the same. */
  lemma OrderIndependentIff(prev: Snapshot, registry: Registry, live: seq<Live>, extract: Value -> Value)
    ensures OrderIndependent(prev, registry, live, extract) <==> FeedsAgree(prev, registry, live, extract)
  {
    if FeedsAgree(prev, registry, live, extract) {
      forall other, c | multiset(other) == multiset(live)
        ensures FinalEntry(prev, registry, live, c, extract) == FinalEntry(prev, registry, other, c, extract)
      {
        AgreeingFeedsSettleEntry(prev, registry, live, other, c, extract);
      }
    }
    if OrderIndependent(prev, registry, live, extract) {
      forall c, x, y | c in registry && x in live && y in live && x.key == Feeder(prev, registry, c)
        && y.key == Feeder(prev, registry, c)
        ensures Shown(x.tool, extract) == Shown(y.tool, extract)
      {
        var i :| 0 <= i < |live| && live[i] == x;
        var j :| 0 <= j < |live| && live[j] == y;
        MovedLastFeeds(prev, registry, live, i, c, extract);
        MovedLastFeeds(prev, registry, live, j, c, extract);
        assert SameOutcome(prev, registry, live, MovedLast(live, i), extract);
        assert SameOutcome(prev, registry, live, MovedLast(live, j), extract);
        assert FinalEntry(prev, registry, MovedLast(live, i), c, extract) ==
          FinalEntry(prev, registry, MovedLast(live, j), c, extract);
        RefreshedShows(Shown(x.tool, extract), Shown(y.tool, extract), KeptRef(prev, c, registry[c]));
      }
    }
  }

  ghost predicate UniqueKeys(live: seq<Live>) {
    forall i, j | 0 <= i < |live| && 0 <= j < |live| && live[i].key == live[j].key :: i == j
  }

  lemma LiveOfSnoc(servers: seq<Server>, s: Server)
    ensures LiveOf(servers + [s]) == LiveOf(servers) + Listed(s)
  {
    assert (servers + [s])[..|servers|] == servers;
  }

  lemma {:induction false} LiveOfConcat(a: seq<Server>, b: seq<Server>)
    ensures LiveOf(a + b) == LiveOf(a) + LiveOf(b)
    decreases |b|, 1
  {
    if b == [] {
      assert a + b == a;
    } else {
      LiveOfConcatSnoc(a, b, b[..|b| - 1], b[|b| - 1]);
    }
  }

  lemma {:induction false} LiveOfConcatSnoc(a: seq<Server>, b: seq<Server>, rest: seq<Server>, last: Server)
    requires b == rest + [last]
    ensures LiveOf(a + b) == LiveOf(a) + LiveOf(b)
    decreases |b|, 0
  {
    LiveOfConcat(a, rest);
    ConcatAssociates(a, rest, [last]);
    ConcatAssociates(LiveOf(a), LiveOf(rest), Listed(last));
    calc {
      LiveOf(a + b);
      LiveOf((a + rest) + [last]);
      { LiveOfSnoc(a + rest, last); }
      LiveOf(a + rest) + Listed(last);
      LiveOf(a) + (LiveOf(rest) + Listed(last));
      { LiveOfSnoc(rest, last); }
      LiveOf(a) + LiveOf(b);
    }
  }

  lemma ServerAnywhere(a: seq<Server>, s: Server, b: seq<Server>)
    ensures multiset(LiveOf(a + [s] + b)) == multiset(LiveOf(a + b)) + multiset(Listed(s))
  {
    LiveOfConcat(a + [s], b);
    LiveOfConcat(a, [s]);
    LiveOfConcat(a, b);
    assert LiveOf([s]) == Listed(s);
  }

  /** Asking the servers in another order lists the same tools. */
  lemma {:induction false} ServerOrderKeepsTools(servers: seq<Server>, other: seq<Server>)
    requires multiset(servers) == multiset(other)
    ensures multiset(LiveOf(servers)) == multiset(LiveOf(other))
    decreases |servers|
  {
    assert |multiset(servers)| == |servers| && |multiset(other)| == |other|;
    if servers != [] {
      var last := |servers| - 1;
      var a, b := TakenOut(servers, other);
      ServerAnywhere(a, servers[last], b);
      ServerOrderKeepsTools(servers[..last], a + b);
    }
  }

  /** With unique live keys, the snapshot is the same whatever the order of the servers. */
  lemma ServersInAnyOrder(prev: Snapshot, registry: Registry, servers: seq<Server>, other: seq<Server>,
      extract: Value -> Value)
    requires multiset(servers) == multiset(other) && UniqueKeys(LiveOf(servers))
    ensures SameOutcome(prev, registry, LiveOf(servers), LiveOf(other), extract)
  {
    ServerOrderKeepsTools(servers, other);
    forall c, x, y | c in registry && x in LiveOf(servers) && y in LiveOf(servers)
      && x.key == Feeder(prev, registry, c) && y.key == Feeder(prev, registry, c)
      ensures Shown(x.tool, extract) == Shown(y.tool, extract)
    {
    }
    OrderIndependentIff(prev, registry, LiveOf(servers), extract);
  }

  ghost predicate DotFree(s: string) {
    forall k | 0 <= k < |s| :: s[k] != '.'
  }

  /** The place of the first dot. */
  function FirstDot(path: string): nat
    requires !DotFree(path)
    ensures FirstDot(path) < |path| && path[FirstDot(path)] == '.' && DotFree(path[..FirstDot(path)])
  {
    if path[0] == '.' then 0
    else
      assert !DotFree(path[1..]) by {
        var k :| 0 <= k < |path| && path[k] == '.';
        assert path[1..][k - 1] == '.';
      }
      assert forall k | 0 < k < 1 + FirstDot(path[1..]) :: path[k] == path[1..][..FirstDot(path[1..])][k - 1];
      1 + FirstDot(path[1..])
  }

  // Which server ids share live keys

  /** A name as the merge uses it: trimmed and not blank. */
  predicate ToolName(name: string) {
    name != "" && TrimSpace(name) == name
  }

  /** One id goes on from another behind a dot, as a tool name could. */
  predicate Extends(longer: string, id: string) {
    HasPrefix(longer, id + ".") && (|longer| == |id| + 1 || !IsSpace(longer[|id| + 1]))
  }

  lemma ToolNameEnds(name: string)
    requires name != ""
    ensures ToolName(name) <==> !IsSpace(name[0]) && !IsSpace(name[|name| - 1])
  {
    TrimLeftStarts(name);
    TrimRightEnds(TrimLeft(name));
    if !IsSpace(name[0]) && !IsSpace(name[|name| - 1]) {
      assert TrimLeft(name) == name;
    }
  }

  /** Two pairs with one live key: the longer id extends the shorter one. */
  lemma SharedKeyExtends(id: string, name: string, other: string, name': string)
    requires ToolName(name) && LiveKey(id, name) == LiveKey(other, name') && |id| < |other|
    ensures Extends(other, id)
  {
    var key := LiveKey(id, name);
    assert other == key[..|other|];
    assert other[0..|id| + 1] == key[..|id| + 1] == id + ".";
    ToolNameEnds(name);
    assert key[|id| + 1] == name[0];
  }

  lemma ExtensionShares(id: string, other: string)
    requires Extends(other, id)
    ensures exists name, name' :: ToolName(name) && ToolName(name') && LiveKey(id, name) == LiveKey(other, name')
  {
    var rest := other[|id| + 1..];
    var name := rest + ".x";
    PrefixChars(other, id + ".");
    assert other == id + "." + rest;
    ToolNameEnds(name);
    ToolNameEnds("x");
    assert LiveKey(id, name) == LiveKey(other, "x");
  }

  /** Tools of two servers can share a live key if and only if one id extends the other. */
  lemma IdsShareKeysIff(id: string, other: string)
    requires id != other
    ensures (exists name, name' :: ToolName(name) && ToolName(name') && LiveKey(id, name) == LiveKey(other, name')) <==>
            Extends(other, id) || Extends(id, other)
  {
    if name, name' :| ToolName(name) && ToolName(name') && LiveKey(id, name) == LiveKey(other, name') {
      var key := LiveKey(id, name);
      assert id == key[..|id|] && other == key[..|other|];
      if |id| < |other| {
        SharedKeyExtends(id, name, other, name');
      } else {
        assert |id| != |other|;
        SharedKeyExtends(other, name', id, name);
      }
    }
    if Extends(other, id) {
      ExtensionShares(id, other);
    }
    if Extends(id, other) {
      ExtensionShares(other, id);
      var name, name' :| ToolName(name) && ToolName(name') && LiveKey(other, name) == LiveKey(id, name');
      assert LiveKey(id, name') == LiveKey(other, name);
    }
  }

  /** An id that extends another: different tools, one live key. */
  lemma DottedIdsCollide()
    ensures Extends("a.b", "a") && LiveKey("a", "b.c") == LiveKey("a.b", "c")
  {
    assert "a.b"[0..2] == "a" + ".";
    assert LiveKey("a", "b.c") == "a.b.c" == LiveKey("a.b", "c");
  }

  /** Who lists what, in the order of Named and LiveOf. */
  function NamedPairs(id: string, tools: seq<Tool>): seq<(string, string)> {
    if tools == [] then []
    else
      var name := TrimSpace(tools[|tools| - 1].name);
      NamedPairs(id, tools[..|tools| - 1]) + if name == "" then [] else [(id, name)]
  }

  function PairsOf(servers: seq<Server>): seq<(string, string)> {
    if servers == [] then []
    else
      var last := servers[|servers| - 1];
      PairsOf(servers[..|servers| - 1]) + if Answered(last) then NamedPairs(last.id, last.answer.value) else []
  }

  ghost predicate PairsMatch(live: seq<Live>, pairs: seq<(string, string)>, ids: set<string>) {
    && |live| == |pairs|
    && forall i | 0 <= i < |live| ::
         live[i].key == LiveKey(pairs[i].0, pairs[i].1) && ToolName(pairs[i].1) && pairs[i].0 in ids
  }

  lemma PairsMatchConcat(a: seq<Live>, p: seq<(string, string)>, b: seq<Live>, q: seq<(string, string)>,
      ids: set<string>)
    requires PairsMatch(a, p, ids) && PairsMatch(b, q, ids)
    ensures PairsMatch(a + b, p + q, ids)
  {
  }

  lemma {:induction false} NamedPairsMatch(id: string, tools: seq<Tool>, ids: set<string>)
    requires id in ids
    ensures PairsMatch(Named(id, tools), NamedPairs(id, tools), ids)
  {
    if tools != [] {
      var rest, last := tools[..|tools| - 1], tools[|tools| - 1];
      var name := TrimSpace(last.name);
      NamedPairsMatch(id, rest, ids);
      TrimSpaceIdempotent(last.name);
      if name != "" {
        PairsMatchConcat(Named(id, rest), NamedPairs(id, rest), [Live(LiveKey(id, name), last)], [(id, name)], ids);
      } else {
        PairsMatchConcat(Named(id, rest), NamedPairs(id, rest), [], [], ids);
      }
    }
  }

  function IdsOf(servers: seq<Server>): set<string> {
    set s | s in servers :: s.id
  }

  lemma {:induction false} PairsOfMatch(servers: seq<Server>, ids: set<string>)
    requires IdsOf(servers) <= ids
    ensures PairsMatch(LiveOf(servers), PairsOf(servers), ids)
  {
    if servers != [] {
      var rest, last := servers[..|servers| - 1], servers[|servers| - 1];
      assert forall s | s in rest :: s in servers;
      assert last.id in IdsOf(servers);
      PairsOfMatch(rest, ids);
      if Answered(last) {
        NamedPairsMatch(last.id, last.answer.value, ids);
        PairsMatchConcat(LiveOf(rest), PairsOf(rest), Listed(last), NamedPairs(last.id, last.answer.value), ids);
      } else {
        PairsMatchConcat(LiveOf(rest), PairsOf(rest), [], [], ids);
      }
    }
  }

  ghost predicate UniquePairs(pairs: seq<(string, string)>) {
    forall i, j | 0 <= i < |pairs| && 0 <= j < |pairs| && pairs[i] == pairs[j] :: i == j
  }

  /** No id of the servers extends another. */
  ghost predicate NoneExtends(ids: set<string>) {
    forall id, other | id in ids && other in ids :: !Extends(id, other)
  }

  lemma SharedKeyIsSamePair(id: string, name: string, other: string, name': string)
    requires ToolName(name) && ToolName(name') && LiveKey(id, name) == LiveKey(other, name')
    requires !Extends(id, other) && !Extends(other, id)
    ensures id == other && name == name'
  {
    var key := LiveKey(id, name);
    if id != other {
      IdsShareKeysIff(id, other);
    }
    assert name == key[|id| + 1..] && name' == key[|other| + 1..];
  }

  /** If no id extends another, unique pairs of server and tool give unique live keys. */
  lemma UniquePairsGiveUniqueKeys(servers: seq<Server>)
    requires UniquePairs(PairsOf(servers)) && NoneExtends(IdsOf(servers))
    ensures UniqueKeys(LiveOf(servers))
  {
    var live, pairs := LiveOf(servers), PairsOf(servers);
    PairsOfMatch(servers, IdsOf(servers));
    forall i, j | 0 <= i < |live| && 0 <= j < |live| && live[i].key == live[j].key
      ensures i == j
    {
      SharedKeyIsSamePair(pairs[i].0, pairs[i].1, pairs[j].0, pairs[j].1);
      assert pairs[i] == pairs[j];
    }
  }

  /** Servers that each list their tools once, under ids of which none extends another,
      give the same snapshot in any order. */
  lemma UniqueToolsInAnyOrder(prev: Snapshot, registry: Registry, servers: seq<Server>, other: seq<Server>,
      extract: Value -> Value)
    requires multiset(servers) == multiset(other)
    requires UniquePairs(PairsOf(servers)) && NoneExtends(IdsOf(servers))
    ensures SameOutcome(prev, registry, LiveOf(servers), LiveOf(other), extract)
  {
    UniquePairsGiveUniqueKeys(servers);
    ServersInAnyOrder(prev, registry, servers, other, extract);
  }

  // Running again on the own output

  /** Every interface_ref of the registry names its own canonical, or no complete one. */
  ghost predicate NamesItself(registry: Registry) {
    forall c | c in registry :: var key := NamedKey(RefValue(registry[c])); key == None || key == Some(c)
  }

  /** The interface_ref the registry derives from a canonical path. */
  function RefOf(path: string): map<string, string>
    requires !DotFree(path)
  {
    map["product_id" := path[..FirstDot(path)], "rpc_name" := path[FirstDot(path) + 1..]]
  }

  /** A registry made from canonical paths names itself. */
  lemma DerivedRegistryNamesItself(registry: Registry)
    requires forall path | path in registry :: !DotFree(path) && registry[path] == RefOf(path)
    ensures NamesItself(registry)
  {
    forall c | c in registry
      ensures var key := NamedKey(RefValue(registry[c])); key == None || key == Some(c)
    {
      var i := FirstDot(c);
      var fields := RefValue(RefOf(c)).fields;
      assert Text(fields, "product_id") == c[..i] && Text(fields, "rpc_name") == c[i + 1..];
      assert c == LiveKey(c[..i], c[i + 1..]);
    }
  }

  lemma FinalKeepsFeeder(prev: Snapshot, registry: Registry, live: seq<Live>, table: Snapshot, c: string,
      extract: Value -> Value)
    requires NamesItself(registry) && c in registry
    requires Lookup(table, c) == FinalEntry(prev, registry, live, c, extract)
    ensures Feeder(table, registry, c) == Feeder(prev, registry, c)
  {
    match LastWith(live, Feeder(prev, registry, c)) {
      case None =>
        if c !in prev {
          assert ReviewedRef(Stub(registry[c])) == Some(RefValue(registry[c]));
        }
      case Some(tool) => KeptRefIsReviewed(prev, c, registry[c], Shown(tool, extract));
    }
  }

  /** Running again on the own output with the same servers changes nothing. */
  lemma RerunIsStable(prev: Snapshot, registry: Registry, live: seq<Live>, table: Snapshot, extract: Value -> Value)
    requires NamesItself(registry) && Finished(table, prev, registry, live, extract)
    ensures Finished(table, table, registry, live, extract)
  {
    forall c
      ensures Lookup(table, c) == FinalEntry(table, registry, live, c, extract)
    {
      assert Lookup(table, c) == FinalEntry(prev, registry, live, c, extract);
      if c in registry {
        FinalKeepsFeeder(prev, registry, live, table, c, extract);
        match LastWith(live, Feeder(prev, registry, c)) {
          case None =>
          case Some(tool) => KeptRefIsReviewed(prev, c, registry[c], Shown(tool, extract));
        }
      }
    }
  }

  // The coverage report

  datatype Coverage = Coverage(sourceServices: nat, snapshotServices: int, missing: seq<string>, sourceTools: nat,
    surfaceTools: nat, matchedTools: int, unmatchedTools: nat)

  function BuildCoverage(services: nat, failed: seq<string>, sourceTools: nat, surfaceTools: nat, stubs: nat): Coverage
  {
    Coverage(services, services - |failed|, failed, sourceTools, surfaceTools, surfaceTools - stubs, stubs)
  }

  function AnsweredCount(servers: seq<Server>): nat {
    if servers == [] then 0
    else AnsweredCount(servers[..|servers| - 1]) + if Answered(servers[|servers| - 1]) then 1 else 0
  }

  function BlankCount(servers: seq<Server>): nat {
    if servers == [] then 0
    else BlankCount(servers[..|servers| - 1]) + if Blank(servers[|servers| - 1].endpoint) then 1 else 0
  }

  /** The services a report counts as covered are those that answered and, besides, those
      without an endpoint, which were never asked. */
  lemma {:induction false} CoverageCountsBlanks(servers: seq<Server>, sourceTools: nat, surfaceTools: nat, stubs: nat)
    ensures BuildCoverage(|servers|, FailedIds(servers), sourceTools, surfaceTools, stubs).snapshotServices ==
            AnsweredCount(servers) + BlankCount(servers)
  {
    if servers != [] {
      CoverageCountsBlanks(servers[..|servers| - 1], sourceTools, surfaceTools, stubs);
    }
  }

  /** A server without an endpoint is never asked and counts as covered. */
  lemma BlankServerCounts()
    ensures
      var servers := [Server("s", "", None)];
      AnsweredCount(servers) == 0 && BuildCoverage(1, FailedIds(servers), 0, 0, 0).snapshotServices == 1
  {
    var servers := [Server("s", "", None)];
    assert Blank("") && servers[..0] == [];
  }

  lemma GapsAreInTable(prev: Snapshot, registry: Registry, live: seq<Live>, table: Snapshot, extract: Value -> Value)
    requires Finished(table, prev, registry, live, extract)
    ensures Gaps(prev, registry, live) <= registry.Keys <= table.Keys
    ensures Gaps(table, registry, live) == {}
  {
    forall c | c in registry
      ensures c in table
    {
      assert Lookup(table, c) == FinalEntry(prev, registry, live, c, extract);
    }
  }

  /** The report counts as matched exactly the canonicals that are not gaps; but a stub of
      one run counts as matched in the next run on its output. */
  lemma CoverageCountsStubs(prev: Snapshot, registry: Registry, live: seq<Live>, table: Snapshot,
      extract: Value -> Value, services: nat, failed: seq<string>, sourceTools: nat)
    requires Finished(table, prev, registry, live, extract)
    ensures BuildCoverage(services, failed, sourceTools, |table|, |Gaps(prev, registry, live)|).matchedTools ==
            |table.Keys - Gaps(prev, registry, live)|
    ensures BuildCoverage(services, failed, sourceTools, |table|, |Gaps(table, registry, live)|).matchedTools == |table|
  {
    GapsAreInTable(prev, registry, live, table, extract);
    SplitSize(table.Keys, Gaps(prev, registry, live));
    assert |table.Keys| == |table|;
  }

  lemma SplitSize(all: set<string>, part: set<string>)
    requires part <= all
    ensures |all| == |all - part| + |part|
  {
    assert all == (all - part) + part;
  }

  /** An entry that carries nothing but an interface_ref. */
  predicate IsStub(entry: Entry) {
    entry.Entry? && entry.fields.Keys == {REF_FIELD}
  }

  /** The entries that carry more. */
  ghost function Described(table: Snapshot): set<string> {
    set c | c in table && !IsStub(table[c])
  }

  /** The stubs of the previous snapshot that no listed tool refreshes. */
  ghost function KeptStubs(prev: Snapshot, registry: Registry, live: seq<Live>): set<string> {
    set c | c in prev && IsStub(prev[c]) && !(c in registry && LastWith(live, Feeder(prev, registry, c)).Some?)
  }

  /** The entries that are no stubs are those that are neither gaps nor kept stubs. */
  lemma DescribedAreTheRest(prev: Snapshot, registry: Registry, live: seq<Live>, table: Snapshot,
      extract: Value -> Value)
    requires Finished(table, prev, registry, live, extract)
    ensures KeptStubs(prev, registry, live) <= table.Keys - Gaps(prev, registry, live)
    ensures Described(table) == table.Keys - Gaps(prev, registry, live) - KeptStubs(prev, registry, live)
  {
    var gaps, kept := Gaps(prev, registry, live), KeptStubs(prev, registry, live);
    forall c
      ensures c in kept ==> c in table && c !in gaps
      ensures c in Described(table) <==> c in table && c !in gaps && c !in kept
    {
      assert Lookup(table, c) == FinalEntry(prev, registry, live, c, extract);
      if c in registry && LastWith(live, Feeder(prev, registry, c)).Some? {
        var tool := LastWith(live, Feeder(prev, registry, c)).value;
        RefreshedIsNoStub(Shown(tool, extract), KeptRef(prev, c, registry[c]));
      }
    }
  }

  lemma RefreshedIsNoStub(shown: (string, string, Option<Value>), ref: Value)
    ensures !IsStub(Refreshed(shown, ref))
  {
    assert "title" in Refreshed(shown, ref).fields;
  }

  /** The report counts as matched the entries that are no stubs and, besides, the stubs of
      the previous snapshot that no listed tool refreshes. */
  lemma MatchedCountsKeptStubs(prev: Snapshot, registry: Registry, live: seq<Live>, table: Snapshot,
      extract: Value -> Value, services: nat, failed: seq<string>, sourceTools: nat)
    requires Finished(table, prev, registry, live, extract)
    ensures BuildCoverage(services, failed, sourceTools, |table|, |Gaps(prev, registry, live)|).matchedTools ==
            |Described(table)| + |KeptStubs(prev, registry, live)|
  {
    CoverageCountsStubs(prev, registry, live, table, extract, services, failed, sourceTools);
    DescribedAreTheRest(prev, registry, live, table, extract);
    SplitSize(table.Keys - Gaps(prev, registry, live), KeptStubs(prev, registry, live));
  }

  /** The report leaves the stubs out of the matched tools if and only if every stub of the
      previous snapshot is fed by a tool listed now. */
  lemma MatchedExcludesStubsIff(prev: Snapshot, registry: Registry, live: seq<Live>, table: Snapshot,
      extract: Value -> Value, services: nat, failed: seq<string>, sourceTools: nat)
    requires Finished(table, prev, registry, live, extract)
    ensures
      BuildCoverage(services, failed, sourceTools, |table|, |Gaps(prev, registry, live)|).matchedTools ==
      |set c | c in table && !IsStub(table[c])|
      <==>
      forall c | c in prev && IsStub(prev[c]) :: c in registry && LastWith(live, Feeder(prev, registry, c)).Some?
  {
    MatchedCountsKeptStubs(prev, registry, live, table, extract, services, failed, sourceTools);
    assert Described(table) == set c | c in table && !IsStub(table[c]);
    var kept := KeptStubs(prev, registry, live);
    if kept != {} {
      var c :| c in kept;
      assert c in prev && IsStub(prev[c]);
    } else {
      forall c | c in prev && IsStub(prev[c])
        ensures c in registry && LastWith(live, Feeder(prev, registry, c)).Some?
      {
        assert c !in kept;
      }
    }
  }

  /** A registry of one canonical and no servers: its stub is unmatched in the first run
      and matched in the next. */
  lemma StubCountsAsMatched(ref: map<string, string>, extract: Value -> Value)
    ensures
      var registry: Registry, table: Snapshot := map["a" := ref], map["a" := Stub(ref)];
      && Finished(table, map[], registry, [], extract)
      && BuildCoverage(0, [], 0, |table|, |Gaps(map[], registry, [])|).matchedTools == 0
      && BuildCoverage(0, [], 0, |table|, |Gaps(table, registry, [])|).matchedTools == 1
  {
    var registry: Registry, table: Snapshot := map["a" := ref], map["a" := Stub(ref)];
    assert Gaps(map[], registry, []) == {"a"};
    assert Gaps(table, registry, []) == {};
    assert table.Keys == {"a"} && |table| == |table.Keys|;
  }

  /** A server is reported as failed exactly if it has an endpoint and its call failed. */
  lemma {:induction false} FailedIdsAre(servers: seq<Server>, id: string)
    ensures id in FailedIds(servers) <==>
              exists s | s in servers :: s.id == id && TrimSpace(s.endpoint) != "" && s.answer == None
  {
    if servers != [] {
      var rest, last := servers[..|servers| - 1], servers[|servers| - 1];
      assert servers == rest + [last];
      FailedIdsAre(rest, id);
    }
  }
}
