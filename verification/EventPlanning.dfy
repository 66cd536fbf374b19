/** From the event keys of a command to one plan per event
    (internal/app/event_personal_command.go). The catalogue of event definitions and the
    checks of subscription rules and filters are arguments. */
module EventPlanning {
  import opened Collections
  import opened GoStrings

  // The distinct keys

  /** The distinct trimmed keys that are not blank, in the order they first appear. */
  function DistinctKeys(values: seq<string>): (keys: seq<string>) {
    if values == [] then []
    else
      var keys := DistinctKeys(values[..|values| - 1]);
      var key := TrimSpace(values[|values| - 1]);
      if key == "" || key in keys then keys else keys + [key]
  }

  method DedupeKeys(values: seq<string>) returns (out: seq<string>)
    ensures out == DistinctKeys(values)
  {
    out := [];
    var seen: set<string> := {};
    for i := 0 to |values|
      invariant out == DistinctKeys(values[..i])
      invariant forall key :: key in seen <==> key in out
    {
      assert values[..i + 1][..i] == values[..i];
      var value := TrimSpace(values[i]);
      if value == "" {
        continue;
      }
      if value in seen {
        continue;
      }
      seen := seen + {value};
      out := out + [value];
    }
    assert values[..|values|] == values;
  }

  /** The first place where a key appears among the values, or their number. */
  function FirstPlace(values: seq<string>, key: string): nat
    ensures FirstPlace(values, key) <= |values|
  {
    if values == [] then 0
    else
      var place := FirstPlace(values[..|values| - 1], key);
      if place < |values| - 1 || TrimSpace(values[|values| - 1]) == key then place else |values|
  }

  predicate Appears(values: seq<string>, key: string) {
    exists i | 0 <= i < |values| :: TrimSpace(values[i]) == key
  }

  /** What deduplication promises: exactly the keys that appear, in the order of their
      first places. */
  ghost predicate Deduplicates(keys: seq<string>, values: seq<string>) {
    && (forall key :: key in keys <==> key != "" && Appears(values, key))
    && (forall i, j | 0 <= i < j < |keys| :: FirstPlace(values, keys[i]) < FirstPlace(values, keys[j]))
  }

  lemma {:induction false} FirstPlaceIsFirst(values: seq<string>, key: string)
    ensures
      var place := FirstPlace(values, key);
      && (place < |values| <==> Appears(values, key))
      && (place < |values| ==> TrimSpace(values[place]) == key)
      && (forall i | 0 <= i < place :: TrimSpace(values[i]) != key)
  {
    if values != [] {
      var last := |values| - 1;
      FirstPlaceIsFirst(values[..last], key);
      assert forall i | 0 <= i < last :: values[..last][i] == values[i];
      if FirstPlace(values[..last], key) == last && TrimSpace(values[last]) != key {
        assert !Appears(values, key);
      }
    }
  }

  /** Deduplication keeps its promise. */
  lemma {:induction false} DistinctKeysDeduplicate(values: seq<string>)
    ensures Deduplicates(DistinctKeys(values), values)
  {
    if values != [] {
      var last := |values| - 1;
      var rest, key := values[..last], TrimSpace(values[last]);
      DistinctKeysDeduplicate(rest);
      assert values == rest + [values[last]];
      forall k
        ensures Appears(values, k) <==> Appears(rest, k) || k == key
      {
        AppearsOneMore(rest, values[last], k);
      }
      forall k | Appears(rest, k)
        ensures FirstPlace(values, k) == FirstPlace(rest, k) < last
      {
        FirstPlaceIsFirst(rest, k);
      }
      if key != "" && key !in DistinctKeys(rest) {
        FirstPlaceIsFirst(rest, key);
        assert FirstPlace(values, key) == last;
      }
    }
  }

  lemma AppearsOneMore(values: seq<string>, value: string, key: string)
    ensures Appears(values + [value], key) <==> Appears(values, key) || TrimSpace(value) == key
  {
    var more := values + [value];
    if Appears(values, key) {
      var i :| 0 <= i < |values| && TrimSpace(values[i]) == key;
      assert TrimSpace(more[i]) == key;
    }
    if TrimSpace(value) == key {
      assert TrimSpace(more[|values|]) == key;
    }
    if Appears(more, key) {
      var i :| 0 <= i < |more| && TrimSpace(more[i]) == key;
      assert i < |values| ==> TrimSpace(values[i]) == key;
    }
  }

  ghost predicate Ascending(places: seq<nat>) {
    forall i, j | 0 <= i < j < |places| :: places[i] < places[j]
  }

  lemma SameLast(a: seq<nat>, b: seq<nat>)
    requires a != [] && b != [] && Ascending(a) && Ascending(b) && forall n :: n in a <==> n in b
    ensures a[|a| - 1] == b[|b| - 1]
  {
    assert a[|a| - 1] in b && b[|b| - 1] in a;
  }

  lemma {:induction false} SameAscending(a: seq<nat>, b: seq<nat>)
    requires Ascending(a) && Ascending(b) && forall n :: n in a <==> n in b
    ensures a == b
  {
    assert a != [] ==> a[0] in b;
    assert b != [] ==> b[0] in a;
    if a != [] {
      SameLast(a, b);
      var m, n := |a| - 1, |b| - 1;
      forall k
        ensures k in a[..m] <==> k in b[..n]
      {
        assert k in a[..m] <==> k in a && k != a[m];
        assert k in b[..n] <==> k in b && k != b[n];
      }
      SameAscending(a[..m], b[..n]);
      assert a == a[..m] + [a[m]] && b == b[..n] + [b[n]];
    }
  }

  function PlacesOf(keys: seq<string>, values: seq<string>): (places: seq<nat>)
    ensures |places| == |keys|
    ensures forall i | 0 <= i < |keys| :: places[i] == FirstPlace(values, keys[i])
  {
    seq(|keys|, i requires 0 <= i < |keys| => FirstPlace(values, keys[i]))
  }

  /** Nothing else keeps that promise: it determines the result. */
  lemma OnlyDistinctKeysDeduplicate(keys: seq<string>, values: seq<string>)
    requires Deduplicates(keys, values)
    ensures keys == DistinctKeys(values)
  {
    var other := DistinctKeys(values);
    DistinctKeysDeduplicate(values);
    var a, b := PlacesOf(keys, values), PlacesOf(other, values);
    SamePlaces(keys, other, values);
    SameAscending(a, b);
    forall i | 0 <= i < |keys|
      ensures keys[i] == other[i]
    {
      assert keys[i] in keys && other[i] in other;
      FirstPlaceIsFirst(values, keys[i]);
      FirstPlaceIsFirst(values, other[i]);
      assert a[i] == b[i];
    }
  }

  lemma SamePlaces(keys: seq<string>, other: seq<string>, values: seq<string>)
    requires forall key :: key in keys <==> key in other
    ensures forall n :: n in PlacesOf(keys, values) <==> n in PlacesOf(other, values)
  {
    PlacesWithin(keys, other, values);
    PlacesWithin(other, keys, values);
  }

  lemma PlacesWithin(keys: seq<string>, other: seq<string>, values: seq<string>)
    requires forall key | key in keys :: key in other
    ensures forall n | n in PlacesOf(keys, values) :: n in PlacesOf(other, values)
  {
    forall n | n in PlacesOf(keys, values)
      ensures n in PlacesOf(other, values)
    {
      var i :| 0 <= i < |keys| && PlacesOf(keys, values)[i] == n;
      assert keys[i] in other;
      var j :| 0 <= j < |other| && other[j] == keys[i];
      assert PlacesOf(other, values)[j] == n;
    }
  }

  lemma {:induction false} AlreadyDistinct(keys: seq<string>)
    requires forall i | 0 <= i < |keys| :: TrimSpace(keys[i]) == keys[i] && keys[i] != ""
    requires forall i, j | 0 <= i < j < |keys| :: keys[i] != keys[j]
    ensures DistinctKeys(keys) == keys
  {
    if keys != [] {
      var last := |keys| - 1;
      AlreadyDistinct(keys[..last]);
      assert keys == keys[..last] + [keys[last]];
      assert keys[last] !in keys[..last];
    }
  }

  /** Deduplicating twice is deduplicating once. */
  lemma DistinctKeysIdempotent(values: seq<string>)
    ensures DistinctKeys(DistinctKeys(values)) == DistinctKeys(values)
  {
    var keys := DistinctKeys(values);
    DistinctKeysDeduplicate(values);
    forall i | 0 <= i < |keys|
      ensures TrimSpace(keys[i]) == keys[i] && keys[i] != ""
    {
      KeyIsTrimmed(values, keys, i);
    }
    AlreadyDistinct(keys);
  }

  lemma KeyIsTrimmed(values: seq<string>, keys: seq<string>, i: nat)
    requires Deduplicates(keys, values) && i < |keys|
    ensures TrimSpace(keys[i]) == keys[i] && keys[i] != ""
  {
    assert keys[i] in keys;
    var j :| 0 <= j < |values| && TrimSpace(values[j]) == keys[i];
    TrimSpaceIdempotent(values[j]);
  }

  // The plans

  /** The options of one consume command, or of one planned event. */
  datatype ConsumeOptions = ConsumeOptions(
    eventKey: string,
    eventKeys: seq<string>,
    userId: string,
    openId: string,
    groupId: string,
    queryCsv: string,
    filterJson: string,
    roleTypes: seq<string>,
    single: SingleOnly)

  /** The options only a command for a single event may use. */
  datatype SingleOnly = SingleOnly(subscribeId: string, rule: string, eventTypes: seq<string>, filter: string,
    foreground: bool, force: bool, debugRaw: bool)

  datatype Definition = Definition(ruleType: string, category: string, isPublic: bool)

  /** The event definitions, the events that take message filters, and the checks of
      rules and of filters. */
  datatype Catalogue = Catalogue(
    definition: string -> Option<Definition>,
    takesFilter: string -> bool,
    acceptsRule: ConsumeOptions -> bool,
    acceptsFilter: (string, string) -> bool)

  datatype Refusal =
    | SingleEventOnly
    | TooFewKeys
    | UnknownEvent(key: string)
    | NotPublic(key: string)
    | UnsupportedOptions(key: string)
    | FilterUnsupported(key: string)
    | MixedScopes
    | WrongTarget
    | RuleRejected(key: string)

  datatype Planning = Refused(why: Refusal) | Planned(plans: seq<ConsumeOptions>)

  predicate UserScoped(d: Definition) {
    d.ruleType == "singleChat" || d.ruleType == "sender"
  }

  predicate GroupScoped(d: Definition) {
    d.ruleType == "group"
  }

  predicate Untargeted(d: Definition) {
    d.ruleType == "at" || d.ruleType == "all"
  }

  predicate UsesSingleOnly(s: SingleOnly) {
    || !Blank(s.subscribeId) || !Blank(s.rule) || s.eventTypes != [] || !Blank(s.filter)
    || s.foreground || s.force || s.debugRaw
  }

  predicate UsesTarget(opts: ConsumeOptions) {
    !Blank(opts.userId) || !Blank(opts.openId) || !Blank(opts.groupId)
  }

  predicate UsesFilter(opts: ConsumeOptions) {
    !Blank(opts.queryCsv) || !Blank(opts.filterJson)
  }

  /** OA and VoIP events take no targets, filters or role types, Todo events no targets or
      filters. */
  predicate OptionsSupported(key: string, opts: ConsumeOptions, cat: Catalogue) {
    match cat.definition(TrimSpace(key))
    case None => true
    case Some(d) =>
      && (d.category == "oa" || d.category == "voip" ==> !UsesTarget(opts) && !UsesFilter(opts) && opts.roleTypes == [])
      && (d.category == "todo" ==> !UsesTarget(opts) && !UsesFilter(opts))
  }

  predicate KeyAllowed(key: string, opts: ConsumeOptions, cat: Catalogue) {
    && cat.definition(key).Some?
    && cat.definition(key).value.isPublic
    && OptionsSupported(key, opts, cat)
    && (UsesFilter(opts) ==> cat.takesFilter(key))
  }

  predicate AllAllowed(keys: seq<string>, opts: ConsumeOptions, cat: Catalogue) {
    forall i | 0 <= i < |keys| :: KeyAllowed(keys[i], opts, cat)
  }

  predicate AnyUser(keys: seq<string>, cat: Catalogue) {
    exists i | 0 <= i < |keys| :: cat.definition(keys[i]).Some? && UserScoped(cat.definition(keys[i]).value)
  }

  predicate AnyGroup(keys: seq<string>, cat: Catalogue) {
    exists i | 0 <= i < |keys| :: cat.definition(keys[i]).Some? && GroupScoped(cat.definition(keys[i]).value)
  }

  /** The targets fit the scopes: one user where a user is needed, a group where a group
      is, and nothing else. */
  predicate TargetsFit(opts: ConsumeOptions, user: bool, group: bool) {
    && !(user && group)
    && !(!Blank(opts.userId) && !Blank(opts.openId))
    && (user <==> !Blank(opts.userId) || !Blank(opts.openId))
    && (group <==> !Blank(opts.groupId))
  }

  /** The plan for one event: the options without the targets it does not use. */
  function PlanFor(key: string, opts: ConsumeOptions, cat: Catalogue): ConsumeOptions {
    var plan := opts.(eventKey := key, eventKeys := []);
    match cat.definition(key)
    case None => plan
    case Some(d) =>
      if Untargeted(d) then plan.(userId := "", openId := "", groupId := "")
      else if UserScoped(d) then plan.(groupId := "")
      else if GroupScoped(d) then plan.(userId := "", openId := "")
      else plan
  }

  predicate PlanAccepted(key: string, opts: ConsumeOptions, cat: Catalogue) {
    cat.acceptsRule(PlanFor(key, opts, cat)) && cat.acceptsFilter(opts.filterJson, opts.queryCsv)
  }

  predicate AllAccepted(keys: seq<string>, opts: ConsumeOptions, cat: Catalogue) {
    forall i | 0 <= i < |keys| :: PlanAccepted(keys[i], opts, cat)
  }

  /** What a command for several events needs. */
  ghost predicate Plannable(opts: ConsumeOptions, cat: Catalogue) {
    var keys := DistinctKeys(opts.eventKeys);
    && !UsesSingleOnly(opts.single)
    && |keys| >= 2
    && AllAllowed(keys, opts, cat)
    && TargetsFit(opts, AnyUser(keys, cat), AnyGroup(keys, cat))
    && AllAccepted(keys, opts, cat)
  }

  predicate OnePlanEach(plans: seq<ConsumeOptions>, keys: seq<string>, opts: ConsumeOptions, cat: Catalogue) {
    |plans| == |keys| && forall i | 0 <= i < |keys| :: plans[i] == PlanFor(keys[i], opts, cat)
  }

  method CheckKey(key: string, opts: ConsumeOptions, cat: Catalogue) returns (why: Option<Refusal>)
    ensures why.None? <==> KeyAllowed(key, opts, cat)
    ensures why.Some? ==> RefusesKey(why.value, key, opts, cat)
  {
    var def := cat.definition(key);
    if def.None? {
      return Some(UnknownEvent(key));
    }
    if !def.value.isPublic {
      return Some(NotPublic(key));
    }
    if !OptionsSupported(key, opts, cat) {
      return Some(UnsupportedOptions(key));
    }
    if (!Blank(opts.queryCsv) || !Blank(opts.filterJson)) && !cat.takesFilter(key) {
      return Some(FilterUnsupported(key));
    }
    why := None;
  }

  /** The refusal names a fault of the key. */
  predicate RefusesKey(why: Refusal, key: string, opts: ConsumeOptions, cat: Catalogue) {
    match why
    case UnknownEvent(k) => k == key && cat.definition(key).None?
    case NotPublic(k) => k == key && cat.definition(key).Some? && !cat.definition(key).value.isPublic
    case UnsupportedOptions(k) => k == key && !OptionsSupported(key, opts, cat)
    case FilterUnsupported(k) => k == key && UsesFilter(opts) && !cat.takesFilter(key)
    case RuleRejected(k) => k == key && !PlanAccepted(key, opts, cat)
    case _ => false
  }

  predicate RefusesSome(why: Refusal, keys: seq<string>, opts: ConsumeOptions, cat: Catalogue) {
    exists i | 0 <= i < |keys| :: RefusesKey(why, keys[i], opts, cat)
  }

  /** Checks every key and finds out which scopes they have. */
  method CheckKeys(keys: seq<string>, opts: ConsumeOptions, cat: Catalogue)
      returns (why: Option<Refusal>, user: bool, group: bool)
    ensures why.None? <==> AllAllowed(keys, opts, cat)
    ensures why.Some? ==> RefusesSome(why.value, keys, opts, cat)
    ensures why.None? ==> (user <==> AnyUser(keys, cat)) && (group <==> AnyGroup(keys, cat))
  {
    user, group := false, false;
    for i := 0 to |keys|
      invariant forall j | 0 <= j < i :: KeyAllowed(keys[j], opts, cat)
      invariant user <==> exists j | 0 <= j < i :: UserScoped(cat.definition(keys[j]).value)
      invariant group <==> exists j | 0 <= j < i :: GroupScoped(cat.definition(keys[j]).value)
    {
      why := CheckKey(keys[i], opts, cat);
      if why.Some? {
        return;
      }
      var ruleType := cat.definition(keys[i]).value.ruleType;
      if ruleType == "singleChat" || ruleType == "sender" {
        user := true;
      } else if ruleType == "group" {
        group := true;
      }
    }
    why := None;
  }

  method CheckTargets(opts: ConsumeOptions, user: bool, group: bool) returns (why: Option<Refusal>)
    ensures why.None? <==> TargetsFit(opts, user, group)
    ensures why.Some? ==> why.value in {MixedScopes, WrongTarget} && (why.value == MixedScopes <==> user && group)
  {
    if user && group {
      return Some(MixedScopes);
    }
    var userId, openId, groupId := TrimSpace(opts.userId), TrimSpace(opts.openId), TrimSpace(opts.groupId);
    if userId != "" && openId != "" {
      return Some(WrongTarget);
    }
    if user {
      if groupId != "" || (userId == "" && openId == "") {
        return Some(WrongTarget);
      }
    } else if group {
      if userId != "" || openId != "" || groupId == "" {
        return Some(WrongTarget);
      }
    } else if userId != "" || openId != "" || groupId != "" {
      return Some(WrongTarget);
    }
    why := None;
  }

  /** Whether a refusal is deserved. */
  ghost predicate Deserved(why: Refusal, opts: ConsumeOptions, cat: Catalogue) {
    var keys := DistinctKeys(opts.eventKeys);
    match why
    case SingleEventOnly => UsesSingleOnly(opts.single)
    case TooFewKeys => |keys| < 2
    case MixedScopes => AnyUser(keys, cat) && AnyGroup(keys, cat)
    case WrongTarget => !TargetsFit(opts, AnyUser(keys, cat), AnyGroup(keys, cat))
    case _ => RefusesSome(why, keys, opts, cat)
  }

  /** Plans a command for several events: exactly the plannable ones are accepted, with
      one plan per distinct key, and every refusal is deserved. */
  method PrepareMulti(opts: ConsumeOptions, cat: Catalogue) returns (result: Planning)
    ensures result.Planned? <==> Plannable(opts, cat)
    ensures result.Planned? ==> OnePlanEach(result.plans, DistinctKeys(opts.eventKeys), opts, cat)
    ensures result.Refused? ==> Deserved(result.why, opts, cat)
  {
    if UsesSingleOnly(opts.single) {
      return Refused(SingleEventOnly);
    }
    var keys := DedupeKeys(opts.eventKeys);
    if |keys| < 2 {
      return Refused(TooFewKeys);
    }
    var why, user, group := CheckKeys(keys, opts, cat);
    if why.Some? {
      return Refused(why.value);
    }
    why := CheckTargets(opts, user, group);
    if why.Some? {
      return Refused(why.value);
    }
    var plans;
    why, plans := PlanAll(keys, opts, cat);
    if why.Some? {
      return Refused(why.value);
    }
    return Planned(plans);
  }

  /** Plans the keys one by one, checking each plan as a command of its own. */
  method PlanAll(keys: seq<string>, opts: ConsumeOptions, cat: Catalogue)
      returns (why: Option<Refusal>, plans: seq<ConsumeOptions>)
    requires AllAllowed(keys, opts, cat)
    ensures why.None? <==> AllAccepted(keys, opts, cat)
    ensures why.None? ==> OnePlanEach(plans, keys, opts, cat)
    ensures why.Some? ==> RefusesSome(why.value, keys, opts, cat)
  {
    plans := [];
    for i := 0 to |keys|
      invariant |plans| == i
      invariant forall j | 0 <= j < i :: plans[j] == PlanFor(keys[j], opts, cat)
      invariant forall j | 0 <= j < i :: PlanAccepted(keys[j], opts, cat)
    {
      var key := keys[i];
      assert KeyAllowed(key, opts, cat);
      var def := cat.definition(key).value;
      var plan := opts.(eventKey := key, eventKeys := []);
      if def.ruleType == "at" || def.ruleType == "all" {
        plan := plan.(userId := "", openId := "", groupId := "");
      } else if def.ruleType == "singleChat" || def.ruleType == "sender" {
        plan := plan.(groupId := "");
      } else if def.ruleType == "group" {
        plan := plan.(userId := "", openId := "");
      }
      PlanStaysSupported(key, opts, cat);
      if !OptionsSupported(plan.eventKey, plan, cat) || !cat.acceptsRule(plan)
        || !cat.acceptsFilter(plan.filterJson, plan.queryCsv) {
        assert RefusesKey(RuleRejected(key), keys[i], opts, cat);
        return Some(RuleRejected(key)), [];
      }
      plans := plans + [plan];
    }
    why := None;
  }

  lemma EmptyIsBlank()
    ensures Blank("")
  {
  }

  lemma PlanUsesLess(key: string, opts: ConsumeOptions, cat: Catalogue)
    ensures UsesTarget(PlanFor(key, opts, cat)) ==> UsesTarget(opts)
    ensures PlanFor(key, opts, cat).eventKey == key
    ensures UsesFilter(PlanFor(key, opts, cat)) == UsesFilter(opts)
  {
    EmptyIsBlank();
  }

  /** What is supported of the whole command is supported of each plan: the second check
      of a plan's options cannot fail. */
  lemma PlanStaysSupported(key: string, opts: ConsumeOptions, cat: Catalogue)
    requires OptionsSupported(key, opts, cat)
    ensures OptionsSupported(key, PlanFor(key, opts, cat), cat)
  {
    PlanUsesLess(key, opts, cat);
  }

  /** What each accepted plan carries: a user-scoped plan exactly one user and no group, a
      group-scoped plan a group and no user, and a plan that needs no target none. Plans
      of the two scopes are never together. */
  lemma PlansCarryTheirTargets(opts: ConsumeOptions, cat: Catalogue, i: nat, j: nat, d: Definition, e: Definition)
    requires Plannable(opts, cat) && i < |DistinctKeys(opts.eventKeys)| && j < |DistinctKeys(opts.eventKeys)|
    requires cat.definition(DistinctKeys(opts.eventKeys)[i]) == Some(d)
    requires cat.definition(DistinctKeys(opts.eventKeys)[j]) == Some(e)
    ensures !(UserScoped(d) && GroupScoped(e))
    ensures
      var plan := PlanFor(DistinctKeys(opts.eventKeys)[i], opts, cat);
      && (UserScoped(d) ==> Blank(plan.groupId) && (Blank(plan.userId) <==> !Blank(plan.openId)))
      && (GroupScoped(d) ==> plan.userId == "" && plan.openId == "" && !Blank(plan.groupId))
      && (Untargeted(d) ==> !UsesTarget(plan))
  {
    var keys := DistinctKeys(opts.eventKeys);
    EmptyIsBlank();
    assert UserScoped(d) ==> AnyUser(keys, cat);
    assert GroupScoped(d) ==> AnyGroup(keys, cat);
    assert GroupScoped(e) ==> AnyGroup(keys, cat);
  }

  /** An event takes the options of the command: OA and VoIP events no target, filter or
      role types, Todo events no target or filter, and a filter only events that take one. */
  predicate Takes(d: Definition, key: string, opts: ConsumeOptions, cat: Catalogue) {
    var bare := TrimSpace(opts.userId) == "" && TrimSpace(opts.openId) == "" && TrimSpace(opts.groupId) == ""
      && TrimSpace(opts.queryCsv) == "" && TrimSpace(opts.filterJson) == "";
    && (d.category == "oa" || d.category == "voip" ==> bare && opts.roleTypes == [])
    && (d.category == "todo" ==> bare)
    && (TrimSpace(opts.queryCsv) != "" || TrimSpace(opts.filterJson) != "" ==> cat.takesFilter(key))
  }

  /** The event is known, public and takes the options. */
  predicate Takable(key: string, opts: ConsumeOptions, cat: Catalogue) {
    && cat.definition(key).Some? && cat.definition(key).value.isPublic
    && Takes(cat.definition(key).value, key, opts, cat)
  }

  /** Rule and filter of the event's plan are accepted. */
  predicate RuleTaken(key: string, opts: ConsumeOptions, cat: Catalogue) {
    cat.acceptsRule(PlanFor(key, opts, cat)) && cat.acceptsFilter(opts.filterJson, opts.queryCsv)
  }

  predicate OfUser(cat: Catalogue, key: string) {
    && cat.definition(key).Some?
    && (cat.definition(key).value.ruleType == "singleChat" || cat.definition(key).value.ruleType == "sender")
  }

  predicate OfGroup(cat: Catalogue, key: string) {
    cat.definition(key).Some? && cat.definition(key).value.ruleType == "group"
  }

  predicate AnyOfUser(cat: Catalogue, keys: seq<string>) {
    exists i | 0 <= i < |keys| :: OfUser(cat, keys[i])
  }

  predicate AnyOfGroup(cat: Catalogue, keys: seq<string>) {
    exists i | 0 <= i < |keys| :: OfGroup(cat, keys[i])
  }

  /** Exactly which commands for several events are planned: at least two keys and no option
      for a single event; every event known, public and taking the options; one user if
      events of single chats or senders are among them, a group if group events are, never
      both, and no target otherwise; and every plan accepted. */
  lemma PlannableIff(opts: ConsumeOptions, cat: Catalogue)
    ensures
      var keys, one := DistinctKeys(opts.eventKeys), opts.single;
      var user, group := AnyOfUser(cat, keys), AnyOfGroup(cat, keys);
      var users := (if TrimSpace(opts.userId) != "" then 1 else 0) + if TrimSpace(opts.openId) != "" then 1 else 0;
      Plannable(opts, cat) <==>
      && |keys| >= 2
      && TrimSpace(one.subscribeId) == "" && TrimSpace(one.rule) == ""
      && one.eventTypes == [] && TrimSpace(one.filter) == ""
      && !one.foreground && !one.force && !one.debugRaw
      && (forall i | 0 <= i < |keys| :: Takable(keys[i], opts, cat))
      && !(user && group)
      && users == (if user then 1 else 0)
      && (TrimSpace(opts.groupId) != "" <==> group)
      && (forall i | 0 <= i < |keys| :: RuleTaken(keys[i], opts, cat))
  {
    var keys := DistinctKeys(opts.eventKeys);
    DistinctKeysDeduplicate(opts.eventKeys);
    AllAllowedMeans(opts.eventKeys, keys, opts, cat);
    AllAcceptedMeans(keys, opts, cat);
    UserMeans(keys, cat);
    GroupMeans(keys, cat);
    TargetsMean(opts, AnyUser(keys, cat), AnyGroup(keys, cat));
  }

  lemma AllAllowedMeans(values: seq<string>, keys: seq<string>, opts: ConsumeOptions, cat: Catalogue)
    requires Deduplicates(keys, values)
    ensures AllAllowed(keys, opts, cat) <==> forall i | 0 <= i < |keys| :: Takable(keys[i], opts, cat)
  {
    forall i | 0 <= i < |keys|
      ensures KeyAllowed(keys[i], opts, cat) <==> Takable(keys[i], opts, cat)
    {
      KeyIsTrimmed(values, keys, i);
      AllowedMeans(keys[i], opts, cat);
    }
  }

  lemma AllAcceptedMeans(keys: seq<string>, opts: ConsumeOptions, cat: Catalogue)
    ensures AllAccepted(keys, opts, cat) <==> forall i | 0 <= i < |keys| :: RuleTaken(keys[i], opts, cat)
  {
    forall i | 0 <= i < |keys|
      ensures PlanAccepted(keys[i], opts, cat) <==> RuleTaken(keys[i], opts, cat)
    {
    }
  }

  lemma AllowedMeans(key: string, opts: ConsumeOptions, cat: Catalogue)
    requires TrimSpace(key) == key
    ensures KeyAllowed(key, opts, cat) <==> Takable(key, opts, cat)
  {
  }

  lemma UserMeans(keys: seq<string>, cat: Catalogue)
    ensures AnyUser(keys, cat) <==> AnyOfUser(cat, keys)
  {
    assert forall key :: OfUser(cat, key) <==> cat.definition(key).Some? && UserScoped(cat.definition(key).value);
  }

  lemma GroupMeans(keys: seq<string>, cat: Catalogue)
    ensures AnyGroup(keys, cat) <==> AnyOfGroup(cat, keys)
  {
    assert forall key :: OfGroup(cat, key) <==> cat.definition(key).Some? && GroupScoped(cat.definition(key).value);
  }

  lemma TargetsMean(opts: ConsumeOptions, user: bool, group: bool)
    ensures TargetsFit(opts, user, group) <==>
            && !(user && group)
            && (if TrimSpace(opts.userId) != "" then 1 else 0) + (if TrimSpace(opts.openId) != "" then 1 else 0) ==
                  (if user then 1 else 0)
            && (TrimSpace(opts.groupId) != "" <==> group)
  {
  }

  /** A plan is the command for its one event: every option as it was, but for the targets
      that its kind of event does not use. */
  lemma PlanIsTheCommand(key: string, opts: ConsumeOptions, cat: Catalogue, d: Definition)
    requires cat.definition(key) == Some(d)
    ensures
      var plan := PlanFor(key, opts, cat);
      && plan.eventKey == key && plan.eventKeys == []
      && plan == opts.(eventKey := key, eventKeys := [],
                       userId := plan.userId, openId := plan.openId, groupId := plan.groupId)
      && (plan.userId, plan.openId) ==
            (if d.ruleType in {"at", "all", "group"} then ("", "") else (opts.userId, opts.openId))
      && plan.groupId == (if d.ruleType in {"at", "all", "singleChat", "sender"} then "" else opts.groupId)
  {
  }

  // The choice between one event and several

  datatype Dispatch = ConsumeSingle(opts: ConsumeOptions) | ConsumeMany(opts: ConsumeOptions)

  method DispatchConsume(opts: ConsumeOptions) returns (d: Dispatch)
    ensures |DistinctKeys(opts.eventKeys)| >= 2 <==> d.ConsumeMany?
    ensures d.ConsumeMany? ==> d.opts == opts.(eventKeys := DistinctKeys(opts.eventKeys))
    ensures d.ConsumeSingle? ==>
              d.opts == opts.(eventKey :=
                if |DistinctKeys(opts.eventKeys)| == 1 then DistinctKeys(opts.eventKeys)[0]
                else if Blank(opts.eventKey) then opts.eventKey
                else TrimSpace(opts.eventKey))
  {
    var keys := DedupeKeys(opts.eventKeys);
    if |keys| == 0 && TrimSpace(opts.eventKey) != "" {
      keys := [TrimSpace(opts.eventKey)];
    }
    if |keys| <= 1 {
      if |keys| == 1 {
        return ConsumeSingle(opts.(eventKey := keys[0]));
      }
      return ConsumeSingle(opts);
    }
    return ConsumeMany(opts.(eventKeys := keys));
  }

  /** A command that is dispatched as several events has the same distinct keys when it is
      planned, and is never refused for having too few. */
  lemma DispatchedKeysStay(opts: ConsumeOptions, cat: Catalogue)
    requires |DistinctKeys(opts.eventKeys)| >= 2
    ensures
      var many := opts.(eventKeys := DistinctKeys(opts.eventKeys));
      DistinctKeys(many.eventKeys) == DistinctKeys(opts.eventKeys) && !Deserved(TooFewKeys, many, cat)
  {
    DistinctKeysIdempotent(opts.eventKeys);
  }
}
