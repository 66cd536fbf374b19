/** The registry of dynamic MCP servers and the endpoint lookup
    (internal/app/direct_runtime.go). The gateway rewriting of an endpoint is the
    argument `rewrite`; environment overrides and the edition's own servers are arguments
    of the lookup. */
module EndpointRegistry {
  import opened Collections
  import opened GoStrings

  /** The parts of a server descriptor the registry reads. `overrides` maps a tool to the
      server it is redirected to, blank for none. */
  datatype Server = Server(
    id: string,
    command: string,
    aliases: seq<string>,
    tools: seq<string>,
    overrides: map<string, string>,
    endpoint: string,
    skip: bool)

  /** The four tables of the registry. */
  datatype Tables = Tables(
    endpoints: map<string, string>,
    products: map<string, bool>,
    aliases: map<string, string>,
    tools: map<string, string>)

  const DEVAPP_PRODUCT := "devapp"
  const PAT_PRODUCT := "pat"

  const LEGACY_ALIASES := map[
    "tb" := "teambition",
    "dingtalk-discovery" := "discovery",
    "dingtalk-oa-plus" := "oa",
    "dingtalk-ai-sincere-hire" := "ai-sincere-hire"]

  /** `name`, trimmed, is `key`, and it is not blank. */
  predicate Names(name: string, key: string) {
    key != "" && TrimSpace(name) == key
  }

  predicate AnyNames(names: seq<string>, key: string) {
    exists i | 0 <= i < |names| :: Names(names[i], key)
  }

  predicate ClaimsProduct(s: Server, key: string) {
    Names(s.id, key) || Names(s.command, key) || AnyNames(s.aliases, key)
  }

  /** A tool redirected to another server is not claimed. */
  predicate ClaimsTool(s: Server, key: string) {
    || AnyNames(s.tools, key)
    || exists name | name in s.overrides :: Names(name, key) && Blank(s.overrides[name])
  }

  /** The server takes part: it is not skipped and has an endpoint. */
  predicate Active(s: Server, rewrite: string -> string) {
    !s.skip && rewrite(s.endpoint) != ""
  }

  // What the tables mean

  /** The endpoint of the last active server that claims the key. */
  function LastProduct(servers: seq<Server>, key: string, rewrite: string -> string): Option<string> {
    if servers == [] then None
    else
      var s := servers[|servers| - 1];
      if Active(s, rewrite) && ClaimsProduct(s, key) then Some(rewrite(s.endpoint))
      else LastProduct(servers[..|servers| - 1], key, rewrite)
  }

  function LastTool(servers: seq<Server>, key: string, rewrite: string -> string): Option<string> {
    if servers == [] then None
    else
      var s := servers[|servers| - 1];
      if Active(s, rewrite) && ClaimsTool(s, key) then Some(rewrite(s.endpoint))
      else LastTool(servers[..|servers| - 1], key, rewrite)
  }

  /** The id of the last active server that has the key as an alias. */
  function LastAlias(servers: seq<Server>, key: string, rewrite: string -> string): Option<string> {
    if servers == [] then None
    else
      var s := servers[|servers| - 1];
      if Active(s, rewrite) && AnyNames(s.aliases, key) then Some(TrimSpace(s.id))
      else LastAlias(servers[..|servers| - 1], key, rewrite)
  }

  /** The tables say, for every key, what the last claim on it says. */
  ghost predicate Reflects(t: Tables, servers: seq<Server>, rewrite: string -> string) {
    && (forall key :: Lookup(t.endpoints, key) == LastProduct(servers, key, rewrite))
    && (forall key :: Lookup(t.products, key) == if LastProduct(servers, key, rewrite).Some? then Some(true) else None)
    && (forall key :: Lookup(t.aliases, key) == LastAlias(servers, key, rewrite))
    && (forall key :: Lookup(t.tools, key) == LastTool(servers, key, rewrite))
  }

  /** A table written over at the keys that some names name. */
  ghost predicate Overlaid<V(!new)>(before: map<string, V>, after: map<string, V>, names: seq<string>, v: V) {
    forall key :: Lookup(after, key) == if AnyNames(names, key) then Some(v) else Lookup(before, key)
  }

  /** What one registration makes of a key's endpoint. When command keys are protected, a
      command that is not also the id or an alias does not take a key over. */
  function EndpointAfter(before: Option<string>, s: Server, key: string, endpoint: string,
      protect: bool): Option<string>
  {
    if Names(s.id, key) || AnyNames(s.aliases, key) then Some(endpoint)
    else if Names(s.command, key) && !(protect && before.Some?) then Some(endpoint)
    else before
  }

  class Registry {
    var endpoints: map<string, string>
    var products: map<string, bool>
    var aliases: map<string, string>
    var tools: map<string, string>

    constructor ()
      ensures View() == Tables(map[], map[], map[], map[])
    {
      endpoints, products, aliases, tools := map[], map[], map[], map[];
    }

    function View(): Tables
      reads this
    {
      Tables(endpoints, products, aliases, tools)
    }

    /** The id and the command name. */
    method RegisterOwnKeys(s: Server, endpoint: string, protect: bool)
      modifies this`endpoints, this`products
      ensures forall key :: Lookup(endpoints, key) ==
                if Names(s.id, key) then Some(endpoint)
                else if Names(s.command, key) && !(protect && Lookup(old(endpoints), key).Some?) then Some(endpoint)
                else Lookup(old(endpoints), key)
      ensures forall key :: Lookup(products, key) ==
                if Names(s.id, key) || Names(s.command, key) then Some(true) else Lookup(old(products), key)
    {
      var id := TrimSpace(s.id);
      if id != "" {
        endpoints := endpoints[id := endpoint];
        products := products[id := true];
      }
      var command := TrimSpace(s.command);
      if command != "" && command != id {
        if protect {
          if command !in endpoints {
            endpoints := endpoints[command := endpoint];
          }
        } else {
          endpoints := endpoints[command := endpoint];
        }
        products := products[command := true];
      }
    }

    method RegisterAliases(s: Server, endpoint: string)
      modifies this
      ensures tools == old(tools)
      ensures Overlaid(old(endpoints), endpoints, s.aliases, endpoint)
      ensures Overlaid(old(products), products, s.aliases, true)
      ensures Overlaid(old(aliases), aliases, s.aliases, TrimSpace(s.id))
    {
      for i := 0 to |s.aliases|
        invariant tools == old(tools)
        invariant Overlaid(old(endpoints), endpoints, s.aliases[..i], endpoint)
        invariant Overlaid(old(products), products, s.aliases[..i], true)
        invariant Overlaid(old(aliases), aliases, s.aliases[..i], TrimSpace(s.id))
      {
        var name := TrimSpace(s.aliases[i]);
        OverlayOneMore(old(endpoints), endpoints, s.aliases, i, endpoint);
        OverlayOneMore(old(products), products, s.aliases, i, true);
        OverlayOneMore(old(aliases), aliases, s.aliases, i, TrimSpace(s.id));
        if name != "" {
          endpoints := endpoints[name := endpoint];
          products := products[name := true];
          aliases := aliases[name := TrimSpace(s.id)];
        }
      }
      assert s.aliases[..|s.aliases|] == s.aliases;
    }

    method RegisterTools(s: Server, endpoint: string)
      modifies this`tools
      ensures Overlaid(old(tools), tools, s.tools, endpoint)
    {
      for i := 0 to |s.tools|
        invariant Overlaid(old(tools), tools, s.tools[..i], endpoint)
      {
        var name := TrimSpace(s.tools[i]);
        OverlayOneMore(old(tools), tools, s.tools, i, endpoint);
        if name != "" {
          tools := tools[name := endpoint];
        }
      }
      assert s.tools[..|s.tools|] == s.tools;
    }

    /** The overrides are visited in an arbitrary order, as Go's map iteration does. */
    method RegisterOverrides(s: Server, endpoint: string)
      modifies this`tools
      ensures forall key :: Lookup(tools, key) ==
                if exists name | name in s.overrides :: Names(name, key) && Blank(s.overrides[name]) then Some(endpoint)
                else Lookup(old(tools), key)
    {
      var left := s.overrides.Keys;
      while left != {}
        invariant left <= s.overrides.Keys
        invariant forall key :: Lookup(tools, key) ==
                    if exists name | name in s.overrides.Keys - left ::
                      Names(name, key) && Blank(s.overrides[name]) then Some(endpoint)
                    else Lookup(old(tools), key)
        decreases left
      {
        var name :| name in left;
        ghost var done := s.overrides.Keys - left;
        left := left - {name};
        assert s.overrides.Keys - left == done + {name};
        var toolName := TrimSpace(name);
        if toolName == "" {
          continue;
        }
        if !Blank(s.overrides[name]) {
          continue;
        }
        tools := tools[toolName := endpoint];
      }
    }

    /** One registration. */
    method Register(s: Server, rewrite: string -> string, protect: bool)
      modifies this
      ensures !Active(s, rewrite) ==> View() == old(View())
      ensures Active(s, rewrite) ==>
                && (forall key :: Lookup(endpoints, key) ==
                      EndpointAfter(Lookup(old(endpoints), key), s, key, rewrite(s.endpoint), protect))
                && (forall key :: Lookup(products, key) ==
                      if ClaimsProduct(s, key) then Some(true) else Lookup(old(products), key))
                && (forall key :: Lookup(aliases, key) ==
                      if AnyNames(s.aliases, key) then Some(TrimSpace(s.id)) else Lookup(old(aliases), key))
                && (forall key :: Lookup(tools, key) ==
                      if ClaimsTool(s, key) then Some(rewrite(s.endpoint)) else Lookup(old(tools), key))
    {
      if s.skip {
        return;
      }
      var endpoint := rewrite(s.endpoint);
      if endpoint == "" {
        return;
      }
      RegisterOwnKeys(s, endpoint, protect);
      RegisterAliases(s, endpoint);
      RegisterTools(s, endpoint);
      RegisterOverrides(s, endpoint);
    }

    /** Replaces the tables: the built-in PAT server first, then the discovered ones. */
    method SetDynamicServers(pat: Server, servers: seq<Server>, rewrite: string -> string)
      modifies this
      ensures Reflects(View(), [pat] + servers, rewrite)
    {
      var filled := new Registry();
      filled.Register(pat, rewrite, false);
      EmptyReflects(rewrite);
      RegisteredReflects(Tables(map[], map[], map[], map[]), filled.View(), [], pat, rewrite);
      assert [] + [pat] == [pat] + servers[..0];
      for i := 0 to |servers|
        invariant fresh(filled)
        invariant Reflects(filled.View(), [pat] + servers[..i], rewrite)
      {
        ghost var before := filled.View();
        filled.Register(servers[i], rewrite, false);
        RegisteredReflects(before, filled.View(), [pat] + servers[..i], servers[i], rewrite);
        assert ([pat] + servers[..i]) + [servers[i]] == [pat] + servers[..i + 1];
      }
      assert servers[..|servers|] == servers;
      endpoints, products, aliases, tools := filled.endpoints, filled.products, filled.aliases, filled.tools;
    }

    /** Adds a plugin's server to the tables as they are. A key that already had an
        endpoint loses it only to an id or an alias, never to a command name. */
    method AppendDynamicServer(s: Server, rewrite: string -> string)
      modifies this
      ensures !Active(s, rewrite) ==> View() == old(View())
      ensures Active(s, rewrite) ==>
                && (forall key :: Lookup(endpoints, key) ==
                      EndpointAfter(Lookup(old(endpoints), key), s, key, rewrite(s.endpoint), true))
                && (forall key :: Lookup(products, key) ==
                      if ClaimsProduct(s, key) then Some(true) else Lookup(old(products), key))
                && (forall key :: Lookup(tools, key) ==
                      if ClaimsTool(s, key) then Some(rewrite(s.endpoint)) else Lookup(old(tools), key))
                && (forall key :: Lookup(aliases, key) ==
                      if AnyNames(s.aliases, key) then Some(TrimSpace(s.id)) else Lookup(old(aliases), key))
      ensures forall key | key in old(endpoints) && !Names(s.id, key) && !AnyNames(s.aliases, key) ::
                Lookup(endpoints, key) == Lookup(old(endpoints), key)
    {
      Register(s, rewrite, true);
    }
  }

  lemma OneMoreName(names: seq<string>, i: nat, key: string)
    requires i < |names|
    ensures AnyNames(names[..i + 1], key) <==> AnyNames(names[..i], key) || Names(names[i], key)
  {
    assert names[..i + 1] == names[..i] + [names[i]];
    if AnyNames(names[..i], key) {
      var j :| 0 <= j < i && Names(names[..i][j], key);
      assert names[..i + 1][j] == names[j];
    }
    if Names(names[i], key) {
      assert names[..i + 1][i] == names[i];
    }
  }

  lemma OverlayOneMore<V(!new)>(before: map<string, V>, now: map<string, V>, names: seq<string>, i: nat, v: V)
    requires i < |names| && Overlaid(before, now, names[..i], v)
    ensures
      var name := TrimSpace(names[i]);
      Overlaid(before, if name == "" then now else now[name := v], names[..i + 1], v)
  {
    var name := TrimSpace(names[i]);
    forall key
      ensures Lookup(if name == "" then now else now[name := v], key) ==
                if AnyNames(names[..i + 1], key) then Some(v) else Lookup(before, key)
    {
      OneMoreName(names, i, key);
      assert Lookup(now, key) == if AnyNames(names[..i], key) then Some(v) else Lookup(before, key);
    }
  }

  lemma EmptyReflects(rewrite: string -> string)
    ensures Reflects(Tables(map[], map[], map[], map[]), [], rewrite)
  {
  }

  /** What one unprotected registration does to tables, as `Register` ensures it. */
  ghost predicate Registered(t: Tables, t': Tables, s: Server, rewrite: string -> string) {
    && (!Active(s, rewrite) ==> t' == t)
    && (Active(s, rewrite) ==>
          && (forall key :: Lookup(t'.endpoints, key) ==
                if ClaimsProduct(s, key) then Some(rewrite(s.endpoint)) else Lookup(t.endpoints, key))
          && (forall key :: Lookup(t'.products, key) ==
                if ClaimsProduct(s, key) then Some(true) else Lookup(t.products, key))
          && (forall key :: Lookup(t'.aliases, key) ==
                if AnyNames(s.aliases, key) then Some(TrimSpace(s.id)) else Lookup(t.aliases, key))
          && (forall key :: Lookup(t'.tools, key) ==
                if ClaimsTool(s, key) then Some(rewrite(s.endpoint)) else Lookup(t.tools, key)))
  }

  /** A registration keeps the tables the reflection of the list. */
  lemma RegisteredReflects(t: Tables, t': Tables, servers: seq<Server>, s: Server, rewrite: string -> string)
    requires Reflects(t, servers, rewrite)
    requires Registered(t, t', s, rewrite)
    ensures Reflects(t', servers + [s], rewrite)
  {
    var all := servers + [s];
    assert all[|all| - 1] == s && all[..|all| - 1] == servers;
  }

  // The lookup

  /** What the environment and the edition add to the tables. */
  datatype Surroundings = Surroundings(
    override: string -> Option<string>,
    devapp: string,
    pat: string,
    edition: string -> Option<string>)

  /** The product id behind an alias, discovered or legacy. */
  function Normalize(t: Tables, productId: string): string {
    var trimmed := TrimSpace(productId);
    if trimmed in t.aliases && t.aliases[trimmed] != "" then t.aliases[trimmed]
    else if trimmed in LEGACY_ALIASES then LEGACY_ALIASES[trimmed]
    else trimmed
  }

  /** The first of a product's two candidate names for which `f` has an answer. */
  function FirstOf(trimmed: string, normalized: string, f: string -> Option<string>): Option<string> {
    if trimmed != "" && f(trimmed).Some? then f(trimmed)
    else if normalized != "" && f(normalized).Some? then f(normalized)
    else None
  }

  function DirectEndpoint(t: Tables, around: Surroundings, productId: string, toolName: string): Option<string> {
    var trimmed, normalized := TrimSpace(productId), Normalize(t, productId);
    var tool := TrimSpace(toolName);
    var overridden := FirstOf(trimmed, normalized, around.override);
    var product := FirstOf(trimmed, normalized, key => Lookup(t.endpoints, key));
    if overridden.Some? then overridden
    else if trimmed == DEVAPP_PRODUCT || normalized == DEVAPP_PRODUCT then Some(around.devapp)
    else if product.Some? then product
    else if tool != "" && tool in t.tools then Some(t.tools[tool])
    else if trimmed == PAT_PRODUCT || normalized == PAT_PRODUCT then Some(around.pat)
    else FirstOf(trimmed, normalized, around.edition)
  }

  /** The product id behind an alias, told from the servers alone: the id of the last
      active server with that alias, or a legacy one. */
  function NormalizedBy(servers: seq<Server>, rewrite: string -> string, productId: string): string {
    var trimmed := TrimSpace(productId);
    match LastAlias(servers, trimmed, rewrite)
    case Some(id) => if id != "" then id else if trimmed in LEGACY_ALIASES then LEGACY_ALIASES[trimmed] else trimmed
    case None => if trimmed in LEGACY_ALIASES then LEGACY_ALIASES[trimmed] else trimmed
  }

  /** The endpoint of a product and a tool, told from the servers and the surroundings
      alone. A claimed product goes to the last server that claims its name, or else its
      normalized name, whatever the tool is called; only an unclaimed product falls back
      to the last server that claims the tool, then to the built-in PAT endpoint, and last
      to the edition. */
  function ClaimedEndpoint(servers: seq<Server>, rewrite: string -> string, around: Surroundings, productId: string,
      toolName: string): Option<string>
  {
    var trimmed, normalized, tool :=
      TrimSpace(productId), NormalizedBy(servers, rewrite, productId), TrimSpace(toolName);
    var overridden := FirstOf(trimmed, normalized, around.override);
    var product := FirstOf(trimmed, normalized, name => LastProduct(servers, name, rewrite));
    if overridden.Some? then overridden
    else if DEVAPP_PRODUCT in {trimmed, normalized} then Some(around.devapp)
    else if product.Some? then product
    else if tool != "" && LastTool(servers, tool, rewrite).Some? then LastTool(servers, tool, rewrite)
    else if PAT_PRODUCT in {trimmed, normalized} then Some(around.pat)
    else FirstOf(trimmed, normalized, around.edition)
  }

  /** The lookup in the tables answers what the list of servers says, in every case. */
  lemma LookupFollowsLastClaim(t: Tables, servers: seq<Server>, rewrite: string -> string, around: Surroundings,
      productId: string, toolName: string)
    requires Reflects(t, servers, rewrite)
    ensures Normalize(t, productId) == NormalizedBy(servers, rewrite, productId)
    ensures DirectEndpoint(t, around, productId, toolName) ==
              ClaimedEndpoint(servers, rewrite, around, productId, toolName)
  {
    var trimmed, tool := TrimSpace(productId), TrimSpace(toolName);
    NormalizeFollowsAliases(t, servers, rewrite, productId);
    var normalized := Normalize(t, productId);
    FirstOfAgrees(trimmed, normalized, name => Lookup(t.endpoints, name), name => LastProduct(servers, name, rewrite));
    assert Lookup(t.tools, tool) == LastTool(servers, tool, rewrite);
  }

  lemma NormalizeFollowsAliases(t: Tables, servers: seq<Server>, rewrite: string -> string, productId: string)
    requires Reflects(t, servers, rewrite)
    ensures Normalize(t, productId) == NormalizedBy(servers, rewrite, productId)
  {
    assert Lookup(t.aliases, TrimSpace(productId)) == LastAlias(servers, TrimSpace(productId), rewrite);
  }

  lemma FirstOfAgrees(trimmed: string, normalized: string, f: string -> Option<string>, g: string -> Option<string>)
    requires f(trimmed) == g(trimmed) && f(normalized) == g(normalized)
    ensures FirstOf(trimmed, normalized, f) == FirstOf(trimmed, normalized, g)
  {
  }

  /** The environment comes first. */
  lemma OverrideWins(t: Tables, around: Surroundings, productId: string, toolName: string)
    requires TrimSpace(productId) != "" && around.override(TrimSpace(productId)).Some?
    ensures DirectEndpoint(t, around, productId, toolName) == around.override(TrimSpace(productId))
  {
  }

  /** The names under which a product is looked up: its own, and what that is an alias of. */
  ghost predicate NamesOf(servers: seq<Server>, rewrite: string -> string, productId: string, own: string,
      other: string)
  {
    && own == TrimSpace(productId)
    && other ==
       match LastAlias(servers, own, rewrite)
       case Some(id) => if id != "" then id else Legacy(own)
       case None => Legacy(own)
  }

  function Legacy(name: string): string {
    if name == "tb" then "teambition"
    else if name == "dingtalk-discovery" then "discovery"
    else if name == "dingtalk-oa-plus" then "oa"
    else if name == "dingtalk-ai-sincere-hire" then "ai-sincere-hire"
    else name
  }

  /** No environment override, and not the pinned product. */
  ghost predicate Plain(around: Surroundings, own: string, other: string) {
    && (own != "" ==> around.override(own).None?) && (other != "" ==> around.override(other).None?)
    && own != "devapp" && other != "devapp"
  }

  /** A claimed product keeps its endpoint, that of the last active server that claims its
      own name or else its other one, whatever tool is asked for and whoever claims that. */
  lemma ClaimedProductKeepsEndpoint(t: Tables, servers: seq<Server>, rewrite: string -> string, around: Surroundings,
      productId: string, toolName: string, own: string, other: string)
    requires Reflects(t, servers, rewrite) && NamesOf(servers, rewrite, productId, own, other)
              && Plain(around, own, other)
    ensures own != "" && LastProduct(servers, own, rewrite).Some? ==>
              DirectEndpoint(t, around, productId, toolName) == LastProduct(servers, own, rewrite)
    ensures (own == "" || LastProduct(servers, own, rewrite).None?) && other != ""
              && LastProduct(servers, other, rewrite).Some? ==>
              DirectEndpoint(t, around, productId, toolName) == LastProduct(servers, other, rewrite)
  {
    LookupNames(t, servers, rewrite, productId, own, other);
  }

  lemma LookupNames(t: Tables, servers: seq<Server>, rewrite: string -> string, productId: string, own: string,
      other: string)
    requires Reflects(t, servers, rewrite) && NamesOf(servers, rewrite, productId, own, other)
    ensures TrimSpace(productId) == own && Normalize(t, productId) == other
    ensures Lookup(t.endpoints, own) == LastProduct(servers, own, rewrite)
    ensures Lookup(t.endpoints, other) == LastProduct(servers, other, rewrite)
  {
    NormalizeFollowsAliases(t, servers, rewrite, productId);
  }

  /** Only a product that no active server claims falls back: to the last active server that
      claims the tool; without one, the PAT product to its built-in endpoint; and any other
      to the edition, own name first. */
  lemma UnclaimedProductFallsBack(t: Tables, servers: seq<Server>, rewrite: string -> string, around: Surroundings,
      productId: string, toolName: string, own: string, other: string)
    requires Reflects(t, servers, rewrite) && NamesOf(servers, rewrite, productId, own, other)
              && Plain(around, own, other)
    requires (own == "" || LastProduct(servers, own, rewrite).None?)
              && (other == "" || LastProduct(servers, other, rewrite).None?)
    ensures
      var tool, found := TrimSpace(toolName), DirectEndpoint(t, around, productId, toolName);
      if tool != "" && LastTool(servers, tool, rewrite).Some? then found == LastTool(servers, tool, rewrite)
      else if own == "pat" || other == "pat" then found == Some(around.pat)
      else if own != "" && around.edition(own).Some? then found == around.edition(own)
      else if other != "" then found == around.edition(other)
      else found == None
  {
    LookupNames(t, servers, rewrite, productId, own, other);
    assert Lookup(t.tools, TrimSpace(toolName)) == LastTool(servers, TrimSpace(toolName), rewrite);
  }

  /** A key that no active server claims has no endpoint. */
  lemma {:induction false} UnclaimedHasNone(servers: seq<Server>, key: string, rewrite: string -> string)
    requires forall i | 0 <= i < |servers| :: !Serves(servers[i], key, rewrite)
    ensures LastProduct(servers, key, rewrite) == None
  {
    if servers != [] {
      ServesMeans(servers[|servers| - 1], key, rewrite);
      UnclaimedHasNone(servers[..|servers| - 1], key, rewrite);
    }
  }

  /** The pinned product has its endpoint whatever the servers say. */
  lemma PinnedProduct(t: Tables, around: Surroundings, productId: string, toolName: string)
    requires forall name :: around.override(name).None?
    requires TrimSpace(productId) == "devapp"
    ensures DirectEndpoint(t, around, productId, toolName) == Some(around.devapp)
  {
  }

  /** A server that is not skipped, has an endpoint and has the key as its id, its command
      or an alias. */
  predicate Serves(s: Server, key: string, rewrite: string -> string) {
    && !s.skip && rewrite(s.endpoint) != "" && key != ""
    && (|| TrimSpace(s.id) == key
        || TrimSpace(s.command) == key
        || exists i | 0 <= i < |s.aliases| :: TrimSpace(s.aliases[i]) == key)
  }

  lemma ServesMeans(s: Server, key: string, rewrite: string -> string)
    ensures Serves(s, key, rewrite) <==> Active(s, rewrite) && ClaimsProduct(s, key)
  {
    if i :| 0 <= i < |s.aliases| && TrimSpace(s.aliases[i]) == key && key != "" {
      assert Names(s.aliases[i], key);
    }
  }

  /** A server that is not skipped, has an endpoint and offers the tool, in its list or by an
      override that does not redirect it. */
  predicate Offers(s: Server, key: string, rewrite: string -> string) {
    && !s.skip && rewrite(s.endpoint) != "" && key != ""
    && ((exists i | 0 <= i < |s.tools| :: TrimSpace(s.tools[i]) == key)
        || exists name | name in s.overrides :: TrimSpace(name) == key && TrimSpace(s.overrides[name]) == "")
  }

  lemma OffersMeans(s: Server, key: string, rewrite: string -> string)
    ensures Offers(s, key, rewrite) <==> Active(s, rewrite) && ClaimsTool(s, key)
  {
    if i :| 0 <= i < |s.tools| && TrimSpace(s.tools[i]) == key && key != "" {
      assert Names(s.tools[i], key);
    }
    if name :| name in s.overrides && TrimSpace(name) == key && TrimSpace(s.overrides[name]) == "" && key != "" {
      assert Names(name, key) && Blank(s.overrides[name]);
    }
    if ClaimsTool(s, key) && Active(s, rewrite) {
      if AnyNames(s.tools, key) {
        var i :| 0 <= i < |s.tools| && Names(s.tools[i], key);
        assert TrimSpace(s.tools[i]) == key;
      } else {
        var name :| name in s.overrides && Names(name, key) && Blank(s.overrides[name]);
        assert TrimSpace(name) == key;
      }
    }
  }

  /** The last claim decides, and everything behind it counts for nothing: a claim by
      the last active server wins, and a server without a claim on the key can be added
      anywhere after it. */
  lemma {:induction false} LastClaimWins(before: seq<Server>, s: Server, after: seq<Server>, key: string,
      rewrite: string -> string)
    requires Serves(s, key, rewrite)
    requires forall i | 0 <= i < |after| :: !Serves(after[i], key, rewrite)
    ensures LastProduct(before + [s] + after, key, rewrite) == Some(rewrite(s.endpoint))
    decreases |after|
  {
    var all := before + [s] + after;
    ServesMeans(all[|all| - 1], key, rewrite);
    if after == [] {
      assert all == before + [s];
    } else {
      assert all[..|all| - 1] == before + [s] + after[..|after| - 1];
      LastClaimWins(before, s, after[..|after| - 1], key, rewrite);
    }
  }

  /** The same for tools. A redirected override is no claim, so it never takes a tool
      away from the server that offers it. */
  lemma {:induction false} LastToolClaimWins(before: seq<Server>, s: Server, after: seq<Server>, key: string,
      rewrite: string -> string)
    requires Offers(s, key, rewrite)
    requires forall i | 0 <= i < |after| :: !Offers(after[i], key, rewrite)
    ensures LastTool(before + [s] + after, key, rewrite) == Some(rewrite(s.endpoint))
    decreases |after|
  {
    var all := before + [s] + after;
    OffersMeans(all[|all| - 1], key, rewrite);
    if after == [] {
      assert all == before + [s];
    } else {
      assert all[..|all| - 1] == before + [s] + after[..|after| - 1];
      LastToolClaimWins(before, s, after[..|after| - 1], key, rewrite);
    }
  }
}
