/** Following a paginated API page by page (internal/apiclient/pagination.go). The
    server's answers and the cancellations between pages are arguments; the text of a
    numeric cursor comes from `number`, which is "" for numbers that are not positive. */
module Pagination {
  import opened Json

  const MAX_PAGE_LIMIT := 500
  const DEFAULT_PAGE_LIMIT := 10

  type Fields = map<string, Value>

  /** The token for the next page and the request key it goes under. */
  datatype Continuation = Continuation(value: string, key: string)

  const FLAG_KEYS := ["has_more", "hasMore"]
  const CONTINUATION_KEYS :=
    [("next_cursor", "cursor"), ("nextCursor", "cursor"), ("next_token", "next_token"), ("nextToken", "nextToken")]

  function ResolvePageLimit(raw: int): (limit: nat)
    ensures 1 <= limit <= MAX_PAGE_LIMIT
    ensures 0 < raw <= MAX_PAGE_LIMIT ==> limit == raw
    ensures raw == 0 || raw > 500 ==> limit == 500
    ensures raw < 0 ==> limit == 10
  {
    if raw == 0 then MAX_PAGE_LIMIT
    else if raw < 0 then DEFAULT_PAGE_LIMIT
    else if raw > MAX_PAGE_LIMIT then MAX_PAGE_LIMIT
    else raw
  }

  // What a response says

  /** An object holds a `hasMore` flag, in either spelling. */
  predicate FlaggedIn(c: Fields, b: bool) {
    ("has_more" in c && c["has_more"] == Bool(b)) || ("hasMore" in c && c["hasMore"] == Bool(b))
  }

  /** The payload holds a flag, or its nested result does. */
  predicate Flagged(payload: Fields, b: bool) {
    || FlaggedIn(payload, b)
    || ("result" in payload && payload["result"].Obj? && FlaggedIn(payload["result"].fields, b))
  }

  predicate TextAt(c: Fields, key: string, value: string, number: string -> string) {
    key in c && (c[key] == Str(value) || (c[key].Number? && number(c[key].text) == value))
  }

  /** An object names a continuation: which field it is in decides the request key. */
  predicate NamedIn(c: Fields, x: Continuation, number: string -> string) {
    && x.value != ""
    && (|| (x.key == "cursor" && TextAt(c, "next_cursor", x.value, number))
        || (x.key == "cursor" && TextAt(c, "nextCursor", x.value, number))
        || (x.key == "next_token" && TextAt(c, "next_token", x.value, number))
        || (x.key == "nextToken" && TextAt(c, "nextToken", x.value, number)))
  }

  /** The payload names a continuation, or its nested result does. */
  predicate Named(payload: Fields, x: Continuation, number: string -> string) {
    || NamedIn(payload, x, number)
    || ("result" in payload && payload["result"].Obj? && NamedIn(payload["result"].fields, x, number))
  }

  /** There are more pages: a flag says so, or no flag says anything and a continuation is
      named. */
  ghost predicate MorePages(payload: Fields, number: string -> string) {
    Flagged(payload, true) || (!Flagged(payload, false) && exists x :: Named(payload, x, number))
  }

  /** A response that can be followed: its flags do not contradict each other, neither do
      its continuations, and more pages come only with a continuation. */
  ghost predicate Followable(payload: Fields, number: string -> string) {
    && !(Flagged(payload, true) && Flagged(payload, false))
    && (forall x, y | Named(payload, x, number) && Named(payload, y, number) :: x == y)
    && (MorePages(payload, number) ==> exists x :: Named(payload, x, number))
  }

  // The same, collected container by container

  /** The text of a continuation field, "" when it names none. */
  function ContinuationText(fields: Fields, key: string, number: string -> string): string {
    if key !in fields then ""
    else
      match fields[key]
      case Str(s) => s
      case Number(text) => number(text)
      case _ => ""
  }

  /** The objects that may hold pagination fields: a nested result before the payload. */
  function Containers(payload: Fields): seq<Fields> {
    if "result" in payload && payload["result"].Obj? then [payload["result"].fields, payload] else [payload]
  }

  /** The `hasMore` flags of one container under the given keys. */
  function FlagsIn(c: Fields, keys: seq<string>): set<bool> {
    set k | k in keys && k in c && c[k].Bool? :: c[k].b
  }

  function ContinuationsIn(c: Fields, keys: seq<(string, string)>, number: string -> string): set<Continuation> {
    set p | p in keys && ContinuationText(c, p.0, number) != "" :: Continuation(ContinuationText(c, p.0, number), p.1)
  }

  /** Every `hasMore` flag of the response, whatever container and spelling it is in. */
  function Flags(payload: Fields): set<bool> {
    set c, b | c in Containers(payload) && b in FlagsIn(c, FLAG_KEYS) :: b
  }

  /** Every continuation of the response, whatever container and spelling it is in. */
  function Continuations(payload: Fields, number: string -> string): set<Continuation> {
    set c, x | c in Containers(payload) && x in ContinuationsIn(c, CONTINUATION_KEYS, number) :: x
  }

  ghost predicate Agree<T(!new)>(s: set<T>) {
    forall x, y | x in s && y in s :: x == y
  }

  /** More pages are announced: by the flags, or without any by a continuation. */
  predicate Announced(payload: Fields, number: string -> string) {
    if Flags(payload) == {} then Continuations(payload, number) != {} else true in Flags(payload)
  }

  /** The responses that can be followed: their flags agree, their continuations agree,
      and more pages are announced only together with a continuation. Nothing in this
      depends on the order of containers or keys. */
  ghost predicate Consistent(payload: Fields, number: string -> string) {
    && Agree(Flags(payload))
    && Agree(Continuations(payload, number))
    && (Announced(payload, number) ==> Continuations(payload, number) != {})
  }

  lemma FlagsAreFlagged(payload: Fields, b: bool)
    ensures b in Flags(payload) <==> Flagged(payload, b)
  {
    forall c | c in Containers(payload)
      ensures b in FlagsIn(c, FLAG_KEYS) <==> FlaggedIn(c, b)
    {
      assert FLAG_KEYS[0] in FLAG_KEYS && FLAG_KEYS[1] in FLAG_KEYS;
    }
    assert payload in Containers(payload);
    assert "result" in payload && payload["result"].Obj? ==> payload["result"].fields in Containers(payload);
  }

  lemma TextAtMeans(c: Fields, key: string, value: string, number: string -> string)
    requires value != ""
    ensures TextAt(c, key, value, number) <==> ContinuationText(c, key, number) == value
  {
  }

  lemma ContinuationsInAreNamed(c: Fields, x: Continuation, number: string -> string)
    ensures x in ContinuationsIn(c, CONTINUATION_KEYS, number) <==> NamedIn(c, x, number)
  {
    var keys := CONTINUATION_KEYS;
    assert keys[0] in keys && keys[1] in keys && keys[2] in keys && keys[3] in keys;
    if x.value != "" {
      TextAtMeans(c, "next_cursor", x.value, number);
      TextAtMeans(c, "nextCursor", x.value, number);
      TextAtMeans(c, "next_token", x.value, number);
      TextAtMeans(c, "nextToken", x.value, number);
    }
  }

  lemma ContinuationsAreNamed(payload: Fields, x: Continuation, number: string -> string)
    ensures x in Continuations(payload, number) <==> Named(payload, x, number)
  {
    forall c | c in Containers(payload)
      ensures x in ContinuationsIn(c, CONTINUATION_KEYS, number) <==> NamedIn(c, x, number)
    {
      ContinuationsInAreNamed(c, x, number);
    }
    assert payload in Containers(payload);
    assert "result" in payload && payload["result"].Obj? ==> payload["result"].fields in Containers(payload);
  }

  /** What is collected says of the fields what they hold. */
  lemma CollectedMeans(payload: Fields, number: string -> string)
    ensures Announced(payload, number) <==> MorePages(payload, number)
    ensures Consistent(payload, number) <==> Followable(payload, number)
    ensures forall x :: x in Continuations(payload, number) <==> Named(payload, x, number)
  {
    FlagsAreFlagged(payload, true);
    FlagsAreFlagged(payload, false);
    forall x
      ensures x in Continuations(payload, number) <==> Named(payload, x, number)
    {
      ContinuationsAreNamed(payload, x, number);
    }
    EmptyMeans(Flags(payload));
    AgreeingFlags(Flags(payload));
  }

  lemma EmptyMeans(flags: set<bool>)
    ensures flags == {} <==> true !in flags && false !in flags
  {
    if flags != {} {
      var b := PickOne(flags);
      assert b == true || b == false;
    }
  }

  lemma PickOne<T>(s: set<T>) returns (x: T)
    requires s != {}
    ensures x in s
  {
    x :| x in s;
  }

  lemma AgreeingFlags(flags: set<bool>)
    ensures Agree(flags) <==> !(true in flags && false in flags)
  {
    if !(true in flags && false in flags) {
      forall x, y | x in flags && y in flags
        ensures x == y
      {
        assert x != y ==> true in {x, y} && false in {x, y};
      }
    }
  }

  datatype Parsed = Rejected | Page(hasMore: bool, continuation: Continuation)

  const NO_CONTINUATION := Continuation("", "")

  /** Folds the flags of one container into those seen so far. */
  method ScanFlags(c: Fields, keys: seq<string>, ghost seen: set<bool>, set0: bool, value0: bool)
      returns (ok: bool, isSet: bool, value: bool)
    requires Agree(seen) && (set0 <==> seen != {}) && (set0 ==> value0 in seen)
    ensures ok <==> Agree(seen + FlagsIn(c, keys))
    ensures ok ==> (isSet <==> seen + FlagsIn(c, keys) != {})
    ensures ok ==> if isSet then value in seen + FlagsIn(c, keys) else value == value0
  {
    isSet, value, ok := set0, value0, true;
    ghost var all := seen;
    for i := 0 to |keys|
      invariant all == seen + FlagsIn(c, keys[..i])
      invariant Agree(all)
      invariant isSet <==> all != {}
      invariant if isSet then value in all else value == value0
    {
      var key := keys[i];
      OneMoreFlag(c, keys, i);
      if key in c && c[key].Bool? {
        if isSet && value != c[key].b {
          Disagree(seen + FlagsIn(c, keys), value, c[key].b);
          ok := false;
          return;
        }
        value, isSet := c[key].b, true;
        all := all + {value};
      }
    }
    assert keys[..|keys|] == keys;
  }

  lemma OneMoreFlag(c: Fields, keys: seq<string>, i: nat)
    requires i < |keys|
    ensures
      var here := if keys[i] in c && c[keys[i]].Bool? then {c[keys[i]].b} else {};
      && FlagsIn(c, keys[..i + 1]) == FlagsIn(c, keys[..i]) + here
      && FlagsIn(c, keys[..i + 1]) <= FlagsIn(c, keys)
  {
    assert keys[..i + 1] == keys[..i] + [keys[i]];
    assert forall k | k in keys[..i + 1] :: k in keys;
  }

  /** Folds the continuations of one container into the one seen so far. */
  method ScanContinuations(c: Fields, keys: seq<(string, string)>, number: string -> string,
      ghost seen: set<Continuation>, found0: Continuation)
    returns (ok: bool, found: Continuation)
    requires Agree(seen) && forall x | x in seen :: x.value != ""
    requires found0.value == "" <==> seen == {}
    requires found0.value != "" ==> found0 in seen
    ensures ok <==> Agree(seen + ContinuationsIn(c, keys, number))
    ensures ok ==> (found.value == "" <==> seen + ContinuationsIn(c, keys, number) == {})
    ensures ok ==> if found.value != "" then found in seen + ContinuationsIn(c, keys, number) else found == found0
  {
    found, ok := found0, true;
    ghost var all := seen;
    for i := 0 to |keys|
      invariant all == seen + ContinuationsIn(c, keys[..i], number)
      invariant Agree(all)
      invariant found.value == "" <==> all == {}
      invariant if found.value != "" then found in all else found == found0
    {
      var value := ContinuationText(c, keys[i].0, number);
      OneMoreContinuation(c, keys, i, number);
      if value == "" {
        continue;
      }
      var next := Continuation(value, keys[i].1);
      if found.value != "" && (found.value != value || found.key != keys[i].1) {
        Disagree(seen + ContinuationsIn(c, keys, number), found, next);
        ok := false;
        return;
      }
      all := all + {next};
      found := next;
    }
    assert keys[..|keys|] == keys;
  }

  lemma Disagree<T(!new)>(s: set<T>, x: T, y: T)
    requires x in s && y in s && x != y
    ensures !Agree(s)
  {
  }

  lemma OneMoreContinuation(c: Fields, keys: seq<(string, string)>, i: nat, number: string -> string)
    requires i < |keys|
    ensures
      var text := ContinuationText(c, keys[i].0, number);
      var here := if text != "" then {Continuation(text, keys[i].1)} else {};
      && ContinuationsIn(c, keys[..i + 1], number) == ContinuationsIn(c, keys[..i], number) + here
      && ContinuationsIn(c, keys[..i + 1], number) <= ContinuationsIn(c, keys, number)
  {
    assert keys[..i + 1] == keys[..i] + [keys[i]];
    assert forall p | p in keys[..i + 1] :: p in keys;
  }

  lemma OneMoreContainer(payload: Fields, i: nat, number: string -> string)
    requires i < |Containers(payload)|
    ensures FlagsOf(Containers(payload)[..i + 1]) ==
              FlagsOf(Containers(payload)[..i]) + FlagsIn(Containers(payload)[i], FLAG_KEYS)
    ensures FlagsOf(Containers(payload)[..i + 1]) <= Flags(payload)
    ensures ContinuationsOf(Containers(payload)[..i + 1], number) ==
            ContinuationsOf(Containers(payload)[..i], number) +
              ContinuationsIn(Containers(payload)[i], CONTINUATION_KEYS, number)
    ensures ContinuationsOf(Containers(payload)[..i + 1], number) <= Continuations(payload, number)
  {
    var cs := Containers(payload);
    assert cs[..i + 1] == cs[..i] + [cs[i]];
    assert forall c | c in cs[..i + 1] :: c in cs;
  }

  function FlagsOf(cs: seq<Fields>): set<bool> {
    set c, b | c in cs && b in FlagsIn(c, FLAG_KEYS) :: b
  }

  function ContinuationsOf(cs: seq<Fields>, number: string -> string): set<Continuation> {
    set c, x | c in cs && x in ContinuationsIn(c, CONTINUATION_KEYS, number) :: x
  }

  lemma SubsetsAgree<T(!new)>(small: set<T>, large: set<T>)
    requires small <= large && Agree(large)
    ensures Agree(small)
  {
  }

  /** Parsing accepts exactly the consistent responses, and reads off them whether there
      are more pages and where they go on. */
  method Parse(payload: Fields, number: string -> string) returns (parsed: Parsed)
    ensures parsed.Page? <==> Followable(payload, number)
    ensures parsed.Page? ==> (parsed.hasMore <==> MorePages(payload, number))
    ensures parsed.Page? ==>
              parsed.continuation == NO_CONTINUATION || Named(payload, parsed.continuation, number)
    ensures parsed.Page? && parsed.continuation == NO_CONTINUATION ==> !exists x :: Named(payload, x, number)
  {
    CollectedMeans(payload, number);
    parsed := Collect(payload, number);
  }

  /** Collects flags and continuations, container by container. */
  method Collect(payload: Fields, number: string -> string) returns (parsed: Parsed)
    ensures parsed.Page? <==> Consistent(payload, number)
    ensures parsed.Page? ==> parsed.hasMore == Announced(payload, number)
    ensures parsed.Page? ==>
              if Continuations(payload, number) == {} then parsed.continuation == NO_CONTINUATION
              else parsed.continuation in Continuations(payload, number)
  {
    var hasMore, isSet, found := false, false, NO_CONTINUATION;
    var cs := Containers(payload);
    ghost var flags: set<bool>, conts: set<Continuation> := {}, {};
    for i := 0 to |cs|
      invariant flags == FlagsOf(cs[..i]) && conts == ContinuationsOf(cs[..i], number)
      invariant flags <= Flags(payload) && conts <= Continuations(payload, number)
      invariant Agree(flags) && Agree(conts)
      invariant isSet <==> flags != {}
      invariant if isSet then hasMore in flags else hasMore == false
      invariant forall x | x in conts :: x.value != ""
      invariant found.value == "" <==> conts == {}
      invariant if found.value != "" then found in conts else found == NO_CONTINUATION
    {
      var ok;
      OneMoreContainer(payload, i, number);
      ok, isSet, hasMore := ScanFlags(cs[i], FLAG_KEYS, flags, isSet, hasMore);
      flags := flags + FlagsIn(cs[i], FLAG_KEYS);
      if !ok {
        if Agree(Flags(payload)) {
          SubsetsAgree(flags, Flags(payload));
        }
        return Rejected;
      }
      ok, found := ScanContinuations(cs[i], CONTINUATION_KEYS, number, conts, found);
      conts := conts + ContinuationsIn(cs[i], CONTINUATION_KEYS, number);
      if !ok {
        if Agree(Continuations(payload, number)) {
          SubsetsAgree(conts, Continuations(payload, number));
        }
        return Rejected;
      }
    }
    assert cs[..|cs|] == cs;
    assert flags == Flags(payload) && conts == Continuations(payload, number);
    if found.value != "" && !isSet {
      hasMore := true;
    }
    if hasMore && found.value == "" {
      return Rejected;
    }
    parsed := Page(hasMore, found);
  }

  // Following the pages

  /** The object a request carries its parameters or its body in. The caller's object is
      written to, page by page. */
  class RequestMap {
    var entries: Fields

    constructor (entries: Fields)
      ensures this.entries == entries
    {
      this.entries := entries;
    }
  }

  /** A request: GET with its parameters, if any, or another method with a body that is
      an object or something else. */
  datatype Request = Get(params: RequestMap?) | WithBody(body: RequestMap) | WithOther

  datatype Reply = TransportError | Unreadable | Answer(payload: Fields)

  datatype Ending = Complete | PageFailed | NotInjectable | Canceled

  function Carrier(req: Request): RequestMap? {
    match req
    case Get(params) => params
    case WithBody(body) => body
    case WithOther => null
  }

  function Carried(req: Request): Fields
    reads Carrier(req)
  {
    if Carrier(req) == null then map[] else Carrier(req).entries
  }

  /** What a request carries after following `i` continuations: the caller's entries,
      with those continuations put in one after another. */
  function CarriedAfter(base: Fields, followed: seq<Continuation>, i: nat): Fields
    requires i <= |followed|
  {
    if i == 0 then base
    else CarriedAfter(base, followed, i - 1)[followed[i - 1].key := Str(followed[i - 1].value)]
  }

  /** The server's page at an index can be followed. */
  ghost predicate Good(server: nat -> Reply, i: nat, number: string -> string) {
    server(i).Answer? && Followable(server(i).payload, number)
  }

  /** Writes a continuation into the request, in place where there is an object. */
  method InjectInto(req: Request, cont: Continuation) returns (req': Request, ok: bool)
    modifies if Carrier(req) == null then {} else {Carrier(req)}
    ensures ok <==> !req.WithOther?
    ensures ok ==> Carrier(req') != null && Carried(req') == old(Carried(req))[cont.key := Str(cont.value)]
    ensures ok ==> if Carrier(req) != null then req' == req else fresh(Carrier(req')) && req'.Get?
    ensures !ok ==> req' == req
  {
    match req {
      case Get(params) =>
        var target := params;
        if target == null {
          target := new RequestMap(map[]);
        }
        target.entries := target.entries[cont.key := Str(cont.value)];
        return Get(target), true;
      case WithBody(body) =>
        body.entries := body.entries[cont.key := Str(cont.value)];
        return req, true;
      case WithOther =>
        return req, false;
    }
  }

  /** The pages are the server's, in order, and each can be followed. */
  ghost predicate Chain(server: nat -> Reply, pages: seq<Fields>, number: string -> string) {
    forall i: nat | i < |pages| :: Good(server, i, number) && server(i) == Answer(pages[i])
  }

  /** Each request carries the continuations followed before it. */
  ghost predicate SentFrom(base: Fields, followed: seq<Continuation>, sent: seq<Fields>) {
    && |sent| <= |followed| + 1
    && forall i: nat | i < |sent| :: sent[i] == CarriedAfter(base, followed, i)
  }

  /** Each continuation followed is one that its page names and announces. */
  ghost predicate NamedBy(pages: seq<Fields>, followed: seq<Continuation>, number: string -> string) {
    && |followed| <= |pages|
    && forall i: nat | i < |followed| :: MorePages(pages[i], number) && Named(pages[i], followed[i], number)
  }

  /** A prefix of the server's chain of pages: each page can be followed, each but the
      last was followed, and each request carries what was followed before it. */
  ghost predicate Trail(server: nat -> Reply, base: Fields, pages: seq<Fields>, sent: seq<Fields>,
    followed: seq<Continuation>, number: string -> string)
  {
    && |sent| - 1 <= |followed| <= |pages| <= |sent|
    && Chain(server, pages, number)
    && NamedBy(pages, followed, number)
    && SentFrom(base, followed, sent)
  }

  lemma TrailSends(server: nat -> Reply, base: Fields, pages: seq<Fields>, sent: seq<Fields>,
      followed: seq<Continuation>, number: string -> string)
    requires Trail(server, base, pages, sent, followed, number) && |sent| == |followed|
    ensures Trail(server, base, pages, sent + [CarriedAfter(base, followed, |followed|)], followed, number)
  {
  }

  lemma TrailReads(server: nat -> Reply, base: Fields, pages: seq<Fields>, page: Fields, sent: seq<Fields>,
      followed: seq<Continuation>, number: string -> string)
    requires Trail(server, base, pages, sent, followed, number) && |sent| == |pages| + 1
    requires Good(server, |pages|, number) && server(|pages|) == Answer(page)
    ensures Trail(server, base, pages + [page], sent, followed, number)
  {
    forall i: nat | i < |followed|
      ensures MorePages((pages + [page])[i], number) && Named((pages + [page])[i], followed[i], number)
    {
      assert (pages + [page])[i] == pages[i];
    }
  }

  lemma TrailFollows(server: nat -> Reply, base: Fields, pages: seq<Fields>, sent: seq<Fields>,
      followed: seq<Continuation>, next: Continuation, number: string -> string)
    requires Trail(server, base, pages, sent, followed, number) && |pages| == |followed| + 1
    requires MorePages(pages[|followed|], number) && Named(pages[|followed|], next, number)
    ensures Trail(server, base, pages, sent, followed + [next], number)
    ensures CarriedAfter(base, followed + [next], |followed| + 1) ==
            CarriedAfter(base, followed, |followed|)[next.key := Str(next.value)]
  {
    CarriedStays(base, followed, next, |followed|);
    forall i: nat | i < |sent|
      ensures sent[i] == CarriedAfter(base, followed + [next], i)
    {
      CarriedStays(base, followed, next, i);
    }
    forall i: nat | i < |followed| + 1
      ensures MorePages(pages[i], number) && Named(pages[i], (followed + [next])[i], number)
    {
      if i < |followed| {
        assert (followed + [next])[i] == followed[i];
      }
    }
  }

  lemma {:induction false} CarriedStays(base: Fields, followed: seq<Continuation>, next: Continuation, i: nat)
    requires i <= |followed|
    ensures CarriedAfter(base, followed + [next], i) == CarriedAfter(base, followed, i)
  {
    if i > 0 {
      CarriedStays(base, followed, next, i - 1);
    }
  }

  /** One answer of the server, if it can be followed. */
  method ReadPage(reply: Reply, number: string -> string) returns (parsed: Parsed)
    ensures parsed.Page? <==> reply.Answer? && Followable(reply.payload, number)
    ensures parsed.Page? ==> (parsed.hasMore <==> MorePages(reply.payload, number))
    ensures parsed.Page? && parsed.hasMore ==> Named(reply.payload, parsed.continuation, number)
  {
    if !reply.Answer? {
      return Rejected;
    }
    parsed := Parse(reply.payload, number);
  }

  ghost predicate LastGoesOn(pages: seq<Fields>, number: string -> string) {
    pages != [] && MorePages(pages[|pages| - 1], number)
  }

  /** What a request comes to: it fails, its page is the last one, the continuation of
      its page cannot be put into the request, or it has been. */
  datatype Turn = Failed | Last | Stuck | Onward

  /** The pages so far, what each request carried and the continuations put into it. */
  datatype Journey = Journey(pages: seq<Fields>, sent: seq<Fields>, followed: seq<Continuation>)

  ghost predicate OnTrail(server: nat -> Reply, base: Fields, j: Journey, number: string -> string) {
    Trail(server, base, j.pages, j.sent, j.followed, number)
  }

  /** Makes the next request of a journey and, if its page announces a further one,
      prepares the request for that. */
  method TakeTurn(req: Request, server: nat -> Reply, number: string -> string, ghost base: Fields, j: Journey)
    returns (turn: Turn, req': Request, j': Journey)
    requires OnTrail(server, base, j, number) && |j.pages| == |j.sent| == |j.followed|
    requires Carried(req) == CarriedAfter(base, j.followed, |j.followed|)
    modifies if Carrier(req) == null then {} else {Carrier(req)}
    ensures OnTrail(server, base, j', number) && |j'.sent| == |j.sent| + 1
    ensures turn.Failed? ==> |j'.pages| == |j.pages| && !Good(server, |j.pages|, number)
    ensures !turn.Failed? ==> |j'.pages| == |j'.sent|
    ensures turn.Last? ==> !LastGoesOn(j'.pages, number) && |j'.followed| < |j'.pages|
    ensures turn.Stuck? ==> LastGoesOn(j'.pages, number) && j'.followed == j.followed && req.WithOther?
    ensures turn.Onward? ==> LastGoesOn(j'.pages, number) && |j'.followed| == |j'.pages| && !req.WithOther?
    ensures turn.Onward? ==> if Carrier(req) != null then req' == req else fresh(Carrier(req')) && req'.Get?
    ensures !turn.Onward? ==> req' == req && j'.followed == j.followed
    ensures Carried(req') == CarriedAfter(base, j'.followed, |j'.followed|)
  {
    var Journey(pages, sent, followed) := j;
    req' := req;
    TrailSends(server, base, pages, sent, followed, number);
    sent := sent + [Carried(req)];
    var reply := server(|pages|);
    var parsed := ReadPage(reply, number);
    if parsed.Rejected? {
      return Failed, req, Journey(pages, sent, followed);
    }
    TrailReads(server, base, pages, reply.payload, sent, followed, number);
    pages := pages + [reply.payload];
    if !parsed.hasMore {
      return Last, req, Journey(pages, sent, followed);
    }
    var ok;
    req', ok := InjectInto(req, parsed.continuation);
    if !ok {
      return Stuck, req, Journey(pages, sent, followed);
    }
    TrailFollows(server, base, pages, sent, followed, parsed.continuation, number);
    followed := followed + [parsed.continuation];
    return Onward, req', Journey(pages, sent, followed);
  }

  /** Fetches every page it may. */
  method PaginateAll(req: Request, rawLimit: int, server: nat -> Reply, canceled: nat -> bool, number: string -> string)
    returns (journey: Journey, ending: Ending)
    modifies if Carrier(req) == null then {} else {Carrier(req)}
    ensures OnTrail(server, old(Carried(req)), journey, number)
    ensures 1 <= |journey.sent| <= ResolvePageLimit(rawLimit) <= MAX_PAGE_LIMIT
    // How it ends.
    ensures ending.Complete? ==>
              && |journey.pages| == |journey.sent|
              && (LastGoesOn(journey.pages, number) ==> |journey.pages| == ResolvePageLimit(rawLimit))
    ensures ending.PageFailed? ==> |journey.pages| == |journey.sent| - 1 && !Good(server, |journey.pages|, number)
    ensures ending.NotInjectable? ==>
              |journey.sent| == |journey.pages| == 1 && req.WithOther? && LastGoesOn(journey.pages, number)
    ensures ending.Canceled? ==>
              |journey.sent| == |journey.pages| && canceled(|journey.pages|) && LastGoesOn(journey.pages, number)
    // How far the continuations were followed, and what is left in the caller's object.
    ensures |journey.followed| < |journey.pages| <==>
            ending.NotInjectable? || (ending.Complete? && !LastGoesOn(journey.pages, number))
    ensures Carrier(req) != null ==>
              Carried(req) == CarriedAfter(old(Carried(req)), journey.followed, |journey.followed|)
  {
    var limit := ResolvePageLimit(rawLimit);
    journey, ending := Journey([], [], []), Complete;
    var pageCount := 0;
    var current := req;
    ghost var base := Carried(req);
    while true
      invariant pageCount == |journey.pages| == |journey.sent| == |journey.followed| <= limit
      invariant OnTrail(server, base, journey, number)
      invariant pageCount > 0 ==> LastGoesOn(journey.pages, number) && !req.WithOther?
      invariant Carried(current) == CarriedAfter(base, journey.followed, |journey.followed|)
      invariant if Carrier(req) != null then current == req else Carrier(current) != null ==> fresh(Carrier(current))
      invariant current.WithOther? <==> req.WithOther?
      invariant ending == Complete
      decreases limit - pageCount
    {
      pageCount := pageCount + 1;
      if pageCount > limit {
        break;
      }
      var turn;
      turn, current, journey := TakeTurn(current, server, number, base, journey);
      match turn {
        case Failed =>
          ending := PageFailed;
          return;
        case Last =>
          break;
        case Stuck =>
          ending := NotInjectable;
          return;
        case Onward =>
      }
      if canceled(pageCount) {
        ending := Canceled;
        return;
      }
    }
  }

  // What the requests carry

  /** The keys continuations are sent under. */
  predicate IsContinuationKey(key: string) {
    key == "cursor" || key == "next_token" || key == "nextToken"
  }

  ghost predicate ContinuationKeysOnly(followed: seq<Continuation>) {
    forall j: nat | j < |followed| :: IsContinuationKey(followed[j].key)
  }

  /** Whatever pages name as their continuation goes under a continuation key. */
  lemma PagesNameContinuationKeys(pages: seq<Fields>, followed: seq<Continuation>, number: string -> string)
    requires NamedBy(pages, followed, number)
    ensures ContinuationKeysOnly(followed)
  {
  }

  /** However many pages are followed, only continuation keys of the caller's object
      change, and the request for a page carries the continuation of the page before. */
  lemma {:induction false} OnlyContinuationsChange(base: Fields, followed: seq<Continuation>, i: nat)
    requires i <= |followed| && ContinuationKeysOnly(followed)
    ensures
      var carried := CarriedAfter(base, followed, i);
      && (forall key | !IsContinuationKey(key) :: key in carried <==> key in base)
      && (forall key | !IsContinuationKey(key) && key in base :: carried[key] == base[key])
      && (i > 0 ==> followed[i - 1].key in carried && carried[followed[i - 1].key] == Str(followed[i - 1].value))
  {
    if i > 0 {
      OnlyContinuationsChange(base, followed, i - 1);
    }
  }

  ghost predicate UsedBefore(followed: seq<Continuation>, i: nat, key: string)
    requires i <= |followed|
  {
    exists j: nat :: j < i && followed[j].key == key
  }

  /** A key once used for a continuation stays in the request. */
  lemma {:induction false} UsedKeysStay(base: Fields, followed: seq<Continuation>, i: nat, key: string)
    requires i <= |followed|
    ensures key in CarriedAfter(base, followed, i) <==> key in base || UsedBefore(followed, i, key)
  {
    if i > 0 {
      UsedKeysStay(base, followed, i - 1, key);
    }
  }

  lemma {:induction false} UnusedKeysStay(base: Fields, followed: seq<Continuation>, i: nat, key: string)
    requires i <= |followed| && !UsedBefore(followed, i, key)
    ensures key in base ==> key in CarriedAfter(base, followed, i) && CarriedAfter(base, followed, i)[key] == base[key]
  {
    if i > 0 {
      assert !UsedBefore(followed, i - 1, key);
      UnusedKeysStay(base, followed, i - 1, key);
    }
  }

  ghost predicate OneKey(followed: seq<Continuation>, i: nat, key: string)
    requires i <= |followed|
  {
    forall j: nat | j < i :: followed[j].key == key
  }

  /** All the continuation keys of some entries are one. */
  ghost predicate NoOtherKey(entries: Fields, key: string) {
    forall k | IsContinuationKey(k) && k in entries :: k == key
  }

  /** A request carries only the continuation of the page before if and only if every
      earlier page used the same request key and so did the caller, if he gave one.
      Otherwise the stale continuation of an earlier page, or the caller's own, goes
      along. */
  lemma CarriesOneContinuationIff(base: Fields, followed: seq<Continuation>, i: nat)
    requires 0 < i <= |followed| && ContinuationKeysOnly(followed)
    ensures
      var last, carried := followed[i - 1], CarriedAfter(base, followed, i);
      && (NoOtherKey(carried, last.key) <==> OneKey(followed, i, last.key) && NoOtherKey(base, last.key))
      && (OneKey(followed, i, last.key) ==> carried == base[last.key := Str(last.value)])
  {
    var last, carried := followed[i - 1], CarriedAfter(base, followed, i);
    OnlyContinuationsChange(base, followed, i);
    forall key
      ensures key in carried <==> key in base || UsedBefore(followed, i, key)
    {
      UsedKeysStay(base, followed, i, key);
    }
    if OneKey(followed, i, last.key) {
      forall key | key in carried && key != last.key
        ensures carried[key] == base[key]
      {
        UnusedKeysStay(base, followed, i, key);
      }
      assert carried == base[last.key := Str(last.value)];
    } else {
      var j: nat :| j < i && followed[j].key != last.key;
      assert UsedBefore(followed, i, followed[j].key);
    }
  }

  /** Two pages that spell their continuations differently: the third request carries
      both. */
  lemma StaleContinuationGoesAlong(number: string -> string)
    ensures
      var pages := [map["nextCursor" := Str("1")], map["nextToken" := Str("2")]];
      var followed := [Continuation("1", "cursor"), Continuation("2", "nextToken")];
      && NamedBy(pages, followed, number)
      && CarriedAfter(map[], followed, 2) == map["cursor" := Str("1"), "nextToken" := Str("2")]
  {
    var first: Fields, second: Fields := map["nextCursor" := Str("1")], map["nextToken" := Str("2")];
    SingleFieldNames(first, "nextCursor", "1", "cursor", number);
    SingleFieldNames(second, "nextToken", "2", "nextToken", number);
    TwoKeysStay(Continuation("1", "cursor"), Continuation("2", "nextToken"));
  }

  lemma TwoKeysStay(a: Continuation, b: Continuation)
    requires a.key != b.key
    ensures CarriedAfter(map[], [a, b], 2) == map[a.key := Str(a.value), b.key := Str(b.value)]
  {
    assert CarriedAfter(map[], [a, b], 1) == map[a.key := Str(a.value)];
  }

  lemma SingleFieldNames(page: Fields, key: string, value: string, requestKey: string, number: string -> string)
    requires page == map[key := Str(value)] && value != ""
    requires (key, requestKey) in {("nextCursor", "cursor"), ("nextToken", "nextToken")}
    ensures Named(page, Continuation(value, requestKey), number) && MorePages(page, number)
  {
    assert Named(page, Continuation(value, requestKey), number);
    assert "has_more" !in page && "hasMore" !in page && "result" !in page;
  }
}
