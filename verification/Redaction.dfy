/** Removal of a runtime token from a decoded control response
    (internal/app/event_personal_command.go). */
module Redaction {
  import opened Collections
  import opened GoStrings
  import opened Json

  const MARKER := "<redacted-runtime-token>"

  /** A token without angle brackets. */
  predicate Bracketless(token: string) {
    token != "" && '<' !in token && '>' !in token
  }

  function RedactString(s: string, token: string): string
    requires token != ""
  {
    ReplaceAll(s, token, MARKER)
  }

  /** The token occurs in some string or some key of the document. */
  predicate Occurs(v: Value, token: string) {
    match v
    case Str(s) => Contains(s, token)
    case Arr(items) => exists i | 0 <= i < |items| :: Occurs(items[i], token)
    case Obj(fields) => exists k | k in fields :: Contains(k, token) || Occurs(fields[k], token)
    case _ => false
  }

  /** `r` is `v` with every string and every key redacted. Two keys of one object
      may be redacted to the same key; then one of their values is kept. */
  ghost predicate Redacts(v: Value, r: Value, token: string)
    requires token != ""
    decreases v, 1
  {
    match v
    case Str(s) => r == Str(RedactString(s, token))
    case Arr(items) =>
      && r.Arr? && |r.items| == |items|
      && forall i | 0 <= i < |items| :: Redacts(items[i], r.items[i], token)
    case Obj(fields) => r.Obj? && RedactsFields(v, fields.Keys, r.fields, token)
    case _ => r == v
  }

  /** `out` holds the redaction of the fields named in `keys`. */
  ghost predicate RedactsFields(v: Value, keys: set<string>, out: map<string, Value>, token: string)
    requires token != "" && v.Obj? && keys <= v.fields.Keys
    decreases v, 0
  {
    && (forall k | k in keys :: RedactString(k, token) in out)
    && (forall k' | k' in out ::
          exists k | k in keys :: RedactString(k, token) == k' && Redacts(v.fields[k], out[k'], token))
  }

  // Which tokens survive

  /** The token begins with the end of the marker, which then runs on into it. */
  predicate StartsInMarker(token: string) {
    exists k | 0 < k < |token| && k <= |MARKER| :: token[..k] == MARKER[|MARKER| - k..]
  }

  /** The token, cut at `k`, runs into the marker that replaces it: what stands before the
      cut is left alone, because the token does not occur any earlier. */
  predicate RunsIntoMarkerAt(token: string, k: nat)
    requires k <= |token|
  {
    && (token[k..] <= MARKER || MARKER <= token[k..])
    && !exists j: nat | j < k :: OccursAt(token[..k] + token, token, j)
  }

  predicate RunsIntoMarker(token: string) {
    exists k | 0 < k < |token| :: RunsIntoMarkerAt(token, k)
  }

  /** The tokens that some redacted text still shows. This is about the token alone. */
  predicate Survives(token: string) {
    Contains(MARKER, token) || StartsInMarker(token) || RunsIntoMarker(token)
  }

  // Strings

  lemma OccursBehind(s: string, token: string, j: nat)
    requires 0 < j && s != ""
    ensures OccursAt(s, token, j) <==> OccursAt(s[1..], token, j - 1)
  {
    if j + |token| <= |s| {
      assert s[1..][j - 1..j - 1 + |token|] == s[j..j + |token|];
    }
  }

  lemma OccursWithin(s: string, n: nat, token: string, j: nat)
    requires j + |token| <= n <= |s|
    ensures OccursAt(s, token, j) <==> OccursAt(s[..n], token, j)
  {
    assert s[..n][j..j + |token|] == s[j..j + |token|];
  }

  /** The first place of the token, where the scan puts the first marker, or the length. */
  function FirstPlace(s: string, token: string): (k: nat)
    requires token != ""
    ensures k <= |s|
  {
    if |s| < |token| then |s|
    else if HasPrefix(s, token) then 0
    else 1 + FirstPlace(s[1..], token)
  }

  lemma {:induction false} FirstPlaceIsFirst(s: string, token: string)
    requires token != ""
    ensures FirstPlace(s, token) < |s| ==> OccursAt(s, token, FirstPlace(s, token))
    ensures forall j: nat | j < FirstPlace(s, token) :: !OccursAt(s, token, j)
  {
    if |s| >= |token| && !HasPrefix(s, token) {
      FirstPlaceIsFirst(s[1..], token);
      var k := FirstPlace(s, token);
      OccursBehind(s, token, k);
      forall j: nat | j < k
        ensures !OccursAt(s, token, j)
      {
        if j > 0 {
          OccursBehind(s, token, j);
        }
      }
    }
  }

  /** A string without the token is left alone. */
  lemma {:induction false} NotFoundIsKept(s: string, token: string)
    requires token != "" && FirstPlace(s, token) == |s|
    ensures RedactString(s, token) == s
  {
    if |s| >= |token| {
      NotFoundIsKept(s[1..], token);
      assert s == [s[0]] + s[1..];
    }
  }

  /** Up to the first place of the token a string is left alone. */
  lemma {:induction false} FoundIsReplaced(s: string, token: string)
    requires token != "" && FirstPlace(s, token) < |s|
    ensures
      var k := FirstPlace(s, token);
      && k + |token| <= |s|
      && RedactString(s, token) == s[..k] + (MARKER + RedactString(s[k + |token|..], token))
  {
    var k, r := FirstPlace(s, token), RedactString(s, token);
    if HasPrefix(s, token) {
      assert r == MARKER + RedactString(s[|token|..], token);
      assert s[..0] + r == r;
    } else {
      FoundIsReplaced(s[1..], token);
      var tail := MARKER + RedactString(s[k + |token|..], token);
      assert s[1..][k - 1 + |token|..] == s[k + |token|..];
      assert RedactString(s[1..], token) == s[1..][..k - 1] + tail;
      assert r == [s[0]] + (s[1..][..k - 1] + tail);
      PrependPrefix(s, k, tail);
    }
  }

  lemma PrependPrefix(s: string, k: nat, tail: string)
    requires 0 < k <= |s|
    ensures [s[0]] + (s[1..][..k - 1] + tail) == s[..k] + tail
  {
    assert [s[0]] + s[1..][..k - 1] == s[..k];
  }

  lemma FrontSplits(head: string, rest: string, token: string)
    requires HasPrefix(head + (MARKER + rest), token)
    ensures |token| <= |head| ==> HasPrefix(head, token)
    ensures |token| > |head| ==>
              && token[..|head|] == head
              && (token[|head|..] <= MARKER || MARKER <= token[|head|..])
  {
    var whole, k := head + (MARKER + rest), |head|;
    assert token == whole[..|token|];
    if |token| <= k {
      assert whole[..|token|] == head[..|token|];
    } else {
      assert token[..k] == whole[..k] == head;
      var tail, n := token[k..], |token| - k;
      assert tail == (MARKER + rest)[..n];
      if n <= |MARKER| {
        assert tail == MARKER[..n];
      } else {
        assert tail == MARKER + rest[..n - |MARKER|];
      }
    }
  }

  lemma NotInFront(s: string, k: nat, token: string)
    requires k <= |s| && !HasPrefix(s, token)
    ensures !HasPrefix(s[..k], token)
  {
    assert |token| <= k ==> s[..k][0..|token|] == s[0..|token|];
  }

  /** A token at the very front of a redacted string that did not start with it. */
  lemma FrontRunsIntoMarker(s: string, token: string)
    requires token != "" && HasPrefix(RedactString(s, token), token) && !HasPrefix(s, token)
    ensures RunsIntoMarker(token)
  {
    var k, n := FirstPlace(s, token), |token|;
    FirstPlaceIsFirst(s, token);
    if k == |s| {
      NotFoundIsKept(s, token);
    }
    assert 0 < k < |s|;
    FoundIsReplaced(s, token);
    FrontSplits(s[..k], RedactString(s[k + n..], token), token);
    NotInFront(s, k, token);
    NothingEarlier(s, k, token);
  }

  lemma NothingEarlier(s: string, k: nat, token: string)
    requires OccursAt(s, token, k) && k <= |token| && token[..k] == s[..k]
    requires forall j: nat | j < k :: !OccursAt(s, token, j)
    requires token[k..] <= MARKER || MARKER <= token[k..]
    ensures RunsIntoMarkerAt(token, k)
  {
    var n := |token|;
    assert s[..k + n] == s[..k] + s[k..k + n] == token[..k] + token;
    forall j: nat | j < k
      ensures !OccursAt(token[..k] + token, token, j)
    {
      OccursWithin(s, k + n, token, j);
    }
  }

  lemma SliceBehind(head: string, rest: string, i: nat, n: nat)
    requires i + n <= |rest|
    ensures (head + rest)[|head| + i..|head| + i + n] == rest[i..i + n]
  {
    var long, short := (head + rest)[|head| + i..|head| + i + n], rest[i..i + n];
    assert forall k | 0 <= k < n :: long[k] == short[k];
  }

  lemma SliceAcross(head: string, rest: string, i: nat, token: string)
    requires i < |head| < i + |token| && OccursAt(head + rest, token, i)
    ensures token[..|head| - i] == head[i..]
  {
    var whole := head + rest;
    assert forall k | 0 <= k < |head| - i :: token[k] == whole[i..i + |token|][k] && whole[i + k] == head[i..][k];
  }

  /** An occurrence behind a marker, or reaching out of one. */
  lemma OccurrenceAfterMarker(rest: string, token: string)
    requires token != "" && Contains(MARKER + rest, token)
    ensures Contains(MARKER, token) || StartsInMarker(token) || Contains(rest, token)
  {
    var whole, m := MARKER + rest, |MARKER|;
    var i: nat :| i <= |whole| && OccursAt(whole, token, i);
    if i >= m {
      SliceBehind(MARKER, rest, i - m, |token|);
      assert OccursAt(rest, token, i - m);
    } else if i + |token| <= m {
      assert MARKER[i..i + |token|] == whole[i..i + |token|];
      assert OccursAt(MARKER, token, i);
    } else {
      SliceAcross(MARKER, rest, i, token);
    }
  }

  /** Shifting the head off a string keeps every occurrence but one at index 0. */
  lemma OccurrenceAfterHead(c: char, rest: string, token: string)
    requires Contains([c] + rest, token)
    ensures HasPrefix([c] + rest, token) || Contains(rest, token)
  {
    var whole := [c] + rest;
    var i: nat :| i <= |whole| && OccursAt(whole, token, i);
    if i > 0 {
      assert rest[i - 1..i - 1 + |token|] == whole[i..i + |token|];
      assert OccursAt(rest, token, i - 1);
    }
  }

  lemma {:induction false} ShownSurvives(s: string, token: string)
    requires token != "" && Contains(RedactString(s, token), token)
    ensures Survives(token)
  {
    if |s| < |token| {
    } else if HasPrefix(s, token) {
      OccurrenceAfterMarker(RedactString(s[|token|..], token), token);
      if Contains(RedactString(s[|token|..], token), token) {
        ShownSurvives(s[|token|..], token);
      }
    } else {
      OccurrenceAfterHead(s[0], RedactString(s[1..], token), token);
      if Contains(RedactString(s[1..], token), token) {
        ShownSurvives(s[1..], token);
      } else {
        FrontRunsIntoMarker(s, token);
      }
    }
  }

  /** For every token: a redacted string shows it only if the string held it and it can
      survive at all; and it always does where the marker text itself contains it. */
  lemma RedactStringShowsToken(s: string, token: string)
    requires token != ""
    ensures Contains(RedactString(s, token), token) ==> Contains(s, token) && Survives(token)
    ensures Contains(s, token) && Contains(MARKER, token) ==> Contains(RedactString(s, token), token)
  {
    FirstPlaceFinds(s, token);
    if !Contains(s, token) {
      NotFoundIsKept(s, token);
    } else if Contains(MARKER, token) {
      var k := FirstPlace(s, token);
      FoundIsReplaced(s, token);
      MarkerShows(s[..k], RedactString(s[k + |token|..], token), token);
    }
    if Contains(RedactString(s, token), token) {
      ShownSurvives(s, token);
    }
  }

  lemma MarkerShows(head: string, rest: string, token: string)
    requires Contains(MARKER, token)
    ensures Contains(head + (MARKER + rest), token)
  {
    ContainsConcatLeft(MARKER, rest, token);
    ContainsConcatRight(head, MARKER + rest, token);
  }

  lemma FirstPlaceFinds(s: string, token: string)
    requires token != ""
    ensures FirstPlace(s, token) < |s| <==> Contains(s, token)
  {
    FirstPlaceIsFirst(s, token);
    if Contains(s, token) {
      var i: nat :| i <= |s| && OccursAt(s, token, i);
    }
  }

  lemma ShortIsKept(s: string, token: string)
    requires |s| < |token|
    ensures RedactString(s, token) == s
  {
  }

  lemma StartsInMarkerShows(token: string, k: nat)
    requires 0 < k < |token| && k <= |MARKER| && token[..k] == MARKER[|MARKER| - k..]
    ensures Contains(RedactString(token + token[k..], token), token)
  {
    var s, rest := token + token[k..], token[k..];
    assert HasPrefix(s, token) && s[|token|..] == rest;
    ShortIsKept(rest, token);
    assert RedactString(s, token) == MARKER + rest;
    var i := |MARKER| - k;
    assert (MARKER + rest)[i..i + |token|] == MARKER[i..] + rest == token;
    assert OccursAt(MARKER + rest, token, i);
  }

  lemma RunsIntoMarkerShows(token: string, k: nat)
    requires 0 < k < |token| && RunsIntoMarkerAt(token, k)
    ensures exists s :: Contains(RedactString(s, token), token)
  {
    var rest := if MARKER <= token[k..] then token[k + |MARKER|..] else "";
    var s := token[..k] + token + rest;
    RedactedOnce(token, k, rest);
    assert token[k..] <= MARKER + rest;
    MarkerCompletes(token, k, rest);
    assert Contains(RedactString(s, token), token);
  }

  lemma RedactedOnce(token: string, k: nat, rest: string)
    requires 0 < k < |token| && RunsIntoMarkerAt(token, k) && |rest| < |token|
    ensures RedactString(token[..k] + token + rest, token) == token[..k] + (MARKER + rest)
  {
    var start := token[..k] + token;
    var s := start + rest;
    assert s[..|start|] == start && s[k..k + |token|] == token;
    forall j: nat | j < k
      ensures !OccursAt(s, token, j)
    {
      OccursWithin(s, |start|, token, j);
    }
    FirstPlaceIs(s, token, k);
    FoundIsReplaced(s, token);
    assert s[..k] == token[..k] && s[k + |token|..] == rest;
    ShortIsKept(rest, token);
  }

  lemma MarkerCompletes(token: string, k: nat, rest: string)
    requires k <= |token| && token[k..] <= MARKER + rest
    ensures Contains(token[..k] + (MARKER + rest), token)
  {
    var r := token[..k] + (MARKER + rest);
    assert r[0..|token|] == token[..k] + (MARKER + rest)[..|token| - k] == token;
    assert OccursAt(r, token, 0);
  }

  lemma FirstPlaceIs(s: string, token: string, k: nat)
    requires token != "" && OccursAt(s, token, k) && forall j: nat | j < k :: !OccursAt(s, token, j)
    ensures FirstPlace(s, token) == k
  {
    FirstPlaceIsFirst(s, token);
  }

  /** Exactly the tokens with that property are shown by some redacted string. */
  lemma TokenSurvivesIff(token: string)
    requires token != ""
    ensures (exists s :: Contains(RedactString(s, token), token)) <==> Survives(token)
  {
    if s :| Contains(RedactString(s, token), token) {
      ShownSurvives(s, token);
    }
    if Contains(MARKER, token) {
      assert token[0..|token|] == token && OccursAt(token, token, 0);
      RedactStringShowsToken(token, token);
      assert Contains(RedactString(token, token), token);
    }
    if StartsInMarker(token) {
      var k :| 0 < k < |token| && k <= |MARKER| && token[..k] == MARKER[|MARKER| - k..];
      StartsInMarkerShows(token, k);
    }
    if RunsIntoMarker(token) {
      var k :| 0 < k < |token| && RunsIntoMarkerAt(token, k);
      RunsIntoMarkerShows(token, k);
    }
  }

  /** A token without angle brackets survives only inside the marker text. */
  lemma BracketlessSurvivesIff(token: string)
    requires Bracketless(token)
    ensures Survives(token) <==> Contains(MARKER, token)
  {
    forall k | 0 < k < |token|
      ensures k <= |MARKER| ==> token[..k] != MARKER[|MARKER| - k..]
      ensures !RunsIntoMarkerAt(token, k)
    {
      assert token[k - 1] in token && token[k] in token;
      assert token[..k][k - 1] == token[k - 1];
      assert k <= |MARKER| ==> MARKER[|MARKER| - k..][k - 1] == MARKER[|MARKER| - 1] == '>';
      assert token[k..][0] == token[k] && MARKER[0] == '<';
    }
  }

  /** Replacing a token that is not longer than the marker never shortens a string, and
      one that is not shorter never lengthens it. */
  lemma {:induction false} RedactStringLength(s: string, token: string)
    requires token != ""
    ensures |token| <= |MARKER| ==> |RedactString(s, token)| >= |s|
    ensures |token| >= |MARKER| ==> |RedactString(s, token)| <= |s|
  {
    if |s| < |token| {
    } else if HasPrefix(s, token) {
      RedactStringLength(s[|token|..], token);
    } else {
      RedactStringLength(s[1..], token);
    }
  }

  /** A string is changed exactly when it holds the token, unless the token is the marker
      itself. */
  lemma {:induction false} RedactStringChanges(s: string, token: string)
    requires token != ""
    ensures RedactString(s, token) != s <==> Contains(s, token) && token != MARKER
  {
    var r := RedactString(s, token);
    if |s| < |token| {
    } else if HasPrefix(s, token) {
      var rest := s[|token|..];
      assert s == token + rest && r == MARKER + RedactString(rest, token);
      RedactStringChanges(rest, token);
      RedactStringLength(rest, token);
      if |token| == |MARKER| {
        assert s[..|token|] == token && r[..|MARKER|] == MARKER;
      }
    } else {
      assert s == [s[0]] + s[1..];
      RedactStringChanges(s[1..], token);
      assert r[1..] == RedactString(s[1..], token);
      if Contains(s, token) {
        OccurrenceAfterHead(s[0], s[1..], token);
      }
      if Contains(s[1..], token) {
        ContainsConcatRight([s[0]], s[1..], token);
      }
    }
  }

  /** A token that is part of the marker text survives. */
  lemma MarkerTokenSurvives()
    ensures RedactString("token", "token") == MARKER && Contains(MARKER, "token")
  {
    assert "token"[0..5] == "token" && "token"[5..] == "";
    ShortIsKept("", "token");
    assert MARKER[18..23] == "token";
    assert OccursAt(MARKER, "token", 18);
  }

  /** A token with a bracket can survive: the marker's own edge completes it. */
  lemma BracketTokenSurvives()
    ensures RedactString("xx<", "x<") == "x" + MARKER
    ensures Contains(RedactString("xx<", "x<"), "x<")
  {
    var s, token := "xx<", "x<";
    assert s[0..2] == "xx";
    assert s[1..] == "x<";
    assert s[1..][0..2] == token;
    assert s[1..][2..] == "";
    assert RedactString(s[1..], token) == MARKER + RedactString("", token);
    assert RedactString("", token) == "";
    assert RedactString(s, token) == "x" + MARKER;
    assert OccursAt("x" + MARKER, token, 0) by {
      assert ("x" + MARKER)[0..2] == token;
    }
  }

  // Documents

  /** Every member of a redacted object comes from a member of the original. */
  lemma FieldOrigin(v: Value, r: Value, k': string, token: string) returns (k: string)
    requires token != "" && v.Obj? && Redacts(v, r, token) && k' in r.fields
    ensures k in v.fields && RedactString(k, token) == k' && Redacts(v.fields[k], r.fields[k'], token)
  {
    assert RedactsFields(v, v.fields.Keys, r.fields, token);
    k :| k in v.fields.Keys && RedactString(k, token) == k' && Redacts(v.fields[k], r.fields[k'], token);
  }

  /** Every redaction of a document: it shows the token only if the document held it and
      it can survive at all; and it does where the marker text itself contains it. */
  lemma {:induction false} RedactionShowsToken(v: Value, r: Value, token: string)
    requires token != "" && Redacts(v, r, token)
    ensures Occurs(r, token) ==> Occurs(v, token) && Survives(token)
    ensures Occurs(v, token) && Contains(MARKER, token) ==> Occurs(r, token)
    decreases v
  {
    match v
    case Str(s) => RedactStringShowsToken(s, token);
    case Arr(items) =>
      forall i | 0 <= i < |items|
        ensures Occurs(r.items[i], token) ==> Occurs(items[i], token) && Survives(token)
        ensures Occurs(items[i], token) && Contains(MARKER, token) ==> Occurs(r.items[i], token)
      {
        RedactionShowsToken(items[i], r.items[i], token);
      }
    case Obj(fields) => RedactionShowsTokenInFields(v, r, token);
    case _ =>
  }

  /** The collision of two keys loses a value only under a key that was redacted, so
      it hides the token nowhere else. */
  lemma {:induction false} RedactionShowsTokenInFields(v: Value, r: Value, token: string)
    requires token != "" && v.Obj? && Redacts(v, r, token)
    ensures Occurs(r, token) ==> Occurs(v, token) && Survives(token)
    ensures Occurs(v, token) && Contains(MARKER, token) ==> Occurs(r, token)
    decreases v, 0
  {
    var fields, out := v.fields, r.fields;
    if Occurs(r, token) {
      var k' :| k' in out && (Contains(k', token) || Occurs(out[k'], token));
      var k := FieldOrigin(v, r, k', token);
      RedactStringShowsToken(k, token);
      RedactionShowsToken(fields[k], out[k'], token);
    }
    if Occurs(v, token) && Contains(MARKER, token) {
      var k :| k in fields && (Contains(k, token) || Occurs(fields[k], token));
      var k' := RedactString(k, token);
      RedactStringShowsToken(k, token);
      if !Contains(k', token) {
        var k2 := FieldOrigin(v, r, k', token);
        RedactStringShowsToken(k2, token);
        RedactStringChanges(k2, token);
        RedactStringChanges(k, token);
        RedactionShowsToken(fields[k], out[k'], token);
      }
    }
  }

  /** No redaction of any document shows the token in a string or a key if and only if it
      cannot survive. */
  lemma DocumentsHideIff(token: string)
    requires token != ""
    ensures (forall v, r | Redacts(v, r, token) :: !Occurs(r, token)) <==> !Survives(token)
  {
    forall v, r | Redacts(v, r, token) && Occurs(r, token)
      ensures Survives(token)
    {
      RedactionShowsToken(v, r, token);
    }
    if Survives(token) {
      TokenSurvivesIff(token);
      var s :| Contains(RedactString(s, token), token);
      assert Redacts(Str(s), Str(RedactString(s, token)), token) && Occurs(Str(RedactString(s, token)), token);
    }
  }

  // Numbers and literals, which the walk leaves alone

  /** How a value that is neither a string nor a container is written. */
  function ScalarText(v: Value): string {
    match v
    case Null => "null"
    case Bool(b) => if b then "true" else "false"
    case Number(text) => text
    case _ => ""
  }

  /** The token stands in a number, a truth value or a null of the document. */
  predicate InScalars(v: Value, token: string) {
    match v
    case Str(_) => false
    case Arr(items) => exists i | 0 <= i < |items| :: InScalars(items[i], token)
    case Obj(fields) => exists k | k in fields :: InScalars(fields[k], token)
    case _ => Contains(ScalarText(v), token)
  }

  /** The token stands anywhere in the document: in a string, a key or another scalar. */
  predicate Shows(v: Value, token: string) {
    Occurs(v, token) || InScalars(v, token)
  }

  /** A redaction shows the token in a scalar that is no string only if the document did. */
  lemma {:induction false} ScalarsStay(v: Value, r: Value, token: string)
    requires token != "" && Redacts(v, r, token) && InScalars(r, token)
    ensures InScalars(v, token)
    decreases v
  {
    match v
    case Arr(items) =>
      var i :| 0 <= i < |items| && InScalars(r.items[i], token);
      ScalarsStay(items[i], r.items[i], token);
    case Obj(fields) =>
      var k' :| k' in r.fields && InScalars(r.fields[k'], token);
      var k := FieldOrigin(v, r, k', token);
      ScalarsStay(fields[k], r.fields[k'], token);
    case _ =>
  }

  /** The key whose value is kept under a redacted key: one whose value holds the token in
      a scalar, if there is any. */
  ghost function KeptKey(fields: map<string, Value>, k': string, token: string): (k: string)
    requires token != "" && exists k | k in fields :: RedactString(k, token) == k'
    ensures k in fields && RedactString(k, token) == k'
    ensures (exists other | other in fields :: RedactString(other, token) == k' && InScalars(fields[other], token)) ==>
              InScalars(fields[k], token)
  {
    if exists k | k in fields :: RedactString(k, token) == k' && InScalars(fields[k], token) then
      var k :| k in fields && RedactString(k, token) == k' && InScalars(fields[k], token);
      k
    else
      var k :| k in fields && RedactString(k, token) == k';
      k
  }

  ghost function RedactedKeys(fields: map<string, Value>, token: string): set<string>
    requires token != ""
  {
    set k | k in fields :: RedactString(k, token)
  }

  /** The redaction that the walk gives when it visits the kept keys last. */
  ghost function Keeping(v: Value, token: string): Value
    requires token != ""
  {
    match v
    case Str(s) => Str(RedactString(s, token))
    case Arr(items) => Arr(seq(|items|, i requires 0 <= i < |items| => Keeping(items[i], token)))
    case Obj(fields) =>
      Obj(map k' | k' in RedactedKeys(fields, token) ::
        var k := KeptKey(fields, k', token);
        Keeping(fields[k], token))
    case _ => v
  }

  lemma {:induction false} KeepingRedacts(v: Value, token: string)
    requires token != ""
    ensures Redacts(v, Keeping(v, token), token)
    decreases v
  {
    match v
    case Arr(items) =>
      forall i | 0 <= i < |items|
        ensures Redacts(items[i], Keeping(items[i], token), token)
      {
        KeepingRedacts(items[i], token);
      }
    case Obj(fields) =>
      var out := Keeping(v, token).fields;
      forall k' | k' in out
        ensures exists k | k in fields.Keys :: RedactString(k, token) == k' && Redacts(fields[k], out[k'], token)
      {
        KeepingRedacts(fields[KeptKey(fields, k', token)], token);
      }
    case _ =>
  }

  lemma {:induction false} KeepingKeepsScalars(v: Value, token: string)
    requires token != "" && InScalars(v, token)
    ensures InScalars(Keeping(v, token), token)
    decreases v
  {
    match v
    case Arr(items) =>
      var i :| 0 <= i < |items| && InScalars(items[i], token);
      KeepingKeepsScalars(items[i], token);
      assert Keeping(v, token).items[i] == Keeping(items[i], token);
    case Obj(fields) =>
      var k :| k in fields && InScalars(fields[k], token);
      var k' := RedactString(k, token);
      assert k' in RedactedKeys(fields, token);
      KeepingKeepsScalars(fields[KeptKey(fields, k', token)], token);
      assert Keeping(v, token).fields[k'] == Keeping(fields[KeptKey(fields, k', token)], token);
    case _ =>
  }

  /** Every redaction of a document hides a token that cannot survive, in all of its
      scalars and keys, if and only if no number, truth value or null of the document holds
      it. */
  lemma HidesUnlessScalarIff(v: Value, token: string)
    requires token != "" && !Survives(token)
    ensures (forall r | Redacts(v, r, token) :: !Shows(r, token)) <==> !InScalars(v, token)
  {
    forall r | Redacts(v, r, token) && Shows(r, token)
      ensures InScalars(v, token)
    {
      RedactionShowsToken(v, r, token);
      ScalarsStay(v, r, token);
    }
    if InScalars(v, token) {
      KeepingRedacts(v, token);
      KeepingKeepsScalars(v, token);
      assert Shows(Keeping(v, token), token);
    }
  }

  /** A token that cannot survive, in a document that holds it as a string and as a number:
      the string is replaced, and the number still shows it. */
  lemma NumberStillShows(r: Value)
    requires Redacts(Arr([Str("12"), Number("12")]), r, "12")
    ensures r == Arr([Str(MARKER), Number("12")]) && Shows(r, "12") && !Survives("12")
  {
    var v := Arr([Str("12"), Number("12")]);
    assert Redacts(v.items[0], r.items[0], "12") && Redacts(v.items[1], r.items[1], "12");
    assert "12"[0..2] == "12" && "12"[2..] == "";
    assert HasPrefix("12", "12");
    ShortIsKept("", "12");
    assert RedactString("12", "12") == MARKER + "" == MARKER;
    assert r.items[0] == Str(MARKER) && r.items[1] == Number("12");
    assert r.items == [Str(MARKER), Number("12")];
    assert OccursAt("12", "12", 0);
    assert InScalars(r.items[1], "12");
    BracketlessSurvivesIff("12");
    forall i: nat | i <= |MARKER|
      ensures !OccursAt(MARKER, "12", i)
    {
      NoDigitInMarker(i);
    }
  }

  lemma NoDigitInMarker(i: nat)
    ensures !OccursAt(MARKER, "12", i)
  {
    assert forall k | 0 <= k < |MARKER| :: MARKER[k] != '1';
    assert i + 2 <= |MARKER| ==> MARKER[i..i + 2][0] == MARKER[i];
    assert "12"[0] == '1';
  }

  /** Redaction has something to remove. */
  predicate Leaks(v: Value, token: string) {
    Occurs(v, token) && token != MARKER
  }

  /** A document that does not hold the token is its own and only redaction. */
  lemma {:induction false} RedactionOfCleanIsIdentity(v: Value, r: Value, token: string)
    requires token != ""
    requires Redacts(v, r, token)
    requires !Leaks(v, token)
    ensures r == v
    decreases v
  {
    match v
    case Str(s) => RedactStringChanges(s, token);
    case Arr(items) =>
      forall i | 0 <= i < |items|
        ensures r.items[i] == items[i]
      {
        RedactionOfCleanIsIdentity(items[i], r.items[i], token);
      }
      assert r.items == items;
    case Obj(fields) => RedactionOfCleanFields(v, r, token);
    case _ =>
  }

  lemma CleanMember(v: Value, k: string, token: string)
    requires token != "" && v.Obj? && !Leaks(v, token) && k in v.fields
    ensures !Leaks(v.fields[k], token) && RedactString(k, token) == k
  {
    RedactStringChanges(k, token);
  }

  lemma {:induction false} RedactionOfCleanFields(v: Value, r: Value, token: string)
    requires token != ""
    requires v.Obj? && Redacts(v, r, token)
    requires !Leaks(v, token)
    ensures r == v
    decreases v, 0
  {
    var fields, out := v.fields, r.fields;
    forall k' | k' in out
      ensures k' in fields && out[k'] == fields[k']
    {
      var k := FieldOrigin(v, r, k', token);
      CleanMember(v, k, token);
      assert k == k';
      RedactionOfCleanIsIdentity(fields[k], out[k'], token);
      assert k' in fields && out[k'] == fields[k'];
    }
    forall k | k in fields
      ensures k in out
    {
      CleanMember(v, k, token);
      assert RedactString(k, token) in out by { assert RedactsFields(v, fields.Keys, out, token); }
    }
    assert out.Keys == fields.Keys;
    assert out == fields;
  }

  /** The walk over one response. */
  method RedactValue(v: Value, token: string) returns (r: Value, changed: bool)
    requires token != ""
    ensures Redacts(v, r, token)
    ensures changed <==> Leaks(v, token)
    ensures !changed ==> r == v
    decreases v, 1
  {
    match v
    case Str(s) =>
      RedactStringChanges(s, token);
      var redacted := RedactString(s, token);
      r, changed := Str(redacted), redacted != s;
    case Arr(items) =>
      var a := new Value[|items|](i requires 0 <= i < |items| => items[i]);
      assert a[..] == items;
      changed := RedactArray(a, v, token);
      r := Arr(a[..]);
    case Obj(_) =>
      r, changed := RedactObject(v, token);
    case _ =>
      r, changed := v, false;
  }

  /** The first `n` items are redacted, the others as they were. */
  ghost predicate RedactedUpTo(v: Value, now: seq<Value>, n: nat, token: string)
    requires token != "" && v.Arr? && n <= |v.items|
  {
    && |now| == |v.items|
    && (forall j | 0 <= j < n :: Redacts(v.items[j], now[j], token))
    && (forall j | n <= j < |now| :: now[j] == v.items[j])
  }

  predicate LeaksUpTo(v: Value, n: nat, token: string)
    requires v.Arr? && n <= |v.items|
  {
    exists j | 0 <= j < n :: Leaks(v.items[j], token)
  }

  lemma RedactOneMore(v: Value, now: seq<Value>, n: nat, item: Value, token: string)
    requires token != "" && v.Arr? && n < |v.items| && RedactedUpTo(v, now, n, token)
    requires Redacts(v.items[n], item, token)
    ensures RedactedUpTo(v, now[n := item], n + 1, token)
    ensures LeaksUpTo(v, n + 1, token) <==> LeaksUpTo(v, n, token) || Leaks(v.items[n], token)
  {
  }

  lemma AllRedacted(v: Value, now: seq<Value>, token: string)
    requires token != "" && v.Arr? && RedactedUpTo(v, now, |v.items|, token)
    ensures Redacts(v, Arr(now), token)
    ensures LeaksUpTo(v, |v.items|, token) <==> Leaks(v, token)
    ensures !Leaks(v, token) ==> now == v.items
  {
    if !Leaks(v, token) {
      RedactionOfCleanIsIdentity(v, Arr(now), token);
    }
  }

  /** The items of an array are overwritten in place. */
  method RedactArray(a: array<Value>, ghost v: Value, token: string) returns (changed: bool)
    requires token != "" && v == Arr(a[..])
    modifies a
    ensures Redacts(v, Arr(a[..]), token)
    ensures changed <==> Leaks(v, token)
    ensures !changed ==> a[..] == old(a[..])
    decreases v, 0
  {
    changed := false;
    for i := 0 to a.Length
      invariant RedactedUpTo(v, a[..], i, token)
      invariant changed <==> LeaksUpTo(v, i, token)
    {
      assert a[i] == a[..][i];
      ghost var before := a[..];
      var item, itemChanged := RedactValue(a[i], token);
      assert a[..] == before;
      RedactOneMore(v, before, i, item, token);
      a[i] := item;
      assert a[..] == before[i := item];
      changed := changed || itemChanged;
    }
    AllRedacted(v, a[..], token);
  }

  /** Members are visited in an arbitrary order, as Go's map iteration does. */
  method RedactObject(v: Value, token: string) returns (r: Value, changed: bool)
    requires token != "" && v.Obj?
    ensures Redacts(v, r, token)
    ensures changed <==> Leaks(v, token)
    ensures !changed ==> r == v
    decreases v, 0
  {
    var fields := v.fields;
    var redacted: map<string, Value> := map[];
    var left := fields.Keys;
    changed := false;
    while left != {}
      invariant left <= fields.Keys
      invariant RedactsFields(v, fields.Keys - left, redacted, token)
      invariant changed <==>
                token != MARKER && exists k | k in fields.Keys - left :: Contains(k, token) || Occurs(fields[k], token)
      decreases left
    {
      var key :| key in left;
      var redactedKey := RedactString(key, token);
      RedactStringChanges(key, token);
      var item, itemChanged := RedactValue(fields[key], token);
      FieldAdded(v, fields.Keys - left, redacted, key, item, token);
      assert fields.Keys - (left - {key}) == (fields.Keys - left) + {key};
      redacted := redacted[redactedKey := item];
      changed := changed || itemChanged || redactedKey != key;
      left := left - {key};
    }
    assert fields.Keys - left == fields.Keys;
    r := if changed then Obj(redacted) else v;
    if !changed {
      RedactionOfCleanIsIdentity(v, Obj(redacted), token);
    }
  }

  lemma FieldAdded(v: Value, done: set<string>, out: map<string, Value>, key: string, item: Value, token: string)
    requires token != "" && v.Obj? && done <= v.fields.Keys && key in v.fields
    requires RedactsFields(v, done, out, token)
    requires Redacts(v.fields[key], item, token)
    ensures RedactsFields(v, done + {key}, out[RedactString(key, token) := item], token)
  {
    var fields := v.fields;
    var out' := out[RedactString(key, token) := item];
    forall k' | k' in out'
      ensures exists k | k in done + {key} :: RedactString(k, token) == k' && Redacts(fields[k], out'[k'], token)
    {
      if k' == RedactString(key, token) {
        assert key in done + {key};
      } else {
        var k :| k in done && RedactString(k, token) == k' && Redacts(fields[k], out[k'], token);
        assert k in done + {key};
      }
    }
  }

  /** The body of a response. A document that holds the token in a string or a key is
      written anew from its redaction; any other body, and one that cannot be written, has
      the token replaced in its text, wherever it stands there. */
  method RedactBody(data: string, document: Option<Value>, rawToken: string, encode: Value -> Option<string>)
    returns (out: string)
    ensures data == "" || Blank(rawToken) ==> out == data
    ensures data != "" && !Blank(rawToken) ==>
              var token := TrimSpace(rawToken);
              var replaced := RedactString(data, token);
              if document.Some? && Leaks(document.value, token) then
                exists r ::
                  && Redacts(document.value, r, token)
                  && out == match encode(r) case Some(text) => text case None => replaced
              else out == replaced
  {
    var token := TrimSpace(rawToken);
    if data == "" || token == "" {
      return data;
    }
    if document.Some? {
      var redacted, changed := RedactValue(document.value, token);
      if changed {
        var encoded := encode(redacted);
        if encoded.Some? {
          assert Redacts(document.value, redacted, token);
          return encoded.value;
        }
      }
    }
    out := RedactString(data, token);
  }

  /** Two passes over a response, whatever order the members come in. A token that cannot
      survive leaves no trace and gives the second pass nothing to do; one that the marker
      text contains stays wherever it was; and in any case the second pass changes
      something only where the first one left the token. */
  method RedactTwice(v: Value, token: string) returns (first: Value, changed: bool, second: Value, changedAgain: bool)
    requires token != ""
    ensures changed <==> Leaks(v, token)
    ensures !changed ==> first == v
    ensures Occurs(first, token) ==> Occurs(v, token) && Survives(token)
    ensures !Survives(token) ==> !Occurs(first, token) && second == first
    ensures Occurs(v, token) && Contains(MARKER, token) ==> Occurs(first, token)
    ensures changedAgain <==> Leaks(first, token)
    ensures !changedAgain ==> second == first
  {
    first, changed := RedactValue(v, token);
    RedactionShowsToken(v, first, token);
    second, changedAgain := RedactValue(first, token);
  }
}
