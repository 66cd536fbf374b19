/** The string operations of Go's standard library that the repository leans on,
    written over sequences of characters. */
module GoStrings {

  /** Unicode White_Space, the set `strings.TrimSpace` removes. */
  predicate IsSpace(c: char) {
    var n := c as int;
    || 9 <= n <= 13 || n == 32 || n == 0x85 || n == 0xA0 || n == 0x1680
    || 0x2000 <= n <= 0x200A || n == 0x2028 || n == 0x2029 || n == 0x202F
    || n == 0x205F || n == 0x3000
  }

  function TrimLeft(s: string): string {
    if s != "" && IsSpace(s[0]) then TrimLeft(s[1..]) else s
  }

  function TrimRight(s: string): string {
    if s != "" && IsSpace(s[|s| - 1]) then TrimRight(s[..|s| - 1]) else s
  }

  function TrimSpace(s: string): string {
    TrimRight(TrimLeft(s))
  }

  predicate Blank(s: string) {
    TrimSpace(s) == ""
  }

  /** `t` stands in `s` at index `i`. */
  predicate OccursAt(s: string, t: string, i: nat) {
    i + |t| <= |s| && s[i..i + |t|] == t
  }

  predicate Contains(s: string, t: string) {
    exists i: nat | i <= |s| :: OccursAt(s, t, i)
  }

  predicate HasPrefix(s: string, t: string) {
    OccursAt(s, t, 0)
  }

  predicate HasSuffix(s: string, t: string) {
    |t| <= |s| && s[|s| - |t|..] == t
  }

  /** `strings.ReplaceAll` for a non-empty `target`: leftmost, non-overlapping. */
  function ReplaceAll(s: string, target: string, with: string): string
    requires target != ""
  {
    if |s| < |target| then s
    else if HasPrefix(s, target) then with + ReplaceAll(s[|target|..], target, with)
    else [s[0]] + ReplaceAll(s[1..], target, with)
  }

  /** Decimal digits of a natural number. */
  function Decimal(n: nat): string
    ensures Decimal(n) != ""
  {
    if n < 10 then [Digit(n)] else Decimal(n / 10) + [Digit(n % 10)]
  }

  function Digit(d: nat): char
    requires d < 10
  {
    "0123456789"[d]
  }

  lemma PrefixChars(s: string, t: string)
    requires HasPrefix(s, t)
    ensures |t| <= |s| && forall k | 0 <= k < |t| :: s[k] == t[k]
  {
    assert forall k | 0 <= k < |t| :: s[0..|t|][k] == s[k];
  }

  lemma NotPrefix(s: string, t: string, k: nat)
    requires k < |t| && (k < |s| ==> s[k] != t[k])
    ensures !HasPrefix(s, t)
  {
    assert |t| <= |s| ==> s[0..|t|][k] == s[k];
  }

  lemma NotSuffix(s: string, t: string, k: nat)
    requires k < |t| && (|t| <= |s| ==> s[|s| - |t| + k] != t[k])
    ensures !HasSuffix(s, t)
  {
    assert |t| <= |s| ==> s[|s| - |t|..][k] == s[|s| - |t| + k];
  }

  lemma TrimRightEnds(s: string)
    ensures TrimRight(s) <= s
    ensures TrimRight(s) != "" ==> !IsSpace(TrimRight(s)[|TrimRight(s)| - 1])
  {
  }

  lemma TrimLeftStarts(s: string)
    ensures TrimLeft(s) != "" ==> !IsSpace(TrimLeft(s)[0])
  {
  }

  /** Trimming twice is trimming once. */
  lemma TrimSpaceIdempotent(s: string)
    ensures TrimSpace(TrimSpace(s)) == TrimSpace(s)
  {
    var t := TrimSpace(s);
    TrimLeftStarts(s);
    TrimRightEnds(TrimLeft(s));
    if t != "" {
      assert t[0] == TrimLeft(s)[0];
      assert TrimLeft(t) == t;
      assert TrimRight(t) == t;
    }
  }

  /** An occurrence in the tail is an occurrence in the whole. */
  lemma ContainsConcatRight(a: string, b: string, t: string)
    requires Contains(b, t)
    ensures Contains(a + b, t)
  {
    var i: nat :| i <= |b| && OccursAt(b, t, i);
    assert (a + b)[|a| + i..|a| + i + |t|] == t;
    assert OccursAt(a + b, t, |a| + i);
  }

  lemma ContainsConcatLeft(a: string, b: string, t: string)
    requires Contains(a, t)
    ensures Contains(a + b, t)
  {
    var i: nat :| i <= |a| && OccursAt(a, t, i);
    assert (a + b)[i..i + |t|] == t;
    assert OccursAt(a + b, t, i);
  }

  /** Different numbers have different decimal texts. */
  lemma {:induction false} DecimalInjective(m: nat, n: nat)
    requires Decimal(m) == Decimal(n)
    ensures m == n
  {
    var a, b := Decimal(m), Decimal(n);
    assert a[|a| - 1] == Digit(m % 10);
    assert b[|b| - 1] == Digit(n % 10);
    assert m % 10 == n % 10;
    if m < 10 || n < 10 {
      assert |a| == 1;
    } else {
      assert a[..|a| - 1] == Decimal(m / 10);
      assert b[..|b| - 1] == Decimal(n / 10);
      DecimalInjective(m / 10, n / 10);
    }
  }
}
