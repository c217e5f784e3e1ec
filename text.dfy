/**
 * String vocabulary shared by the whole model: the digit projection
 * `s.replace(/\D/g, '')`, ASCII lower-casing, substring search (`includes`),
 * JavaScript truthiness of optional strings, and the code-unit order used by
 * the default `Array.prototype.sort`.
 */
module Text {
  import opened Wrappers
  import Sorting

  predicate IsDigit(c: char) {
    '0' <= c <= '9'
  }

  predicate AllDigits(s: string) {
    forall i :: 0 <= i < |s| ==> IsDigit(s[i])
  }

  /** The digits of `s`, in order: every other character removed. */
  function Digits(s: string): (r: string)
    ensures AllDigits(r)
    ensures |r| <= |s|
  {
    if s == [] then []
    else (if IsDigit(s[0]) then [s[0]] else []) + Digits(s[1..])
  }

  lemma {:induction false} DigitsConcat(a: string, b: string)
    ensures Digits(a + b) == Digits(a) + Digits(b)
  {
    if a == [] {
      assert a + b == b;
    } else {
      assert (a + b)[1..] == a[1..] + b;
      DigitsConcat(a[1..], b);
    }
  }

  /** A string made only of digits is its own digit projection. */
  lemma {:induction false} DigitsOfAllDigits(s: string)
    requires AllDigits(s)
    ensures Digits(s) == s
  {
    if s != [] {
      DigitsOfAllDigits(s[1..]);
    }
  }

  /** Removing a character that is not a digit does not change the projection. */
  lemma DigitsSkipsNonDigit(s: string, c: char)
    requires !IsDigit(c)
    ensures Digits([c] + s) == Digits(s)
  {
    assert ([c] + s)[1..] == s;
  }

  function LowerChar(c: char): char {
    if 'A' <= c <= 'Z' then (c as int + 32) as char else c
  }

  /** `toLowerCase`, restricted to ASCII letters. */
  function Lower(s: string): (r: string)
    ensures |r| == |s|
    ensures forall i :: 0 <= i < |s| ==> r[i] == LowerChar(s[i])
  {
    seq(|s|, i requires 0 <= i < |s| => LowerChar(s[i]))
  }

  /** `t` occurs in `s` starting at position `i`. */
  predicate OccursAt(s: string, t: string, i: int) {
    0 <= i && i + |t| <= |s| && s[i..i + |t|] == t
  }

  /** `t` occurs in `s` as a contiguous block. */
  predicate Contains(s: string, t: string) {
    exists i | 0 <= i <= |s| :: OccursAt(s, t, i)
  }

  lemma ContainsEmpty(s: string)
    ensures Contains(s, "")
  {
    assert OccursAt(s, "", 0);
  }

  /** An infix of an infix is an infix. */
  lemma ContainsTransitive(s: string, u: string, t: string)
    requires Contains(s, u) && Contains(u, t)
    ensures Contains(s, t)
  {
    var i :| 0 <= i <= |s| && OccursAt(s, u, i);
    var j :| 0 <= j <= |u| && OccursAt(u, t, j);
    assert s[i..i + |u|] == u && u[j..j + |t|] == t;
    forall k | 0 <= k < |t| ensures s[i + j..i + j + |t|][k] == t[k] {
      assert s[i + j + k] == s[i..i + |u|][j + k] == u[j + k];
      assert u[j + k] == u[j..j + |t|][k];
    }
    assert OccursAt(s, t, i + j);
  }

  /** A non-empty key never occurs in the empty string. */
  lemma NothingInEmpty(t: string)
    requires t != ""
    ensures !Contains("", t)
  {
  }

  /** JavaScript truthiness of an optional string: present and non-empty. */
  predicate Truthy(o: Option<string>) {
    o.Some? && o.value != ""
  }

  /** The optional string when it is truthy, else the default `d`. */
  function OrElse(o: Option<string>, d: string): (r: string)
    ensures Truthy(o) ==> r == o.value
    ensures !Truthy(o) ==> r == d
  {
    if Truthy(o) then o.value else d
  }

  /**
   * `a || b || c || ...` over optional strings, read through truthiness: the
   * first truthy operand, or None when no operand is truthy (JavaScript then
   * yields the last falsy operand, which every caller treats like None).
   */
  function FirstTruthy(os: seq<Option<string>>): (r: Option<string>)
    ensures r.Some? <==> exists i :: 0 <= i < |os| && Truthy(os[i])
    ensures r.Some? ==> r.value != ""
    ensures r.Some? ==>
              exists i :: 0 <= i < |os| && os[i] == r && forall j :: 0 <= j < i ==> !Truthy(os[j])
  {
    if os == [] then None
    else if Truthy(os[0]) then os[0]
    else
      var r := FirstTruthy(os[1..]);
      assert forall i :: 1 <= i < |os| ==> os[i] == os[1..][i - 1];
      if r.Some? then
        ghost var k :| 0 <= k < |os[1..]| && os[1..][k] == r && forall j :: 0 <= j < k ==> !Truthy(os[1..][j]);
        assert os[k + 1] == r;
        r
      else r
  }

  predicate CharLt(a: char, b: char) {
    a < b
  }

  /** The order of the default `Array.prototype.sort` on strings, by character code. */
  predicate StrLe(a: string, b: string) {
    Sorting.LexLe(a, b, CharLt)
  }

  lemma CharLtIsStrict()
    ensures Sorting.StrictTotal(CharLt)
  {
  }

  lemma StrLeProperties()
    ensures Sorting.TotalPreorder(StrLe)
    ensures Sorting.Antisymmetric(StrLe)
  {
    CharLtIsStrict();
    forall a, b ensures StrLe(a, b) || StrLe(b, a) {
      Sorting.LexTotal(a, b, CharLt);
    }
    forall a, b, c | StrLe(a, b) && StrLe(b, c) ensures StrLe(a, c) {
      Sorting.LexTransitive(a, b, c, CharLt);
    }
    forall a, b | StrLe(a, b) && StrLe(b, a) ensures a == b {
      Sorting.LexAntisymmetric(a, b, CharLt);
    }
  }

  function DigitChar(d: nat): (c: char)
    requires d < 10
    ensures IsDigit(c)
  {
    ('0' as int + d) as char
  }

  /** The decimal numeral of `n`, as `String(n)` writes it. */
  function Decimal(n: nat): (r: string)
    ensures r != [] && AllDigits(r)
  {
    if n < 10 then [DigitChar(n)] else Decimal(n / 10) + [DigitChar(n % 10)]
  }
}
