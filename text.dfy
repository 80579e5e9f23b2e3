/**
 * Text helpers shared by the views: prefix and substring tests, the
 * case-insensitive containment of Django's `icontains` lookup, the
 * lexicographic order `order_by('name')` uses, and the decimal text of an id.
 */
module Text {

  predicate StartsWith(s: string, prefix: string) {
    |prefix| <= |s| && s[..|prefix|] == prefix
  }

  /** `needle` occurs somewhere in `hay` (SQL `LIKE '%needle%'`). */
  predicate Contains(hay: string, needle: string) {
    StartsWith(hay, needle) || (hay != [] && Contains(hay[1..], needle))
  }

  /** Every text that has `needle` between a prefix and a suffix contains it. */
  lemma {:induction false} ContainsInfix(pre: string, needle: string, post: string)
    ensures Contains(pre + needle + post, needle)
  {
    if pre == [] {
      assert pre + needle + post == needle + post;
      assert (needle + post)[..|needle|] == needle;
    } else {
      assert (pre + needle + post)[1..] == pre[1..] + needle + post;
      ContainsInfix(pre[1..], needle, post);
    }
  }

  /** A text that contains `needle` has it between a prefix and a suffix. */
  lemma {:induction false} ContainsSplits(hay: string, needle: string) returns (k: nat)
    requires Contains(hay, needle)
    ensures k + |needle| <= |hay| && hay[k..k + |needle|] == needle
  {
    if StartsWith(hay, needle) {
      k := 0;
    } else {
      var k' := ContainsSplits(hay[1..], needle);
      k := k' + 1;
      assert hay[k..k + |needle|] == hay[1..][k'..k' + |needle|];
    }
  }

  /** ASCII case folding: the part of the database's case-insensitive LIKE this model covers. */
  function Lower(c: char): (d: char)
    ensures 'A' <= c <= 'Z' ==> 'a' <= d <= 'z'
    ensures !('A' <= c <= 'Z') ==> d == c
  {
    if 'A' <= c <= 'Z' then (c as int - 'A' as int + 'a' as int) as char else c
  }

  function LowerStr(s: string): (r: string)
    ensures |r| == |s|
    ensures forall i :: 0 <= i < |s| ==> r[i] == Lower(s[i])
  {
    if s == [] then [] else [Lower(s[0])] + LowerStr(s[1..])
  }

  /** Django's `field__icontains=needle`. */
  predicate IContains(hay: string, needle: string) {
    Contains(LowerStr(hay), LowerStr(needle))
  }

  /** Case folding distributes over concatenation. */
  lemma LowerStrAppend(a: string, b: string)
    ensures LowerStr(a + b) == LowerStr(a) + LowerStr(b)
  {
    var l := LowerStr(a) + LowerStr(b);
    assert forall i :: 0 <= i < |a + b| ==> LowerStr(a + b)[i] == l[i];
  }

  /** Folding twice is folding once. */
  lemma LowerStrIdempotent(s: string)
    ensures LowerStr(LowerStr(s)) == LowerStr(s)
  {
    assert forall i :: 0 <= i < |s| ==> LowerStr(LowerStr(s))[i] == LowerStr(s)[i];
  }

  /** `icontains` ignores the case of both the field and the searched text. */
  lemma IContainsIgnoresCase(hay: string, needle: string)
    ensures IContains(hay, needle) == IContains(LowerStr(hay), needle)
    ensures IContains(hay, needle) == IContains(hay, LowerStr(needle))
  {
    LowerStrIdempotent(hay);
    LowerStrIdempotent(needle);
  }

  /** A field that has the searched text anywhere in it, in any case, matches `icontains`. */
  lemma IContainsInfix(pre: string, needle: string, post: string)
    ensures IContains(pre + needle + post, needle)
  {
    LowerStrAppend(pre + needle, post);
    LowerStrAppend(pre, needle);
    ContainsInfix(LowerStr(pre), LowerStr(needle), LowerStr(post));
  }

  /** Lexicographic order on texts by code point; a proper prefix comes first. */
  predicate LexLe(a: string, b: string) {
    if a == [] then true
    else if b == [] then false
    else if a[0] != b[0] then a[0] < b[0]
    else LexLe(a[1..], b[1..])
  }

  lemma {:induction false} LexLeTotal(a: string, b: string)
    ensures LexLe(a, b) || LexLe(b, a)
  {
    if a != [] && b != [] && a[0] == b[0] {
      LexLeTotal(a[1..], b[1..]);
    }
  }

  lemma {:induction false} LexLeTransitive(a: string, b: string, c: string)
    requires LexLe(a, b) && LexLe(b, c)
    ensures LexLe(a, c)
  {
    if a != [] && b != [] && c != [] && a[0] == b[0] && b[0] == c[0] {
      LexLeTransitive(a[1..], b[1..], c[1..]);
    }
  }

  lemma {:induction false} LexLeAntisymmetric(a: string, b: string)
    requires LexLe(a, b) && LexLe(b, a)
    ensures a == b
  {
    if a != [] && b != [] {
      LexLeAntisymmetric(a[1..], b[1..]);
      assert a == [a[0]] + a[1..] && b == [b[0]] + b[1..];
    }
  }

  function Digit(d: nat): (c: char)
    requires d < 10
    ensures '0' <= c <= '9'
  {
    ('0' as int + d) as char
  }

  /** The decimal text of `n` without leading zeros (Python's `str(n)`). */
  function DecimalString(n: nat): (s: string)
    ensures |s| >= 1
    ensures forall i :: 0 <= i < |s| ==> '0' <= s[i] <= '9'
    ensures n >= 10 <==> |s| >= 2
    ensures s[|s| - 1] == Digit(n % 10)
  {
    if n < 10 then [Digit(n)] else DecimalString(n / 10) + [Digit(n % 10)]
  }

  /** Different ids have different decimal texts. */
  lemma {:induction false} DecimalStringInjective(n: nat, m: nat)
    requires DecimalString(n) == DecimalString(m)
    ensures n == m
  {
    var s := DecimalString(n);
    assert Digit(n % 10) == Digit(m % 10);
    if n >= 10 {
      assert DecimalString(n / 10) == s[..|s| - 1] == DecimalString(m / 10);
      DecimalStringInjective(n / 10, m / 10);
    }
  }

  /** Python's `str(n)` for an integer. */
  function IntString(n: int): (s: string)
    ensures n >= 0 ==> s == DecimalString(n)
    ensures n < 0 ==> s == "-" + DecimalString(-n)
    ensures |s| > 0 && (s[0] == '-' <==> n < 0)
    ensures s[0] == '-' || '0' <= s[0] <= '9'
  {
    if n >= 0 then DecimalString(n) else "-" + DecimalString(-n)
  }

  /** Equal texts with the same prefix have equal remainders. */
  lemma CancelPrefix(p: string, a: string, b: string)
    requires p + a == p + b
    ensures a == b
  {
    assert a == (p + a)[|p|..];
    assert b == (p + b)[|p|..];
  }

  /** Different integers have different texts. */
  lemma {:induction false} IntStringInjective(n: int, m: int)
    requires IntString(n) == IntString(m)
    ensures n == m
  {
    assert n < 0 <==> m < 0;
    if n >= 0 {
      DecimalStringInjective(n, m);
    } else {
      NegativeTextInjective(n, m);
    }
  }

  lemma NegativeTextInjective(n: int, m: int)
    requires n < 0 && m < 0 && IntString(n) == IntString(m)
    ensures n == m
  {
    var a: nat, b: nat := -n, -m;
    assert DecimalString(a) == DecimalString(b) by {
      assert IntString(n) == "-" + DecimalString(a) && IntString(m) == "-" + DecimalString(b);
      CancelPrefix("-", DecimalString(a), DecimalString(b));
    }
    DecimalStringInjective(a, b);
  }
}
