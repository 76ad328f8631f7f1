/** Strings as sequences of characters: case-insensitive search, suffix tests,
    decimal rendering and the default string order of `Array.prototype.sort`. */
module Text {

  /** Lower-casing of one character (ASCII letters only). */
  function LowerChar(c: char): (d: char)
    ensures 'A' <= c <= 'Z' ==> d as int == c as int + 32
    ensures !('A' <= c <= 'Z') ==> d == c
    ensures !('A' <= d <= 'Z')
  {
    if 'A' <= c <= 'Z' then (c as int + 32) as char else c
  }

  /** `s.toLowerCase()` / `str.lower()`. */
  function Lower(s: string): (r: string)
    ensures |r| == |s|
    ensures forall i :: 0 <= i < |s| ==> r[i] == LowerChar(s[i])
  {
    if s == [] then [] else [LowerChar(s[0])] + Lower(s[1..])
  }

  lemma {:induction false} LowerIdempotent(s: string)
    ensures Lower(Lower(s)) == Lower(s)
  {
    var once := Lower(s);
    var twice := Lower(once);
    forall i | 0 <= i < |s|
      ensures twice[i] == once[i]
    {
      assert !('A' <= once[i] <= 'Z');
    }
  }

  predicate IsPrefix(p: string, s: string)
  {
    |p| <= |s| && s[..|p|] == p
  }

  /** `s.includes(sub)` / `sub in s`: `sub` occurs at some position of `s`. */
  predicate Contains(s: string, sub: string)
  {
    IsPrefix(sub, s) || (s != [] && Contains(s[1..], sub))
  }

  /** `sub` occurs in `s` starting at position `k`. */
  predicate OccursAt(s: string, sub: string, k: int)
  {
    0 <= k <= |s| - |sub| && s[k..k + |sub|] == sub
  }

  /** `Contains` is exactly "`sub` occurs at some position of `s`". */
  lemma {:induction false} ContainsIff(s: string, sub: string)
    ensures Contains(s, sub) <==> exists k :: OccursAt(s, sub, k)
  {
    if IsPrefix(sub, s) {
      assert OccursAt(s, sub, 0);
    } else if s == [] {
    } else {
      ContainsIff(s[1..], sub);
      if Contains(s[1..], sub) {
        var k :| OccursAt(s[1..], sub, k);
        assert s[1..][k..k + |sub|] == s[k + 1..k + 1 + |sub|];
        assert OccursAt(s, sub, k + 1);
      }
      if exists k :: OccursAt(s, sub, k) {
        var k :| OccursAt(s, sub, k);
        if k == 0 {
          assert false;
        }
        assert s[1..][k - 1..k - 1 + |sub|] == s[k..k + |sub|];
        assert OccursAt(s[1..], sub, k - 1);
      }
    }
  }

  lemma EmptyContained(s: string)
    ensures Contains(s, "")
  {
    assert IsPrefix("", s);
  }

  lemma {:induction false} ContainsSelf(s: string)
    ensures Contains(s, s)
  {
    assert IsPrefix(s, s);
  }

  /** Containment is transitive: a text containing `mid` contains whatever `mid` contains. */
  lemma ContainsTransitive(s: string, mid: string, sub: string)
    requires Contains(s, mid) && Contains(mid, sub)
    ensures Contains(s, sub)
  {
    ContainsIff(s, mid);
    ContainsIff(mid, sub);
    var i :| OccursAt(s, mid, i);
    var j :| OccursAt(mid, sub, j);
    forall k | 0 <= k < |sub| ensures s[i + j + k] == sub[k] {
      assert mid[j..j + |sub|][k] == sub[k];
      assert s[i..i + |mid|][j + k] == mid[j + k];
    }
    assert s[i + j..i + j + |sub|] == sub;
    assert OccursAt(s, sub, i + j);
    ContainsIff(s, sub);
  }

  /** `s.endsWith(suffix)`. */
  predicate EndsWith(s: string, suffix: string)
  {
    |suffix| <= |s| && s[|s| - |suffix|..] == suffix
  }

  lemma EndsWithAppend(s: string, suffix: string)
    ensures EndsWith(s + suffix, suffix)
  {
    assert (s + suffix)[|s|..] == suffix;
  }

  function DigitChar(d: nat): (c: char)
    requires d < 10
    ensures '0' <= c <= '9'
  {
    ['0', '1', '2', '3', '4', '5', '6', '7', '8', '9'][d]
  }

  /** Decimal rendering of a natural number (`String(n)`, `str(n)`). */
  function NatToString(n: nat): (r: string)
    ensures |r| >= 1
    ensures forall i :: 0 <= i < |r| ==> '0' <= r[i] <= '9'
  {
    if n < 10 then [DigitChar(n)] else NatToString(n / 10) + [DigitChar(n % 10)]
  }

  function DigitValue(c: char): nat
  {
    if '0' <= c <= '9' then (c as int - '0' as int) as nat else 0
  }

  /** Reading the digits back. */
  function ParseDigits(s: string): nat
  {
    if s == [] then 0 else 10 * ParseDigits(s[..|s| - 1]) + DigitValue(s[|s| - 1])
  }

  lemma {:induction false} NatToStringRoundTrip(n: nat)
    ensures ParseDigits(NatToString(n)) == n
  {
    var r := NatToString(n);
    if n < 10 {
      assert r[..|r| - 1] == [];
    } else {
      var q, d := n / 10, n % 10;
      NatToStringRoundTrip(q);
      assert r == NatToString(q) + [DigitChar(d)];
      assert r[..|r| - 1] == NatToString(q) && r[|r| - 1] == DigitChar(d);
      assert DigitValue(DigitChar(d)) == d;
      assert n == 10 * q + d;
    }
  }

  /** The default order of `Array.prototype.sort` on strings: lexicographic by character. */
  predicate LexLe(a: string, b: string)
  {
    if a == [] then true
    else if b == [] then false
    else if a[0] < b[0] then true
    else if a[0] > b[0] then false
    else LexLe(a[1..], b[1..])
  }

  lemma {:induction false} LexLeTotal(a: string, b: string)
    ensures LexLe(a, b) || LexLe(b, a)
  {
    if a != [] && b != [] && a[0] == b[0] {
      LexLeTotal(a[1..], b[1..]);
    }
  }

  lemma {:induction false} LexLeTransitive(a: string, b: string, c: string)
    requires LexLe(a, b) && LexLe(b, c)
    ensures LexLe(a, c)
  {
    if a != [] && b != [] && c != [] && a[0] == b[0] && b[0] == c[0] {
      LexLeTransitive(a[1..], b[1..], c[1..]);
    }
  }

  lemma {:induction false} LexLeAntisymmetric(a: string, b: string)
    requires LexLe(a, b) && LexLe(b, a)
    ensures a == b
  {
    if a != [] && b != [] {
      LexLeAntisymmetric(a[1..], b[1..]);
      assert a == [a[0]] + a[1..] && b == [b[0]] + b[1..];
    }
  }
}
