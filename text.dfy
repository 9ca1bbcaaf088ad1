/**
 * The few string operations the NOTAM filters use: ASCII case folding
 * (`toLowerCase`, `toUpperCase`), substring search (`includes`) and the
 * code-unit order of JavaScript's `<` on strings.
 */
module Text {

  function LowerChar(c: char): char {
    if 'A' <= c <= 'Z' then (c as int + 32) as char else c
  }

  function UpperChar(c: char): char {
    if 'a' <= c <= 'z' then (c as int - 32) as char else c
  }

  /** `s.toLowerCase()`, restricted to ASCII letters. */
  function ToLower(s: string): (r: string)
    ensures |r| == |s|
    ensures forall i :: 0 <= i < |s| ==> r[i] == LowerChar(s[i])
  {
    if s == [] then [] else [LowerChar(s[0])] + ToLower(s[1..])
  }

  /** `s.toUpperCase()`, restricted to ASCII letters. */
  function ToUpper(s: string): (r: string)
    ensures |r| == |s|
    ensures forall i :: 0 <= i < |s| ==> r[i] == UpperChar(s[i])
  {
    if s == [] then [] else [UpperChar(s[0])] + ToUpper(s[1..])
  }

  /** `s.includes(sub)`: `sub` occurs somewhere in `s`. */
  function Contains(s: string, sub: string): bool
  {
    sub <= s || (s != [] && Contains(s[1..], sub))
  }

  /** `sub` occurs in `s` starting at offset `i`. */
  predicate OccursAt(s: string, sub: string, i: int)
  {
    0 <= i <= |s| - |sub| && s[i..i + |sub|] == sub
  }

  /** `sub` is a substring of `s`: it occurs at some offset. */
  ghost predicate HasSubstring(s: string, sub: string)
  {
    exists i :: OccursAt(s, sub, i)
  }

  /** `Contains` finds exactly the occurrences at some offset. */
  lemma {:induction false} ContainsAt(s: string, sub: string)
    ensures Contains(s, sub) <==> HasSubstring(s, sub)
  {
    if sub <= s {
      assert OccursAt(s, sub, 0);
    } else if s == [] {
      assert forall i :: !OccursAt(s, sub, i);
    } else {
      ContainsAt(s[1..], sub);
      if Contains(s[1..], sub) {
        var i :| OccursAt(s[1..], sub, i);
        assert s[i + 1..i + 1 + |sub|] == s[1..][i..i + |sub|];
        assert OccursAt(s, sub, i + 1);
      }
      if exists i :: OccursAt(s, sub, i) {
        var i :| OccursAt(s, sub, i);
        assert i != 0;
        assert s[1..][i - 1..i - 1 + |sub|] == s[i..i + |sub|];
        assert OccursAt(s[1..], sub, i - 1);
      }
    }
  }

  /** Every string contains the empty string, so `includes('')` always holds. */
  lemma ContainsEmpty(s: string)
    ensures Contains(s, "")
  {
  }

  lemma FoldCharAgree(x: char, y: char)
    ensures UpperChar(x) == UpperChar(y) <==> LowerChar(x) == LowerChar(y)
  {
    if 'a' <= x <= 'z' {
      assert UpperChar(x) as int == x as int - 32;
    }
    if 'a' <= y <= 'z' {
      assert UpperChar(y) as int == y as int - 32;
    }
    if 'A' <= x <= 'Z' {
      assert LowerChar(x) as int == x as int + 32;
    }
    if 'A' <= y <= 'Z' {
      assert LowerChar(y) as int == y as int + 32;
    }
  }

  /**
   * Comparing upper-cased forms and comparing lower-cased forms are the same
   * test, so the airport filter's `toUpperCase()` and the type filter's
   * `toLowerCase()` fold case the same way.
   */
  lemma {:induction false} UpperEqualIffLowerEqual(a: string, b: string)
    ensures ToUpper(a) == ToUpper(b) <==> ToLower(a) == ToLower(b)
  {
    if a != [] && b != [] {
      UpperEqualIffLowerEqual(a[1..], b[1..]);
      FoldCharAgree(a[0], b[0]);
    }
  }

  /** JavaScript's `a < b` on strings: lexicographic order of the characters. */
  function Less(a: string, b: string): bool
  {
    if a == [] then b != []
    else if b == [] then false
    else if a[0] != b[0] then a[0] < b[0]
    else Less(a[1..], b[1..])
  }

  lemma {:induction false} LessIrreflexive(a: string)
    ensures !Less(a, a)
  {
    if a != [] {
      LessIrreflexive(a[1..]);
    }
  }

  lemma {:induction false} LessTransitive(a: string, b: string, c: string)
    requires Less(a, b) && Less(b, c)
    ensures Less(a, c)
  {
    if a != [] && b != [] && c != [] && a[0] == b[0] && b[0] == c[0] {
      LessTransitive(a[1..], b[1..], c[1..]);
    }
  }

  /** Two different strings are always ordered one way or the other. */
  lemma {:induction false} LessTotal(a: string, b: string)
    ensures a == b || Less(a, b) || Less(b, a)
  {
    if a != [] && b != [] && a[0] == b[0] {
      LessTotal(a[1..], b[1..]);
      if a[1..] == b[1..] {
        assert a == [a[0]] + a[1..] && b == [b[0]] + b[1..];
      }
    }
  }

  lemma LessAsymmetric(a: string, b: string)
    requires Less(a, b)
    ensures !Less(b, a)
  {
    if Less(b, a) {
      LessTransitive(a, b, a);
      LessIrreflexive(a);
    }
  }

  /** If neither `b < a` nor `c < b` then not `c < a`: "not before" is transitive. */
  lemma LessNegativeTransitive(a: string, b: string, c: string)
    requires !Less(a, b) && !Less(b, c)
    ensures !Less(a, c)
  {
    LessTotal(a, b);
    LessTotal(b, c);
    if Less(a, c) {
      if a != b {
        LessTransitive(b, a, c);
      }
    }
  }
}
