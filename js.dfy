/** The JavaScript built-ins the storefront leans on, written out as functions:
    an absent value (`undefined`), `String.prototype.toLowerCase`, `trim`,
    `includes`, and the `>` / `<` operators on strings. Strings here are sequences of
    Unicode scalar values, so `<` is modelled as lexicographic order on code
    points; JavaScript compares UTF-16 code units, which orders the same way
    except where a character outside the Basic Multilingual Plane meets one
    from U+E000 to U+FFFF. */
module Js {

  /** A property that may be missing from a record (`undefined` in JavaScript). */
  datatype Option<+T> = None | Some(value: T) {
    function GetOr(default: T): T {
      match this
      case Some(v) => v
      case None => default
    }
  }

  // ---------------------------------------------------------------------------
  // Case mapping (ASCII letters only; see README "Left out")

  function LowerChar(c: char): (r: char)
    ensures 'A' <= c <= 'Z' ==> r as int == c as int + 32
    ensures !('A' <= c <= 'Z') ==> r == c
  {
    if 'A' <= c <= 'Z' then (c as int + 32) as char else c
  }

  function Lower(s: string): (r: string)
    ensures |r| == |s|
    ensures forall i :: 0 <= i < |s| ==> r[i] == LowerChar(s[i])
  {
    seq(|s|, i requires 0 <= i < |s| => LowerChar(s[i]))
  }

  /** Lower-casing twice is lower-casing once. */
  lemma LowerIdempotent(s: string)
    ensures Lower(Lower(s)) == Lower(s)
  {
  }

  // ---------------------------------------------------------------------------
  // Substring test: `s.includes(t)`

  predicate Includes(s: string, t: string)
  {
    t <= s || (s != "" && Includes(s[1..], t))
  }

  /** Every string includes the empty string. */
  lemma IncludesEmpty(s: string)
    ensures Includes(s, "")
  {
  }

  /** `t` occurs in `s` starting at index `i`. */
  predicate OccursAt(s: string, t: string, i: int) {
    0 <= i && i + |t| <= |s| && s[i..i + |t|] == t
  }

  /** `includes` finds `t` exactly when `t` occurs at some position of `s`. */
  lemma IncludesIffOccurs(s: string, t: string)
    ensures Includes(s, t) <==> exists i :: OccursAt(s, t, i)
  {
    if Includes(s, t) {
      var i := IncludedAt(s, t);
    }
    if exists i :: OccursAt(s, t, i) {
      var i :| OccursAt(s, t, i);
      OccursIncluded(s, t, i);
    }
  }

  /** A position at which an included `t` occurs. */
  lemma {:induction false} IncludedAt(s: string, t: string) returns (i: nat)
    requires Includes(s, t)
    ensures OccursAt(s, t, i)
  {
    if t <= s {
      assert s[0..|t|] == t;
      i := 0;
    } else {
      var j := IncludedAt(s[1..], t);
      assert s[j + 1..j + 1 + |t|] == s[1..][j..j + |t|];
      i := j + 1;
    }
  }

  /** Every string includes its own prefixes, and nothing longer than
      itself. */
  lemma IncludesPrefixesOnly(s: string, t: string)
    ensures t <= s ==> Includes(s, t)
    ensures Includes(s, t) ==> |t| <= |s|
  {
    if Includes(s, t) {
      var i := IncludedAt(s, t);
    }
  }

  /** An occurrence of `t` anywhere in `s` is found by `includes`. */
  lemma {:induction false} OccursIncluded(s: string, t: string, i: int)
    requires OccursAt(s, t, i)
    ensures Includes(s, t)
    decreases i
  {
    if i == 0 {
      assert s[..|t|] == t;
    } else {
      assert s[1..][i - 1..i - 1 + |t|] == s[i..i + |t|];
      OccursIncluded(s[1..], t, i - 1);
    }
  }

  // ---------------------------------------------------------------------------
  // Trimming: `s.trim()`

  /** The white-space and line-terminator characters that `trim` removes
      (the ones this model knows of; see README "Left out"). */
  predicate IsSpace(c: char) {
    c == ' ' || c == '\t' || c == '\n' || c == '\r' || c == '\U{B}' || c == '\U{C}'
    || c == '\U{A0}' || c == '\U{2028}' || c == '\U{2029}' || c == '\U{FEFF}'
  }

  predicate AllSpace(s: string) {
    forall i :: 0 <= i < |s| ==> IsSpace(s[i])
  }

  function TrimStart(s: string): (r: string)
    ensures |r| <= |s|
  {
    if s != "" && IsSpace(s[0]) then TrimStart(s[1..]) else s
  }

  function TrimEnd(s: string): (r: string)
    ensures |r| <= |s|
  {
    if s != "" && IsSpace(s[|s| - 1]) then TrimEnd(s[..|s| - 1]) else s
  }

  /** `s.trim()`: never longer than `s`, and the identity on a string that
      neither starts nor ends with white space. */
  function Trim(s: string): (r: string)
    ensures |r| <= |s|
    ensures s != "" && !IsSpace(s[0]) && !IsSpace(s[|s| - 1]) ==> r == s
  {
    TrimEnd(TrimStart(s))
  }

  /** `TrimStart` drops a prefix made of white space and stops at the first
      other character. */
  lemma {:induction false} TrimStartShape(s: string)
    ensures TrimStart(s) == s[|s| - |TrimStart(s)|..]
    ensures AllSpace(s[..|s| - |TrimStart(s)|])
    ensures TrimStart(s) != "" ==> !IsSpace(TrimStart(s)[0])
  {
    if s != "" && IsSpace(s[0]) {
      TrimStartShape(s[1..]);
      var n := |s| - |TrimStart(s)|;
      forall i | 0 <= i < n ensures IsSpace(s[..n][i]) {
        if i > 0 {
          assert s[..n][i] == s[1..][..n - 1][i - 1];
        }
      }
    }
  }

  /** `TrimEnd` drops a suffix made of white space and stops at the last
      other character. */
  lemma {:induction false} TrimEndShape(s: string)
    ensures TrimEnd(s) == s[..|TrimEnd(s)|]
    ensures AllSpace(s[|TrimEnd(s)|..])
    ensures TrimEnd(s) != "" ==> !IsSpace(TrimEnd(s)[|TrimEnd(s)| - 1])
  {
    if s != "" && IsSpace(s[|s| - 1]) {
      TrimEndShape(s[..|s| - 1]);
      var n := |TrimEnd(s)|;
      forall i | 0 <= i < |s| - n ensures IsSpace(s[n..][i]) {
        if i < |s| - n - 1 {
          assert s[n..][i] == s[..|s| - 1][n..][i];
        }
      }
    }
  }

  /** `s.trim()` is a piece of `s` that neither starts nor ends with white
      space, and everything cut off around it is white space. */
  lemma TrimShape(s: string)
    ensures exists k :: OccursAt(s, Trim(s), k) && AllSpace(s[..k]) && AllSpace(s[k + |Trim(s)|..])
    ensures Trim(s) != "" ==> !IsSpace(Trim(s)[0]) && !IsSpace(Trim(s)[|Trim(s)| - 1])
  {
    var t := TrimStart(s);
    TrimStartShape(s);
    TrimEndShape(t);
    var k := |s| - |t|;
    assert t[..|Trim(s)|] == s[k..k + |Trim(s)|];
    assert OccursAt(s, Trim(s), k);
    assert s[k + |Trim(s)|..] == t[|Trim(s)|..];
    if Trim(s) != "" {
      assert Trim(s)[0] == t[0];
    }
  }

  /** `s.trim()` is empty exactly when every character of `s` is white space. */
  lemma TrimEmptyIffAllSpace(s: string)
    ensures Trim(s) == "" <==> AllSpace(s)
  {
    var t := TrimStart(s);
    TrimStartShape(s);
    TrimEndShape(t);
    if Trim(s) == "" {
      assert t[|TrimEnd(t)|..] == t;
      assert s[..|s|] == s;
    }
  }

  // ---------------------------------------------------------------------------
  // Relational operators on strings: code-point lexicographic order

  /** `a < b` on JavaScript strings, as lexicographic order on code points. */
  predicate StrLess(a: string, b: string)
  {
    if a == "" then b != ""
    else if b == "" then false
    else if a[0] != b[0] then a[0] < b[0]
    else StrLess(a[1..], b[1..])
  }

  lemma {:induction false} StrLessIrreflexive(a: string)
    ensures !StrLess(a, a)
  {
    if a != "" {
      StrLessIrreflexive(a[1..]);
    }
  }

  /** A proper prefix comes before the string it begins. */
  lemma {:induction false} StrLessPrefix(a: string, b: string)
    requires |a| < |b| && a == b[..|a|]
    ensures StrLess(a, b)
  {
    if a != "" {
      assert a[1..] == b[1..][..|a| - 1];
      StrLessPrefix(a[1..], b[1..]);
    }
  }

  lemma {:induction false} StrLessAsymmetric(a: string, b: string)
    ensures StrLess(a, b) ==> !StrLess(b, a)
  {
    if a != "" && b != "" && a[0] == b[0] {
      StrLessAsymmetric(a[1..], b[1..]);
    }
  }

  lemma {:induction false} StrLessTransitive(a: string, b: string, c: string)
    requires StrLess(a, b) && StrLess(b, c)
    ensures StrLess(a, c)
  {
    if a != "" && a[0] == b[0] && b[0] == c[0] {
      StrLessTransitive(a[1..], b[1..], c[1..]);
    }
  }

  lemma {:induction false} StrLessTotal(a: string, b: string)
    ensures a == b || StrLess(a, b) || StrLess(b, a)
  {
    if a != "" && b != "" && a[0] == b[0] {
      StrLessTotal(a[1..], b[1..]);
      if a[1..] == b[1..] {
        assert a == [a[0]] + a[1..] && b == [b[0]] + b[1..];
      }
    }
  }
}
