/**
 * The string primitives of the JavaScript runtime that the CORS gate and the
 * HTTP client rely on: `String.prototype.trim`, `split` on one character,
 * `includes`, ASCII case folding as used by a case-insensitive regular
 * expression, and the decimal rendering of a status code in a template literal.
 */
module Text {

  /** The characters `trim` removes: ECMAScript's WhiteSpace and LineTerminator productions. */
  predicate IsTrimmable(c: char) {
    || c == ' ' || c == '\t' || c == '\n' || c == '\r'
    || c == '\U{000B}' || c == '\U{000C}'
    || c == '\U{00A0}' || c == '\U{1680}' || ('\U{2000}' <= c <= '\U{200A}')
    || c == '\U{2028}' || c == '\U{2029}' || c == '\U{202F}' || c == '\U{205F}'
    || c == '\U{3000}' || c == '\U{FEFF}'
  }

  /** Leading trimmable characters removed: the result is the longest suffix not starting with one. */
  function TrimStart(s: string): (r: string)
    ensures |r| <= |s| && r == s[|s| - |r|..]
    ensures forall i :: 0 <= i < |s| - |r| ==> IsTrimmable(s[i])
    ensures r == [] || !IsTrimmable(r[0])
  {
    if s != [] && IsTrimmable(s[0]) then TrimStart(s[1..]) else s
  }

  /** Trailing trimmable characters removed: the result is the longest prefix not ending in one. */
  function TrimEnd(s: string): (r: string)
    ensures |r| <= |s| && r == s[..|r|]
    ensures forall i :: |r| <= i < |s| ==> IsTrimmable(s[i])
    ensures r == [] || !IsTrimmable(r[|r| - 1])
  {
    if s != [] && IsTrimmable(s[|s| - 1]) then TrimEnd(s[..|s| - 1]) else s
  }

  /** `r` is the slice of `s` starting at `i` and everything of `s` around it is trimmable. */
  predicate TrimmedSliceAt(s: string, r: string, i: int) {
    && 0 <= i <= |s| - |r| && r == s[i..i + |r|]
    && (forall k :: 0 <= k < i ==> IsTrimmable(s[k]))
    && (forall k :: i + |r| <= k < |s| ==> IsTrimmable(s[k]))
  }

  /**
   * `s.trim()`: the contiguous slice of `s` left between a leading and a
   * trailing run of trimmable characters, neither of its ends trimmable.
   */
  function Trim(s: string): (r: string)
    ensures r == [] || (!IsTrimmable(r[0]) && !IsTrimmable(r[|r| - 1]))
    ensures exists i :: TrimmedSliceAt(s, r, i)
  {
    var t := TrimStart(s);
    var r := TrimEnd(t);
    PrefixOfSuffix(s, t, r);
    r
  }

  /** A trimmed-at-the-end prefix of a trimmed-at-the-start suffix is a trimmed slice. */
  lemma PrefixOfSuffix(s: string, t: string, r: string)
    requires |t| <= |s| && t == s[|s| - |t|..]
    requires forall k :: 0 <= k < |s| - |t| ==> IsTrimmable(s[k])
    requires |r| <= |t| && r == t[..|r|]
    requires forall k :: |r| <= k < |t| ==> IsTrimmable(t[k])
    ensures TrimmedSliceAt(s, r, |s| - |t|)
  {
    var i := |s| - |t|;
    forall k | i + |r| <= k < |s| ensures IsTrimmable(s[k]) {
      assert s[k] == t[k - i];
    }
  }

  /** Trim brings in no character its input lacks. */
  lemma TrimAddsNoChar(s: string, c: char)
    requires c !in s
    ensures c !in Trim(s)
  {
    var r := Trim(s);
    var i :| TrimmedSliceAt(s, r, i);
    forall k | 0 <= k < |r| ensures r[k] != c {
      assert r[k] == s[i + k];
    }
  }

  /** Trim gives the empty string exactly when every character of its input is trimmable. */
  lemma TrimEmptyIff(s: string)
    ensures Trim(s) == [] <==> forall i :: 0 <= i < |s| ==> IsTrimmable(s[i])
  {
    var t := TrimStart(s);
    var r := TrimEnd(t);
    if t != [] {
      assert t[0] == s[|s| - |t|];
      assert r != [] by {
        assert !IsTrimmable(t[0]);
      }
    }
  }

  /** Trimming a trimmed string changes nothing. */
  lemma TrimIdempotent(s: string)
    ensures Trim(Trim(s)) == Trim(s)
  {
    var r := Trim(s);
    if r != [] {
      assert TrimStart(r) == r;
      assert TrimEnd(r) == r;
    }
  }

  /** The pieces joined back with the separator between consecutive pieces (the inverse of Split). */
  function Join(parts: seq<string>, sep: string): string {
    if |parts| == 0 then []
    else if |parts| == 1 then parts[0]
    else parts[0] + sep + Join(parts[1..], sep)
  }

  /**
   * `s.split(sep)` for a one-character separator: the maximal runs between
   * separators, empty runs included; the empty string gives one empty piece.
   */
  function Split(s: string, sep: char): (parts: seq<string>)
    ensures |parts| >= 1
    ensures forall p :: p in parts ==> sep !in p
    ensures Join(parts, [sep]) == s
    decreases |s|
  {
    if s == [] then [[]]
    else
      var rest := Split(s[1..], sep);
      if s[0] == sep then
        assert ([[]] + rest)[1..] == rest;
        [[]] + rest
      else
        var parts := [[s[0]] + rest[0]] + rest[1..];
        assert parts[1..] == rest[1..];
        assert rest == [rest[0]] + rest[1..];
        assert forall p :: p in parts ==> p == parts[0] || p in rest;
        assert |rest| > 1 ==> Join(rest, [sep]) == rest[0] + [sep] + Join(rest[1..], [sep]);
        parts
  }

  /** Splitting what Join produced gives the pieces back, when no piece holds the separator. */
  lemma {:induction false} SplitJoin(parts: seq<string>, sep: char)
    requires |parts| >= 1
    requires forall p :: p in parts ==> sep !in p
    ensures Split(Join(parts, [sep]), sep) == parts
    decreases |Join(parts, [sep])|
  {
    var s := Join(parts, [sep]);
    var rest := parts[1..];
    if parts[0] == [] {
      if |parts| == 1 {
        assert s == [];
      } else {
        assert s == [sep] + Join(rest, [sep]);
        assert s[1..] == Join(rest, [sep]);
        SplitJoin(rest, sep);
        assert parts == [[]] + rest;
      }
    } else {
      var c, t := parts[0][0], parts[0][1..];
      assert parts[0] == [c] + t;
      assert c != sep by { assert c in parts[0]; }
      var tail := [t] + rest;
      assert tail[1..] == rest;
      assert Join(tail, [sep]) == s[1..] by {
        if |parts| > 1 {
          assert s == ([c] + t) + [sep] + Join(rest, [sep]);
        }
      }
      assert forall p :: p in tail ==> sep !in p by {
        assert sep !in parts[0];
        assert forall p :: p in tail ==> p == t || p in parts;
      }
      SplitJoin(tail, sep);
      assert parts == [[c] + tail[0]] + tail[1..];
    }
  }

  /** `sub` occurs in `s` starting at index `i`. */
  predicate OccursAt(s: string, sub: string, i: int) {
    0 <= i <= |s| - |sub| && s[i..i + |sub|] == sub
  }

  /** `s.includes(sub)`. */
  function Contains(s: string, sub: string): (b: bool)
    ensures b <==> exists i :: OccursAt(s, sub, i)
    decreases |s|
  {
    if |s| < |sub| then false
    else if s[..|sub|] == sub then
      assert OccursAt(s, sub, 0);
      true
    else
      var b := Contains(s[1..], sub);
      assert b ==> exists i :: OccursAt(s, sub, i) by {
        if b {
          var j :| OccursAt(s[1..], sub, j);
          assert s[1..][j..j + |sub|] == s[j + 1..j + 1 + |sub|];
          assert OccursAt(s, sub, j + 1);
        }
      }
      assert (exists i :: OccursAt(s, sub, i)) ==> b by {
        if exists i :: OccursAt(s, sub, i) {
          var i :| OccursAt(s, sub, i);
          assert i != 0;
          assert s[1..][i - 1..i - 1 + |sub|] == s[i..i + |sub|];
          assert OccursAt(s[1..], sub, i - 1);
        }
      }
      b
  }

  /** The lower-case form of an ASCII letter; every other character is unchanged. */
  function LowerChar(c: char): (l: char)
    ensures 'A' <= c <= 'Z' ==> 'a' <= l <= 'z' && l as int == c as int + 32
    ensures !('A' <= c <= 'Z') ==> l == c
  {
    if 'A' <= c <= 'Z' then (c as int + 32) as char else c
  }

  /** Equal up to ASCII case, the comparison a regular expression with the `i` flag makes. */
  predicate EqualsIgnoreCase(a: string, b: string) {
    |a| == |b| && forall i :: 0 <= i < |a| ==> LowerChar(a[i]) == LowerChar(b[i])
  }

  /** Equal slices of strings equal up to case are equal up to case. */
  lemma EqualsIgnoreCaseSlice(a: string, b: string, lo: int, hi: int)
    requires EqualsIgnoreCase(a, b) && 0 <= lo <= hi <= |a|
    ensures EqualsIgnoreCase(a[lo..hi], b[lo..hi])
  {
    assert forall i :: 0 <= i < hi - lo ==> a[lo..hi][i] == a[lo + i] && b[lo..hi][i] == b[lo + i];
  }

  /** The ASCII lower-case form of a whole string. */
  function Lower(s: string): (r: string)
    ensures |r| == |s| && forall i :: 0 <= i < |s| ==> r[i] == LowerChar(s[i])
  {
    seq(|s|, i requires 0 <= i < |s| => LowerChar(s[i]))
  }

  predicate IsDigit(c: char) {
    '0' <= c <= '9'
  }

  /** The number a string of decimal digits denotes. */
  function DigitsValue(s: string): nat
    requires forall c :: c in s ==> IsDigit(c)
  {
    if s == [] then 0
    else
      assert s[|s| - 1] in s;
      assert IsDigit(s[|s| - 1]);
      DigitsValue(s[..|s| - 1]) * 10 + (s[|s| - 1] as int - '0' as int)
  }

  /** How a non-negative integer is written in a template literal: decimal, no leading zeros. */
  function DecimalString(n: nat): (r: string)
    ensures |r| >= 1 && forall c :: c in r ==> IsDigit(c)
    ensures DigitsValue(r) == n
    ensures r[0] == '0' ==> r == "0"
  {
    var d := ('0' as int + n % 10) as char;
    if n < 10 then [d]
    else
      var prefix := DecimalString(n / 10);
      var r := prefix + [d];
      assert r[..|r| - 1] == prefix;
      r
  }
}
