/** The JavaScript string operations the application relies on, written out over
    `seq<char>`: `trim`, `startsWith`, `includes`, `split` by one character,
    `join`, `toLowerCase` (ASCII letters only) and the decimal rendering of a
    non-negative integer in a template literal. */
module Text {

  /** JavaScript's WhiteSpace and LineTerminator code points, the characters
      `String.prototype.trim` strips. */
  predicate IsWhitespace(c: char) {
    c == ' ' || c == '\t' || c == '\n' || c == '\r' || c == '\U{000B}' || c == '\U{000C}'
    || c == '\U{00A0}' || c == '\U{1680}' || ('\U{2000}' <= c <= '\U{200A}')
    || c == '\U{2028}' || c == '\U{2029}' || c == '\U{202F}' || c == '\U{205F}'
    || c == '\U{3000}' || c == '\U{FEFF}'
  }

  predicate AllWhitespace(s: string) {
    forall i :: 0 <= i < |s| ==> IsWhitespace(s[i])
  }

  /** `s.trimStart()`: what is left after dropping the leading whitespace. */
  function TrimStart(s: string): (r: string)
    ensures |r| <= |s|
  {
    if |s| > 0 && IsWhitespace(s[0]) then TrimStart(s[1..]) else s
  }

  /** `s.trimEnd()`: what is left after dropping the trailing whitespace. */
  function TrimEnd(s: string): (r: string)
    ensures |r| <= |s|
  {
    if |s| > 0 && IsWhitespace(s[|s| - 1]) then TrimEnd(s[..|s| - 1]) else s
  }

  /** `s.trim()`. */
  function Trim(s: string): string {
    TrimEnd(TrimStart(s))
  }

  /** `trimStart` drops exactly the leading whitespace: what it keeps is a suffix
      that is empty or starts with a non-whitespace character, and what it drops
      is all whitespace. */
  lemma {:induction false} TrimStartSpec(s: string)
    ensures TrimStart(s) == s[|s| - |TrimStart(s)|..]
    ensures AllWhitespace(s[..|s| - |TrimStart(s)|])
    ensures TrimStart(s) == [] || !IsWhitespace(TrimStart(s)[0])
    decreases |s|
  {
    if |s| > 0 && IsWhitespace(s[0]) {
      TrimStartSpec(s[1..]);
      var r := TrimStart(s);
      assert s[1..][|s| - 1 - |r|..] == s[|s| - |r|..];
      forall i | 0 <= i < |s| - |r| ensures IsWhitespace(s[i]) {
        if i > 0 {
          assert s[i] == s[1..][..|s| - 1 - |r|][i - 1];
        }
      }
    } else {
      assert s[0..] == s;
    }
  }

  /** `trimEnd` drops exactly the trailing whitespace. */
  lemma {:induction false} TrimEndSpec(s: string)
    ensures TrimEnd(s) == s[..|TrimEnd(s)|]
    ensures AllWhitespace(s[|TrimEnd(s)|..])
    ensures TrimEnd(s) == [] || !IsWhitespace(TrimEnd(s)[|TrimEnd(s)| - 1])
    decreases |s|
  {
    if |s| > 0 && IsWhitespace(s[|s| - 1]) {
      var s' := s[..|s| - 1];
      TrimEndSpec(s');
      var r := TrimEnd(s);
      assert s'[..|r|] == s[..|r|];
      forall i | |r| <= i < |s| ensures IsWhitespace(s[i]) {
        if i < |s| - 1 {
          assert s[i] == s'[|r|..][i - |r|];
        }
      }
    } else {
      assert s[..|s|] == s;
    }
  }

  /** A string trims to the empty string exactly when it consists of whitespace
      only; this is the "blank" test `!s.trim()` of the source. */
  lemma TrimEmptyIff(s: string)
    ensures Trim(s) == "" <==> AllWhitespace(s)
  {
    TrimStartSpec(s);
    var t := TrimStart(s);
    TrimEndSpec(t);
    if t == [] {
      assert s[..|s|] == s;
    } else {
      assert s[|s| - |t|] == t[0];
    }
  }

  function Min(a: int, b: int): int {
    if a <= b then a else b
  }

  /** `s.startsWith(p)`. */
  predicate StartsWith(s: string, p: string) {
    |p| <= |s| && s[..|p|] == p
  }

  /** `s.endsWith(p)`. */
  predicate EndsWith(s: string, p: string) {
    |p| <= |s| && s[|s| - |p|..] == p
  }

  /** `s.includes(t)`, scanning the start positions from left to right. */
  predicate Contains(s: string, t: string)
    decreases |s|
  {
    StartsWith(s, t) || (|s| > 0 && Contains(s[1..], t))
  }

  /** The scan above finds `t` exactly when `t` occurs at some position of `s`. */
  lemma {:induction false} ContainsIff(s: string, t: string)
    ensures Contains(s, t) <==> exists i :: 0 <= i <= |s| && StartsWith(s[i..], t)
    decreases |s|
  {
    if StartsWith(s, t) {
      assert s[0..] == s;
    } else if |s| == 0 {
      forall i | 0 <= i <= |s| ensures !StartsWith(s[i..], t) {
        assert s[i..] == s;
      }
    } else {
      ContainsIff(s[1..], t);
      if Contains(s[1..], t) {
        var i :| 0 <= i <= |s[1..]| && StartsWith(s[1..][i..], t);
        assert s[1..][i..] == s[i + 1..];
      } else {
        forall i | 0 <= i <= |s| ensures !StartsWith(s[i..], t) {
          if i > 0 {
            assert s[1..][i - 1..] == s[i..];
          } else {
            assert s[i..] == s;
          }
        }
      }
    }
  }

  /** Every string includes the empty string. */
  lemma ContainsEmpty(s: string)
    ensures Contains(s, "")
  {
  }

  /** A string that includes `t + u` includes `t`. */
  lemma {:induction false} ContainsPrefix(s: string, t: string, u: string)
    requires Contains(s, t + u)
    ensures Contains(s, t)
    decreases |s|
  {
    if StartsWith(s, t + u) {
      assert s[..|t|] == (t + u)[..|t|] == t;
    } else {
      ContainsPrefix(s[1..], t, u);
    }
  }

  /** `toLowerCase` of one character, restricted to the ASCII letters. */
  function LowerChar(c: char): (r: char)
    ensures ('A' <= c <= 'Z') ==> r as int == c as int + 32
    ensures !('A' <= c <= 'Z') ==> r == c
    ensures !('A' <= r <= 'Z')
  {
    if 'A' <= c <= 'Z' then (c as int + 32) as char else c
  }

  /** `s.toLowerCase()`, character by character. */
  function ToLower(s: string): (r: string)
    ensures |r| == |s|
    ensures forall i :: 0 <= i < |s| ==> r[i] == LowerChar(s[i])
  {
    seq(|s|, i requires 0 <= i < |s| => LowerChar(s[i]))
  }

  /** Lower-casing twice is lower-casing once. */
  lemma ToLowerIdempotent(s: string)
    ensures ToLower(ToLower(s)) == ToLower(s)
  {
  }

  /** Lower-casing works character by character, so it distributes over `+`. */
  lemma ToLowerAppend(s: string, t: string)
    ensures ToLower(s + t) == ToLower(s) + ToLower(t)
  {
    assert forall i :: 0 <= i < |s + t| ==> ToLower(s + t)[i] == (ToLower(s) + ToLower(t))[i];
  }

  /** Number of occurrences of `c` in `s`. */
  function Count(s: string, c: char): nat {
    if |s| == 0 then 0 else (if s[0] == c then 1 else 0) + Count(s[1..], c)
  }

  /** `s.split(c)` for a one-character separator: the maximal pieces between
      separators, with an empty piece before a leading, after a trailing and
      between two adjacent separators. */
  function SplitOn(s: string, c: char): (r: seq<string>)
    ensures |r| == Count(s, c) + 1
    ensures forall i :: 0 <= i < |r| ==> c !in r[i]
    decreases |s|
  {
    if |s| == 0 then [""]
    else
      var rest := SplitOn(s[1..], c);
      if s[0] == c then [""] + rest else [[s[0]] + rest[0]] + rest[1..]
  }

  /** `parts.join(sep)`; the empty array joins to the empty string. */
  function Join(parts: seq<string>, sep: string): string
    decreases |parts|
  {
    if |parts| == 0 then ""
    else if |parts| == 1 then parts[0]
    else parts[0] + sep + Join(parts[1..], sep)
  }

  /** Joining the pieces of a split with the separator gives back the string. */
  lemma {:induction false} JoinSplit(s: string, c: char)
    ensures Join(SplitOn(s, c), [c]) == s
    decreases |s|
  {
    if |s| > 0 {
      var rest := SplitOn(s[1..], c);
      JoinSplit(s[1..], c);
      if s[0] == c {
        assert s == [c] + s[1..];
      } else {
        var r := SplitOn(s, c);
        assert r[0] == [s[0]] + rest[0] && r[1..] == rest[1..];
        if |rest| == 1 {
          assert s == [s[0]] + s[1..];
        } else {
          assert Join(rest, [c]) == rest[0] + [c] + Join(rest[1..], [c]);
          assert s == [s[0]] + s[1..];
        }
      }
    }
  }

  /** Splitting a join of separator-free pieces gives the pieces back. */
  lemma {:induction false} SplitJoin(parts: seq<string>, c: char)
    requires |parts| >= 1
    requires forall i :: 0 <= i < |parts| ==> c !in parts[i]
    ensures SplitOn(Join(parts, [c]), c) == parts
    decreases |parts|, |parts[0]|
  {
    var p := parts[0];
    var j := Join(parts, [c]);
    if |p| > 0 {
      var parts' := [p[1..]] + parts[1..];
      forall i | 0 <= i < |parts'| ensures c !in parts'[i] {
        if i == 0 {
          assert forall x :: x in p[1..] ==> x in p;
        } else {
          assert parts'[i] == parts[i];
        }
      }
      SplitJoin(parts', c);
      JoinFirstChar(parts, c);
      assert p[0] != c by { assert p[0] in p; }
      assert j[0] == p[0] && j[1..] == Join(parts', [c]);
      SplitOnOther(j, c);
      assert [p[0]] + p[1..] == p;
      assert parts == [p] + parts[1..];
    } else if |parts| > 1 {
      forall i | 0 <= i < |parts| - 1 ensures c !in parts[1..][i] {
        assert parts[1..][i] == parts[i + 1];
      }
      SplitJoin(parts[1..], c);
      assert j == [c] + Join(parts[1..], [c]);
      assert j[1..] == Join(parts[1..], [c]);
      SplitOnSeparator(j, c);
      assert parts == [""] + parts[1..];
    }
  }

  /** A separator first: an empty piece, then the pieces of the rest. */
  lemma SplitOnSeparator(s: string, c: char)
    requires |s| > 0 && s[0] == c
    ensures SplitOn(s, c) == [""] + SplitOn(s[1..], c)
  {
  }

  /** Any other character first: it joins the first piece of the rest. */
  lemma SplitOnOther(s: string, c: char)
    requires |s| > 0 && s[0] != c
    ensures SplitOn(s, c) == [[s[0]] + SplitOn(s[1..], c)[0]] + SplitOn(s[1..], c)[1..]
  {
  }

  /** Joining pieces whose first piece is not empty puts that piece's first
      character ahead of the join with it removed. */
  lemma JoinFirstChar(parts: seq<string>, c: char)
    requires |parts| >= 1 && |parts[0]| > 0
    ensures Join(parts, [c]) == [parts[0][0]] + Join([parts[0][1..]] + parts[1..], [c])
  {
    var p := parts[0];
    var parts' := [p[1..]] + parts[1..];
    assert p == [p[0]] + p[1..];
    if |parts| > 1 {
      assert parts'[1..] == parts[1..];
    }
  }

  function DigitChar(d: nat): (r: char)
    requires d < 10
    ensures '0' <= r <= '9'
  {
    ('0' as int + d) as char
  }

  /** The decimal digits of `n`, as a template literal `${n}` prints them for a
      non-negative integer. */
  function NatToString(n: nat): (r: string)
    ensures |r| > 0
    ensures forall i :: 0 <= i < |r| ==> '0' <= r[i] <= '9'
    ensures r[0] == '0' ==> n == 0
  {
    if n < 10 then [DigitChar(n)] else NatToString(n / 10) + [DigitChar(n % 10)]
  }

  /** The value of a string of decimal digits, read most significant first. */
  function ParseNat(s: string): nat
    requires forall i :: 0 <= i < |s| ==> '0' <= s[i] <= '9'
  {
    if |s| == 0 then 0 else ParseNat(s[..|s| - 1]) * 10 + (s[|s| - 1] as int - '0' as int)
  }

  /** The decimal rendering loses nothing: reading it back gives the number. */
  lemma {:induction false} ParseNatToString(n: nat)
    ensures ParseNat(NatToString(n)) == n
  {
    if n >= 10 {
      ParseNatToString(n / 10);
      var s := NatToString(n);
      assert s[..|s| - 1] == NatToString(n / 10);
    }
  }
}
