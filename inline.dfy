/** `parseInline` of the Markdown renderer: the line is split with the regular
    expression `/(\*\*.*?\*\*|\*.*?\*|`.*?`)/` (whose capture group keeps the matched
    pieces in the result, between the unmatched ones) and each piece is classified
    as bold, italic, inline code or plain text by its first and last characters.

    The split is written out as the scan JavaScript's `String.prototype.split`
    performs: from the current position, find the leftmost position where the
    pattern matches; there the alternatives are tried in order (bold, italic, code);
    each lazy `.*?` takes the shortest run, which may not cross a line terminator
    (`.` does not match one), that is followed by the closing delimiter. */
module Inline {
  import opened Wrappers
  import opened Text
  import opened Seqs

  datatype Span = Plain(text: string) | Bold(text: string) | Italic(text: string) | InlineCode(text: string)

  /** The characters `.` does not match in a JavaScript regular expression. */
  predicate IsLineTerminator(c: char) {
    c == '\n' || c == '\r' || c == '\U{2028}' || c == '\U{2029}'
  }

  /** The delimiter `d` occurs in `s` at position `j`. */
  predicate DelimAt(s: string, j: nat, d: string) {
    j + |d| <= |s| && s[j..j + |d|] == d
  }

  /** No line terminator in `s[from..to]`. */
  predicate NoTerminator(s: string, from: nat, to: nat)
    requires from <= to <= |s|
  {
    forall k :: from <= k < to ==> !IsLineTerminator(s[k])
  }

  /** The lazy run `.*?` followed by `d`, starting at `from`: the end of the
      shortest run of non-terminators that is followed by `d`. */
  function FindClose(s: string, from: nat, d: string): (r: Option<nat>)
    requires from <= |s|
    ensures r.Some? ==> from <= r.value <= |s| && DelimAt(s, r.value, d) && NoTerminator(s, from, r.value)
    ensures r.Some? ==> forall k :: from <= k < r.value ==> !DelimAt(s, k, d)
    ensures r.None? ==> forall k :: from <= k <= |s| && NoTerminator(s, from, k) ==> !DelimAt(s, k, d)
    decreases |s| - from
  {
    if DelimAt(s, from, d) then Some(from)
    else if from < |s| && !IsLineTerminator(s[from]) then FindClose(s, from + 1, d)
    else None
  }

  /** Where the pattern's match starting at `q` ends, if it matches there: the
      first alternative that matches wins. */
  function MatchAt(s: string, q: nat): (r: Option<nat>)
    requires q < |s|
    ensures r.Some? ==> q + 2 <= r.value <= |s|
  {
    if DelimAt(s, q, "**") && FindClose(s, q + 2, "**").Some? then
      Some(FindClose(s, q + 2, "**").value + 2)
    else if s[q] == '*' && FindClose(s, q + 1, "*").Some? then
      Some(FindClose(s, q + 1, "*").value + 1)
    else if s[q] == '`' && FindClose(s, q + 1, "`").Some? then
      Some(FindClose(s, q + 1, "`").value + 1)
    else None
  }

  /** The pattern matches nowhere in `t`. */
  predicate NoMatch(t: string) {
    forall k :: 0 <= k < |t| ==> MatchAt(t, k).None?
  }

  /** `t` is exactly one match of the pattern. */
  predicate IsToken(t: string) {
    |t| > 0 && MatchAt(t, 0).Some? && MatchAt(t, 0).value == |t|
  }

  /** The split loop: `p` is where the current unmatched piece began, `q` the
      position being tried. */
  function SplitFrom(s: string, p: nat, q: nat): seq<string>
    requires p <= q <= |s|
    decreases |s| - q
  {
    if q == |s| then [s[p..]]
    else
      match MatchAt(s, q)
      case Some(e) => [s[p..q], s[q..e]] + SplitFrom(s, e, e)
      case None => SplitFrom(s, p, q + 1)
  }

  /** `text.split(/(\*\*.*?\*\*|\*.*?\*|`.*?`)/g)`. */
  function Split(s: string): seq<string> {
    SplitFrom(s, 0, 0)
  }

  function Concat(parts: seq<string>): string
    decreases |parts|
  {
    if parts == [] then "" else parts[0] + Concat(parts[1..])
  }

  /** Unmatched text and matches alternate, starting and ending with (possibly
      empty) unmatched text. */
  predicate Alternates(parts: seq<string>)
    decreases |parts|
  {
    |parts| >= 1 && NoMatch(parts[0]) &&
    (|parts| == 1 || (|parts| >= 3 && IsToken(parts[1]) && Alternates(parts[2..])))
  }

  /** The leftmost position from `p` on where the pattern matches, if any. */
  function NextMatch(s: string, p: nat): (r: Option<nat>)
    requires p <= |s|
    ensures r.Some? ==> p <= r.value < |s| && MatchAt(s, r.value).Some?
    decreases |s| - p
  {
    if p == |s| then None
    else if MatchAt(s, p).Some? then Some(p)
    else NextMatch(s, p + 1)
  }

  /** Nothing matches before the position found, nor anywhere from `p` on when
      nothing is found. */
  lemma {:induction false} NextMatchNoneBefore(s: string, p: nat, k: nat)
    requires p <= k < |s|
    requires NextMatch(s, p).None? || k < NextMatch(s, p).value
    ensures MatchAt(s, k).None?
    decreases k - p
  {
    if p < k && MatchAt(s, p).None? {
      NextMatchNoneBefore(s, p + 1, k);
    }
  }

  /** A match at `k` is found, at `k` or before it. */
  lemma {:induction false} NextMatchFinds(s: string, p: nat, k: nat)
    requires p <= k < |s| && MatchAt(s, k).Some?
    ensures NextMatch(s, p).Some? && NextMatch(s, p).value <= k
    decreases k - p
  {
    if MatchAt(s, p).None? {
      NextMatchFinds(s, p + 1, k);
    }
  }

  /** The pattern matches at no position from `p` up to `q`. */
  predicate NoMatchIn(s: string, p: nat, q: nat)
    requires q <= |s|
    decreases q - p
  {
    p >= q || (MatchAt(s, p).None? && NoMatchIn(s, p + 1, q))
  }

  /** `NoMatchIn` says what its name says, position by position. */
  lemma {:induction false} NoMatchInIff(s: string, p: nat, q: nat)
    requires q <= |s|
    ensures NoMatchIn(s, p, q) <==> forall k :: p <= k < q ==> MatchAt(s, k).None?
    decreases q - p
  {
    if p < q {
      NoMatchInIff(s, p + 1, q);
    }
  }

  /** A position without a match extends a match-free range by one. */
  lemma {:induction false} NoMatchInExtend(s: string, p: nat, q: nat)
    requires p <= q < |s| && NoMatchIn(s, p, q) && MatchAt(s, q).None?
    ensures NoMatchIn(s, p, q + 1)
    decreases q - p
  {
    if p < q {
      NoMatchInExtend(s, p + 1, q);
    }
  }

  /** Positions where nothing matches can be skipped. */
  lemma {:induction false} NextMatchSkip(s: string, p: nat, q: nat)
    requires p <= q <= |s| && NoMatchIn(s, p, q)
    ensures NextMatch(s, p) == NextMatch(s, q)
    decreases q - p
  {
    if p < q {
      NextMatchSkip(s, p + 1, q);
    }
  }

  /** A reference reading of the split: the text up to the leftmost match, the
      match (of the first alternative that matches there, with its shortest
      close), and then the same again after the match; the rest of the line when
      there is no further match. */
  function LeftmostSplit(s: string, p: nat): seq<string>
    requires p <= |s|
    decreases |s| - p
  {
    match NextMatch(s, p)
    case None => [s[p..]]
    case Some(k) =>
      var e := MatchAt(s, k).value;
      [s[p..k], s[k..e]] + LeftmostSplit(s, e)
  }

  /** Slicing a slice is slicing the original at shifted positions. */
  lemma SliceOfSlice(s: string, a: nat, b: nat, i: nat, j: nat)
    requires a <= b <= |s| && i <= j <= b - a
    ensures s[a..b][i..j] == s[a + i..a + j]
  {
    var t := s[a..b];
    assert |t[i..j]| == |s[a + i..a + j]|;
    forall k | 0 <= k < j - i ensures t[i..j][k] == s[a + i..a + j][k] {
      assert t[i..j][k] == t[i + k] == s[a + i + k];
    }
  }

  /** A delimiter reachable from `from` without crossing a line terminator is
      found, or an earlier one is. */
  lemma {:induction false} FindCloseReaches(s: string, from: nat, j: nat, d: string)
    requires from <= j <= |s| && DelimAt(s, j, d) && NoTerminator(s, from, j)
    ensures FindClose(s, from, d).Some? && FindClose(s, from, d).value <= j
    decreases j - from
  {
    if !DelimAt(s, from, d) {
      assert from < j && !IsLineTerminator(s[from]);
      FindCloseReaches(s, from + 1, j, d);
    }
  }

  /** A match found inside a slice of `s` is a match in `s` too, ending no later. */
  lemma FindCloseInSlice(s: string, a: nat, b: nat, f: nat, d: string)
    requires a <= b <= |s| && f <= b - a
    requires FindClose(s[a..b], f, d).Some?
    ensures FindClose(s, a + f, d).Some?
    ensures FindClose(s, a + f, d).value <= a + FindClose(s[a..b], f, d).value
  {
    var t := s[a..b];
    var j := FindClose(t, f, d).value;
    SliceOfSlice(s, a, b, j, j + |d|);
    assert DelimAt(s, a + j, d);
    assert NoTerminator(s, a + f, a + j) by {
      forall k | a + f <= k < a + j ensures !IsLineTerminator(s[k]) {
        assert s[k] == t[k - a];
      }
    }
    FindCloseReaches(s, a + f, a + j, d);
  }

  /** A match of `s` that lies inside a slice is found in the slice as well. */
  lemma FindCloseOfSlice(s: string, a: nat, b: nat, f: nat, d: string)
    requires a <= f <= b <= |s|
    requires FindClose(s, f, d).Some? && FindClose(s, f, d).value + |d| <= b
    ensures FindClose(s[a..b], f - a, d).Some?
    ensures FindClose(s[a..b], f - a, d).value == FindClose(s, f, d).value - a
  {
    var t := s[a..b];
    var j := FindClose(s, f, d).value;
    CloseInSlice(s, a, b, f, j, d);
    FindCloseReaches(t, f - a, j - a, d);
    FindCloseInSlice(s, a, b, f - a, d);
    assert a + (f - a) == f;
  }

  /** A delimiter reachable from `f` in `s` is reachable from `f - a` in a slice
      from `a` that contains it. */
  lemma CloseInSlice(s: string, a: nat, b: nat, f: nat, j: nat, d: string)
    requires a <= f <= j && j + |d| <= b <= |s|
    requires DelimAt(s, j, d) && NoTerminator(s, f, j)
    ensures DelimAt(s[a..b], j - a, d) && NoTerminator(s[a..b], f - a, j - a)
  {
    var t := s[a..b];
    SliceOfSlice(s, a, b, j - a, j - a + |d|);
    forall k | f - a <= k < j - a ensures !IsLineTerminator(t[k]) {
      assert t[k] == s[k + a];
    }
  }

  /** A match in a slice of `s` means a match in `s` at the same place. */
  lemma MatchInSlice(s: string, a: nat, b: nat, k: nat)
    requires a <= b <= |s| && k < b - a
    requires MatchAt(s[a..b], k).Some?
    ensures MatchAt(s, a + k).Some?
  {
    var t := s[a..b];
    assert t[k] == s[a + k];
    if DelimAt(t, k, "**") && FindClose(t, k + 2, "**").Some? {
      SliceOfSlice(s, a, b, k, k + 2);
      FindCloseInSlice(s, a, b, k + 2, "**");
    } else if t[k] == '*' && FindClose(t, k + 1, "*").Some? {
      FindCloseInSlice(s, a, b, k + 1, "*");
    } else {
      FindCloseInSlice(s, a, b, k + 1, "`");
    }
  }

  /** A stretch of `s` where the pattern matches at no position contains no match. */
  lemma NoMatchSlice(s: string, p: nat, q: nat)
    requires p <= q <= |s| && NoMatchIn(s, p, q)
    ensures NoMatch(s[p..q])
  {
    NoMatchInIff(s, p, q);
    forall k | 0 <= k < q - p ensures MatchAt(s[p..q], k).None? {
      if MatchAt(s[p..q], k).Some? {
        MatchInSlice(s, p, q, k);
      }
    }
  }

  /** The piece a match covers is, on its own, one whole match. */
  lemma TokenSlice(s: string, q: nat)
    requires q < |s| && MatchAt(s, q).Some?
    ensures IsToken(s[q..MatchAt(s, q).value])
  {
    var e := MatchAt(s, q).value;
    var t := s[q..e];
    assert t[0] == s[q];
    if DelimAt(s, q, "**") && FindClose(s, q + 2, "**").Some? {
      assert t[0..2] == s[q..q + 2];
      FindCloseOfSlice(s, q, e, q + 2, "**");
    } else {
      if DelimAt(t, 0, "**") {
        assert t[0..2] == s[q..q + 2];
        if FindClose(t, 2, "**").Some? {
          FindCloseInSlice(s, q, e, 2, "**");
        }
      }
      if s[q] == '*' {
        FindCloseOfSlice(s, q, e, q + 1, "*");
      } else {
        FindCloseOfSlice(s, q, e, q + 1, "`");
      }
    }
  }

  /** The split loop passes over positions where the pattern does not match. */
  lemma {:induction false} SplitFromSkip(s: string, p: nat, q: nat, q': nat)
    requires p <= q <= q' <= |s| && NoMatchIn(s, q, q')
    ensures SplitFrom(s, p, q) == SplitFrom(s, p, q')
    decreases q' - q
  {
    if q < q' {
      SplitFromSkip(s, p, q + 1, q');
    }
  }

  /** One step of the split loop at a match. */
  lemma SplitFromAtMatch(s: string, p: nat, q: nat, e: nat)
    requires p <= q < |s| && MatchAt(s, q) == Some(e)
    ensures SplitFrom(s, p, q) == [s[p..q], s[q..e]] + SplitFrom(s, e, e)
  {
  }

  /** The split loop at the end of the text. */
  lemma SplitFromAtEnd(s: string, p: nat)
    requires p <= |s|
    ensures SplitFrom(s, p, |s|) == [s[p..]]
  {
  }

  /** A position holding neither a star nor a backtick starts no match. */
  lemma NoMatchAtPlain(s: string, q: nat)
    requires q < |s| && s[q] != '*' && s[q] != '`'
    ensures MatchAt(s, q).None?
  {
  }

  /** The split loop yields alternating unmatched text and matches. */
  lemma {:induction false} SplitFromAlternates(s: string, p: nat, q: nat)
    requires p <= q <= |s| && NoMatchIn(s, p, q)
    ensures Alternates(SplitFrom(s, p, q))
    decreases |s| - q
  {
    if q == |s| {
      NoMatchSlice(s, p, q);
      assert s[p..] == s[p..q];
    } else {
      match MatchAt(s, q)
      case Some(e) =>
        NoMatchSlice(s, p, q);
        TokenSlice(s, q);
        SplitFromAlternates(s, e, e);
        var parts := SplitFrom(s, p, q);
        assert parts[2..] == SplitFrom(s, e, e);
      case None =>
        NoMatchInExtend(s, p, q);
        SplitFromAlternates(s, p, q + 1);
    }
  }

  /** The split loop's pieces, put back together, give the scanned text. */
  lemma {:induction false} SplitFromConcat(s: string, p: nat, q: nat)
    requires p <= q <= |s|
    ensures Concat(SplitFrom(s, p, q)) == s[p..]
    decreases |s| - q
  {
    if q < |s| {
      match MatchAt(s, q)
      case Some(e) =>
        SplitFromConcat(s, e, e);
        var rest := SplitFrom(s, e, e);
        var parts := SplitFrom(s, p, q);
        assert parts == [s[p..q], s[q..e]] + rest;
        assert parts[1..][1..] == rest;
        assert Concat(parts) == s[p..q] + (s[q..e] + s[e..]);
        SliceSplit(s, p, q);
        SliceSplit(s, q, e);
        AppendAssoc(s[p..q], s[q..e], s[e..]);
      case None =>
        SplitFromConcat(s, p, q + 1);
    }
  }

  /** Scanning position by position finds the same pieces as jumping to the
      leftmost match. */
  lemma {:induction false} SplitFromLeftmost(s: string, p: nat, q: nat)
    requires p <= q <= |s| && NoMatchIn(s, p, q)
    ensures SplitFrom(s, p, q) == LeftmostSplit(s, p)
    decreases |s| - q
  {
    NextMatchSkip(s, p, q);
    if q == |s| {
      assert NextMatch(s, q).None?;
      assert LeftmostSplit(s, p) == [s[p..]];
    } else {
      match MatchAt(s, q)
      case Some(e) =>
        assert NextMatch(s, q) == Some(q);
        SplitFromLeftmost(s, e, e);
        assert LeftmostSplit(s, p) == [s[p..q], s[q..e]] + LeftmostSplit(s, e);
        assert SplitFrom(s, p, q) == [s[p..q], s[q..e]] + SplitFrom(s, e, e);
      case None =>
        NoMatchInExtend(s, p, q);
        SplitFromLeftmost(s, p, q + 1);
        assert SplitFrom(s, p, q) == SplitFrom(s, p, q + 1);
    }
  }

  /** What the split promises: no text is lost or reordered, the pieces
      alternate between text without any match and single whole matches, and
      each match is the leftmost one after the previous match, with the first
      alternative that matches there and its shortest close. */
  lemma SplitSpec(s: string)
    ensures Concat(Split(s)) == s
    ensures Alternates(Split(s))
    ensures Split(s) == LeftmostSplit(s, 0)
  {
    SplitFromConcat(s, 0, 0);
    SplitFromAlternates(s, 0, 0);
    SplitFromLeftmost(s, 0, 0);
  }

  /** `part.slice(n, -n)`: the part without `n` characters at each end, or the
      empty string when there is nothing between them. */
  function SliceInner(t: string, n: nat): (r: string)
    ensures |t| >= 2 * n ==> r == t[n..|t| - n]
    ensures |t| < 2 * n ==> r == ""
  {
    if |t| > 2 * n then t[n..|t| - n] else ""
  }

  /** The per-piece rule: `**` at both ends is bold (checked first), then `*` at
      both ends is italic, then a backtick at both ends is inline code; any other
      piece is plain text. */
  function Classify(t: string): (r: Span)
    ensures r.Bold? <==> StartsWith(t, "**") && EndsWith(t, "**")
    ensures r.Italic? <==> !r.Bold? && StartsWith(t, "*") && EndsWith(t, "*")
    ensures r.InlineCode? <==> !r.Bold? && !r.Italic? && StartsWith(t, "`") && EndsWith(t, "`")
    ensures r.Plain? ==> r.text == t
    ensures r.Bold? ==> r.text == SliceInner(t, 2)
    ensures (r.Italic? || r.InlineCode?) ==> r.text == SliceInner(t, 1)
  {
    if StartsWith(t, "**") && EndsWith(t, "**") then Bold(SliceInner(t, 2))
    else if StartsWith(t, "*") && EndsWith(t, "*") then Italic(SliceInner(t, 1))
    else if StartsWith(t, "`") && EndsWith(t, "`") then InlineCode(SliceInner(t, 1))
    else Plain(t)
  }

  /** `parseInline(text)`: one span per piece of the split, in order. */
  function ParseInline(s: string): (r: seq<Span>)
    ensures |r| == |Split(s)| && |r| % 2 == 1
    ensures forall i :: 0 <= i < |r| ==> r[i] == Classify(Split(s)[i])
  {
    var parts := Split(s);
    SplitSpec(s);
    AlternatesOdd(parts);
    seq(|parts|, i requires 0 <= i < |parts| => Classify(parts[i]))
  }

  lemma {:induction false} AlternatesOdd(parts: seq<string>)
    requires Alternates(parts)
    ensures |parts| % 2 == 1
    decreases |parts|
  {
    if |parts| > 1 {
      AlternatesOdd(parts[2..]);
    }
  }

  /** No line terminator anywhere in `c`. */
  predicate NoTerminators(c: string) {
    forall k :: 0 <= k < |c| ==> !IsLineTerminator(c[k])
  }

  /** What a single match turns into: a bold span holds the text between `**` and
      the first later `**` (so `**` occurs neither inside it nor across its last
      character and the closing stars); an italic or a code span holds the text up
      to the first later closing delimiter; no span holds a line terminator; and the
      match `**` alone (the italic pattern matching two adjacent stars) becomes an
      empty bold span. */
  ghost predicate TokenShape(t: string) {
    var c := Classify(t).text;
    NoTerminators(c) &&
    ((t == "**" && Classify(t) == Bold("")) ||
     (Classify(t) == Bold(c) && t == "**" + c + "**" && forall k :: 0 <= k < |c| ==> !DelimAt(c + "*", k, "**")) ||
     (Classify(t) == Italic(c) && t == "*" + c + "*" && '*' !in c) ||
     (Classify(t) == InlineCode(c) && t == "`" + c + "`" && '`' !in c))
  }

  lemma BoldTokenShape(t: string)
    requires DelimAt(t, 0, "**") && FindClose(t, 2, "**").Some?
    requires FindClose(t, 2, "**").value + 2 == |t|
    ensures |t| >= 4
    ensures var c := t[2..|t| - 2];
      Classify(t) == Bold(c) && t == "**" + c + "**" && NoTerminators(c) &&
      forall k :: 0 <= k < |c| ==> !DelimAt(c + "*", k, "**")
  {
    var j := FindClose(t, 2, "**").value;
    var c := t[2..j];
    assert t[..2] == "**";
    assert t[j..] == "**";
    assert t == t[..2] + c + t[j..];
    assert StartsWith(t, "**") && EndsWith(t, "**");
    forall k | 0 <= k < |c| ensures !DelimAt(c + "*", k, "**") {
      assert !DelimAt(t, k + 2, "**");
      assert (c + "*")[k..k + 2] == t[k + 2..k + 4];
    }
    forall k | 0 <= k < |c| ensures !IsLineTerminator(c[k]) {
      assert c[k] == t[k + 2];
    }
  }

  lemma SingleTokenShape(t: string, d: char)
    requires |t| > 0 && t[0] == d && FindClose(t, 1, [d]).Some?
    requires FindClose(t, 1, [d]).value + 1 == |t|
    ensures |t| >= 2
    ensures var c := t[1..|t| - 1];
      t == [d] + c + [d] && d !in c && NoTerminators(c)
  {
    var j := FindClose(t, 1, [d]).value;
    var c := t[1..j];
    DelimFree(t, 1, j, d);
    ConcatShape(t, d);
  }

  lemma ConcatShape(t: string, d: char)
    requires |t| >= 2 && t[0] == d && t[|t| - 1] == d
    ensures t == [d] + t[1..|t| - 1] + [d]
  {
    assert t == t[..1] + t[1..|t| - 1] + t[|t| - 1..];
  }

  /** Between `from` and `to` neither the one-character delimiter `d` nor a line
      terminator occurs. */
  lemma DelimFree(t: string, from: nat, to: nat, d: char)
    requires from <= to <= |t|
    requires NoTerminator(t, from, to)
    requires forall k :: from <= k < to ==> !DelimAt(t, k, [d])
    ensures d !in t[from..to] && NoTerminators(t[from..to])
  {
    var c := t[from..to];
    forall k | 0 <= k < |c| ensures c[k] != d && !IsLineTerminator(c[k])
    {
      assert c[k] == t[k + from];
      assert !DelimAt(t, k + from, [d]);
      assert t[k + from..k + from + 1] == [t[k + from]];
    }
  }

  lemma TokenSpan(t: string)
    requires IsToken(t)
    ensures TokenShape(t)
  {
    if DelimAt(t, 0, "**") && FindClose(t, 2, "**").Some? {
      BoldTokenShape(t);
    } else if t[0] == '*' && FindClose(t, 1, "*").Some? {
      ItalicTokenSpan(t);
    } else {
      SingleTokenShape(t, '`');
      assert Classify(t) == InlineCode(t[1..|t| - 1]);
    }
  }

  lemma ItalicTokenSpan(t: string)
    requires IsToken(t)
    requires !(DelimAt(t, 0, "**") && FindClose(t, 2, "**").Some?)
    requires t[0] == '*' && FindClose(t, 1, "*").Some?
    ensures TokenShape(t)
  {
    if |t| == 2 {
      assert t[1..2] == "*";
      assert t == "**";
    } else {
      SingleTokenShape(t, '*');
      var c := t[1..|t| - 1];
      assert t[1] == c[0];
      assert !StartsWith(t, "**");
      assert Classify(t) == Italic(c);
    }
  }

  /** A line split into three pieces parses piece by piece. */
  lemma ParseInline3(s: string, a: string, b: string, c: string)
    requires Split(s) == [a, b, c]
    ensures ParseInline(s) == [Classify(a), Classify(b), Classify(c)]
  {
    var parts := Split(s);
    var r := ParseInline(s);
    assert |r| == 3;
    assert parts[0] == a && parts[1] == b && parts[2] == c;
    assert r[0] == Classify(parts[0]);
    assert r[1] == Classify(parts[1]);
    assert r[2] == Classify(parts[2]);
    assert r == [r[0], r[1], r[2]];
  }

  /** A line that opens with a match yields an empty plain span first, because
      the split keeps the empty text before the match. */
  lemma LeadingMatchEmptyPlain(s: string)
    requires |s| > 0 && MatchAt(s, 0).Some?
    ensures |ParseInline(s)| >= 3 && ParseInline(s)[0] == Plain("")
  {
    var e := MatchAt(s, 0).value;
    SplitFromAtMatch(s, 0, 0, e);
    assert Split(s)[0] == "";
  }

  /** No nesting: in `***x***` the bold pattern takes `***x**` (the first `**`
      after the opening one closes it) and the leftover `*` becomes an empty
      italic span. */
  lemma TripleStarExample()
    ensures ParseInline("***x***") == [Plain(""), Bold("*x"), Italic("")]
  {
    TripleStarSplit("***x***");
    ParseInline3("***x***", "", "***x**", "*");
    TripleStarClass("***x**");
    assert Classify("") == Plain("");
    assert Classify("*") == Italic("");
  }

  lemma TripleStarSplit(s: string)
    requires s == "***x***"
    ensures Split(s) == ["", "***x**", "*"]
  {
    TripleStarMatch(s);
    SplitFromAtMatch(s, 0, 0, 6);
    assert MatchAt(s, 6).None?;
    assert SplitFrom(s, 6, 6) == ["*"];
    assert s[0..0] == "" && s[0..6] == "***x**" && s[6..] == "*";
  }

  lemma TripleStarMatch(s: string)
    requires s == "***x***"
    ensures MatchAt(s, 0) == Some(6)
  {
    assert s[0..2] == "**" && s[4..6] == "**";
    assert s[2..4][1] == 'x' && s[3..5][0] == 'x';
    assert FindClose(s, 4, "**") == Some(4);
    assert FindClose(s, 3, "**") == Some(4);
    assert FindClose(s, 2, "**") == Some(4);
  }

  lemma TripleStarClass(t: string)
    requires t == "***x**"
    ensures Classify(t) == Bold("*x")
  {
    assert t[..2] == "**" && t[|t| - 2..] == "**";
    assert t[2..|t| - 2] == "*x";
  }

  /** Bold is tried before italic: in `**a*b**` the bold pattern matches the
      whole line, so the single star inside is plain text of the bold span. */
  lemma BoldBeforeItalicExample()
    ensures Split("**a*b**") == ["", "**a*b**", ""]
    ensures ParseInline("**a*b**") == [Plain(""), Bold("a*b"), Plain("")]
  {
    var s := "**a*b**";
    BoldAcrossStarMatch(s);
    SplitFromAtMatch(s, 0, 0, 7);
    SplitFromAtEnd(s, 7);
    assert s[0..0] == "" && s[0..7] == s && s[7..] == "";
    ParseInline3(s, "", s, "");
    BoldAcrossStarClass(s);
    assert Classify("") == Plain("");
  }

  lemma BoldAcrossStarMatch(s: string)
    requires s == "**a*b**"
    ensures MatchAt(s, 0) == Some(7)
  {
    assert s[0..2] == "**" && s[5..7] == "**";
    assert s[2..4][0] == 'a' && s[3..5][1] == 'b' && s[4..6][0] == 'b';
    assert FindClose(s, 5, "**") == Some(5);
    assert FindClose(s, 4, "**") == Some(5);
    assert FindClose(s, 3, "**") == Some(5);
    assert FindClose(s, 2, "**") == Some(5);
  }

  lemma BoldAcrossStarClass(s: string)
    requires s == "**a*b**"
    ensures Classify(s) == Bold("a*b")
  {
    assert |s| == 7 && s[..2] == "**" && s[|s| - 2..] == "**";
    var c := s[2..|s| - 2];
    assert |c| == 3 && c[0] == 'a' && c[1] == '*' && c[2] == 'b';
  }

  /** A lone star or backtick is no match, but as a piece it starts and ends with
      its delimiter, so it becomes an empty italic or code span. */
  lemma LoneDelimiterExample()
    ensures ParseInline("*") == [Italic("")]
    ensures ParseInline("`") == [InlineCode("")]
  {
    assert MatchAt("*", 0).None?;
    assert Split("*") == ["*"];
    assert MatchAt("`", 0).None?;
    assert Split("`") == ["`"];
  }

  /** Two stars at the end of a line: the bold pattern finds no closing `**`, so
      the italic pattern matches the two stars, which then classify as an empty
      bold span. */
  lemma TrailingStarsExample()
    ensures ParseInline("a**") == [Plain("a"), Bold(""), Plain("")]
  {
    var s := "a**";
    TrailingStarsSplit(s);
    ParseInline3(s, "a", "**", "");
    assert Classify("**") == Bold("") by {
      assert "**"[..2] == "**";
    }
    assert Classify("a") == Plain("a");
    assert Classify("") == Plain("");
  }

  lemma TrailingStarsSplit(s: string)
    requires s == "a**"
    ensures Split(s) == ["a", "**", ""]
  {
    assert |s| == 3 && s[0] == 'a' && s[1] == '*' && s[2] == '*';
    TrailingStarsMatch(s);
    NoMatchAtPlain(s, 0);
    SplitFromSkip(s, 0, 0, 1);
    SplitFromAtMatch(s, 0, 1, 3);
    SplitFromAtEnd(s, 3);
    assert s[0..1] == "a" && s[1..3] == "**" && s[3..] == "";
  }

  lemma TrailingStarsMatch(s: string)
    requires |s| == 3 && s[1] == '*' && s[2] == '*'
    ensures MatchAt(s, 1) == Some(3)
  {
    assert FindClose(s, 3, "**").None?;
    assert s[2..3] == "*";
    assert FindClose(s, 2, "*") == Some(2);
  }
}
