/**
 * The JavaScript string built-ins that the extractor's core relies on:
 * `split` with a string separator, `join` and `trim`. `IndexOf` is the
 * left-to-right separator search that `split` performs.
 * Strings are sequences of Unicode scalar values.
 */
module Strings {

  datatype Option<T> = None | Some(value: T)

  /** `pat` occurs in `s` starting at index `i`. */
  predicate OccursAt(s: string, pat: string, i: nat) {
    i + |pat| <= |s| && s[i..i + |pat|] == pat
  }

  /** `pat` occurs in `s`. */
  ghost predicate Contains(s: string, pat: string) {
    exists i: nat :: i <= |s| && OccursAt(s, pat, i)
  }

  /** An occurrence one place further right in `s` is an occurrence in `s[1..]`. */
  lemma OccursShift(s: string, pat: string, j: nat)
    requires |s| > 0
    ensures OccursAt(s, pat, j + 1) == OccursAt(s[1..], pat, j)
  {
    if j + 1 + |pat| <= |s| {
      assert s[1..][j..j + |pat|] == s[j + 1..j + 1 + |pat|];
    }
  }

  /** The separator search of `split`: the first index at which `pat` occurs in `s`, if any. */
  function IndexOf(s: string, pat: string): (r: Option<nat>)
    ensures r.Some? ==> OccursAt(s, pat, r.value)
    ensures r.Some? ==> forall j: nat :: j < r.value ==> !OccursAt(s, pat, j)
    ensures r.None? ==> forall j: nat :: !OccursAt(s, pat, j)
    decreases |s|
  {
    if |s| < |pat| then None
    else if s[..|pat|] == pat then Some(0)
    else
      var rest := IndexOf(s[1..], pat);
      assert !OccursAt(s, pat, 0) by { assert s[0..|pat|] == s[..|pat|]; }
      assert forall j: nat :: 0 < j ==> OccursAt(s, pat, j) == OccursAt(s[1..], pat, j - 1) by {
        forall j: nat | 0 < j ensures OccursAt(s, pat, j) == OccursAt(s[1..], pat, j - 1) {
          OccursShift(s, pat, j - 1);
        }
      }
      match rest
      case None => None
      case Some(i) => Some(i + 1)
  }

  /** An occurrence that has no occurrence before it is the one `IndexOf` finds. */
  lemma IndexOfIs(s: string, pat: string, i: nat)
    requires OccursAt(s, pat, i)
    requires forall j: nat :: j < i ==> !OccursAt(s, pat, j)
    ensures IndexOf(s, pat) == Some(i)
  {
  }

  /** `s.split(sep)` for a non-empty separator: the pieces between successive
      occurrences of `sep`, found left to right without overlap. */
  function Split(s: string, sep: string): (r: seq<string>)
    requires |sep| > 0
    ensures |r| >= 1
    decreases |s|
  {
    match IndexOf(s, sep)
    case None => [s]
    case Some(i) => [s[..i]] + Split(s[i + |sep|..], sep)
  }

  /** A text in which `pat` does not occur has no index of it. */
  lemma IndexOfAbsent(s: string, pat: string)
    requires forall j: nat :: !OccursAt(s, pat, j)
    ensures IndexOf(s, pat).None?
  {
  }

  /** The text before the first occurrence of `sep` does not contain it. */
  lemma BeforeFirst(s: string, sep: string, i: nat)
    requires |sep| > 0 && OccursAt(s, sep, i)
    requires forall j: nat :: j < i ==> !OccursAt(s, sep, j)
    ensures i <= |s| && forall j: nat :: !OccursAt(s[..i], sep, j)
  {
    var piece := s[..i];
    forall j: nat | OccursAt(piece, sep, j) ensures false {
      var n := |sep|;
      forall m | 0 <= m < n ensures s[j..j + n][m] == sep[m] {
        assert s[j..j + n][m] == s[j + m] == piece[j + m] == piece[j..j + n][m];
      }
      assert j < i && OccursAt(s, sep, j);
    }
  }

  /** No piece of a split contains the separator. */
  lemma {:induction false} SplitPieces(s: string, sep: string)
    requires |sep| > 0
    ensures forall k :: 0 <= k < |Split(s, sep)| ==> IndexOf(Split(s, sep)[k], sep).None?
    decreases |s|
  {
    var first := IndexOf(s, sep);
    if first.Some? {
      var i := first.value;
      var rest := s[i + |sep|..];
      assert Split(s, sep) == [s[..i]] + Split(rest, sep);
      BeforeFirst(s, sep, i);
      IndexOfAbsent(s[..i], sep);
      SplitPieces(rest, sep);
    }
  }

  /** `xs.join(sep)`. */
  function Join(xs: seq<string>, sep: string): string
  {
    if |xs| == 0 then ""
    else if |xs| == 1 then xs[0]
    else xs[0] + sep + Join(xs[1..], sep)
  }

  /** Each piece of a join occurs in the joined text. */
  lemma {:induction false} JoinOffset(xs: seq<string>, sep: string, k: nat) returns (i: nat)
    requires k < |xs|
    ensures OccursAt(Join(xs, sep), xs[k], i)
  {
    var s := Join(xs, sep);
    if k == 0 {
      i := 0;
      if |xs| > 1 {
        assert s == xs[0] + (sep + Join(xs[1..], sep));
      }
      assert s[0..|xs[0]|] == xs[0];
    } else {
      var rest := Join(xs[1..], sep);
      var j := JoinOffset(xs[1..], sep, k - 1);
      i := |xs[0]| + |sep| + j;
      assert s == xs[0] + sep + rest;
      assert s[i..i + |xs[k]|] == rest[j..j + |xs[k]|];
    }
  }

  /** An occurrence in the middle part of a text is one in the whole text. */
  lemma OccursInMiddle(a: string, b: string, c: string, x: string, j: nat)
    requires OccursAt(b, x, j)
    ensures OccursAt(a + b + c, x, |a| + j)
  {
    var s := a + b + c;
    forall m | 0 <= m < |x| ensures s[|a| + j..|a| + j + |x|][m] == x[m] {
      assert s[|a| + j + m] == b[j + m] == b[j..j + |x|][m];
    }
  }

  /** A join of two or more pieces is the first, the separator, and the join
      of the rest. */
  lemma JoinCons(x: string, ys: seq<string>, sep: string)
    requires |ys| >= 1
    ensures Join([x] + ys, sep) == x + sep + Join(ys, sep)
  {
    assert ([x] + ys)[1..] == ys;
  }

  /** Joining the pieces of a split with the same separator gives back the text. */
  lemma {:induction false} JoinSplit(s: string, sep: string)
    requires |sep| > 0
    ensures Join(Split(s, sep), sep) == s
    decreases |s|
  {
    var first := IndexOf(s, sep);
    if first.Some? {
      var i := first.value;
      var rest := s[i + |sep|..];
      assert Split(s, sep) == [s[..i]] + Split(rest, sep);
      JoinSplit(rest, sep);
      JoinCons(s[..i], Split(rest, sep), sep);
      assert s[i..i + |sep|] == sep;
      assert s == s[..i] + s[i..i + |sep|] + rest;
    }
  }

  /** A text without the character `c` splits on it into itself alone. */
  lemma SplitWithout(x: string, c: char)
    requires c !in x
    ensures Split(x, [c]) == [x]
  {
    forall j: nat ensures !OccursAt(x, [c], j) {
      if j < |x| {
        assert x[j..j + 1] == [x[j]];
      }
    }
  }

  /** A text that starts with a piece without `c` and then `c` splits into
      that piece followed by the split of what comes after the `c`. */
  lemma SplitFirst(x: string, rest: string, c: char)
    requires c !in x
    ensures Split(x + [c] + rest, [c]) == [x] + Split(rest, [c])
  {
    var s := x + [c] + rest;
    var n := |x|;
    forall j: nat | j < n ensures !OccursAt(s, [c], j) {
      assert s[j..j + 1] == [x[j]];
    }
    assert s[n..n + 1] == [c];
    IndexOfIs(s, [c], n);
    assert s[..n] == x;
    assert s[n + 1..] == rest;
  }

  /** Splitting on a one-character separator undoes joining with it, provided
      no piece contains that character. */
  lemma {:induction false} SplitJoin(xs: seq<string>, c: char)
    requires |xs| >= 1
    requires forall k :: 0 <= k < |xs| ==> c !in xs[k]
    ensures Split(Join(xs, [c]), [c]) == xs
  {
    if |xs| == 1 {
      SplitWithout(xs[0], c);
    } else {
      assert xs == [xs[0]] + xs[1..];
      JoinCons(xs[0], xs[1..], [c]);
      SplitFirst(xs[0], Join(xs[1..], [c]), c);
      SplitJoin(xs[1..], c);
    }
  }

  /** The characters `String.prototype.trim` removes: the WhiteSpace code points
      (tab, vertical tab, form feed, space, no-break space, byte order mark and
      the space separators) and the LineTerminator code points. */
  predicate IsWhiteSpace(c: char) {
    || c == '\t' || c == '\n' || c == '\U{B}' || c == '\U{C}' || c == '\r'
    || c == ' ' || c == '\U{A0}' || c == '\U{1680}'
    || ('\U{2000}' <= c <= '\U{200A}')
    || c == '\U{2028}' || c == '\U{2029}' || c == '\U{202F}' || c == '\U{205F}'
    || c == '\U{3000}' || c == '\U{FEFF}'
  }

  predicate AllWhiteSpace(s: string) {
    forall i :: 0 <= i < |s| ==> IsWhiteSpace(s[i])
  }

  /** Leading white space removed: `r` is the suffix of `s` that starts at its
      first non-white-space character. */
  function TrimStart(s: string): (r: string)
    ensures |r| <= |s| && r == s[|s| - |r|..]
    ensures forall i :: 0 <= i < |s| - |r| ==> IsWhiteSpace(s[i])
    ensures r != [] ==> !IsWhiteSpace(s[|s| - |r|])
  {
    if |s| > 0 && IsWhiteSpace(s[0]) then
      var r := TrimStart(s[1..]);
      assert s[1..][|s| - 1 - |r|..] == s[|s| - |r|..];
      assert forall i :: 1 <= i < |s| ==> s[i] == s[1..][i - 1];
      r
    else s
  }

  /** Trailing white space removed: `r` is the prefix of `s` that ends at its
      last non-white-space character. */
  function TrimEnd(s: string): (r: string)
    ensures |r| <= |s| && r == s[..|r|]
    ensures forall i :: |r| <= i < |s| ==> IsWhiteSpace(s[i])
    ensures r != [] ==> !IsWhiteSpace(s[|r| - 1])
  {
    if |s| > 0 && IsWhiteSpace(s[|s| - 1]) then
      TrimEnd(s[..|s| - 1])
    else s
  }

  /** `s.trim()`: white space removed at both ends. */
  function Trim(s: string): (r: string)
    ensures r == [] || (!IsWhiteSpace(r[0]) && !IsWhiteSpace(r[|r| - 1]))
    ensures r == [] <==> AllWhiteSpace(s)
  {
    var t := TrimStart(s);
    var r := TrimEnd(t);
    if t == [] then
      r
    else
      var k := |s| - |t|;
      assert t[0] == s[k];
      assert !AllWhiteSpace(s) by { assert !IsWhiteSpace(s[k]); }
      assert r != [] by { assert !IsWhiteSpace(t[0]); }
      assert r[0] == t[0];
      r
  }

  /** `TrimStart` stops at the first non-white-space character. */
  lemma TrimStartPadded(lead: string, u: string)
    requires AllWhiteSpace(lead) && u != [] && !IsWhiteSpace(u[0])
    ensures TrimStart(lead + u) == u
  {
    var s := lead + u;
    var v := TrimStart(s);
    assert forall i :: 0 <= i < |lead| ==> s[i] == lead[i];
    assert s[|lead|] == u[0];
    assert |s| - |v| == |lead|;
    assert s[|lead|..] == u;
  }

  /** `TrimEnd` stops at the last non-white-space character. */
  lemma TrimEndPadded(t: string, trail: string)
    requires AllWhiteSpace(trail) && t != [] && !IsWhiteSpace(t[|t| - 1])
    ensures TrimEnd(t + trail) == t
  {
    var u := t + trail;
    var r := TrimEnd(u);
    assert forall i :: |t| <= i < |u| ==> u[i] == trail[i - |t|];
    assert u[|t| - 1] == t[|t| - 1];
    assert |r| == |t|;
    assert u[..|t|] == t;
  }

  /** Trimming white space off both sides of a text that has none at its ends
      gives back that text. Together with the contract of `Trim` this pins
      `Trim` down on every input. */
  lemma {:induction false} TrimPadded(lead: string, t: string, trail: string)
    requires AllWhiteSpace(lead) && AllWhiteSpace(trail)
    requires t == [] || (!IsWhiteSpace(t[0]) && !IsWhiteSpace(t[|t| - 1]))
    ensures Trim(lead + t + trail) == t
  {
    var s := lead + t + trail;
    if t == [] {
      assert AllWhiteSpace(s) by {
        forall i | 0 <= i < |s| ensures IsWhiteSpace(s[i]) {
          if i < |lead| { assert s[i] == lead[i]; } else { assert s[i] == trail[i - |lead|]; }
        }
      }
    } else {
      assert s == lead + (t + trail);
      TrimStartPadded(lead, t + trail);
      TrimEndPadded(t, trail);
    }
  }

  /** Trimming twice is trimming once. */
  lemma TrimIdempotent(s: string)
    ensures Trim(Trim(s)) == Trim(s)
  {
    TrimPadded("", Trim(s), "");
    assert "" + Trim(s) + "" == Trim(s);
  }

  /** A join of white-space pieces with a white-space separator is white space. */
  lemma {:induction false} JoinAllWhiteSpace(xs: seq<string>, sep: string)
    requires AllWhiteSpace(sep)
    requires forall k :: 0 <= k < |xs| ==> AllWhiteSpace(xs[k])
    ensures AllWhiteSpace(Join(xs, sep))
  {
    if |xs| > 1 {
      JoinAllWhiteSpace(xs[1..], sep);
      var rest := Join(xs[1..], sep);
      var s := xs[0] + sep + rest;
      forall i | 0 <= i < |s| ensures IsWhiteSpace(s[i]) {
        if i < |xs[0]| {
          assert s[i] == xs[0][i];
        } else if i < |xs[0]| + |sep| {
          assert s[i] == sep[i - |xs[0]|];
        } else {
          assert s[i] == rest[i - |xs[0]| - |sep|];
        }
      }
    }
  }

  /** A join with a piece that is not all white space is not all white space. */
  lemma JoinNotWhiteSpace(lines: seq<string>, sep: string, k: nat)
    requires k < |lines| && !AllWhiteSpace(lines[k])
    ensures !AllWhiteSpace(Join(lines, sep))
  {
    var line := lines[k];
    var c :| 0 <= c < |line| && !IsWhiteSpace(line[c]);
    var text := Join(lines, sep);
    var i := JoinOffset(lines, sep, k);
    assert text[i..i + |line|][c] == line[c];
    assert !IsWhiteSpace(text[i + c]);
  }
}
