/**
 * The string primitives the normaliser relies on, restricted to ASCII:
 * Python's `str.isspace`, `strip`, `lower`, `title`, `split("\n")`,
 * `"\n".join` and `splitlines` (with `'\n'` as the only line break).
 */
module Text {

  /** Python's `str.isspace` on the ASCII range: space, `\t \n \v \f \r`, and `\x1c`..`\x1f`. */
  predicate IsSpace(c: char) {
    c == ' ' || (9 <= c as int <= 13) || (28 <= c as int <= 31)
  }

  predicate IsUpper(c: char) { 'A' <= c <= 'Z' }
  predicate IsLower(c: char) { 'a' <= c <= 'z' }

  /** ASCII letters are the only cased characters of the model. */
  predicate IsLetter(c: char) { IsUpper(c) || IsLower(c) }

  function LowerChar(c: char): char {
    if IsUpper(c) then (c as int + 32) as char else c
  }

  function UpperChar(c: char): char {
    if IsLower(c) then (c as int - 32) as char else c
  }

  /** `s.lower()` */
  function Lower(s: string): (r: string)
    ensures |r| == |s|
    ensures forall i :: 0 <= i < |s| ==> r[i] == LowerChar(s[i])
  {
    seq(|s|, i requires 0 <= i < |s| => LowerChar(s[i]))
  }

  // ---------------------------------------------------------------- strip

  predicate AllSpace(s: string) {
    forall i :: 0 <= i < |s| ==> IsSpace(s[i])
  }

  /** No whitespace at either end: what `strip()` returns. */
  predicate Stripped(s: string) {
    s == [] || (!IsSpace(s[0]) && !IsSpace(s[|s| - 1]))
  }

  /** `s.lstrip()`: the suffix left after dropping leading whitespace. */
  function TrimStart(s: string): (r: string)
    ensures |r| <= |s| && r == s[|s| - |r|..]
    ensures AllSpace(s[..|s| - |r|])
    ensures r == [] || !IsSpace(r[0])
    decreases |s|
  {
    if |s| > 0 && IsSpace(s[0]) then TrimStart(s[1..]) else s
  }

  /** `s.rstrip()`: the prefix left after dropping trailing whitespace. */
  function TrimEnd(s: string): (r: string)
    ensures |r| <= |s| && r == s[..|r|]
    ensures AllSpace(s[|r|..])
    ensures r == [] || !IsSpace(r[|r| - 1])
    decreases |s|
  {
    if |s| > 0 && IsSpace(s[|s| - 1]) then TrimEnd(s[..|s| - 1]) else s
  }

  /** `s.strip()` */
  function Strip(s: string): (r: string)
    ensures Stripped(r)
    ensures r == [] <==> AllSpace(s)
    ensures exists lo :: StripsTo(s, lo, r)
  {
    var t := TrimStart(s);
    var r := TrimEnd(t);
    var lo := |s| - |t|;
    SliceFacts(s, lo, t, r);
    BlankTail(s, lo, t, |r|);
    assert StripsTo(s, lo, r);
    r
  }

  /** `r` is `s` with the blanks before index `lo` and after `r` removed, and nothing else. */
  predicate StripsTo(s: string, lo: nat, r: string) {
    && lo + |r| <= |s|
    && IsSliceAt(s, lo, r)
    && AllSpace(s[..lo])
    && AllSpace(s[lo + |r|..])
  }

  /** Blanks at the end of a suffix are blanks at the end of the whole text. */
  lemma BlankTail(s: string, k: nat, t: string, m: nat)
    requires k <= |s| && t == s[k..] && m <= |t| && AllSpace(t[m..])
    ensures AllSpace(s[k + m..])
  {
    assert s[k + m..] == t[m..];
  }

  /** `r` occurs in `s` starting at index `lo`. */
  predicate IsSliceAt(s: string, lo: nat, r: string) {
    lo + |r| <= |s| && s[lo..lo + |r|] == r
  }

  /** The middle of three concatenated pieces sits right after the first. */
  lemma PieceAt(s: string, a: string, m: string, b: string)
    requires s == a + m + b
    ensures IsSliceAt(s, |a|, m)
  {
    assert s[|a|..|a| + |m|] == m;
  }

  /** A slice ending in a line break holds the text before the break, then the break. */
  lemma SliceWithBreak(s: string, lo: nat, x: string, hi: nat)
    requires IsSliceAt(s, lo, x + "\n") && hi == lo + |x| + 1
    ensures IsSliceAt(s, lo, x) && s[hi - 1] == '\n'
    ensures s[lo..hi] == x + "\n"
  {
    assert s[lo..lo + |x|] == s[lo..hi][..|x|];
    assert s[hi - 1] == s[lo..hi][|x|];
  }

  /** A slice reaching the end of the text is its suffix. */
  lemma SliceAtEnd(s: string, lo: nat, z: string)
    requires IsSliceAt(s, lo, z) && lo + |z| == |s|
    ensures s[lo..] == z
  {
  }

  /** Stripping only removes characters: one absent from `s` is absent from `Strip(s)`. */
  lemma StripKeepsOut(s: string, c: char)
    requires c !in s
    ensures c !in Strip(s)
  {
    var r := Strip(s);
    var lo: nat :| StripsTo(s, lo, r);
    SliceKeepsOut(s, lo, r, c);
  }

  lemma SliceKeepsOut(s: string, lo: nat, r: string, c: char)
    requires IsSliceAt(s, lo, r) && c !in s
    ensures c !in r
  {
    forall i | 0 <= i < |r| ensures r[i] != c {
      assert r[i] == s[lo..lo + |r|][i] == s[lo + i];
    }
  }

  lemma SliceFacts(s: string, k: nat, t: string, r: string)
    requires k <= |s| && t == s[k..] && AllSpace(s[..k])
    requires |r| <= |t| && r == t[..|r|] && AllSpace(t[|r|..])
    requires r == [] || !IsSpace(r[0])
    ensures IsSliceAt(s, k, r)
    ensures r == [] <==> AllSpace(s)
  {
    if r == [] {
      forall i | 0 <= i < |s| ensures IsSpace(s[i]) {
        if i < k {
          assert s[i] == s[..k][i];
        } else {
          assert s[i] == t[|r|..][i - k];
        }
      }
    } else {
      assert s[k] == r[0];
    }
  }

  /** Stripping a string that has no surrounding whitespace leaves it unchanged. */
  lemma StripStripped(s: string)
    requires Stripped(s)
    ensures Strip(s) == s
  {
    if s != [] {
      assert TrimStart(s) == s;
      assert TrimEnd(s) == s;
    }
  }

  /** Whitespace around a string does not survive `strip()`. */
  lemma StripPadded(a: string, s: string, b: string)
    requires AllSpace(a) && AllSpace(b)
    ensures Strip(a + s + b) == Strip(s)
  {
    assert a + s + b == a + (s + b);
    TrimStartSpaces(a, s + b);
    assert TrimStart(a + s + b) == TrimStart(s + b);
    if AllSpace(s) {
      assert AllSpace(s + b) by {
        forall i | 0 <= i < |s + b| ensures IsSpace((s + b)[i]) {
          if i >= |s| { assert (s + b)[i] == b[i - |s|]; }
        }
      }
      AllSpaceTrimsAway(s + b);
      assert Strip(a + s + b) == TrimEnd([]) == [];
    } else {
      TrimStartAppend(s, b);
      TrimEndSpaces(TrimStart(s), b);
      assert Strip(a + s + b) == TrimEnd(TrimStart(s) + b) == TrimEnd(TrimStart(s));
    }
  }

  /** A leading blank does not survive `strip()`. */
  lemma LeadingBlankDropped(v: string)
    ensures Strip(" " + v) == Strip(v)
  {
    assert AllSpace(" ") && AllSpace("");
    assert " " + v + "" == " " + v;
    StripPadded(" ", v, "");
  }

  lemma {:induction false} AllSpaceTrimsAway(s: string)
    requires AllSpace(s)
    ensures TrimStart(s) == []
    decreases |s|
  {
    if s != [] {
      AllSpaceTrimsAway(s[1..]);
    }
  }

  lemma {:induction false} TrimStartSpaces(a: string, w: string)
    requires AllSpace(a)
    ensures TrimStart(a + w) == TrimStart(w)
    decreases |a|
  {
    if a != [] {
      assert (a + w)[1..] == a[1..] + w;
      TrimStartSpaces(a[1..], w);
    } else {
      assert a + w == w;
    }
  }

  lemma {:induction false} TrimEndSpaces(w: string, b: string)
    requires AllSpace(b)
    ensures TrimEnd(w + b) == TrimEnd(w)
    decreases |b|
  {
    if b != [] {
      assert (w + b)[..|w + b| - 1] == w + b[..|b| - 1];
      TrimEndSpaces(w, b[..|b| - 1]);
    } else {
      assert w + b == w;
    }
  }

  lemma {:induction false} TrimStartAppend(s: string, b: string)
    requires !AllSpace(s)
    ensures TrimStart(s + b) == TrimStart(s) + b
    decreases |s|
  {
    if IsSpace(s[0]) {
      assert (s + b)[1..] == s[1..] + b;
      assert !AllSpace(s[1..]) by {
        var i :| 0 <= i < |s| && !IsSpace(s[i]);
        assert s[1..][i - 1] == s[i];
      }
      TrimStartAppend(s[1..], b);
    }
  }

  // ---------------------------------------------------------------- lines

  /** Index of the first `c` in `s`, or `|s|` when `c` does not occur (`str.find` with the miss mapped to `|s|`). */
  function IndexOf(s: string, c: char): (n: nat)
    ensures n <= |s|
    ensures c !in s[..n]
    ensures n < |s| ==> s[n] == c
    ensures n == |s| <==> c !in s
  {
    if s == [] then 0
    else if s[0] == c then 0
    else
      var n := 1 + IndexOf(s[1..], c);
      assert s[..n] == [s[0]] + s[1..][..n - 1];
      n
  }

  /** The first occurrence of `c` is at `n` when `c` is at `n` and not before. */
  lemma IndexOfFirst(s: string, c: char, n: nat)
    requires n < |s| && s[n] == c && c !in s[..n]
    ensures IndexOf(s, c) == n
  {
  }

  /** `"\n".join(lines)` */
  function Join(lines: seq<string>): string
    decreases |lines|
  {
    if |lines| == 0 then ""
    else if |lines| == 1 then lines[0]
    else lines[0] + "\n" + Join(lines[1..])
  }

  /** No piece contains a line break. */
  predicate SingleLines(lines: seq<string>) {
    forall i :: 0 <= i < |lines| ==> '\n' !in lines[i]
  }

  /** `s.split("\n")`: the pieces between line breaks, always at least one. */
  function Split(s: string): (r: seq<string>)
    ensures |r| >= 1
    ensures SingleLines(r)
    ensures Join(r) == s
    decreases |s|
  {
    var n := IndexOf(s, '\n');
    if n == |s| then [s]
    else
      var rest := Split(s[n + 1..]);
      assert s == s[..n] + "\n" + s[n + 1..];
      [s[..n]] + rest
  }

  /** Splitting undoes joining, for pieces that hold no line break. */
  lemma {:induction false} SplitJoin(lines: seq<string>)
    requires |lines| >= 1 && SingleLines(lines)
    ensures Split(Join(lines)) == lines
    decreases |lines|
  {
    if |lines| > 1 {
      SplitFirst(lines[0], Join(lines[1..]));
      SplitJoin(lines[1..]);
      assert lines == [lines[0]] + lines[1..];
    } else {
      assert IndexOf(lines[0], '\n') == |lines[0]|;
    }
  }

  /** A line without a break, then a break: splitting takes that line first. */
  lemma SplitFirst(a: string, rest: string)
    requires '\n' !in a
    ensures Split(a + "\n" + rest) == [a] + Split(rest)
  {
    var s := a + "\n" + rest;
    assert s[..|a|] == a;
    assert s[|a|] == '\n';
    IndexOfFirst(s, '\n', |a|);
    assert s[|a| + 1..] == rest;
  }

  /** Splitting at a line break splits both sides independently. */
  lemma SplitAppend(a: string, b: string)
    ensures Split(a + "\n" + b) == Split(a) + Split(b)
  {
    var la, lb := Split(a), Split(b);
    JoinAppend(la, lb);
    SplitJoin(la + lb);
  }

  lemma {:induction false} JoinAppend(xs: seq<string>, ys: seq<string>)
    requires |xs| >= 1 && |ys| >= 1
    ensures Join(xs + ys) == Join(xs) + "\n" + Join(ys)
    decreases |xs|
  {
    if |xs| == 1 {
      assert (xs + ys)[1..] == ys;
    } else {
      assert (xs + ys)[1..] == xs[1..] + ys;
      JoinAppend(xs[1..], ys);
    }
  }

  /** `s.splitlines()` with `'\n'` as the only line break: no pieces for `""`, and a final break ends the last line. */
  function Lines(s: string): (r: seq<string>)
    ensures SingleLines(r)
    ensures s != [] ==> |r| >= 1
    ensures s == [] ==> r == []
    ensures s != [] && s[|s| - 1] == '\n' ==> Join(r) + "\n" == s
    ensures s != [] && s[|s| - 1] != '\n' ==> Join(r) == s
  {
    if s == [] then []
    else if s[|s| - 1] == '\n' then
      assert s == s[..|s| - 1] + "\n";
      Split(s[..|s| - 1])
    else Split(s)
  }

  /** A text with no line break splits into itself alone. */
  lemma SplitOfLine(s: string)
    requires '\n' !in s
    ensures Split(s) == [s]
  {
    assert IndexOf(s, '\n') == |s|;
  }

  /** Two single lines appended to a text become its last two pieces. */
  lemma SplitThree(a: string, b: string, c: string)
    requires '\n' !in b && '\n' !in c
    ensures Split(a + "\n" + b + "\n" + c) == Split(a) + [b, c]
  {
    var bc := b + "\n" + c;
    assert a + "\n" + b + "\n" + c == a + "\n" + bc;
    SplitAppend(a, bc);
    SplitTwo(b, c);
  }

  /** Two single lines joined by a break split back into the two. */
  lemma SplitTwo(b: string, c: string)
    requires '\n' !in b && '\n' !in c
    ensures Split(b + "\n" + c) == [b, c]
  {
    SplitFirst(b, c);
    SplitOfLine(c);
  }

  /** Without a final line break, the lines are exactly the pieces between breaks. */
  lemma LinesUnterminated(s: string)
    requires s != [] && s[|s| - 1] != '\n'
    ensures Lines(s) == Split(s)
  {
  }

  /** `s.splitlines()[0]`, for a non-empty `s`: the text before the first line break. */
  function FirstLine(s: string): (r: string)
    requires s != []
    ensures '\n' !in r
    ensures r == s[..IndexOf(s, '\n')]
  {
    var n := IndexOf(s, '\n');
    if s[|s| - 1] == '\n' then
      assert s[..|s| - 1][..n] == s[..n];
      assert n < |s| - 1 ==> s[..|s| - 1][n] == '\n';
      assert n == |s| - 1 ==> '\n' !in s[..|s| - 1];
      assert IndexOf(s[..|s| - 1], '\n') == (if n == |s| - 1 then |s| - 1 else n);
      Lines(s)[0]
    else
      Lines(s)[0]
  }

  // ---------------------------------------------------------------- title

  /** One character of `str.title()`: a letter is upper-cased at the start of a word and lower-cased inside one. */
  function TitleChar(c: char, afterLetter: bool): char {
    if !IsLetter(c) then c
    else if afterLetter then LowerChar(c)
    else UpperChar(c)
  }

  /** `str.title()` on the rest of a string whose previous character was (or was not) a letter. */
  function TitleFrom(s: string, afterLetter: bool): (r: string)
    ensures |r| == |s|
    ensures |s| > 0 ==> r[0] == TitleChar(s[0], afterLetter)
    ensures forall i :: 0 < i < |s| ==> r[i] == TitleChar(s[i], IsLetter(s[i - 1]))
    decreases |s|
  {
    if s == [] then ""
    else [TitleChar(s[0], afterLetter)] + TitleFrom(s[1..], IsLetter(s[0]))
  }

  /** `s.title()`: every word (maximal run of letters) starts upper-case and continues lower-case. */
  function Title(s: string): (r: string)
    ensures |r| == |s|
    ensures forall i :: 0 <= i < |s| ==> IsLetter(r[i]) == IsLetter(s[i])
    ensures forall i :: 0 <= i < |s| && IsLetter(s[i]) && (i == 0 || !IsLetter(s[i - 1])) ==> IsUpper(r[i])
    ensures forall i :: 0 < i < |s| && IsLetter(s[i]) && IsLetter(s[i - 1]) ==> IsLower(r[i])
    ensures forall i :: 0 <= i < |s| && !IsLetter(s[i]) ==> r[i] == s[i]
    ensures forall i :: 0 <= i < |s| ==> LowerChar(r[i]) == LowerChar(s[i])
  {
    var r := TitleFrom(s, false);
    TitleShape(s, r);
    r
  }

  lemma TitleShape(s: string, r: string)
    requires r == TitleFrom(s, false)
    ensures |r| == |s|
    ensures forall i :: 0 <= i < |s| ==> IsLetter(r[i]) == IsLetter(s[i])
    ensures forall i :: 0 <= i < |s| && IsLetter(s[i]) && (i == 0 || !IsLetter(s[i - 1])) ==> IsUpper(r[i])
    ensures forall i :: 0 < i < |s| && IsLetter(s[i]) && IsLetter(s[i - 1]) ==> IsLower(r[i])
    ensures forall i :: 0 <= i < |s| && !IsLetter(s[i]) ==> r[i] == s[i]
    ensures forall i :: 0 <= i < |s| ==> LowerChar(r[i]) == LowerChar(s[i])
  {
    forall i | 0 <= i < |s|
      ensures IsLetter(r[i]) == IsLetter(s[i])
      ensures IsLetter(s[i]) && (i == 0 || !IsLetter(s[i - 1])) ==> IsUpper(r[i])
      ensures i > 0 && IsLetter(s[i]) && IsLetter(s[i - 1]) ==> IsLower(r[i])
      ensures !IsLetter(s[i]) ==> r[i] == s[i]
      ensures LowerChar(r[i]) == LowerChar(s[i])
    {
      TitleCharShape(s[i], i > 0 && IsLetter(s[i - 1]));
    }
  }

  lemma TitleCharShape(c: char, afterLetter: bool)
    ensures IsLetter(TitleChar(c, afterLetter)) == IsLetter(c)
    ensures LowerChar(TitleChar(c, afterLetter)) == LowerChar(c)
    ensures IsLetter(c) && !afterLetter ==> IsUpper(TitleChar(c, afterLetter))
    ensures IsLetter(c) && afterLetter ==> IsLower(TitleChar(c, afterLetter))
  {
  }

  /** Title-casing is idempotent. */
  lemma TitleIdempotent(s: string)
    ensures Title(Title(s)) == Title(s)
  {
    var t := Title(s);
    forall i | 0 <= i < |s| ensures Title(t)[i] == t[i] {
      if i > 0 {
        assert IsLetter(t[i - 1]) == IsLetter(s[i - 1]);
      }
    }
  }

  /** A capitalised word with lower-case letters after its first is its own title case. */
  lemma TitleOfWord(u: char, rest: string)
    requires IsUpper(u)
    requires forall i :: 0 <= i < |rest| ==> IsLower(rest[i])
    ensures Title([u] + rest) == [u] + rest
  {
    var s := [u] + rest;
    var t := Title(s);
    forall i | 0 <= i < |s| ensures t[i] == s[i] {
      if i > 0 {
        assert s[i] == rest[i - 1] && IsLetter(s[i - 1]);
      }
    }
  }
}
