/**
 * Case-insensitive search for field labels: the part of Python's `re.search`
 * with `re.IGNORECASE` that the normaliser's patterns use. A pattern such as
 * `(?:Sentiment:|Overall Sentiment:)` is an ordered list of lower-case
 * aliases; the search reports the earliest index where one of them occurs
 * and, at that index, the first alias in the list that does.
 */
module Labels {
  import opened Results
  import opened Text

  /** The lower-case alias `p` occurs at index `i` of `s`, ignoring ASCII case. */
  predicate MatchesAt(s: string, i: nat, p: string) {
    i + |p| <= |s| && forall k :: 0 <= k < |p| ==> LowerChar(s[i + k]) == p[k]
  }

  /** Some alias of the list occurs at index `i` of `s`. */
  predicate AnyAt(s: string, i: nat, aliases: seq<string>) {
    exists k :: 0 <= k < |aliases| && MatchesAt(s, i, aliases[k])
  }

  /** Some alias of the list occurs somewhere in `s`. */
  predicate Occurs(s: string, aliases: seq<string>) {
    exists i :: 0 <= i <= |s| && AnyAt(s, i, aliases)
  }

  /** Where a search succeeded: the index of the match and which alias matched there. */
  datatype Hit = Hit(pos: nat, alias: nat)

  /** `h` is the match a leftmost search from `from` reports. */
  predicate IsFirstHit(s: string, aliases: seq<string>, from: nat, h: Hit) {
    && from <= h.pos <= |s|
    && h.alias < |aliases|
    && MatchesAt(s, h.pos, aliases[h.alias])
    && (forall m :: 0 <= m < h.alias ==> !MatchesAt(s, h.pos, aliases[m]))
    && (forall j :: from <= j < h.pos ==> !AnyAt(s, j, aliases))
  }

  /** The first alias, from index `k` of the list on, that occurs at index `i`. */
  function FirstAliasAt(s: string, i: nat, aliases: seq<string>, k: nat): (r: Option<nat>)
    requires k <= |aliases|
    ensures r.Some? ==> k <= r.value < |aliases| && MatchesAt(s, i, aliases[r.value])
    ensures r.Some? ==> forall m :: k <= m < r.value ==> !MatchesAt(s, i, aliases[m])
    ensures r.None? ==> forall m :: k <= m < |aliases| ==> !MatchesAt(s, i, aliases[m])
    decreases |aliases| - k
  {
    if k == |aliases| then None
    else if MatchesAt(s, i, aliases[k]) then Some(k)
    else FirstAliasAt(s, i, aliases, k + 1)
  }

  /** Leftmost case-insensitive search for any alias, starting at index `from`. */
  function FindLabel(s: string, aliases: seq<string>, from: nat): (r: Option<Hit>)
    requires from <= |s|
    ensures r.None? <==> forall j :: from <= j ==> !AnyAt(s, j, aliases)
    ensures r.Some? ==> IsFirstHit(s, aliases, from, r.value)
    decreases |s| - from
  {
    match FirstAliasAt(s, from, aliases, 0)
    case Some(k) =>
      assert AnyAt(s, from, aliases);
      Some(Hit(from, k))
    case None =>
      if from == |s| then None
      else
        var r := FindLabel(s, aliases, from + 1);
        assert r.Some? ==> IsFirstHit(s, aliases, from, r.value);
        r
  }

  /** The search result is determined: whatever satisfies the leftmost-match conditions is what the search reports. */
  lemma FindLabelIs(s: string, aliases: seq<string>, from: nat, h: Hit)
    requires from <= |s|
    requires IsFirstHit(s, aliases, from, h)
    ensures FindLabel(s, aliases, from) == Some(h)
  {
    var r := FindLabel(s, aliases, from);
    assert AnyAt(s, h.pos, aliases);
    assert r.Some?;
    var g := r.value;
    assert g.pos == h.pos by {
      if g.pos < h.pos {
        assert AnyAt(s, g.pos, aliases);
      }
    }
    assert g.alias == h.alias;
    assert g == h;
  }

  /**
   * The search from the start reports `Hit(p2, b)` when nothing matches before
   * `p1`, nothing from `p1` to `p2`, and alias `b` is the first to match at `p2`.
   */
  lemma HitAfterGaps(s: string, aliases: seq<string>, p1: nat, p2: nat, b: nat)
    requires p1 <= p2 <= |s| && b < |aliases|
    requires forall j :: 0 <= j < p1 ==> !AnyAt(s, j, aliases)
    requires forall j :: p1 <= j < p2 ==> !AnyAt(s, j, aliases)
    requires MatchesAt(s, p2, aliases[b])
    requires forall m :: 0 <= m < b ==> !MatchesAt(s, p2, aliases[m])
    ensures FindLabel(s, aliases, 0) == Some(Hit(p2, b))
  {
    FindLabelIs(s, aliases, 0, Hit(p2, b));
  }

  /** Every occurrence inside a slice of `s` is an occurrence in `s`, shifted by the slice's start. */
  lemma MatchesInSlice(s: string, lo: nat, hi: nat, j: nat, p: string)
    requires lo <= hi <= |s|
    requires MatchesAt(s[lo..hi], j, p)
    ensures MatchesAt(s, lo + j, p)
  {
    forall k | 0 <= k < |p| ensures LowerChar(s[lo + j + k]) == p[k] {
      assert s[lo..hi][j + k] == s[lo + j + k];
    }
  }

  /** An occurrence in `s` that lies inside the copy of `w` at `off` is an occurrence in `w`. */
  lemma MatchesInside(s: string, off: nat, w: string, j: nat, p: string)
    requires IsSliceAt(s, off, w)
    requires off <= j && j + |p| <= off + |w|
    requires MatchesAt(s, j, p)
    ensures MatchesAt(w, j - off, p)
  {
    forall k | 0 <= k < |p| ensures LowerChar(w[j - off + k]) == p[k] {
      assert w[j - off + k] == s[off..off + |w|][j - off + k];
    }
  }

  /**
   * The shape every label of the normaliser has: it ends with its only colon
   * and holds no line break. This is what keeps occurrences of different
   * labels from overlapping.
   */
  predicate WellShaped(p: string) {
    |p| > 0 && p[|p| - 1] == ':' && ':' !in p[..|p| - 1] && '\n' !in p
  }

  /** A label occurrence never runs over a line break. */
  lemma NotAcrossBreak(s: string, j: nat, p: string, nl: nat)
    requires WellShaped(p) && MatchesAt(s, j, p)
    requires nl < |s| && s[nl] == '\n' && j <= nl
    ensures j + |p| <= nl
  {
    assert j + |p| > nl ==> p[nl - j] == LowerChar(s[nl]);
  }

  /** The colon of a well-shaped label is its last character. */
  lemma ColonOnlyAtEnd(p: string, k: nat)
    requires WellShaped(p) && k < |p| && p[k] == ':'
    ensures k == |p| - 1
  {
    assert forall i :: 0 <= i < |p| - 1 ==> p[i] == p[..|p| - 1][i];
  }

  /** Inside an occurrence of label `a`, another label `p` can only occur as a suffix of `a` (both ending at its colon). */
  lemma InsideLabel(s: string, off: nat, a: string, j: nat, p: string)
    requires WellShaped(a) && WellShaped(p)
    requires MatchesAt(s, off, a) && MatchesAt(s, j, p)
    requires off <= j < off + |a|
    ensures j + |p| == off + |a|
    ensures a[|a| - |p|..] == p
  {
    var c := off + |a| - 1;
    var e := j + |p| - 1;
    if e < c {
      ColonOnlyAtEnd(a, e - off);
    } else {
      ColonOnlyAtEnd(p, c - j);
    }
    forall k | 0 <= k < |p| ensures a[|a| - |p|..][k] == p[k] {
      assert a[j - off + k] == LowerChar(s[j + k]);
    }
  }

  /** Every alias of the list is a non-empty string. */
  predicate NonEmptyAliases(aliases: seq<string>) {
    forall k :: 0 <= k < |aliases| ==> |aliases[k]| > 0
  }

  /** A stretch of `s` in which no alias starts holds no whole occurrence of one. */
  lemma NoOccurrenceInSlice(s: string, lo: nat, hi: nat, aliases: seq<string>)
    requires lo <= hi <= |s| && NonEmptyAliases(aliases)
    requires forall j :: lo <= j < hi ==> !AnyAt(s, j, aliases)
    ensures !Occurs(s[lo..hi], aliases)
  {
    forall i, k | 0 <= i <= hi - lo && 0 <= k < |aliases| && MatchesAt(s[lo..hi], i, aliases[k])
      ensures false
    {
      MatchesInSlice(s, lo, hi, i, aliases[k]);
      assert AnyAt(s, lo + i, aliases);
    }
  }

  /** Stripping cannot create an occurrence. */
  lemma StripKeepsAbsence(s: string, aliases: seq<string>)
    requires NonEmptyAliases(aliases) && !Occurs(s, aliases)
    ensures !Occurs(Strip(s), aliases)
  {
    var r := Strip(s);
    var lo: nat :| StripsTo(s, lo, r);
    SliceKeepsAbsence(s, lo, r, aliases);
  }

  /** A slice of a label-free text is label-free. */
  lemma SliceKeepsAbsence(s: string, lo: nat, r: string, aliases: seq<string>)
    requires NonEmptyAliases(aliases) && !Occurs(s, aliases) && IsSliceAt(s, lo, r)
    ensures !Occurs(r, aliases)
  {
    forall j | lo <= j < lo + |r| ensures !AnyAt(s, j, aliases) {
      assert !(0 <= j <= |s| && AnyAt(s, j, aliases));
    }
    NoOccurrenceInSlice(s, lo, lo + |r|, aliases);
  }

  /** Every alias of the list is well shaped. */
  predicate AllWellShaped(aliases: seq<string>) {
    forall k :: 0 <= k < |aliases| ==> WellShaped(aliases[k])
  }

  /** No alias of the list is a suffix of `a`. */
  predicate NoneEnds(a: string, aliases: seq<string>) {
    forall k :: 0 <= k < |aliases| && |aliases[k]| <= |a| ==> a[|a| - |aliases[k]|..] != aliases[k]
  }

  /** A copy of `w` in `s` is an occurrence of the lower-cased `w`. */
  lemma CopyMatches(s: string, off: nat, w: string)
    requires IsSliceAt(s, off, w)
    ensures MatchesAt(s, off, Lower(w))
  {
    forall k | 0 <= k < |w| ensures LowerChar(s[off + k]) == Lower(w)[k] {
      assert s[off + k] == s[off..off + |w|][k];
    }
  }

  /** No alias starts with a blank, so a blank put before a label-free text adds no occurrence. */
  lemma BlankAddsNoLabel(w: string, aliases: seq<string>)
    requires forall k :: 0 <= k < |aliases| ==> |aliases[k]| > 0 && aliases[k][0] != ' '
    requires !Occurs(w, aliases)
    ensures !Occurs(" " + w, aliases)
  {
    var s := " " + w;
    assert IsSliceAt(s, 1, w);
    forall i, k | 0 <= i <= |s| && 0 <= k < |aliases| ensures !MatchesAt(s, i, aliases[k]) {
      if MatchesAt(s, i, aliases[k]) && i > 0 {
        OccursInside(s, 1, w, i, k, aliases);
      }
    }
  }

  /** An alias occurrence lying inside the copy of `w` is an occurrence in `w`. */
  lemma OccursInside(s: string, off: nat, w: string, j: nat, k: nat, aliases: seq<string>)
    requires IsSliceAt(s, off, w) && k < |aliases|
    requires off <= j && j + |aliases[k]| <= off + |w|
    requires MatchesAt(s, j, aliases[k])
    ensures Occurs(w, aliases)
  {
    MatchesInside(s, off, w, j, aliases[k]);
    assert AnyAt(w, j - off, aliases);
  }

  /**
   * A label-free line followed by a line break: no well-shaped alias starts
   * anywhere in it, nor at the break.
   */
  lemma NoHitBeforeBreak(s: string, off: nat, w: string, aliases: seq<string>)
    requires AllWellShaped(aliases)
    requires IsSliceAt(s, off, w) && off + |w| < |s| && s[off + |w|] == '\n'
    requires !Occurs(w, aliases)
    ensures forall j :: off <= j <= off + |w| ==> !AnyAt(s, j, aliases)
  {
    forall j, k | off <= j <= off + |w| && 0 <= k < |aliases| && MatchesAt(s, j, aliases[k])
      ensures false
    {
      NotAcrossBreak(s, j, aliases[k], off + |w|);
      OccursInside(s, off, w, j, k, aliases);
    }
  }

  /** Inside an occurrence of label `a`, no alias starts unless it is a suffix of `a`. */
  lemma NoHitInsideLabel(s: string, off: nat, a: string, aliases: seq<string>)
    requires WellShaped(a) && MatchesAt(s, off, a)
    requires AllWellShaped(aliases) && NoneEnds(a, aliases)
    ensures forall j :: off <= j < off + |a| ==> !AnyAt(s, j, aliases)
  {
    forall j, k | off <= j < off + |a| && 0 <= k < |aliases| && MatchesAt(s, j, aliases[k])
      ensures false
    {
      InsideLabel(s, off, a, j, aliases[k]);
    }
  }

  /** No well-shaped alias starts in a stretch that holds no colon up to the end. */
  lemma NoHitWithoutColon(s: string, lo: nat, aliases: seq<string>)
    requires lo <= |s| && ':' !in s[lo..]
    requires AllWellShaped(aliases)
    ensures forall j :: lo <= j ==> !AnyAt(s, j, aliases)
  {
    forall j, k | lo <= j && 0 <= k < |aliases| && MatchesAt(s, j, aliases[k])
      ensures false
    {
      MatchLeavesColon(s, lo, j, aliases[k]);
    }
  }

  /** An occurrence of a well-shaped label from `lo` on puts a colon in `s[lo..]`. */
  lemma MatchLeavesColon(s: string, lo: nat, j: nat, p: string)
    requires WellShaped(p) && MatchesAt(s, j, p) && lo <= j
    ensures ':' in s[lo..]
  {
    var e := j + |p| - 1;
    assert LowerChar(s[e]) == ':';
    assert s[lo..][e - lo] == s[e];
  }

  /** A text without a colon holds no well-shaped alias. */
  lemma ColonFreeLabelFree(w: string, aliases: seq<string>)
    requires ':' !in w && AllWellShaped(aliases)
    ensures !Occurs(w, aliases)
  {
    assert w[0..] == w;
    NoHitWithoutColon(w, 0, aliases);
  }

  /** Two aliases that differ at a common index cannot both occur at the same place. */
  lemma DifferentAliases(s: string, i: nat, p: string, q: string, k: nat)
    requires MatchesAt(s, i, p) && k < |p| && k < |q| && p[k] != q[k]
    ensures !MatchesAt(s, i, q)
  {
    assert LowerChar(s[i + k]) == p[k];
  }

  /** When `p` occurs at `i` and every alias differs from `p` at offset `k`, no alias occurs at `i`. */
  lemma NoAliasAt(s: string, i: nat, p: string, aliases: seq<string>, k: nat)
    requires MatchesAt(s, i, p) && k < |p|
    requires forall j :: 0 <= j < |aliases| ==> k < |aliases[j]| && aliases[j][k] != p[k]
    ensures !AnyAt(s, i, aliases)
  {
    forall j | 0 <= j < |aliases| ensures !MatchesAt(s, i, aliases[j]) {
      DifferentAliases(s, i, p, aliases[j], k);
    }
  }
}
