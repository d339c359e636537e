/** String operations shared by the configuration reader and the .env
    parser: trimming a class of characters from both ends, finding the
    leftmost occurrence of a separator, and splitting at every
    non-overlapping occurrence, left to right. */
module Text {
  import opened Wire

  /** The number of leading characters of `s` in the class `cut`. */
  function Lead(s: string, cut: char -> bool): (n: nat)
    ensures n <= |s|
    ensures n < |s| ==> !cut(s[n])
    decreases |s|
  {
    if s == [] || !cut(s[0]) then 0 else 1 + Lead(s[1..], cut)
  }

  /** The number of trailing characters of `s` in the class `cut`. */
  function Trail(s: string, cut: char -> bool): (n: nat)
    ensures n <= |s|
    ensures n < |s| ==> !cut(s[|s| - n - 1])
    decreases |s|
  {
    if s == [] || !cut(s[|s| - 1]) then 0 else 1 + Trail(s[..|s| - 1], cut)
  }

  /** Every character Lead counts is in the class. */
  lemma {:induction false} LeadAll(s: string, cut: char -> bool)
    ensures forall k :: 0 <= k < Lead(s, cut) ==> cut(s[k])
    decreases |s|
  {
    if s != [] && cut(s[0]) {
      LeadAll(s[1..], cut);
      forall k | 1 <= k < Lead(s, cut)
        ensures cut(s[k])
      {
        assert s[k] == s[1..][k - 1];
      }
    }
  }

  /** Every character Trail counts is in the class. */
  lemma {:induction false} TrailAll(s: string, cut: char -> bool)
    ensures forall k :: |s| - Trail(s, cut) <= k < |s| ==> cut(s[k])
    decreases |s|
  {
    if s != [] && cut(s[|s| - 1]) {
      TrailAll(s[..|s| - 1], cut);
      forall k | |s| - Trail(s, cut) <= k < |s| - 1
        ensures cut(s[k])
      {
        assert s[k] == s[..|s| - 1][k];
      }
    }
  }

  /** Lead and Trail are where a scan from either end stops. */
  lemma LeadScan(s: string, cut: char -> bool, i: nat)
    requires i <= Lead(s, cut) && i <= |s|
    ensures i < |s| && cut(s[i]) ==> i + 1 <= Lead(s, cut)
    ensures i == |s| || !cut(s[i]) ==> i == Lead(s, cut)
  {
    LeadAll(s, cut);
  }

  lemma TrailScan(s: string, cut: char -> bool, m: nat)
    requires m <= Trail(s, cut) && m <= |s|
    ensures m < |s| && cut(s[|s| - m - 1]) ==> m + 1 <= Trail(s, cut)
    ensures m == |s| || !cut(s[|s| - m - 1]) ==> m == Trail(s, cut)
  {
    TrailAll(s, cut);
  }

  /** The backward scan of trim, stated on the rest `s[i..]` after the
      forward scan stopped at i. */
  lemma TrailScanFrom(s: string, cut: char -> bool, i: nat, j: nat)
    requires i <= j <= |s| && |s| - j <= Trail(s[i..], cut)
    ensures j > i && cut(s[j - 1]) ==> |s| - j + 1 <= Trail(s[i..], cut)
    ensures j == i || !cut(s[j - 1]) ==> s[i..j] == s[i..][..|s| - i - Trail(s[i..], cut)]
  {
    var t := s[i..];
    if j > i {
      assert s[j - 1] == t[|t| - (|s| - j) - 1];
    }
    TrailScan(t, cut, |s| - j);
  }

  /** `s` without its leading and then its trailing characters in `cut`. */
  function TrimBy(s: string, cut: char -> bool): string {
    var t := s[Lead(s, cut)..];
    t[..|t| - Trail(t, cut)]
  }

  /** The trimmed string is a slice of the input, everything cut off before
      and after it is in the class, and it neither starts nor ends with a
      character of the class. */
  lemma TrimBySlice(s: string, cut: char -> bool)
    ensures var r := TrimBy(s, cut); var i := Lead(s, cut);
      && i + |r| <= |s| && s[i..i + |r|] == r
      && (forall k :: 0 <= k < i ==> cut(s[k]))
      && (forall k :: i + |r| <= k < |s| ==> cut(s[k]))
      && (r == [] || (!cut(r[0]) && !cut(r[|r| - 1])))
  {
    var i := Lead(s, cut);
    var t := s[i..];
    var n := Trail(t, cut);
    var r := TrimBy(s, cut);
    LeadAll(s, cut);
    TrailAll(t, cut);
    assert r == t[..|t| - n];
    forall k | i + |r| <= k < |s|
      ensures cut(s[k])
    {
      assert s[k] == t[k - i];
    }
    if r != [] {
      assert r[0] == t[0];
    }
  }

  /** A string with no class character at either end is its own trim. */
  lemma TrimByKeeps(s: string, cut: char -> bool)
    requires s == [] || (!cut(s[0]) && !cut(s[|s| - 1]))
    ensures TrimBy(s, cut) == s
  {
    if s != [] {
      assert Lead(s, cut) == 0;
      assert s[0..] == s;
      assert Trail(s, cut) == 0;
    }
  }

  /** A string that starts with a character outside the class keeps it. */
  lemma TrimByNonEmpty(s: string, cut: char -> bool)
    requires s != [] && !cut(s[0])
    ensures TrimBy(s, cut) != [] && TrimBy(s, cut)[0] == s[0]
  {
    assert Lead(s, cut) == 0;
    assert s[0..] == s;
    TrailAll(s, cut);
  }

  /** Trimming twice is trimming once. */
  lemma TrimByIdempotent(s: string, cut: char -> bool)
    ensures TrimBy(TrimBy(s, cut), cut) == TrimBy(s, cut)
  {
    TrimBySlice(s, cut);
    TrimByKeeps(TrimBy(s, cut), cut);
  }

  /** `sep` occurs in `s` starting at index i. */
  predicate OccursAt(s: string, sep: string, i: nat) {
    i + |sep| <= |s| && s[i..i + |sep|] == sep
  }

  function FindFrom(s: string, sep: string, i: nat): (r: Option<nat>)
    ensures r.Some? ==> i <= r.value && OccursAt(s, sep, r.value)
                        && forall k :: i <= k < r.value ==> !OccursAt(s, sep, k)
    ensures r.None? ==> forall k :: i <= k ==> !OccursAt(s, sep, k)
    decreases |s| - i
  {
    if i + |sep| > |s| then None
    else if OccursAt(s, sep, i) then Some(i)
    else FindFrom(s, sep, i + 1)
  }

  /** strings.Index: the leftmost occurrence of `sep` in `s`, if any. */
  function Find(s: string, sep: string): (r: Option<nat>)
    ensures r.Some? ==> OccursAt(s, sep, r.value) && forall k :: 0 <= k < r.value ==> !OccursAt(s, sep, k)
    ensures r.None? ==> forall k :: 0 <= k ==> !OccursAt(s, sep, k)
  {
    FindFrom(s, sep, 0)
  }

  /** The pieces of `s[start..]` when the scan for `sep` stands at i: a match
      at i closes the current piece and the scan resumes after it, so matches
      never overlap; past the last position a match could start, the rest is
      the final piece. */
  function SplitFrom(s: string, sep: string, start: nat, i: nat): (ps: seq<string>)
    requires |sep| > 0 && start <= i <= |s|
    ensures |ps| >= 1
    decreases |s| - i
  {
    if i + |sep| > |s| then [s[start..]]
    else if OccursAt(s, sep, i) then [s[start..i]] + SplitFrom(s, sep, i + |sep|, i + |sep|)
    else SplitFrom(s, sep, start, i + 1)
  }

  /** No match of `sep` starts in [p, q). */
  predicate Free(s: string, sep: string, p: nat, q: nat) {
    forall m :: p <= m < q ==> !OccursAt(s, sep, m)
  }

  /** `piece` sits in `s` at p, no match of `sep` starts inside it, and it is
      closed by a match of `sep` or, when it is the last piece, by the end of `s`. */
  predicate CutAt(s: string, sep: string, piece: string, p: nat, last: bool) {
    && p + |piece| <= |s| && s[p..p + |piece|] == piece
    && Free(s, sep, p, p + |piece|)
    && (if last then p + |piece| == |s| else OccursAt(s, sep, p + |piece|))
  }

  /** `ps` cuts `s[start..]` at the leftmost match after each cut: the first
      piece starts at `start` and runs up to the leftmost match of `sep`
      (or to the end of `s`, if it is the last piece), and the other pieces
      tile the text after that match in the same way. */
  predicate Tiles(s: string, sep: string, ps: seq<string>, start: nat)
    decreases |ps|
  {
    && |ps| >= 1
    && CutAt(s, sep, ps[0], start, |ps| == 1)
    && (|ps| > 1 ==> Tiles(s, sep, ps[1..], start + |ps[0]| + |sep|))
  }

  /** The rest of the text, when no match starts in it, is a one-piece tiling. */
  lemma TilesLast(s: string, sep: string, start: nat)
    requires start <= |s| && Free(s, sep, start, |s|)
    ensures Tiles(s, sep, [s[start..]], start)
  {
    assert s[start..start + |s[start..]|] == s[start..];
  }

  /** The text from `start` up to a match at i, with none before it, is a
      piece closed by that match. */
  lemma CutBeforeMatch(s: string, sep: string, start: nat, i: nat)
    requires start <= i && Free(s, sep, start, i) && OccursAt(s, sep, i)
    ensures CutAt(s, sep, s[start..i], start, false)
  {
    assert start + |s[start..i]| == i;
  }

  /** A piece closed by a match, followed by a tiling from after that match. */
  lemma TilesPrepend(s: string, sep: string, piece: string, rest: seq<string>, start: nat, next: nat)
    requires CutAt(s, sep, piece, start, false) && next == start + |piece| + |sep|
    requires Tiles(s, sep, rest, next)
    ensures Tiles(s, sep, [piece] + rest, start)
  {
    assert ([piece] + rest)[1..] == rest;
  }

  lemma {:induction false} SplitFromTiles(s: string, sep: string, start: nat, i: nat)
    requires |sep| > 0 && start <= i <= |s|
    requires Free(s, sep, start, i)
    ensures Tiles(s, sep, SplitFrom(s, sep, start, i), start)
    decreases |s| - i
  {
    if i + |sep| > |s| {
      assert SplitFrom(s, sep, start, i) == [s[start..]];
      TilesLast(s, sep, start);
    } else if OccursAt(s, sep, i) {
      var next := i + |sep|;
      var rest := SplitFrom(s, sep, next, next);
      SplitFromTiles(s, sep, next, next);
      CutBeforeMatch(s, sep, start, i);
      TilesPrepend(s, sep, s[start..i], rest, start, next);
      assert SplitFrom(s, sep, start, i) == [s[start..i]] + rest;
    } else {
      SplitFromTiles(s, sep, start, i + 1);
    }
  }

  /** The pieces between the non-overlapping occurrences of `sep`, found left
      to right: each piece runs from the previous cut to the leftmost match
      after it, and the last one to the end of the text. */
  function Split(s: string, sep: string): (ps: seq<string>)
    requires |sep| > 0
    ensures |ps| >= 1
  {
    SplitFrom(s, sep, 0, 0)
  }

  /** Split cuts at the leftmost match after each cut: every piece but the
      last runs from the previous cut up to the leftmost match of the
      separator, with none starting inside it, and the last runs to the end. */
  lemma SplitTiles(s: string, sep: string)
    requires |sep| > 0
    ensures Tiles(s, sep, Split(s, sep), 0)
  {
    SplitFromTiles(s, sep, 0, 0);
  }

  /** Two pieces cut at the same place end at the same place: each ends at
      the leftmost match after it, or at the end of the text. */
  lemma SameCut(s: string, sep: string, x: string, y: string, p: nat, lastX: bool, lastY: bool)
    requires |sep| > 0 && CutAt(s, sep, x, p, lastX) && CutAt(s, sep, y, p, lastY)
    ensures x == y && lastX == lastY
  {
  }

  /** The cut points fix the pieces: two tilings of the same text from the
      same start are equal, so Split is the only one. */
  lemma {:induction false} TilesUnique(s: string, sep: string, ps: seq<string>, qs: seq<string>, start: nat)
    requires |sep| > 0
    requires Tiles(s, sep, ps, start) && Tiles(s, sep, qs, start)
    ensures ps == qs
    decreases |ps|
  {
    SameCut(s, sep, ps[0], qs[0], start, |ps| == 1, |qs| == 1);
    if |ps| > 1 {
      TilesUnique(s, sep, ps[1..], qs[1..], start + |ps[0]| + |sep|);
      assert ps == [ps[0]] + ps[1..] && qs == [qs[0]] + qs[1..];
    }
  }

  /** Split is characterised by its cut points: any list of pieces cut at the
      leftmost match after each cut is the split. */
  lemma SplitIsTheTiling(s: string, sep: string, ps: seq<string>)
    requires |sep| > 0 && Tiles(s, sep, ps, 0)
    ensures ps == Split(s, sep)
  {
    SplitTiles(s, sep);
    TilesUnique(s, sep, ps, Split(s, sep), 0);
  }

  /** The pieces joined with `sep` in between. */
  function Join(ps: seq<string>, sep: string): string
    decreases |ps|
  {
    if ps == [] then ""
    else if |ps| == 1 then ps[0]
    else ps[0] + sep + Join(ps[1..], sep)
  }

  lemma JoinCons(a: string, ps: seq<string>, sep: string)
    requires ps != []
    ensures Join([a] + ps, sep) == a + sep + Join(ps, sep)
  {
    assert ([a] + ps)[1..] == ps;
  }

  lemma {:induction false} JoinSplitFrom(s: string, sep: string, start: nat, i: nat)
    requires |sep| > 0 && start <= i <= |s|
    ensures Join(SplitFrom(s, sep, start, i), sep) == s[start..]
    decreases |s| - i
  {
    if i + |sep| <= |s| {
      if OccursAt(s, sep, i) {
        var next := i + |sep|;
        var rest := SplitFrom(s, sep, next, next);
        assert SplitFrom(s, sep, start, i) == [s[start..i]] + rest;
        JoinSplitFrom(s, sep, next, next);
        JoinCons(s[start..i], rest, sep);
        SliceInThree(s, start, i, next);
      } else {
        JoinSplitFrom(s, sep, start, i + 1);
      }
    }
  }

  lemma SliceInThree(s: string, a: nat, b: nat, c: nat)
    requires a <= b <= c <= |s|
    ensures s[a..] == s[a..b] + s[b..c] + s[c..]
  {
    assert s[a..] == s[a..b] + s[b..];
    assert s[b..] == s[b..c] + s[c..];
  }

  lemma SliceOfSlice(s: string, start: nat, end: nat, a: nat, b: nat)
    requires start <= end <= |s| && a <= b <= end - start
    ensures s[start..end][a..b] == s[start + a..start + b]
  {
    assert forall k :: 0 <= k < b - a ==> s[start..end][a..b][k] == s[start + a + k];
  }

  /** Splitting loses nothing: joining the pieces back with the separator
      gives the input. */
  lemma JoinSplit(s: string, sep: string)
    requires |sep| > 0
    ensures Join(Split(s, sep), sep) == s
  {
    JoinSplitFrom(s, sep, 0, 0);
  }

  /** A slice of `s` that contains no match of `sep` starting in it. */
  lemma SliceIsFree(s: string, sep: string, start: nat, end: nat)
    requires start <= end <= |s|
    requires forall k :: start <= k && k + |sep| <= end ==> !OccursAt(s, sep, k)
    ensures Find(s[start..end], sep).None?
  {
    var piece := s[start..end];
    if Find(piece, sep).Some? {
      var k := Find(piece, sep).value;
      SliceOfSlice(s, start, end, k, k + |sep|);
      assert OccursAt(s, sep, start + k);
    }
  }

  lemma {:induction false} SplitFromPiecesAreFree(s: string, sep: string, start: nat, i: nat)
    requires |sep| > 0 && start <= i <= |s|
    requires forall k :: start <= k < i ==> !OccursAt(s, sep, k)
    ensures forall j :: 0 <= j < |SplitFrom(s, sep, start, i)| ==> Find(SplitFrom(s, sep, start, i)[j], sep).None?
    decreases |s| - i
  {
    var ps := SplitFrom(s, sep, start, i);
    if i + |sep| > |s| {
      forall k | start <= k && k + |sep| <= |s|
        ensures !OccursAt(s, sep, k)
      {
      }
      SliceIsFree(s, sep, start, |s|);
      assert s[start..|s|] == s[start..];
      assert ps == [s[start..]];
    } else if OccursAt(s, sep, i) {
      SliceIsFree(s, sep, start, i);
      SplitFromPiecesAreFree(s, sep, i + |sep|, i + |sep|);
      var rest := SplitFrom(s, sep, i + |sep|, i + |sep|);
      assert ps == [s[start..i]] + rest;
      forall j | 0 <= j < |ps|
        ensures Find(ps[j], sep).None?
      {
        if j > 0 {
          assert ps[j] == rest[j - 1];
        }
      }
    } else {
      SplitFromPiecesAreFree(s, sep, start, i + 1);
    }
  }

  /** No piece contains the separator. */
  lemma SplitPiecesAreFree(s: string, sep: string)
    requires |sep| > 0
    ensures forall j :: 0 <= j < |Split(s, sep)| ==> Find(Split(s, sep)[j], sep).None?
  {
    SplitFromPiecesAreFree(s, sep, 0, 0);
  }
}
