/** 10-25/Util.hpp: cutString, which splits a text at every separator. */
module CutString {
  import opened Text

  /** The pieces from position `start` on; what follows the last separator is a piece only if it is
      not empty. */
  function PiecesFrom(s: string, sep: string, start: nat): seq<string>
    requires sep != "" && start <= |s|
    decreases |s| - start
  {
    if start == |s| then []
    else
      var pos := Find(s, sep, start);
      if pos.None? then [s[start..]] else [s[start..pos.value]] + PiecesFrom(s, sep, pos.value + |sep|)
  }

  function Pieces(s: string, sep: string): seq<string>
    requires sep != ""
  {
    PiecesFrom(s, sep, 0)
  }

  /** The loop never ends on an empty separator, so there must be one. */
  method cutString(s: string, sep: string, out: seq<string>) returns (out': seq<string>)
    requires sep != ""
    ensures out' == out + Pieces(s, sep)
  {
    out' := out;
    var start := 0;
    while start < |s|
      invariant start <= |s|
      invariant out' + PiecesFrom(s, sep, start) == out + Pieces(s, sep)
    {
      var pos := Find(s, sep, start);
      if pos.None? {
        break;
      }
      var sub := s[start..pos.value];
      out' := out' + [sub];
      start := start + |sub|;
      start := start + |sep|;
    }
    if start < |s| {
      out' := out' + [s[start..]];
    }
  }

  function Join(pieces: seq<string>, sep: string): string {
    if pieces == [] then ""
    else if |pieces| == 1 then pieces[0]
    else pieces[0] + sep + Join(pieces[1..], sep)
  }

  lemma JoinCons(p: string, rest: seq<string>, sep: string)
    ensures Join([p] + rest, sep) == if rest == [] then p else p + sep + Join(rest, sep)
  {
  }

  lemma OccursInside(s: string, pat: string, from: nat, to: nat, k: nat)
    requires from <= to <= |s| && k + |pat| <= to - from
    ensures OccursAt(s[from..to], pat, k) <==> OccursAt(s, pat, from + k)
  {
    var inside := s[from..to][k..k + |pat|];
    assert forall i :: 0 <= i < |pat| ==> inside[i] == s[from + k..from + k + |pat|][i];
    assert inside == s[from + k..from + k + |pat|];
  }

  /** No piece contains the separator. */
  lemma {:induction false} PiecesSepFree(s: string, sep: string, start: nat)
    requires sep != "" && start <= |s|
    ensures forall p :: p in PiecesFrom(s, sep, start) ==> !Contains(p, sep)
    decreases |s| - start
  {
    if start < |s| {
      var pos := Find(s, sep, start);
      FindNone(s, sep, start);
      var end := if pos.None? then |s| else pos.value;
      PieceSepFree(s, sep, start, end);
      if pos.Some? {
        PiecesSepFree(s, sep, pos.value + |sep|);
      } else {
        assert s[start..|s|] == s[start..];
      }
    }
  }

  lemma PieceSepFree(s: string, sep: string, start: nat, end: nat)
    requires sep != "" && start <= end <= |s|
    requires forall k: nat :: start <= k < end ==> !OccursAt(s, sep, k)
    ensures !Contains(s[start..end], sep)
  {
    var p := s[start..end];
    forall k: nat | k <= |p| ensures !OccursAt(p, sep, k) {
      if k + |sep| <= |p| {
        OccursInside(s, sep, start, end, k);
      }
    }
  }

  lemma Assoc(a: string, b: string, c: string)
    ensures a + b + c == a + (b + c)
  {
  }

  lemma CutAt(s: string, sep: string, start: nat, p: nat)
    requires start <= p && OccursAt(s, sep, p)
    ensures s[start..] == s[start..p] + sep + s[p + |sep|..]
  {
  }

  /** Where the scan stands after the last separator it finds. */
  function ScanEnd(s: string, sep: string, start: nat): (end: nat)
    requires sep != "" && start <= |s|
    ensures start <= end <= |s|
    decreases |s| - start
  {
    var pos := Find(s, sep, start);
    if start == |s| || pos.None? then start else ScanEnd(s, sep, pos.value + |sep|)
  }

  /** Joining the pieces gives the text back, without its last separator exactly when the scan ends behind
      a separator that ends the text. */
  lemma {:induction false} JoinPieces(s: string, sep: string, start: nat)
    requires sep != "" && start <= |s|
    ensures Join(PiecesFrom(s, sep, start), sep) + (if start < ScanEnd(s, sep, start) == |s| then sep else "")
            == s[start..]
    decreases |s| - start
  {
    hide Find;
    var pos := Find(s, sep, start);
    if start < |s| && pos.Some? {
      hide Join;
      var next := pos.value + |sep|;
      var piece, later := s[start..pos.value], PiecesFrom(s, sep, next);
      CutAt(s, sep, start, pos.value);
      JoinPieces(s, sep, next);
      JoinCons(piece, later, sep);
      if next < |s| {
        MorePieces(s, sep, next);
        hide PiecesFrom;
        Assoc(piece + sep, Join(later, sep), if ScanEnd(s, sep, next) == |s| then sep else "");
      } else {
        assert s[next..] == "";
      }
    }
  }

  lemma MorePieces(s: string, sep: string, start: nat)
    requires sep != "" && start < |s|
    ensures PiecesFrom(s, sep, start) != []
    ensures ScanEnd(s, sep, start) == |s| ==> start < ScanEnd(s, sep, start)
  {
  }

  /** For a separator of one character that is: exactly when the text ends with it. */
  lemma {:induction false} ScanEndOneCharacter(s: string, c: char, start: nat)
    requires start < |s|
    ensures ScanEnd(s, [c], start) == |s| <==> s[|s| - 1] == c
    decreases |s| - start
  {
    var pos := Find(s, [c], start);
    FindNone(s, [c], start);
    if pos.None? {
      assert !OccursAt(s, [c], |s| - 1);
      assert s[|s| - 1..|s| - 1 + 1] == [s[|s| - 1]];
    } else {
      assert s[pos.value..pos.value + 1] == [c];
      if pos.value + 1 < |s| {
        ScanEndOneCharacter(s, c, pos.value + 1);
      }
    }
  }

  /** The first separator in the piece followed by a separator is that one. */
  ghost predicate Closes(p: string, sep: string) {
    forall k: nat :: k < |p| ==> !OccursAt(p + sep, sep, k)
  }

  /** A list that splitting could have produced: each piece closes, and the last is a non-empty one
      without separator. */
  ghost predicate Splittable(pieces: seq<string>, sep: string) {
    pieces == [] ||
    (if |pieces| == 1 then pieces[0] != "" && !Contains(pieces[0], sep)
     else Closes(pieces[0], sep) && Splittable(pieces[1..], sep))
  }

  // What stands before does not matter to the pieces after it.

  lemma OccursAfter(a: string, b: string, pat: string, k: nat)
    ensures OccursAt(a + b, pat, |a| + k) <==> OccursAt(b, pat, k)
  {
  }

  lemma FindAfter(a: string, b: string, pat: string, k: nat)
    requires k <= |b|
    ensures var r := Find(b, pat, k);
            Find(a + b, pat, |a| + k) == if r.None? then None else Some(|a| + r.value)
  {
    forall j: nat | |a| <= j ensures OccursAt(a + b, pat, j) <==> OccursAt(b, pat, j - |a|) {
      OccursAfter(a, b, pat, j - |a|);
    }
    var r := Find(b, pat, k);
    if r.Some? {
      FindIs(a + b, pat, |a| + k, |a| + r.value);
    } else {
      FindNone(b, pat, k);
      FindNone(a + b, pat, |a| + k);
    }
  }

  lemma {:induction false} PiecesAfter(a: string, b: string, sep: string, k: nat)
    requires sep != "" && k <= |b|
    ensures PiecesFrom(a + b, sep, |a| + k) == PiecesFrom(b, sep, k)
    decreases |b| - k
  {
    FindAfter(a, b, sep, k);
    var pos := Find(b, sep, k);
    if k < |b| {
      if pos.None? {
        assert (a + b)[|a| + k..] == b[k..];
      } else {
        assert (a + b)[|a| + k..|a| + pos.value] == b[k..pos.value];
        PiecesAfter(a, b, sep, pos.value + |sep|);
      }
    }
  }

  lemma OccursInFront(a: string, b: string, pat: string, k: nat)
    requires k + |pat| <= |a|
    ensures OccursAt(a + b, pat, k) <==> OccursAt(a, pat, k)
  {
  }

  lemma FirstPiece(p: string, rest: string, sep: string)
    requires sep != "" && Closes(p, sep)
    ensures Find(p + sep + rest, sep) == Some(|p|) && (p + sep + rest)[..|p|] == p
  {
    var s := p + sep + rest;
    assert s[|p|..|p| + |sep|] == sep;
    forall k: nat | k < |p| ensures !OccursAt(s, sep, k) {
      OccursInFront(p + sep, rest, sep, k);
    }
    FindIs(s, sep, 0, |p|);
  }

  lemma OnlyPiece(p: string, sep: string)
    requires sep != "" && p != "" && !Contains(p, sep)
    ensures Pieces(p, sep) == [p]
  {
  }

  lemma PiecesCons(p: string, rest: string, sep: string)
    requires sep != "" && Closes(p, sep)
    ensures Pieces(p + sep + rest, sep) == [p] + Pieces(rest, sep)
  {
    FirstPiece(p, rest, sep);
    PiecesAfter(p + sep, rest, sep, 0);
  }

  lemma {:induction false} SplitJoin(pieces: seq<string>, sep: string)
    requires sep != "" && Splittable(pieces, sep)
    ensures Pieces(Join(pieces, sep), sep) == pieces
    decreases |pieces|
  {
    if |pieces| == 1 {
      OnlyPiece(pieces[0], sep);
    } else if pieces != [] {
      PiecesCons(pieces[0], Join(pieces[1..], sep), sep);
      SplitJoin(pieces[1..], sep);
    }
  }

  lemma NothingSplittable(sep: string)
    ensures Splittable([], sep)
  {
  }

  lemma LastSplittable(s: string, sep: string, start: nat)
    requires sep != "" && start < |s| && Find(s, sep, start).None?
    ensures Splittable(PiecesFrom(s, sep, start), sep)
  {
    PiecesSepFree(s, sep, start);
    assert s[start..] in PiecesFrom(s, sep, start);
  }

  /** The first piece and what the rest must join to. */
  lemma FirstSplittable(s: string, sep: string, start: nat, p: nat)
    requires sep != "" && start < |s| && Find(s, sep, start) == Some(p)
    requires Join(PiecesFrom(s, sep, start), sep) == s[start..]
    ensures PiecesFrom(s, sep, p + |sep|) != [] && Join(PiecesFrom(s, sep, p + |sep|), sep) == s[p + |sep|..]
    ensures Closes(s[start..p], sep)
  {
    var later := PiecesFrom(s, sep, p + |sep|);
    CutAt(s, sep, start, p);
    JoinCons(s[start..p], later, sep);
    SameRest(s[start..p] + sep, s[p + |sep|..], Join(later, sep));
    PieceCloses(s, sep, start, p);
  }

  lemma {:induction false} PiecesSplittable(s: string, sep: string, start: nat)
    requires sep != "" && start <= |s| && Join(PiecesFrom(s, sep, start), sep) == s[start..]
    ensures Splittable(PiecesFrom(s, sep, start), sep)
    decreases |s| - start
  {
    hide Closes, Splittable, Contains;
    var pos := Find(s, sep, start);
    if start == |s| {
      NothingSplittable(sep);
    } else if pos.None? {
      LastSplittable(s, sep, start);
    } else {
      FirstSplittable(s, sep, start, pos.value);
      PiecesSplittable(s, sep, pos.value + |sep|);
      SplittableCons(s[start..pos.value], PiecesFrom(s, sep, pos.value + |sep|), sep);
    }
  }

  lemma SameRest(a: string, b: string, c: string)
    ensures a + b == a + c ==> b == c
  {
    if a + b == a + c {
      assert b == (a + b)[|a|..] == (a + c)[|a|..] == c;
    }
  }

  lemma SplittableCons(p: string, later: seq<string>, sep: string)
    requires later != [] && Closes(p, sep) && Splittable(later, sep)
    ensures Splittable([p] + later, sep)
  {
  }

  lemma PieceCloses(s: string, sep: string, start: nat, end: nat)
    requires start <= end && OccursAt(s, sep, end)
    requires forall k: nat :: start <= k < end ==> !OccursAt(s, sep, k)
    ensures Closes(s[start..end], sep)
  {
    var p := s[start..end];
    assert p + sep == s[start..end + |sep|];
    forall k: nat | k < |p| ensures !OccursAt(p + sep, sep, k) {
      OccursInside(s, sep, start, end + |sep|, k);
    }
  }

  /** Splitting undoes joining exactly for the lists that close. */
  lemma SplitJoinIff(pieces: seq<string>, sep: string)
    requires sep != ""
    ensures Pieces(Join(pieces, sep), sep) == pieces <==> Splittable(pieces, sep)
  {
    if Splittable(pieces, sep) {
      SplitJoin(pieces, sep);
    }
    if Pieces(Join(pieces, sep), sep) == pieces {
      PiecesSplittable(Join(pieces, sep), sep, 0);
    }
  }

  lemma OneCharacter(p: string, c: char)
    ensures Closes(p, [c]) <==> c !in p
    ensures Contains(p, [c]) <==> c in p
  {
    forall k: nat | k < |p|
      ensures p[k] == c <==> OccursAt(p + [c], [c], k)
      ensures p[k] == c <==> OccursAt(p, [c], k)
    {
      assert (p + [c])[k..k + 1] == [p[k]] == p[k..k + 1];
    }
    if c in p {
      var k :| 0 <= k < |p| && p[k] == c;
      assert OccursAt(p, [c], k);
    }
  }

  lemma {:induction false} SplittableOneCharacter(pieces: seq<string>, c: char)
    ensures Splittable(pieces, [c])
            <==> (forall p :: p in pieces ==> c !in p) && (pieces != [] ==> pieces[|pieces| - 1] != "")
    decreases |pieces|
  {
    if pieces != [] {
      OneCharacter(pieces[0], c);
      SplittableOneCharacter(pieces[1..], c);
      assert pieces == [pieces[0]] + pieces[1..];
    }
  }

  /** For a separator of one character: exactly the lists of pieces without it whose last is not empty. */
  lemma SplitJoinOneCharacter(pieces: seq<string>, c: char)
    ensures Pieces(Join(pieces, [c]), [c]) == pieces
            <==> (forall p :: p in pieces ==> c !in p) && (pieces != [] ==> pieces[|pieces| - 1] != "")
  {
    SplitJoinIff(pieces, [c]);
    SplittableOneCharacter(pieces, c);
  }
}
