/**
 * The rotating log file (logzer/logfile.go) over the files of one directory.
 * Opening, renaming, removing and writing may each fail.
 */
module LogFile {
  import Seqs

  /** What one attempt puts into the file: a record, or the part of one that was written before a failure. */
  type Record = string

  type Content = seq<Record>

  /** The log file's own name, or that name with a number. */
  datatype Name = Base | Num(i: int)

  type Files = map<Name, Content>

  function Size(c: Content): nat {
    if c == [] then 0 else Size(c[..|c| - 1]) + |c[|c| - 1]|
  }

  function Get(files: Files, name: Name): Content { if name in files then files[name] else [] }

  /** Renaming replaces the target; without a source it fails and changes nothing. */
  function Rename(files: Files, from: Name, to: Name): Files {
    if from in files then files[to := files[from]] - (if from == to then {} else {from}) else files
  }

  function Try(ok: bool, files: Files, from: Name, to: Name): Files {
    if ok then Rename(files, from, to) else files
  }

  /** The contents of the numbered files from the oldest on, then of the current one. */
  function History(files: Files, depth: nat): Content {
    if depth == 0 then Get(files, Base) else Get(files, Num(depth)) + History(files, depth - 1)
  }

  /** The part of it from number depth down to number i. */
  function Above(files: Files, i: nat, depth: nat): Content
    decreases depth
  {
    if depth < i || depth == 0 then [] else Get(files, Num(depth)) + Above(files, i, depth - 1)
  }

  lemma {:induction false} HistoryCongruent(f: Files, g: Files, depth: nat)
    requires Get(f, Base) == Get(g, Base) && forall i :: 1 <= i <= depth ==> Get(f, Num(i)) == Get(g, Num(i))
    ensures History(f, depth) == History(g, depth)
  {
    if depth > 0 {
      HistoryCongruent(f, g, depth - 1);
    }
  }

  lemma {:induction false} AboveCongruent(f: Files, g: Files, i: nat, depth: nat)
    requires forall k :: i <= k <= depth ==> Get(f, Num(k)) == Get(g, Num(k))
    ensures Above(f, i, depth) == Above(g, i, depth)
    decreases depth
  {
    if depth >= i && depth > 0 {
      AboveCongruent(f, g, i, depth - 1);
    }
  }

  lemma {:induction false} HistorySplits(files: Files, i: nat, depth: nat)
    requires 0 < i <= depth
    ensures History(files, depth) == Above(files, i + 1, depth) + (Get(files, Num(i)) + History(files, i - 1))
    decreases depth
  {
    if i < depth {
      HistorySplits(files, i, depth - 1);
      Seqs.Assoc(Get(files, Num(depth)), Above(files, i + 1, depth - 1), Get(files, Num(i)) + History(files, i - 1));
    } else {
      Seqs.Nothing(Get(files, Num(i)) + History(files, i - 1));
    }
  }

  /** The file that rename number i moves to number i: the one before it, or the current one. */
  function Before(i: nat): Name
    requires i > 0
  {
    if i == 1 then Base else Num(i - 1)
  }

  /** Moving a file up takes away exactly what the target held. */
  lemma MoveInto(files: Files, i: nat, depth: nat)
    requires 0 < i <= depth && Before(i) in files
    ensures History(Rename(files, Before(i), Num(i)), depth) == Above(files, i + 1, depth) + History(files, i - 1)
    ensures History(files, depth) == Above(files, i + 1, depth) + (Get(files, Num(i)) + History(files, i - 1))
  {
    var files' := Rename(files, Before(i), Num(i));
    HistorySplits(files, i, depth);
    HistorySplits(files', i, depth);
    AboveCongruent(files', files, i + 1, depth);
    MovedBelow(files, i);
  }

  lemma MovedBelow(files: Files, i: nat)
    requires 0 < i && Before(i) in files
    ensures var files' := Rename(files, Before(i), Num(i));
      Get(files', Num(i)) + History(files', i - 1) == History(files, i - 1)
  {
    var files' := Rename(files, Before(i), Num(i));
    if i == 1 {
      Seqs.Nothing(Get(files, Base));
    } else {
      HistoryCongruent(files', files, i - 2);
      Seqs.Nothing(History(files, i - 2));
    }
  }

  /** Moving a file up to a number that is free leaves the history as it was. */
  lemma MoveUpKeeps(files: Files, i: nat, depth: nat)
    requires 0 < i <= depth && Num(i) !in files
    ensures History(Rename(files, Before(i), Num(i)), depth) == History(files, depth)
  {
    if Before(i) in files {
      MoveInto(files, i, depth);
      Seqs.Nothing(History(files, i - 1));
    }
  }

  /** Moving a file up over the oldest one loses exactly that one. */
  lemma MoveOverOldest(files: Files, depth: nat)
    requires depth > 0 && Before(depth) in files
    ensures History(files, depth)
            == Get(files, Num(depth)) + History(Rename(files, Before(depth), Num(depth)), depth)
  {
    MoveInto(files, depth, depth);
    Seqs.Nothing(History(files, depth - 1));
    Seqs.Nothing(Get(files, Num(depth)) + History(files, depth - 1));
  }

  // ---------------------------------------------------------------------
  // Parts of a sequence, in order

  predicate IsSubsequence(a: Content, b: Content)
    decreases |b|
  {
    if b == [] then a == []
    else IsSubsequence(a, b[1..]) || (a != [] && a[0] == b[0] && IsSubsequence(a[1..], b[1..]))
  }

  lemma {:induction false} SubNothing(b: Content)
    ensures IsSubsequence([], b)
  {
    if b != [] {
      SubNothing(b[1..]);
    }
  }

  lemma {:induction false} SubSelf(b: Content)
    ensures IsSubsequence(b, b)
  {
    if b != [] {
      SubSelf(b[1..]);
    }
  }

  lemma {:induction false} SubPrefixed(x: Content, a: Content, b: Content)
    requires IsSubsequence(a, b)
    ensures IsSubsequence(x + a, x + b)
  {
    if x == [] {
      Seqs.Nothing(a);
      Seqs.Nothing(b);
    } else {
      SubPrefixed(x[1..], a, b);
      assert (x + a)[1..] == x[1..] + a && (x + b)[1..] == x[1..] + b;
    }
  }

  lemma {:induction false} SubLater(y: Content, a: Content, b: Content)
    requires IsSubsequence(a, b)
    ensures IsSubsequence(a, y + b)
  {
    if y == [] {
      Seqs.Nothing(b);
    } else {
      SubLater(y[1..], a, b);
      assert (y + b)[1..] == y[1..] + b;
    }
  }

  lemma {:induction false} SubSuffixed(a: Content, b: Content, x: Content)
    requires IsSubsequence(a, b)
    ensures IsSubsequence(a + x, b + x)
    decreases |b|
  {
    if b == [] {
      Seqs.Nothing(x);
      SubSelf(x);
    } else {
      assert (b + x)[1..] == b[1..] + x;
      if IsSubsequence(a, b[1..]) {
        SubSuffixed(a, b[1..], x);
      } else {
        SubSuffixed(a[1..], b[1..], x);
        assert (a + x)[1..] == a[1..] + x;
      }
    }
  }

  lemma {:induction false} SubTransitive(a: Content, b: Content, c: Content)
    requires IsSubsequence(a, b) && IsSubsequence(b, c)
    ensures IsSubsequence(a, c)
    decreases |c|
  {
    if c != [] {
      if IsSubsequence(b, c[1..]) {
        SubTransitive(a, b, c[1..]);
      } else if IsSubsequence(a, b[1..]) {
        SubTransitive(a, b[1..], c[1..]);
      } else {
        SubTransitive(a[1..], b[1..], c[1..]);
      }
    }
  }

  // ---------------------------------------------------------------------
  // Rotation

  /** The numbered files that are kept: a negative setting acts as one. */
  function Depth(rotate: int): nat { if rotate < 0 then 1 else rotate }

  /** Which renames succeed: number i to its next for i + 1, the current file for 0; 0 also stands for its removal. */
  type Moves = int -> bool

  function Shift(files: Files, i: int, moves: Moves): Files
    decreases i
  {
    if i <= 0 then files else Shift(Try(moves(i), files, Num(i - 1), Num(i)), i - 1, moves)
  }

  function Rotated(files: Files, rotate: int, moves: Moves): Files {
    if rotate == 0 then if moves(0) then files - {Base} else files
    else Try(moves(0), Shift(files, rotate, moves), Base, Num(1))
  }

  /** Below number i nothing has moved yet. */
  lemma {:induction false} ShiftKeepsOthers(files: Files, i: int, moves: Moves)
    ensures var files' := Shift(files, i, moves);
      && (Base in files' <==> Base in files) && Get(files', Base) == Get(files, Base)
      && (Num(0) !in files ==> Num(0) !in files')
    decreases i
  {
    if i > 0 {
      ShiftKeepsOthers(Try(moves(i), files, Num(i - 1), Num(i)), i - 1, moves);
    }
  }

  /** Whatever fails, renaming only takes files away: the history keeps its order and nothing appears twice. */
  lemma {:induction false} ShiftSubsequence(files: Files, i: int, moves: Moves, depth: nat)
    requires i <= depth && Num(0) !in files
    ensures IsSubsequence(History(Shift(files, i, moves), depth), History(files, depth))
    decreases i
  {
    if i <= 0 {
      SubSelf(History(files, depth));
    } else {
      var files' := Try(moves(i), files, Num(i - 1), Num(i));
      MoveSubsequence(files, i, moves(i), depth);
      ShiftSubsequence(files', i - 1, moves, depth);
      SubTransitive(History(Shift(files', i - 1, moves), depth), History(files', depth), History(files, depth));
    }
  }

  lemma MoveSubsequence(files: Files, i: nat, ok: bool, depth: nat)
    requires 0 < i <= depth && Num(0) !in files
    ensures IsSubsequence(History(Try(ok, files, Num(i - 1), Num(i)), depth), History(files, depth))
  {
    SubSelf(History(files, depth));
    if i > 1 {
      IntoSubsequence(files, i, depth);
    }
  }

  lemma IntoSubsequence(files: Files, i: nat, depth: nat)
    requires 0 < i <= depth
    ensures IsSubsequence(History(Rename(files, Before(i), Num(i)), depth), History(files, depth))
  {
    SubSelf(History(files, depth));
    if Before(i) in files {
      MoveInto(files, i, depth);
      var below := History(files, i - 1);
      SubSelf(below);
      SubLater(Get(files, Num(i)), below, below);
      SubPrefixed(Above(files, i + 1, depth), below, Get(files, Num(i)) + below);
    }
  }

  lemma RotatedSubsequence(files: Files, rotate: int, moves: Moves)
    requires Num(0) !in files
    ensures IsSubsequence(History(Rotated(files, rotate, moves), Depth(rotate)), History(files, Depth(rotate)))
    ensures Num(0) !in Rotated(files, rotate, moves)
  {
    var depth := Depth(rotate);
    SubSelf(History(files, depth));
    if rotate == 0 {
      SubNothing(History(files, depth));
    } else {
      var shifted := Shift(files, rotate, moves);
      ShiftSubsequence(files, rotate, moves, depth);
      ShiftKeepsOthers(files, rotate, moves);
      if moves(0) {
        IntoSubsequence(shifted, 1, depth);
        SubTransitive(History(Rename(shifted, Base, Num(1)), depth), History(shifted, depth), History(files, depth));
      }
    }
  }

  /**
   * No numbered file stays where the one before it goes, except the oldest; and a
   * file numbered zero, which nothing writes, is replaced where it goes.
   */
  ghost predicate Clean(files: Files, rotate: int, moves: Moves) {
    && (forall i :: 2 <= i <= Depth(rotate) && Num(i - 1) in files ==> moves(i))
    && (Num(0) in files && rotate > 0 && moves(1) ==> moves(0) && Base in files)
  }

  /** What a clean rotation loses: the oldest file, if the one before it takes its place. */
  function Dropped(files: Files, rotate: int, moves: Moves): Content {
    if rotate == 0 then if moves(0) then Get(files, Base) else []
    else
      var depth := Depth(rotate);
      if Before(depth) in files && moves(if depth == 1 then 0 else depth) then Get(files, Num(depth)) else []
  }

  /** The loop down to number 2: the history loses its oldest file, if it is replaced, and number 1 is free unless nothing moved. */
  lemma {:induction false} ShiftClean(files: Files, i: nat, moves: Moves, depth: nat) returns (last: Files)
    requires 1 <= i <= depth
    requires i < depth ==> Num(i) !in files
    requires forall k :: 2 <= k <= i && Num(k - 1) in files ==> moves(k)
    ensures Shift(files, i, moves) == Try(moves(1), last, Num(0), Num(1))
    ensures (Base in last <==> Base in files) && (Num(0) in last <==> Num(0) in files)
    ensures depth > 1 ==> Num(1) !in last
    ensures depth == 1 ==> last == files
    ensures History(files, depth)
            == (if i == depth > 1 && Num(depth - 1) in files && moves(depth) then Get(files, Num(depth)) else [])
               + History(last, depth)
    decreases i
  {
    if i == 1 {
      last := files;
      Seqs.Nothing(History(files, depth));
      assert Shift(Try(moves(1), files, Num(0), Num(1)), 0, moves) == Try(moves(1), files, Num(0), Num(1));
    } else {
      var files' := Try(moves(i), files, Num(i - 1), Num(i));
      last := ShiftClean(files', i - 1, moves, depth);
      Seqs.Nothing(History(last, depth));
      if Num(i - 1) in files {
        if i == depth {
          MoveOverOldest(files, depth);
        } else {
          MoveUpKeeps(files, i, depth);
        }
      }
    }
  }

  /** The current file goes to number 1, which is free or the oldest; a file numbered zero may have gone there before. */
  lemma MoveCurrent(files: Files, depth: nat, zero: bool)
    requires Base in files && depth > 0 && (depth == 1 || Num(1) !in files)
    ensures History(files, depth)
            == (if depth == 1 then Get(files, Num(1)) else [])
               + History(Rename(Try(zero, files, Num(0), Num(1)), Base, Num(1)), depth)
  {
    var others := files - {Num(0)};
    HistoryCongruent(files, others, depth);
    assert Rename(Rename(files, Num(0), Num(1)), Base, Num(1)) == Rename(others, Base, Num(1)) || Num(0) !in files;
    OverOrUp(files, depth);
    OverOrUp(others, depth);
  }

  lemma OverOrUp(files: Files, depth: nat)
    requires Base in files && depth > 0 && (depth == 1 || Num(1) !in files)
    ensures History(files, depth)
            == (if depth == 1 then Get(files, Num(1)) else []) + History(Rename(files, Base, Num(1)), depth)
  {
    if depth == 1 {
      MoveOverOldest(files, 1);
    } else {
      MoveUpKeeps(files, 1, depth);
      Seqs.Nothing(History(files, depth));
    }
  }

  /** A clean rotation drops only the beginning of the history: exactly the oldest file, if it is replaced. */
  lemma CleanDropsOldest(files: Files, rotate: int, moves: Moves)
    requires Clean(files, rotate, moves)
    ensures History(files, Depth(rotate))
            == Dropped(files, rotate, moves) + History(Rotated(files, rotate, moves), Depth(rotate))
  {
    var depth := Depth(rotate);
    Seqs.Nothing(History(files, depth));
    if rotate < 0 {
      if moves(0) && Base in files {
        MoveOverOldest(files, 1);
      }
    } else if rotate > 0 {
      CleanShiftDrops(files, rotate, moves);
    }
  }

  lemma CleanShiftDrops(files: Files, depth: nat, moves: Moves)
    requires depth > 0 && Clean(files, depth, moves)
    ensures History(files, depth) == Dropped(files, depth, moves) + History(Rotated(files, depth, moves), depth)
  {
    var last := ShiftClean(files, depth, moves, depth);
    Seqs.Nothing(History(last, depth));
    if moves(0) && Base in files {
      MoveCurrent(last, depth, moves(1));
      Seqs.Nothing(History(Rotated(files, depth, moves), depth));
    }
  }

  // ---------------------------------------------------------------------
  // Exactly what a rotation loses

  /** File number k stays where it is and the one before it, or the current one, goes there. */
  predicate Lost(files: Files, k: nat, depth: nat, moves: Moves)
    requires 0 < k <= depth
  {
    && Num(k) in files && (k == depth || !moves(k + 1))
    && Before(k) in files && moves(if k == 1 then 0 else k)
  }

  /** What is left of files number k down to i. */
  function Left(files: Files, i: nat, k: nat, depth: nat, moves: Moves): Content
    requires k <= depth
    decreases k
  {
    if k < i || k == 0 then []
    else (if Lost(files, k, depth, moves) then [] else Get(files, Num(k))) + Left(files, i, k - 1, depth, moves)
  }

  /** Between the moves to number i + 1 and to number i: below i nothing has happened, and i may have gone. */
  ghost predicate Halfway(orig: Files, f: Files, i: nat, depth: nat, moves: Moves)
    requires 0 < i <= depth
  {
    && (forall n :: n == Base || (n.Num? && n.i < i) ==> (n in f <==> n in orig) && Get(f, n) == Get(orig, n))
    && (Num(i) in f <==> Num(i) in orig && (i == depth || !moves(i + 1)))
    && (Num(i) in f ==> f[Num(i)] == orig[Num(i)])
    && Above(f, i + 1, depth) + Get(f, Num(i)) == Left(orig, i + 1, depth, depth, moves) + Get(orig, Num(i))
  }

  lemma {:induction false} LeftSplits(files: Files, i: nat, k: nat, depth: nat, moves: Moves)
    requires 0 < i <= k <= depth
    ensures Left(files, i, k, depth, moves)
            == Left(files, i + 1, k, depth, moves) + if Lost(files, i, depth, moves) then [] else Get(files, Num(i))
    decreases k
  {
    var own := if Lost(files, i, depth, moves) then [] else Get(files, Num(i));
    if i < k {
      LeftSplits(files, i, k - 1, depth, moves);
      Seqs.Assoc(if Lost(files, k, depth, moves) then [] else Get(files, Num(k)), Left(files, i + 1, k - 1, depth, moves), own);
    } else {
      assert Left(files, i, k - 1, depth, moves) == [];
      Seqs.Nothing(own);
    }
  }

  lemma {:induction false} AboveSplits(files: Files, i: nat, depth: nat)
    requires 0 < i <= depth
    ensures Above(files, i, depth) == Above(files, i + 1, depth) + Get(files, Num(i))
    decreases depth
  {
    if i < depth {
      AboveSplits(files, i, depth - 1);
      Seqs.Assoc(Get(files, Num(depth)), Above(files, i + 1, depth - 1), Get(files, Num(i)));
    } else {
      assert Above(files, i, i - 1) == [];
      Seqs.Nothing(Get(files, Num(i)));
    }
  }

  lemma SameTail(a: Content, b: Content, tail: Content)
    requires a + tail == b + tail
    ensures a == b
  {
    assert |a| == |b|;
    assert a == (a + tail)[..|a|] && b == (b + tail)[..|b|];
  }

  /** Number i receives the file before it, or keeps its own, or is free. */
  lemma Received(orig: Files, f: Files, f': Files, i: nat, depth: nat, moves: Moves)
    requires 0 < i <= depth && Halfway(orig, f, i, depth, moves)
    requires f' == Try(moves(if i == 1 then 0 else i), f, Before(i), Num(i))
    ensures Above(f', i, depth) + Get(f', Before(i)) == Left(orig, i, depth, depth, moves) + Get(orig, Before(i))
  {
    AboveSplits(f', i, depth);
    LeftSplits(orig, i, depth, depth, moves);
    AboveCongruent(f', f, i + 1, depth);
    var own, above, left := Get(orig, Num(i)), Above(f, i + 1, depth), Left(orig, i + 1, depth, depth, moves);
    if moves(if i == 1 then 0 else i) && Before(i) in f {
      if Num(i) in f {
        SameTail(above, left, own);
      }
      Seqs.Nothing(above);
      Seqs.Nothing(left);
      Seqs.Nothing(above + Get(orig, Before(i)));
      assert Get(f', Before(i)) == [] && Get(f', Num(i)) == Get(orig, Before(i));
    }
  }

  lemma {:induction false} ShiftExact(orig: Files, f: Files, i: nat, depth: nat, moves: Moves)
    requires 0 < i <= depth && Halfway(orig, f, i, depth, moves) && Num(0) !in orig
    ensures Halfway(orig, Shift(f, i, moves), 1, depth, moves)
    decreases i
  {
    var f' := Try(moves(i), f, Num(i - 1), Num(i));
    if i == 1 {
      assert Shift(f', 0, moves) == f';
    } else {
      Received(orig, f, f', i, depth, moves);
      ShiftExact(orig, f', i - 1, depth, moves);
    }
  }

  /** A rotation, whatever fails, leaves in order exactly the files that are not lost, and the current one. */
  lemma RotatedExactly(files: Files, rotate: int, moves: Moves)
    requires rotate > 0 && Num(0) !in files
    ensures History(Rotated(files, rotate, moves), rotate) == Left(files, 1, rotate, rotate, moves) + Get(files, Base)
  {
    var depth: nat := rotate;
    assert Above(files, depth + 1, depth) == [] && Left(files, depth + 1, depth, depth, moves) == [];
    ShiftExact(files, files, depth, depth, moves);
    var shifted, rotated := Shift(files, rotate, moves), Rotated(files, rotate, moves);
    Received(files, shifted, rotated, 1, depth, moves);
    HistoryIsAbove(rotated, depth);
  }

  lemma {:induction false} HistoryIsAbove(files: Files, depth: nat)
    ensures History(files, depth) == Above(files, 1, depth) + Get(files, Base)
  {
    if depth == 0 {
      Seqs.Nothing(Get(files, Base));
    } else {
      HistoryIsAbove(files, depth - 1);
      Seqs.Assoc(Get(files, Num(depth)), Above(files, 1, depth - 1), Get(files, Base));
    }
  }

  ghost predicate IsSuffix(a: Content, b: Content) { exists x :: b == x + a }

  /** Whatever is lost is older than everything that is left, as far as it is not empty. */
  ghost predicate OnlyOldest(files: Files, top: nat, depth: nat, moves: Moves)
    requires top <= depth
  {
    forall j: nat, k: nat :: 0 < j < k <= top && Lost(files, j, depth, moves) && Get(files, Num(j)) != [] ==>
      Lost(files, k, depth, moves) || Get(files, Num(k)) == []
  }

  ghost predicate Distinct(c: Content) { forall i, j :: 0 <= i < j < |c| ==> c[i] != c[j] }

  lemma {:induction false} OldestSuffix(files: Files, top: nat, depth: nat, moves: Moves)
    requires top <= depth && OnlyOldest(files, top, depth, moves)
    ensures IsSuffix(Left(files, 1, top, depth, moves), Above(files, 1, top))
    ensures (forall j: nat :: 0 < j <= top && Lost(files, j, depth, moves) ==> Get(files, Num(j)) == []) ==>
      Left(files, 1, top, depth, moves) == Above(files, 1, top)
  {
    if top == 0 {
      assert Above(files, 1, 0) == [] + Left(files, 1, 0, depth, moves);
    } else {
      OldestSuffix(files, top - 1, depth, moves);
      var own, below, left := Get(files, Num(top)), Above(files, 1, top - 1), Left(files, 1, top - 1, depth, moves);
      Seqs.Nothing(left);
      Seqs.Nothing(below);
      if Lost(files, top, depth, moves) || own == [] {
        var x :| below == x + left;
        Seqs.Assoc(own, x, left);
        assert Above(files, 1, top) == (own + x) + Left(files, 1, top, depth, moves);
      } else {
        assert Left(files, 1, top, depth, moves) == own + left;
        assert left == below;
        assert Above(files, 1, top) == [] + Left(files, 1, top, depth, moves);
      }
    }
  }

  /** Where a record of file number k stands in the history. */
  lemma {:induction false} StandsAt(files: Files, k: nat, top: nat, e: nat) returns (p: nat)
    requires 0 < k <= top && e < |Get(files, Num(k))|
    ensures p < |Above(files, 1, top)| && Above(files, 1, top)[p] == Get(files, Num(k))[e]
    ensures p + |Above(files, 1, k)| >= |Above(files, 1, top)|
    ensures p + |Above(files, 1, k - 1)| < |Above(files, 1, top)|
    decreases top
  {
    if k == top {
      p := e;
    } else {
      var q := StandsAt(files, k, top - 1, e);
      p := |Get(files, Num(top))| + q;
    }
  }

  lemma StandsLast(files: Files, depth: nat, e: nat) returns (p: nat)
    requires e < |Get(files, Base)|
    ensures |Above(files, 1, depth)| <= p < |History(files, depth)| && History(files, depth)[p] == Get(files, Base)[e]
  {
    HistoryIsAbove(files, depth);
    p := |Above(files, 1, depth)| + e;
  }

  lemma {:induction false} LeftFrom(files: Files, top: nat, depth: nat, moves: Moves, e: Record) returns (k: nat)
    requires top <= depth && e in Left(files, 1, top, depth, moves)
    ensures 0 < k <= top && !Lost(files, k, depth, moves) && e in Get(files, Num(k))
    decreases top
  {
    if !Lost(files, top, depth, moves) && e in Get(files, Num(top)) {
      k := top;
    } else {
      k := LeftFrom(files, top - 1, depth, moves, e);
    }
  }

  lemma {:induction false} LeftHolds(files: Files, k: nat, top: nat, depth: nat, moves: Moves, e: Record)
    requires 0 < k <= top <= depth && !Lost(files, k, depth, moves) && e in Get(files, Num(k))
    ensures e in Left(files, 1, top, depth, moves)
    decreases top
  {
    if k < top {
      LeftHolds(files, k, top - 1, depth, moves, e);
    }
  }

  lemma {:induction false} AboveShorter(files: Files, j: nat, k: nat)
    requires j <= k
    ensures |Above(files, 1, j)| <= |Above(files, 1, k)|
    decreases k
  {
    if j < k {
      AboveShorter(files, j, k - 1);
    }
  }

  /** A record of a younger file that is lost, and one of an older file that is left: that is no suffix. */
  lemma MiddleLost(files: Files, depth: nat, moves: Moves, j: nat, k: nat)
    requires 0 < j < k <= depth && Distinct(History(files, depth))
    requires Lost(files, j, depth, moves) && Get(files, Num(j)) != []
    requires !Lost(files, k, depth, moves) && Get(files, Num(k)) != []
    ensures !IsSuffix(Left(files, 1, depth, depth, moves) + Get(files, Base), History(files, depth))
  {
    var all, left := History(files, depth), Left(files, 1, depth, depth, moves) + Get(files, Base);
    HistoryIsAbove(files, depth);
    var p := StandsAt(files, k, depth, 0);
    var q := StandsAt(files, j, depth, 0);
    AboveShorter(files, j, k - 1);
    assert p < q && all[p] == Get(files, Num(k))[0] && all[q] == Get(files, Num(j))[0];
    LeftHolds(files, k, depth, depth, moves, all[p]);
    NotLeft(files, depth, moves, j, q);
    if IsSuffix(left, all) {
      SuffixHolds(left, all, p, q);
    }
  }

  /** A suffix holds whatever comes after something it holds. */
  lemma SuffixHolds(left: Content, all: Content, p: nat, q: nat)
    requires Distinct(all) && p < q < |all| && all[p] in left && IsSuffix(left, all)
    ensures all[q] in left
  {
    var x :| all == x + left;
    var m :| 0 <= m < |left| && left[m] == all[p];
    assert all[|x| + m] == all[p];
    assert |x| + m == p;
    assert left[q - |x|] == all[q];
  }

  lemma NotLeft(files: Files, depth: nat, moves: Moves, j: nat, q: nat)
    requires 0 < j <= depth && Distinct(History(files, depth)) && Lost(files, j, depth, moves)
    requires Get(files, Num(j)) != [] && q < |History(files, depth)|
    requires History(files, depth)[q] == Get(files, Num(j))[0]
    ensures History(files, depth)[q] !in Left(files, 1, depth, depth, moves) + Get(files, Base)
  {
    var all, x := History(files, depth), History(files, depth)[q];
    HistoryIsAbove(files, depth);
    var p := StandsAt(files, j, depth, 0);
    if x in Get(files, Base) {
      var b :| 0 <= b < |Get(files, Base)| && Get(files, Base)[b] == x;
      var r := StandsLast(files, depth, b);
      OnePlace(all, p, r);
    }
    if x in Left(files, 1, depth, depth, moves) {
      var k := LeftFrom(files, depth, depth, moves, x);
      var e :| 0 <= e < |Get(files, Num(k))| && Get(files, Num(k))[e] == x;
      var r := StandsAt(files, k, depth, e);
      OnePlace(all, p, r);
      AboveShorter(files, if j < k then j else k, if j < k then k - 1 else j - 1);
    }
  }

  lemma OnePlace(all: Content, p: nat, r: nat)
    requires Distinct(all) && p < |all| && r < |all| && all[p] == all[r]
    ensures p == r
  {
  }

  /**
   * With distinct records, a rotation drops only the beginning of the history if and
   * only if whatever is lost is older than everything that is left.
   */
  lemma SuffixIff(files: Files, rotate: int, moves: Moves)
    requires rotate > 0 && Num(0) !in files && Distinct(History(files, rotate))
    ensures IsSuffix(History(Rotated(files, rotate, moves), rotate), History(files, rotate))
            <==> OnlyOldest(files, rotate, rotate, moves)
  {
    var depth: nat := rotate;
    RotatedExactly(files, rotate, moves);
    HistoryIsAbove(files, depth);
    if OnlyOldest(files, depth, depth, moves) {
      OldestSuffix(files, depth, depth, moves);
      var x :| Above(files, 1, depth) == x + Left(files, 1, depth, depth, moves);
      Seqs.Assoc(x, Left(files, 1, depth, depth, moves), Get(files, Base));
    } else {
      var j: nat, k: nat :| 0 < j < k <= depth && Lost(files, j, depth, moves) && Get(files, Num(j)) != []
        && !Lost(files, k, depth, moves) && Get(files, Num(k)) != [];
      MiddleLost(files, depth, moves, j, k);
    }
  }

  // ---------------------------------------------------------------------
  // One write

  datatype Handle = Nil | Open | Closed

  /** What comes of an attempt to write: all of it, or a part of it and an error. */
  datatype Attempt = Written | Failed(part: Record)

  /** What the operating system lets succeed in the course of one write. */
  datatype Os = Os(open: bool, moves: Moves, reopen: bool, first: Attempt, again: bool, second: Attempt)

  datatype Log = Log(files: Files, handle: Handle, fileSize: int)

  datatype Settings = Settings(maxSize: int, rotateCount: int)

  function Kept(l: Log, cfg: Settings): Content { History(l.files, Depth(cfg.rotateCount)) }

  function Opened(files: Files): Files { files[Base := Get(files, Base)] }

  function OpenLog(l: Log, ok: bool): Log {
    if ok then Log(Opened(l.files), Open, Size(Get(l.files, Base)))
    else l.(handle := if l.handle == Nil then Nil else Closed)
  }

  function RotateLog(l: Log, cfg: Settings, os: Os): Log {
    OpenLog(Log(Rotated(l.files, cfg.rotateCount, os.moves), Closed, l.fileSize), os.reopen)
  }

  /** The file is opened if it never was. */
  function EnsureLog(l: Log, os: Os): Log { if l.handle == Nil then OpenLog(l, os.open) else l }

  /** The record would make the file larger than allowed, by the size kept. */
  predicate Rotates(l: Log, cfg: Settings, p: Record) {
    l.handle != Nil && cfg.maxSize > 0 && cfg.maxSize < l.fileSize + |p|
  }

  function PrepareLog(l: Log, cfg: Settings, p: Record, os: Os): Log {
    var l1 := EnsureLog(l, os);
    if Rotates(l1, cfg, p) then RotateLog(l1, cfg, os) else l1
  }

  function Piece(a: Attempt, p: Record): Content {
    match a
    case Written => [p]
    case Failed(part) => if part == "" then [] else [part]
  }

  /** A file that is not open takes nothing; the size kept follows only what is written completely. */
  function PutLog(l: Log, p: Record, a: Attempt): Log {
    if l.handle != Open then l
    else Log(l.files[Base := Get(l.files, Base) + Piece(a, p)], Open, if a.Written? then l.fileSize + |p| else l.fileSize)
  }

  predicate Succeeds(l: Log, a: Attempt) { l.handle == Open && a.Written? }

  /** After a failure the file is opened again and the record written once more. */
  function AttemptLog(l: Log, p: Record, os: Os): Log {
    var l1 := PutLog(l, p, os.first);
    if Succeeds(l, os.first) then l1 else PutLog(OpenLog(l1, os.again), p, os.second)
  }

  function WriteLog(l: Log, cfg: Settings, p: Record, os: Os): Log { AttemptLog(PrepareLog(l, cfg, p, os), p, os) }

  /** The write returns no error. */
  predicate Ok(l: Log, cfg: Settings, p: Record, os: Os) {
    Succeeds(PrepareLog(l, cfg, p, os), os.first) || (os.again && os.second.Written?)
  }

  /** What this write puts into the file, a part of a record included. */
  function Put(l: Log, cfg: Settings, p: Record, os: Os): Content {
    var l1 := PrepareLog(l, cfg, p, os);
    (if l1.handle == Open then Piece(os.first, p) else [])
    + (if !Succeeds(l1, os.first) && os.again then Piece(os.second, p) else [])
  }

  lemma OpenKeeps(l: Log, cfg: Settings, ok: bool)
    ensures Kept(OpenLog(l, ok), cfg) == Kept(l, cfg)
    ensures OpenLog(l, ok).handle == Open <==> ok
  {
    HistoryCongruent(OpenLog(l, ok).files, l.files, Depth(cfg.rotateCount));
  }

  lemma {:induction false} AppendHistory(files: Files, c: Content, depth: nat)
    ensures History(files[Base := Get(files, Base) + c], depth) == History(files, depth) + c
    decreases depth
  {
    if depth > 0 {
      AppendHistory(files, c, depth - 1);
      Seqs.Assoc(Get(files, Num(depth)), History(files, depth - 1), c);
    }
  }

  lemma PutAppends(l: Log, cfg: Settings, p: Record, a: Attempt)
    ensures Kept(PutLog(l, p, a), cfg) == Kept(l, cfg) + if l.handle == Open then Piece(a, p) else []
  {
    AppendHistory(l.files, Piece(a, p), Depth(cfg.rotateCount));
    Seqs.Nothing(Kept(l, cfg));
  }

  /** What is put is appended to what is kept after the preparation. */
  lemma WriteAppends(l: Log, cfg: Settings, p: Record, os: Os)
    ensures Kept(WriteLog(l, cfg, p, os), cfg) == Kept(PrepareLog(l, cfg, p, os), cfg) + Put(l, cfg, p, os)
  {
    var l1 := PrepareLog(l, cfg, p, os);
    var l2 := PutLog(l1, p, os.first);
    PutAppends(l1, cfg, p, os.first);
    if !Succeeds(l1, os.first) {
      OpenKeeps(l2, cfg, os.again);
      PutAppends(OpenLog(l2, os.again), cfg, p, os.second);
      Seqs.Assoc(Kept(l1, cfg), if l1.handle == Open then Piece(os.first, p) else [], if os.again then Piece(os.second, p) else []);
    } else {
      Seqs.Nothing(Piece(os.first, p));
    }
  }

  ghost predicate CleanWrite(l: Log, cfg: Settings, p: Record, os: Os) {
    Rotates(EnsureLog(l, os), cfg, p) ==> Clean(EnsureLog(l, os).files, cfg.rotateCount, os.moves)
  }

  function DroppedBy(l: Log, cfg: Settings, p: Record, os: Os): Content {
    var l1 := EnsureLog(l, os);
    if Rotates(l1, cfg, p) then Dropped(l1.files, cfg.rotateCount, os.moves) else []
  }

  /** Without a file lost from the middle, what was kept and what is put are what rotation drops and what is kept then. */
  lemma WriteAccounts(l: Log, cfg: Settings, p: Record, os: Os)
    requires CleanWrite(l, cfg, p, os)
    ensures Kept(l, cfg) + Put(l, cfg, p, os) == DroppedBy(l, cfg, p, os) + Kept(WriteLog(l, cfg, p, os), cfg)
  {
    var l1 := EnsureLog(l, os);
    OpenKeeps(l, cfg, os.open);
    WriteAppends(l, cfg, p, os);
    var put := Put(l, cfg, p, os);
    if Rotates(l1, cfg, p) {
      CleanDropsOldest(l1.files, cfg.rotateCount, os.moves);
      OpenKeeps(Log(Rotated(l1.files, cfg.rotateCount, os.moves), Closed, l1.fileSize), cfg, os.reopen);
      Seqs.Assoc(DroppedBy(l, cfg, p, os), Kept(PrepareLog(l, cfg, p, os), cfg), put);
    } else {
      Seqs.Nothing(Kept(l, cfg) + put);
    }
  }

  ghost predicate NoZero(l: Log) { Num(0) !in l.files }

  /** Whatever fails: what is kept is part of what was kept and put, in order. */
  lemma WriteSubsequence(l: Log, cfg: Settings, p: Record, os: Os)
    requires NoZero(l)
    ensures IsSubsequence(Kept(WriteLog(l, cfg, p, os), cfg), Kept(l, cfg) + Put(l, cfg, p, os))
    ensures NoZero(WriteLog(l, cfg, p, os))
  {
    var l1 := EnsureLog(l, os);
    OpenKeeps(l, cfg, os.open);
    WriteAppends(l, cfg, p, os);
    SubSelf(Kept(l, cfg));
    if Rotates(l1, cfg, p) {
      RotatedSubsequence(l1.files, cfg.rotateCount, os.moves);
      OpenKeeps(Log(Rotated(l1.files, cfg.rotateCount, os.moves), Closed, l1.fileSize), cfg, os.reopen);
    }
    SubSuffixed(Kept(PrepareLog(l, cfg, p, os), cfg), Kept(l, cfg), Put(l, cfg, p, os));
  }

  /** A write without an error leaves the record at the end of the current file. */
  lemma OkIsWritten(l: Log, cfg: Settings, p: Record, os: Os)
    requires Ok(l, cfg, p, os)
    ensures var l' := WriteLog(l, cfg, p, os);
      && l'.handle == Open && Base in l'.files
      && l'.files[Base] != [] && l'.files[Base][|l'.files[Base]| - 1] == p
  {
  }

  /** The size a write goes by: the one kept, or that of the file if it is opened first. */
  function SizeBefore(l: Log): int { if l.handle == Nil then Size(Get(l.files, Base)) else l.fileSize }

  /** A write that fits, or one without a limit, drops nothing and leaves the numbered files as they were. */
  lemma FittingWrite(l: Log, cfg: Settings, p: Record, os: Os)
    requires cfg.maxSize <= 0 || SizeBefore(l) + |p| <= cfg.maxSize
    ensures var l' := WriteLog(l, cfg, p, os);
      && (forall i :: (Num(i) in l'.files <==> Num(i) in l.files) && Get(l'.files, Num(i)) == Get(l.files, Num(i)))
      && IsPrefix(Get(l.files, Base), Get(l'.files, Base))
      && DroppedBy(l, cfg, p, os) == []
  {
  }

  predicate IsPrefix(a: Content, b: Content) { a <= b }

  /** One that does not fit, and moves the current file away, starts a new file with what is put. */
  lemma OversizeWrite(l: Log, cfg: Settings, p: Record, os: Os)
    requires cfg.maxSize > 0 && SizeBefore(l) + |p| > cfg.maxSize
    requires (l.handle == Nil ==> os.open) && os.moves(0) && os.reopen
    ensures Get(WriteLog(l, cfg, p, os).files, Base) == Put(l, cfg, p, os)
  {
    var l1 := EnsureLog(l, os);
    CurrentGone(l1.files, cfg.rotateCount, os.moves);
    var l2 := RotateLog(l1, cfg, os);
    assert Get(l2.files, Base) == [] && l2.handle == Open;
    Seqs.Nothing(Piece(os.first, p));
    Seqs.Nothing(Piece(os.second, p));
    assert PrepareLog(l, cfg, p, os) == l2;
  }

  /** The size kept is that of the file. */
  predicate Accurate(l: Log) { l.handle != Nil ==> Base in l.files && l.fileSize == Size(l.files[Base]) }

  lemma SizeOneMore(c: Content, p: Record)
    ensures Size(c + [p]) == Size(c) + |p|
  {
    assert (c + [p])[..|c|] == c;
  }

  /**
   * From an accurate size, and if the rotation, if there is one, moves the current
   * file away and opens a new one: a first attempt that succeeds keeps the size
   * accurate and the current file within the larger of the limit and the record.
   */
  lemma WithinLimit(l: Log, cfg: Settings, p: Record, os: Os)
    requires Accurate(l) && Succeeds(PrepareLog(l, cfg, p, os), os.first)
    requires Rotates(EnsureLog(l, os), cfg, p) ==> os.moves(0) && os.reopen
    ensures var l' := WriteLog(l, cfg, p, os);
      && Accurate(l') && Base in l'.files
      && (cfg.maxSize > 0 ==> Size(l'.files[Base]) <= if |p| > cfg.maxSize then |p| else cfg.maxSize)
  {
    var l1, l2 := EnsureLog(l, os), PrepareLog(l, cfg, p, os);
    SizeOneMore(Get(l2.files, Base), p);
    if Rotates(l1, cfg, p) {
      CurrentGone(l1.files, cfg.rotateCount, os.moves);
    }
  }

  lemma CurrentGone(files: Files, rotate: int, moves: Moves)
    requires moves(0)
    ensures Base !in Rotated(files, rotate, moves)
  {
  }

  // ---------------------------------------------------------------------
  // Runs

  datatype Write = Write(p: Record, os: Os)

  function Run(l: Log, cfg: Settings, writes: seq<Write>): Log {
    if writes == [] then l
    else
      var last := writes[|writes| - 1];
      WriteLog(Run(l, cfg, writes[..|writes| - 1]), cfg, last.p, last.os)
  }

  /** All that is put into the file, in order. */
  function AllPut(l: Log, cfg: Settings, writes: seq<Write>): Content {
    if writes == [] then []
    else
      var last, init := writes[|writes| - 1], writes[..|writes| - 1];
      AllPut(l, cfg, init) + Put(Run(l, cfg, init), cfg, last.p, last.os)
  }

  ghost predicate AllClean(l: Log, cfg: Settings, writes: seq<Write>) {
    writes == [] ||
    var last, init := writes[|writes| - 1], writes[..|writes| - 1];
    AllClean(l, cfg, init) && CleanWrite(Run(l, cfg, init), cfg, last.p, last.os)
  }

  /** In every run, whatever fails, what is kept is part of what was there and what was put, in order and not doubled. */
  lemma {:induction false} RunSubsequence(l: Log, cfg: Settings, writes: seq<Write>)
    requires NoZero(l)
    ensures NoZero(Run(l, cfg, writes))
    ensures IsSubsequence(Kept(Run(l, cfg, writes), cfg), Kept(l, cfg) + AllPut(l, cfg, writes))
  {
    if writes == [] {
      SubSelf(Kept(l, cfg));
      Seqs.Nothing(Kept(l, cfg));
    } else {
      var last, init := writes[|writes| - 1], writes[..|writes| - 1];
      RunSubsequence(l, cfg, init);
      var l1 := Run(l, cfg, init);
      var before, put := Kept(l, cfg) + AllPut(l, cfg, init), Put(l1, cfg, last.p, last.os);
      WriteSubsequence(l1, cfg, last.p, last.os);
      SubSuffixed(Kept(l1, cfg), before, put);
      SubTransitive(Kept(Run(l, cfg, writes), cfg), Kept(l1, cfg) + put, before + put);
      Seqs.Assoc(Kept(l, cfg), AllPut(l, cfg, init), put);
    }
  }

  /** In every run without a file lost from the middle, what is kept is the last part of it. */
  lemma {:induction false} RunSuffix(l: Log, cfg: Settings, writes: seq<Write>)
    requires AllClean(l, cfg, writes)
    ensures IsSuffix(Kept(Run(l, cfg, writes), cfg), Kept(l, cfg) + AllPut(l, cfg, writes))
  {
    if writes == [] {
      Seqs.Nothing(Kept(l, cfg));
    } else {
      var last, init := writes[|writes| - 1], writes[..|writes| - 1];
      RunSuffix(l, cfg, init);
      var l1 := Run(l, cfg, init);
      var put, dropped := Put(l1, cfg, last.p, last.os), DroppedBy(l1, cfg, last.p, last.os);
      WriteAccounts(l1, cfg, last.p, last.os);
      Seqs.Assoc(Kept(l, cfg), AllPut(l, cfg, init), put);
      SuffixStep(Kept(l1, cfg), Kept(l, cfg) + AllPut(l, cfg, init), put, dropped, Kept(Run(l, cfg, writes), cfg));
    }
  }

  lemma SuffixStep(kept: Content, all: Content, put: Content, dropped: Content, kept': Content)
    requires IsSuffix(kept, all) && kept + put == dropped + kept'
    ensures IsSuffix(kept', all + put)
  {
    var x :| all == x + kept;
    Seqs.Assoc(x, kept, put);
    Seqs.Assoc(x, dropped, kept');
    assert all + put == (x + dropped) + kept';
  }

  // ---------------------------------------------------------------------

  class LogFile {
    const cfg: Settings
    var files: Files
    var handle: Handle
    var fileSize: int

    ghost function View(): Log
      reads this
    {
      Log(files, handle, fileSize)
    }

    /** The file is open only if it is there. */
    ghost predicate Valid()
      reads this
    {
      handle == Open ==> Base in files
    }

    constructor (files: Files, cfg: Settings)
      ensures Valid() && View() == Log(files, Nil, 0) && this.cfg == cfg
    {
      this.files, this.cfg, handle, fileSize := files, cfg, Nil, 0;
    }

    method Close()
      requires Valid()
      modifies this`handle
      ensures Valid() && handle == (if old(handle) == Nil then Nil else Closed)
    {
      if handle == Nil {
        return;
      }
      handle := Closed;
    }

    method OpenFile(ok: bool)
      modifies this
      ensures Valid() && View() == OpenLog(old(View()), ok)
    {
      if handle != Nil {
        handle := Closed;
      }
      if ok {
        if Base !in files {
          files := files[Base := []];
        }
        handle := Open;
        fileSize := Size(files[Base]);
        assert files == Opened(old(files));
      }
    }

    method RotateFiles(os: Os)
      requires Valid() && handle != Nil
      modifies this
      ensures Valid() && View() == RotateLog(old(View()), cfg, os)
    {
      handle := Closed;
      if cfg.rotateCount == 0 {
        if os.moves(0) {
          files := files - {Base};
        }
      } else {
        MoveUp(os.moves);
      }
      OpenFile(os.reopen);
    }

    /** Moves every numbered file up by one, then the current one to number 1. */
    method MoveUp(moves: Moves)
      requires cfg.rotateCount != 0
      modifies this`files
      ensures files == Rotated(old(files), cfg.rotateCount, moves)
    {
      var i := cfg.rotateCount;
      while i > 0
        invariant Shift(files, i, moves) == Shift(old(files), cfg.rotateCount, moves)
      {
        if moves(i) {
          files := Rename(files, Num(i - 1), Num(i));
        }
        i := i - 1;
      }
      if moves(0) {
        files := Rename(files, Base, Num(1));
      }
    }

    /** Opens the file if it never was, and rotates if the record would not fit. */
    method Prepare(p: Record, os: Os)
      requires Valid()
      modifies this
      ensures Valid() && View() == PrepareLog(old(View()), cfg, p, os)
    {
      if handle == Nil {
        OpenFile(os.open);
      }
      if handle != Nil && cfg.maxSize > 0 && cfg.maxSize < fileSize + |p| {
        RotateFiles(os);
      }
    }

    /** One attempt: a part may be written before it fails. */
    method TryWrite(p: Record, a: Attempt) returns (ok: bool)
      requires Valid()
      modifies this
      ensures Valid() && View() == PutLog(old(View()), p, a) && ok == Succeeds(old(View()), a)
    {
      ok := handle == Open && a.Written?;
      if handle == Open {
        files := files[Base := files[Base] + Piece(a, p)];
      }
      if ok {
        fileSize := fileSize + |p|;
      }
    }

    method Write(p: Record, os: Os) returns (ok: bool)
      requires Valid()
      modifies this
      ensures Valid() && View() == WriteLog(old(View()), cfg, p, os)
      ensures ok <==> Ok(old(View()), cfg, p, os)
      ensures ok ==> Base in files && files[Base] != [] && files[Base][|files[Base]| - 1] == p
      ensures CleanWrite(old(View()), cfg, p, os) ==>
        old(Kept(View(), cfg)) + Put(old(View()), cfg, p, os)
        == DroppedBy(old(View()), cfg, p, os) + Kept(View(), cfg)
      ensures NoZero(old(View())) ==>
        IsSubsequence(Kept(View(), cfg), old(Kept(View(), cfg)) + Put(old(View()), cfg, p, os))
    {
      ghost var l := View();
      Prepare(p, os);
      ok := TryWrite(p, os.first);
      if !ok {
        OpenFile(os.again);
        ok := TryWrite(p, os.second);
      }
      if ok {
        OkIsWritten(l, cfg, p, os);
      }
      if CleanWrite(l, cfg, p, os) {
        WriteAccounts(l, cfg, p, os);
      }
      if NoZero(l) {
        WriteSubsequence(l, cfg, p, os);
      }
    }
  }
}
