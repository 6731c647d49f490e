/**
 * `WhitespaceRemover.reduce_indentation` of uglipy/ugli.py (the same code
 * as ugli.py): every segment's indentation, counted in spaces, becomes its
 * level, the position of that indentation among the indentations seen on
 * the way down to it.
 */
module Indentation {
  import opened Segmenting

  // ---------------------------------------------------------------------
  // The set of indentations: its maximum and the position of a member
  // ---------------------------------------------------------------------

  /** `max(indents)`. */
  function Max(s: set<nat>): (m: nat)
    requires s != {}
    ensures m in s && forall y :: y in s ==> y <= m
  {
    MaxExists(s);
    var m :| m in s && forall y :: y in s ==> y <= m; m
  }

  lemma MaxExists(s: set<nat>)
    requires s != {}
    ensures exists m :: m in s && forall y :: y in s ==> y <= m
  {
    var m := MaxWitness(s);
  }

  lemma {:induction false} MaxWitness(s: set<nat>) returns (m: nat)
    requires s != {}
    ensures m in s && forall y :: y in s ==> y <= m
    decreases |s|
  {
    var x :| x in s;
    if s == {x} {
      m := x;
    } else {
      var rest := MaxWitness(s - {x});
      m := if x > rest then x else rest;
      forall y | y in s ensures y <= m {
        if y != x {
          assert y in s - {x};
        }
      }
    }
  }

  /**
   * `list(sorted(indents)).index(x)`: for a member `x` of the set, the
   * number of members below it.
   */
  function Rank(s: set<nat>, x: nat): nat {
    |set y | y in s && y < x|
  }

  lemma {:induction false} SubsetCard(a: set<nat>, b: set<nat>)
    requires a <= b
    ensures |a| <= |b|
    decreases |b|
  {
    if a != {} {
      var x :| x in a;
      SubsetCard(a - {x}, b - {x});
    }
  }

  /** `{0, ..., n - 1}`. */
  function Below(n: nat): (r: set<nat>)
    ensures |r| == n && forall y: nat :: y in r <==> y < n
  {
    if n == 0 then
      {}
    else
      var r := Below(n - 1);
      assert n - 1 !in r;
      var r' := r + {n - 1};
      assert forall y: nat :: y in r' <==> y < n by {
        forall y: nat ensures y in r' <==> y < n {
          if y < n - 1 {
            assert y in r;
          }
        }
      }
      r'
  }

  /** A level is never more than the indentation it replaces. */
  lemma RankAtMost(s: set<nat>, x: nat)
    ensures Rank(s, x) <= x
  {
    SubsetCard((set y | y in s && y < x), Below(x));
  }

  /** A member of the set sits at a position inside the sorted list. */
  lemma RankInside(s: set<nat>, x: nat)
    requires x in s
    ensures Rank(s, x) < |s|
  {
    var below := set y | y in s && y < x;
    SubsetCard(below + {x}, s);
    assert x !in below;
  }

  /**
   * Levels keep the order of indentations: a smaller member of the set
   * gets a strictly smaller level, so nesting inside one run survives.
   */
  lemma RankStrictlyMonotone(s: set<nat>, x: nat, y: nat)
    requires x in s && x < y
    ensures Rank(s, x) < Rank(s, y)
  {
    var bx := set z | z in s && z < x;
    var under := set z | z in s && z < y;
    assert x !in bx && x in under;
    SubsetCard(bx + {x}, under);
  }

  /** The smallest indentation in the set is level 0. */
  lemma RankOfMin(s: set<nat>, x: nat)
    requires x in s && forall y :: y in s ==> x <= y
    ensures Rank(s, x) == 0
  {
    assert (set y | y in s && y < x) == {};
  }

  /** In a set of two indentations, the levels are 0 and 1. */
  lemma RankOfPair(x: nat, y: nat)
    requires x < y
    ensures Rank({x, y}, x) == 0 && Rank({x, y}, y) == 1
  {
    RankOfMin({x, y}, x);
    RankInside({x, y}, y);
    RankStrictlyMonotone({x, y}, x, y);
  }

  // ---------------------------------------------------------------------
  // `update_valley`
  // ---------------------------------------------------------------------

  /** Indices `valley` are distinct positions of `segs`. */
  predicate ValleyFits(valley: seq<nat>, n: nat) {
    && (forall k :: 0 <= k < |valley| ==> valley[k] < n)
    && (forall k, l :: 0 <= k < l < |valley| ==> valley[k] < valley[l])
  }

  /** Every segment of the valley gets the level of its indentation in `s`. */
  function UpdateValley(segs: seq<Segment>, valley: seq<nat>, s: set<nat>): (r: seq<Segment>)
    ensures |r| == |segs|
  {
    seq(|segs|, j requires 0 <= j < |segs| =>
      if j in valley then segs[j].(indents := Rank(s, segs[j].indents)) else segs[j])
  }

  /** `update_valley(valley, indents)`: the valley's segments, updated in place. */
  method UpdateValleyInPlace(a: array<Segment>, valley: seq<nat>, s: set<nat>)
    requires ValleyFits(valley, a.Length)
    modifies a
    ensures a[..] == UpdateValley(old(a[..]), valley, s)
  {
    ghost var before := a[..];
    for k := 0 to |valley|
      invariant forall j :: 0 <= j < a.Length ==>
        a[j] == (if j in valley[..k] then before[j].(indents := Rank(s, before[j].indents)) else before[j])
    {
      var j := valley[k];
      assert j !in valley[..k];
      a[j] := a[j].(indents := Rank(s, a[j].indents));
      assert valley[..k + 1] == valley[..k] + [j];
    }
    assert valley[..|valley|] == valley;
  }

  // ---------------------------------------------------------------------
  // The loop of `reduce_indentation`
  // ---------------------------------------------------------------------

  /** The loop's variables: the segments, `indents` and `valley`. */
  datatype Reducer = Reducer(segs: seq<Segment>, indents: set<nat>, valley: seq<nat>)

  /**
   * One segment `i`: an indentation already in the set closes the valley
   * (updated and restarted at `i`), and drops the deepest indentation unless
   * `i` sits at it; a new indentation extends the valley.
   */
  function ReduceStep(r: Reducer, i: nat): Reducer
    requires i < |r.segs|
  {
    var x := r.segs[i].indents;
    if x in r.indents then
      var top := Max(r.indents);
      Reducer(UpdateValley(r.segs, r.valley, r.indents), if x != top then r.indents - {top} else r.indents, [i])
    else Reducer(r.segs, r.indents + {x}, r.valley + [i])
  }

  /** The loop after its first `n` segments. */
  function ReduceLoop(segs: seq<Segment>, n: nat): (r: Reducer)
    requires n <= |segs|
    ensures |r.segs| == |segs|
    decreases n
  {
    if n == 0 then Reducer(segs, {}, [])
    else ReduceStep(ReduceLoop(segs, n - 1), n - 1)
  }

  /** `reduce_indentation(segments)`: the loop, then the last valley. */
  function ReduceIndentation(segs: seq<Segment>): seq<Segment> {
    var r := ReduceLoop(segs, |segs|);
    UpdateValley(r.segs, r.valley, r.indents)
  }

  /**
   * The valley after `n` segments: increasing positions below `n` whose
   * indentations are all in the set, so `new_to_old.index` finds each one.
   */
  ghost predicate ValleyHolds(r: Reducer, n: nat) {
    && n <= |r.segs|
    && ValleyFits(r.valley, n)
    && forall k :: 0 <= k < |r.valley| ==> r.segs[r.valley[k]].indents in r.indents
  }

  /** Every segment keeps its lines and is no deeper than it was. */
  ghost predicate Shallower(orig: seq<Segment>, segs: seq<Segment>) {
    && |segs| == |orig|
    && forall j :: 0 <= j < |orig| ==> segs[j].lines == orig[j].lines && segs[j].indents <= orig[j].indents
  }

  /** Updating a valley keeps lines and never deepens. */
  lemma UpdateValleyShallower(orig: seq<Segment>, segs: seq<Segment>, valley: seq<nat>, s: set<nat>)
    requires Shallower(orig, segs)
    ensures Shallower(orig, UpdateValley(segs, valley, s))
  {
    forall j | 0 <= j < |segs|
      ensures UpdateValley(segs, valley, s)[j].indents <= segs[j].indents
    {
      RankAtMost(s, segs[j].indents);
    }
  }

  lemma StepKeepsValley(r: Reducer, n: nat)
    requires ValleyHolds(r, n) && n < |r.segs|
    ensures ValleyHolds(ReduceStep(r, n), n + 1)
  {
    var x := r.segs[n].indents;
    if x in r.indents {
      var u := UpdateValley(r.segs, r.valley, r.indents);
      assert n !in r.valley;
      assert u[n] == r.segs[n];
    } else {
      var v := r.valley + [n];
      forall k | 0 <= k < |v| ensures r.segs[v[k]].indents in r.indents + {x} {
        if k < |r.valley| {
          assert v[k] == r.valley[k];
        }
      }
    }
  }

  lemma {:induction false} LoopValley(segs: seq<Segment>, n: nat)
    requires n <= |segs|
    ensures ValleyHolds(ReduceLoop(segs, n), n)
    decreases n
  {
    if n > 0 {
      LoopValley(segs, n - 1);
      StepKeepsValley(ReduceLoop(segs, n - 1), n - 1);
    }
  }

  lemma {:induction false} LoopShallower(segs: seq<Segment>, n: nat)
    requires n <= |segs|
    ensures Shallower(segs, ReduceLoop(segs, n).segs)
    decreases n
  {
    if n > 0 {
      var r := ReduceLoop(segs, n - 1);
      LoopShallower(segs, n - 1);
      UpdateValleyShallower(segs, r.segs, r.valley, r.indents);
    }
  }

  /**
   * Reducing indentation keeps the number of segments and their lines, and
   * never makes a segment deeper than it was.
   */
  lemma ReduceKeepsLinesAndShallows(segs: seq<Segment>)
    ensures |ReduceIndentation(segs)| == |segs|
    ensures forall j :: 0 <= j < |segs| ==>
      ReduceIndentation(segs)[j].lines == segs[j].lines
      && ReduceIndentation(segs)[j].indents <= segs[j].indents
  {
    var r := ReduceLoop(segs, |segs|);
    LoopShallower(segs, |segs|);
    UpdateValleyShallower(segs, r.segs, r.valley, r.indents);
  }

  /**
   * `new_to_old.index(segment['indents'])` never raises `ValueError`:
   * whenever a valley is updated, each of its indentations is in the set,
   * and its level is a position of `sorted(indents)`.
   */
  lemma ValleyIndentsAreKnown(segs: seq<Segment>, n: nat)
    requires n <= |segs|
    ensures ValleyHolds(ReduceLoop(segs, n), n)
    ensures var r := ReduceLoop(segs, n);
      forall k :: 0 <= k < |r.valley| ==> Rank(r.indents, r.segs[r.valley[k]].indents) < |r.indents|
  {
    var r := ReduceLoop(segs, n);
    LoopValley(segs, n);
    forall k | 0 <= k < |r.valley|
      ensures Rank(r.indents, r.segs[r.valley[k]].indents) < |r.indents|
    {
      RankInside(r.indents, r.segs[r.valley[k]].indents);
    }
  }

  /**
   * `reduce_indentation`: the segments, updated in place through the
   * valleys that hold them.
   */
  method ReduceIndentationInPlace(a: array<Segment>)
    modifies a
    ensures a[..] == ReduceIndentation(old(a[..]))
  {
    ghost var orig := a[..];
    var indents: set<nat> := {};
    var valley: seq<nat> := [];
    for i := 0 to a.Length
      invariant Reducer(a[..], indents, valley) == ReduceLoop(orig, i)
    {
      LoopValley(orig, i);
      var x := a[i].indents;
      if x in indents {
        UpdateValleyInPlace(a, valley, indents);
        valley := [i];
        var top := Max(indents);
        if x != top {
          indents := indents - {top};
        }
      } else {
        valley := valley + [i];
        indents := indents + {x};
      }
    }
    LoopValley(orig, a.Length);
    UpdateValleyInPlace(a, valley, indents);
  }

  /** The doctest: a header at 0 and its body at 4 become levels 0 and 1. */
  lemma ReduceDoctest(h: seq<string>, b: seq<string>)
    ensures ReduceIndentation([Segment(0, h), Segment(4, b)]) == [Segment(0, h), Segment(1, b)]
  {
    var segs := [Segment(0, h), Segment(4, b)];
    var r1 := ReduceLoop(segs, 1);
    assert r1 == Reducer(segs, {0}, [0]);
    var r2 := ReduceLoop(segs, 2);
    assert r2 == Reducer(segs, {0, 4}, [0, 1]);
    RankOfPair(0, 4);
    var u := UpdateValley(segs, [0, 1], {0, 4});
    assert u[0] == Segment(0, h) && u[1] == Segment(1, b);
  }

  /** In a set of three indentations, the levels are 0, 1 and 2. */
  lemma RankOfTriple(x: nat, y: nat, z: nat)
    requires x < y < z
    ensures Rank({x, y, z}, x) == 0 && Rank({x, y, z}, y) == 1 && Rank({x, y, z}, z) == 2
  {
    var s := {x, y, z};
    RankOfMin(s, x);
    assert |s| == 3;
    RankInside(s, z);
    RankStrictlyMonotone(s, x, y);
    RankStrictlyMonotone(s, y, z);
  }

  /**
   * The second doctest: the loop runs down 0, 4, 8, comes back up to 4 and
   * goes down to 6. Coming back up levels the first run and forgets 8; the
   * second run is levelled against 0, 4 and 6.
   */
  lemma ReduceNestedDoctest(a: seq<string>, b: seq<string>, c: seq<string>, d: seq<string>, e: seq<string>)
    ensures ReduceIndentation([Segment(0, a), Segment(4, b), Segment(8, c), Segment(4, d), Segment(6, e)])
         == [Segment(0, a), Segment(1, b), Segment(2, c), Segment(1, d), Segment(2, e)]
  {
    var segs := [Segment(0, a), Segment(4, b), Segment(8, c), Segment(4, d), Segment(6, e)];
    var levelled := [Segment(0, a), Segment(1, b), Segment(2, c), Segment(4, d), Segment(6, e)];
    NestedDown(segs);
    NestedBackUp(segs, levelled);
    assert ReduceLoop(segs, 5) == Reducer(levelled, {0, 4, 6}, [3, 4]);
    LevelSecondRun(levelled, [Segment(0, a), Segment(1, b), Segment(2, c), Segment(1, d), Segment(2, e)]);
  }

  lemma LevelSecondRun(levelled: seq<Segment>, result: seq<Segment>)
    requires |levelled| == 5 && levelled[3].indents == 4 && levelled[4].indents == 6
    requires result == levelled[..3] + [levelled[3].(indents := 1), levelled[4].(indents := 2)]
    ensures UpdateValley(levelled, [3, 4], {0, 4, 6}) == result
  {
    RankOfTriple(0, 4, 6);
    var u := UpdateValley(levelled, [3, 4], {0, 4, 6});
    assert u[0] == result[0] && u[1] == result[1] && u[2] == result[2];
    assert u[3] == result[3] && u[4] == result[4];
  }

  /** Going down 0, 4, 8: one valley, three indentations. */
  lemma NestedDown(segs: seq<Segment>)
    requires |segs| == 5 && segs[0].indents == 0 && segs[1].indents == 4 && segs[2].indents == 8
    ensures ReduceLoop(segs, 3) == Reducer(segs, {0, 4, 8}, [0, 1, 2])
  {
    assert ReduceLoop(segs, 1) == Reducer(segs, {0}, [0]);
    assert ReduceLoop(segs, 2) == Reducer(segs, {0, 4}, [0, 1]);
  }

  /** Back up at 4: the valley is levelled and 8 is forgotten. */
  lemma NestedBackUp(segs: seq<Segment>, levelled: seq<Segment>)
    requires |segs| == 5 && segs[0].indents == 0 && segs[1].indents == 4 && segs[2].indents == 8
    requires segs[3].indents == 4
    requires ReduceLoop(segs, 3) == Reducer(segs, {0, 4, 8}, [0, 1, 2])
    requires levelled == [segs[0].(indents := 0), segs[1].(indents := 1), segs[2].(indents := 2), segs[3], segs[4]]
    ensures ReduceLoop(segs, 4) == Reducer(levelled, {0, 4}, [3])
  {
    var r3 := Reducer(segs, {0, 4, 8}, [0, 1, 2]);
    assert Max({0, 4, 8}) == 8;
    assert {0, 4, 8} - {8} == {0, 4};
    LevelFirstRun(segs, levelled);
    assert ReduceStep(r3, 3) == Reducer(levelled, {0, 4}, [3]);
  }

  lemma LevelFirstRun(segs: seq<Segment>, levelled: seq<Segment>)
    requires |segs| == 5 && segs[0].indents == 0 && segs[1].indents == 4 && segs[2].indents == 8
    requires levelled == [segs[0].(indents := 0), segs[1].(indents := 1), segs[2].(indents := 2), segs[3], segs[4]]
    ensures UpdateValley(segs, [0, 1, 2], {0, 4, 8}) == levelled
  {
    RankOfTriple(0, 4, 8);
    var u := UpdateValley(segs, [0, 1, 2], {0, 4, 8});
    assert u[0] == levelled[0] && u[1] == levelled[1] && u[2] == levelled[2];
    assert u[3] == levelled[3] && u[4] == levelled[4];
  }
}
