/**
  The intersection decision rule of the ghosts: which cardinal directions
  are open, the ban on reversing, and the closest-to-target filter.
  Distances are compared squared, which orders integer cells exactly as
  the Euclidean distance does.
 */
module Decision {
  import opened Grid

  /** The order get_possible_directions tries: right, left, down, up. */
  const Cardinals: seq<Dir> := [Right, Left, Down, Up]

  /** Ghost.can_move: an eaten ghost flies through walls (even the zero
      direction is accepted); otherwise it is the player's rule. */
  predicate GhostCanMove(eaten: bool, c: Cell, d: Dir)
  {
    eaten || CanMove(c, d)
  }

  /** get_possible_directions as a value: the cardinals that pass can_move, in order. */
  function PossibleDirections(eaten: bool, c: Cell): seq<Dir>
  {
    FilterMovable(eaten, c, Cardinals)
  }

  function FilterMovable(eaten: bool, c: Cell, ds: seq<Dir>): seq<Dir>
  {
    if ds == [] then []
    else (if GhostCanMove(eaten, c, ds[0]) then [ds[0]] else []) + FilterMovable(eaten, c, ds[1..])
  }

  lemma FilterMovableUnfold(eaten: bool, c: Cell, ds: seq<Dir>)
    requires ds != []
    ensures FilterMovable(eaten, c, ds) ==
            (if GhostCanMove(eaten, c, ds[0]) then [ds[0]] else []) + FilterMovable(eaten, c, ds[1..])
  {
  }

  /** The loop of get_possible_directions: the directions of ds that pass
      can_move, kept in order. */
  method OpenAmong(eaten: bool, c: Cell, ds: seq<Dir>) returns (open: seq<Dir>)
    ensures open == FilterMovable(eaten, c, ds)
  {
    open := [];
    for i := 0 to |ds|
      invariant open + FilterMovable(eaten, c, ds[i..]) == FilterMovable(eaten, c, ds)
    {
      FilterMovableUnfold(eaten, c, ds[i..]);
      assert ds[i..][1..] == ds[i + 1..];
      if GhostCanMove(eaten, c, ds[i]) {
        open := open + [ds[i]];
      }
    }
  }

  /** list.remove: drop the first occurrence. */
  function RemoveFirst(s: seq<Dir>, x: Dir): seq<Dir>
  {
    if s == [] then []
    else if s[0] == x then s[1..]
    else [s[0]] + RemoveFirst(s[1..], x)
  }

  /** The directions still allowed after the reversal ban: the opposite of
      the current direction is dropped unless it is the only open one. */
  function Candidates(dirs: seq<Dir>, current: Dir): seq<Dir>
  {
    var back := Opposite(current);
    if |dirs| > 1 && back in dirs then RemoveFirst(dirs, back) else dirs
  }

  /** d is one of the candidates whose neighbour cell is nearest the target. */
  predicate IsClosest(d: Dir, cands: seq<Dir>, from: Cell, target: Cell)
  {
    d in cands &&
    forall e :: e in cands ==> SqDist(Step(from, d), target) <= SqDist(Step(from, e), target)
  }

  /** The distance loop of make_decision: the list of candidates that
      achieve the minimum distance from their neighbour cell to the target. */
  method ClosestDirections(cands: seq<Dir>, from: Cell, target: Cell) returns (best: seq<Dir>)
    requires |cands| > 0
    ensures |best| > 0
    ensures forall d :: d in best <==> IsClosest(d, cands, from, target)
  {
    var dists: seq<int> := [];
    for i := 0 to |cands|
      invariant |dists| == i
      invariant forall k :: 0 <= k < i ==> dists[k] == SqDist(Step(from, cands[k]), target)
    {
      dists := dists + [SqDist(Step(from, cands[i]), target)];
    }
    var minDist := dists[0];
    var at := 0;
    for i := 1 to |dists|
      invariant 0 <= at < i && dists[at] == minDist
      invariant forall k :: 0 <= k < i ==> minDist <= dists[k]
    {
      if dists[i] < minDist {
        minDist, at := dists[i], i;
      }
    }
    best := [];
    for i := 0 to |cands|
      invariant forall d :: d in best <==> exists k :: 0 <= k < i && cands[k] == d && dists[k] == minDist
      invariant at < i ==> cands[at] in best
    {
      if dists[i] == minDist {
        best := best + [cands[i]];
      }
    }
    forall d | d in best
      ensures IsClosest(d, cands, from, target)
    {
      var k :| 0 <= k < |cands| && cands[k] == d && dists[k] == minDist;
    }
    forall d | IsClosest(d, cands, from, target)
      ensures d in best
    {
      var k :| 0 <= k < |cands| && cands[k] == d;
      assert dists[k] <= dists[at];
    }
  }

  // ---------------------------------------------------------------
  // Lemmas
  // ---------------------------------------------------------------

  lemma {:induction false} FilterMovableSpec(eaten: bool, c: Cell, ds: seq<Dir>)
    ensures forall d :: d in FilterMovable(eaten, c, ds) <==> d in ds && GhostCanMove(eaten, c, d)
    ensures |FilterMovable(eaten, c, ds)| <= |ds|
  {
    if ds != [] {
      FilterMovableSpec(eaten, c, ds[1..]);
      assert ds == [ds[0]] + ds[1..];
    }
  }

  /** The open directions are exactly the non-zero directions that pass
      can_move; for an eaten ghost that is all four of them. */
  lemma PossibleDirectionsSpec(eaten: bool, c: Cell)
    ensures forall d :: d in PossibleDirections(eaten, c) <==> d != Stop && GhostCanMove(eaten, c, d)
    ensures eaten ==> PossibleDirections(eaten, c) == Cardinals
    ensures !eaten ==> forall d :: d in PossibleDirections(eaten, c) <==> CanMove(c, d)
  {
    FilterMovableSpec(eaten, c, Cardinals);
    if eaten {
      FilterKeepsAllWhenEaten(c, Cardinals);
    }
  }

  lemma {:induction false} FilterKeepsAllWhenEaten(c: Cell, ds: seq<Dir>)
    ensures FilterMovable(true, c, ds) == ds
  {
    if ds != [] {
      FilterKeepsAllWhenEaten(c, ds[1..]);
    }
  }

  lemma {:induction false} FilterKeepsDistinct(eaten: bool, c: Cell, ds: seq<Dir>)
    requires forall i, j :: 0 <= i < j < |ds| ==> ds[i] != ds[j]
    ensures var r := FilterMovable(eaten, c, ds);
            forall i, j :: 0 <= i < j < |r| ==> r[i] != r[j]
  {
    if ds != [] {
      var tail := ds[1..];
      assert forall i, j :: 0 <= i < j < |tail| ==> tail[i] != tail[j] by {
        forall i, j | 0 <= i < j < |tail| ensures tail[i] != tail[j] {
          assert tail[i] == ds[i + 1] && tail[j] == ds[j + 1];
        }
      }
      FilterKeepsDistinct(eaten, c, tail);
      FilterMovableSpec(eaten, c, tail);
      assert ds[0] !in tail;
      if GhostCanMove(eaten, c, ds[0]) {
        PrependKeepsDistinct(ds[0], FilterMovable(eaten, c, tail));
      }
    }
  }

  /** Putting a direction that is not in a duplicate-free list in front of it
      keeps the list duplicate-free. */
  lemma PrependKeepsDistinct(x: Dir, s: seq<Dir>)
    requires x !in s && forall i, j :: 0 <= i < j < |s| ==> s[i] != s[j]
    ensures var r := [x] + s;
            forall i, j :: 0 <= i < j < |r| ==> r[i] != r[j]
  {
    var r := [x] + s;
    forall i, j | 0 <= i < j < |r| ensures r[i] != r[j] {
      if i == 0 {
        assert r[j] == s[j - 1] && s[j - 1] in s;
      } else {
        assert r[i] == s[i - 1] && r[j] == s[j - 1];
      }
    }
  }

  /** The open directions never repeat. */
  lemma PossibleDirectionsDistinct(eaten: bool, c: Cell)
    ensures var ds := PossibleDirections(eaten, c);
            forall i, j :: 0 <= i < j < |ds| ==> ds[i] != ds[j]
  {
    assert forall i, j :: 0 <= i < j < |Cardinals| ==> Cardinals[i] != Cardinals[j];
    FilterKeepsDistinct(eaten, c, Cardinals);
    assert PossibleDirections(eaten, c) == FilterMovable(eaten, c, Cardinals);
  }

  lemma {:induction false} RemoveFirstSpec(s: seq<Dir>, x: Dir)
    requires forall i, j :: 0 <= i < j < |s| ==> s[i] != s[j]
    ensures forall d :: d in RemoveFirst(s, x) <==> d in s && d != x
    ensures x in s ==> |RemoveFirst(s, x)| == |s| - 1
    ensures forall i, j :: 0 <= i < j < |RemoveFirst(s, x)| ==> RemoveFirst(s, x)[i] != RemoveFirst(s, x)[j]
  {
    if s != [] {
      assert forall i, j :: 0 <= i < j < |s[1..]| ==> s[1..][i] != s[1..][j] by {
        forall i, j | 0 <= i < j < |s[1..]| ensures s[1..][i] != s[1..][j] {
          assert s[1..][i] == s[i + 1] && s[1..][j] == s[j + 1];
        }
      }
      RemoveFirstSpec(s[1..], x);
      if s[0] == x {
        assert forall d :: d in s[1..] ==> d != x by {
          forall d | d in s[1..] ensures d != x {
            var k :| 0 <= k < |s[1..]| && s[1..][k] == d;
            assert s[k + 1] == d;
          }
        }
      } else {
        var r := RemoveFirst(s[1..], x);
        assert s[0] !in s[1..];
        assert forall i, j :: 0 <= i < j < |[s[0]] + r| ==> ([s[0]] + r)[i] != ([s[0]] + r)[j] by {
          forall i, j | 0 <= i < j < |[s[0]] + r| ensures ([s[0]] + r)[i] != ([s[0]] + r)[j] {
            if i == 0 {
              assert ([s[0]] + r)[j] == r[j - 1];
              assert r[j - 1] in r;
            } else {
              assert ([s[0]] + r)[i] == r[i - 1] && ([s[0]] + r)[j] == r[j - 1];
            }
          }
        }
      }
    }
  }

  /** The reversal ban of make_decision, over the open directions of a cell:
      the candidates are a non-empty subset of the open directions exactly
      when some direction is open, and the reverse of the current direction
      is among them only when it is the sole open direction. */
  lemma CandidatesSpec(eaten: bool, c: Cell, current: Dir)
    ensures var open := PossibleDirections(eaten, c);
            var cands := Candidates(open, current);
            (|cands| > 0 <==> |open| > 0) &&
            (forall d :: d in cands ==> d in open) &&
            (forall d :: d in open && d != Opposite(current) ==> d in cands) &&
            (Opposite(current) in cands ==> open == [Opposite(current)])
  {
    var open := PossibleDirections(eaten, c);
    PossibleDirectionsDistinct(eaten, c);
    RemoveFirstSpec(open, Opposite(current));
    if Opposite(current) in Candidates(open, current) {
      assert !(|open| > 1 && Opposite(current) in open);
      assert |open| == 1;
      assert open == [open[0]];
    }
  }

  /** A ghost never turns back at an intersection while any other open
      direction exists. */
  lemma NoReversalWithAlternative(eaten: bool, c: Cell, current: Dir, d: Dir, other: Dir)
    requires d in Candidates(PossibleDirections(eaten, c), current)
    requires other in PossibleDirections(eaten, c) && other != Opposite(current)
    ensures d != Opposite(current)
  {
    CandidatesSpec(eaten, c, current);
  }
}
