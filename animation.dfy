/**
 * Walking animation: the still images of a sprite sheet, the endless two-pose cycle of each
 * direction, and the table of cycles built from a sheet.
 */
module Animation {
  import opened Directions

  /** A still image cut from a sprite sheet; its pixels are not part of this model. */
  datatype Image = Image(id: nat)

  const AnimateFps := 10
  /** Milliseconds between two poses: `1000/animate_fps`. */
  const FrameInterval := 1000 / AnimateFps

  /** An endless round-robin over a fixed list of poses, and the position of the next one. */
  datatype Cycle = Cycle(poses: seq<Image>, index: nat) {
    predicate Valid() {
      index < |poses|
    }

    /** The pose the next draw yields: one of the cycle's poses. */
    function Current(): (p: Image)
      requires Valid()
      ensures p in poses
    {
      poses[index]
    }

    /** The cycle after one draw: the same poses, moved on by one place, wrapping at the end. */
    function Next(): (c: Cycle)
      requires Valid()
      ensures c.Valid() && c.poses == poses
      ensures c.index == if index + 1 == |poses| then 0 else index + 1
    {
      Cycle(poses, (index + 1) % |poses|)
    }
  }

  /** The first n poses a cycle yields. */
  function Draws(c: Cycle, n: nat): (r: seq<Image>)
    requires c.Valid()
    ensures |r| == n
    decreases n
  {
    if n == 0 then [] else [c.Current()] + Draws(c.Next(), n - 1)
  }

  /** The fresh walk cycle of one sheet row: the neutral pose (column 0), then the step (column 2). */
  function WalkCycle(frames: seq<seq<Image>>, row: nat): (c: Cycle)
    requires row < |frames| && |frames[row]| >= 3
    ensures c.Valid() && |c.poses| == 2 && c.index == 0
  {
    Cycle([frames[row][0], frames[row][2]], 0)
  }

  /** A walk cycle alternates columns 0 and 2 for ever, from wherever its phase stands. */
  lemma {:induction false} WalkCycleAlternates(c: Cycle, n: nat, j: nat)
    requires c.Valid() && |c.poses| == 2
    requires j < n
    ensures Draws(c, n)[j] == c.poses[(c.index + j) % 2]
    decreases j
  {
    if j > 0 {
      WalkCycleAlternates(c.Next(), n - 1, j - 1);
    }
  }

  /** Two draws bring a walk cycle back to where it was. */
  lemma WalkCyclePeriod(c: Cycle)
    requires c.Valid() && |c.poses| == 2
    ensures c.Next().Next() == c
  {
  }

  /** The sheet has a row for every direction, each with at least three columns. */
  predicate SheetShaped(frames: seq<seq<Image>>) {
    |frames| >= |Order| && forall k :: 0 <= k < |Order| ==> |frames[k]| >= 3
  }

  /** A table holding a well-formed cycle for every direction. */
  predicate Complete(dict: map<Direction, Cycle>) {
    forall d: Direction :: d in dict && dict[d].Valid()
  }

  /** The table `make_frame_dict` builds: every direction maps to the walk cycle of its own row. */
  function FrameDict(frames: seq<seq<Image>>): (dict: map<Direction, Cycle>)
    requires SheetShaped(frames)
    ensures forall d: Direction :: d in dict && dict[d] == WalkCycle(frames, Row(d))
    ensures Complete(dict)
  {
    assert forall d: Direction :: d in Order by {
      forall d: Direction ensures d in Order {
        assert Order[Row(d)] == d;
      }
    }
    map d: Direction | d in Order :: WalkCycle(frames, Row(d))
  }

  /** `make_frame_dict`: the walk cycle of every direction, from the sheet row of that direction. */
  method MakeFrameDict(frames: seq<seq<Image>>) returns (dict: map<Direction, Cycle>)
    requires SheetShaped(frames)
    ensures Complete(dict)
    ensures forall d: Direction :: d in dict && dict[d] == WalkCycle(frames, Row(d))
    ensures dict == FrameDict(frames)
  {
    dict := map[];
    for k := 0 to |Order|
      invariant forall j :: 0 <= j < k ==> Order[j] in dict && dict[Order[j]] == WalkCycle(frames, j)
    {
      dict := dict[Order[k] := WalkCycle(frames, k)];
    }
    forall d: Direction ensures d in dict && dict[d] == WalkCycle(frames, Row(d)) {
      assert Order[Row(d)] == d;
    }
  }
}
