/** What an assignment that is gated only afterwards can leave unmatched: exactly which overlaps, and when none at or
    above the threshold. */
module Leftovers {
  import opened Geometry
  import opened Assignment
  import opened Scene
  import opened Tracking
  import opened Pipeline

  // ----- the bound -----

  lemma CostRange(tracks: seq<Trajectory>, dets: seq<Detection>, cost: Matrix)
    requires cost == CostMatrix(tracks, dets)
    ensures forall i, j | 0 <= i < |tracks| && 0 <= j < |dets| :: cost[i][j] <= 1.0
  {
    hide Iou;
    forall i, j | 0 <= i < |tracks| && 0 <= j < |dets|
      ensures cost[i][j] <= 1.0
    {
      IouRange(tracks[i].Predicted(), dets[j].bbox);
    }
  }

  lemma CostAt(tracks: seq<Trajectory>, dets: seq<Detection>, i: nat, j: nat)
    requires i < |tracks| && j < |dets|
    ensures CostMatrix(tracks, dets)[i][j] == 1.0 - Iou(tracks[i].Predicted(), dets[j].bbox)
  {
  }

  /** Pairs of the assignment that touch an unmatched track or an unmatched detection failed the gate. */
  lemma GateFailed(settings: Settings, solve: Solver, tracks: seq<Trajectory>, dets: seq<Detection>, i: nat, j: nat)
    requires i < |tracks| && j < |dets|
    requires var kept := Matching(settings, solve, tracks, dets); i !in kept && j !in kept.Values
    ensures var cost := CostMatrix(tracks, dets);
            var pairs := solve(cost);
            IsOptimal(cost, |tracks|, |dets|, pairs)
            && forall k | 0 <= k < |pairs| && (pairs[k].row == i || pairs[k].col == j) ::
                 cost[pairs[k].row][pairs[k].col] > 1.0 - settings.trackerIouThreshold
  {
    var cost := CostMatrix(tracks, dets);
    var pairs := solve(cost);
    hide CostMatrix, Gated;
    assert IsOptimal(cost, |tracks|, |dets|, pairs);
    var kept := Matching(settings, solve, tracks, dets);
    forall k | 0 <= k < |pairs| && (pairs[k].row == i || pairs[k].col == j)
      ensures cost[pairs[k].row][pairs[k].col] > 1.0 - settings.trackerIouThreshold
    {
      if cost[pairs[k].row][pairs[k].col] <= 1.0 - settings.trackerIouThreshold {
        GateKeeps(cost, |tracks|, |dets|, 1.0 - settings.trackerIouThreshold, pairs, k);
      }
    }
  }

  /** A track and a detection that are both left over overlap by less than twice the threshold, and by less than the
      threshold itself when one of them was outside the assignment or they were assigned to each other. */
  lemma LeftoverBound(settings: Settings, solve: Solver, tracks: seq<Trajectory>, dets: seq<Detection>, i: nat, j: nat)
    requires i < |tracks| && j < |dets| && settings.trackerIouThreshold > 0.0
    requires var kept := Matching(settings, solve, tracks, dets); i !in kept && j !in kept.Values
    ensures Iou(tracks[i].Predicted(), dets[j].bbox) < 2.0 * settings.trackerIouThreshold
    ensures var pairs := solve(CostMatrix(tracks, dets));
            !UsesRow(pairs, i) || !UsesCol(pairs, j) || Cell(i, j) in pairs
            ==> Iou(tracks[i].Predicted(), dets[j].bbox) < settings.trackerIouThreshold
  {
    hide CostMatrix, Matching, Iou;
    var cost := CostMatrix(tracks, dets);
    GateFailed(settings, solve, tracks, dets, i, j);
    CostRange(tracks, dets, cost);
    CostAt(tracks, dets, i, j);
    ExchangeBound(cost, |tracks|, |dets|, solve(cost), Cell(i, j), 1.0 - settings.trackerIouThreshold, 1.0);
  }

  /** The cost gate of a threshold of zero or less lets every pair pass, so nothing is left over on both sides. */
  lemma NothingLeftOver(settings: Settings, solve: Solver, tracks: seq<Trajectory>, dets: seq<Detection>, i: nat, j: nat)
    requires i < |tracks| && j < |dets| && settings.trackerIouThreshold <= 0.0
    ensures var kept := Matching(settings, solve, tracks, dets); i in kept || j in kept.Values
  {
    hide CostMatrix, Matching, Iou;
    var kept := Matching(settings, solve, tracks, dets);
    if i !in kept && j !in kept.Values {
      var cost := CostMatrix(tracks, dets);
      GateFailed(settings, solve, tracks, dets, i, j);
      CostRange(tracks, dets, cost);
      NoFreeCell(solve(cost), |tracks|, |dets|, i, j);
      assert false;
    }
  }

  /** A threshold above 1 lets no pair pass. */
  lemma NothingMatches(settings: Settings, solve: Solver, tracks: seq<Trajectory>, dets: seq<Detection>)
    requires settings.trackerIouThreshold > 1.0
    ensures Matching(settings, solve, tracks, dets) == map[]
  {
    hide Iou, Gated;
    if tracks != [] && dets != [] {
      var cost := CostMatrix(tracks, dets);
      forall i, j | 0 <= i < |tracks| && 0 <= j < |dets|
        ensures cost[i][j] >= 0.0
      {
        IouRange(tracks[i].Predicted(), dets[j].bbox);
      }
      assert IsOptimal(cost, |tracks|, |dets|, solve(cost));
      assert forall r | r in Matching(settings, solve, tracks, dets) :: false;
    }
  }

  // ----- overlaps that can be left over in a run -----

  /** After `frames`, the detections `dets` leave track `i` and detection `j` over, and these overlap by `x`. */
  ghost predicate LeftAt(env: Env, frames: seq<seq<Detection>>, dets: seq<Detection>, i: nat, j: nat, x: real) {
    var tracks := Run(env, frames).tracker.tracks;
    && i < |tracks| && j < |dets|
    && var kept := Matching(env.settings, env.solve, tracks, dets);
       i !in kept && j !in kept.Values && Iou(tracks[i].Predicted(), dets[j].bbox) == x
  }

  ghost predicate CanLeave(env: Env, x: real) { exists frames, dets, i, j :: LeftAt(env, frames, dets, i, j, x) }

  /** Box of unit height over the interval [a, b]. */
  function Strip(a: real, b: real): Box { Box(a, 0.0, b, 1.0) }

  lemma StripIou(a: real, b: real, c: real, d: real)
    requires a < b && c < d
    ensures Max(a, c) >= Min(b, d) ==> Iou(Strip(a, b), Strip(c, d)) == 0.0
    ensures Max(a, c) < Min(b, d) ==>
              b - a + (d - c) - (Min(b, d) - Max(a, c)) > 0.0
              && Iou(Strip(a, b), Strip(c, d)) == (Min(b, d) - Max(a, c)) / (b - a + (d - c) - (Min(b, d) - Max(a, c)))
  {
    assert Strip(a, b).Area() == b - a && Strip(c, d).Area() == d - c;
    assert Inter(Strip(a, b), Strip(c, d)) == Max(0.0, Min(b, d) - Max(a, c));
  }

  function Shown(b: Box): Detection { Detection(b, 0.9) }

  /** Two boxes in the first frame ... */
  function Before(s: real, y: real): seq<Detection> { [Shown(Strip(0.0, 1.0)), Shown(Strip(1.0 + s - y, 1.0 + s))] }

  /** ... and two in the next: the first one moved by `s`, and a part of it where it was. */
  function Now(s: real, y: real): seq<Detection> { [Shown(Strip(s, 1.0 + s)), Shown(Strip(0.0, y))] }

  /** The overlaps: the moved box keeps (1 - s)/(1 + s), the two parts cover `y` each of a box they belong to. */
  lemma StripOverlaps(s: real, y: real)
    requires 0.0 <= s <= 1.0 && 0.0 < y <= 0.5
    ensures Iou(Strip(0.0, 1.0), Strip(s, 1.0 + s)) == (1.0 - s) / (1.0 + s)
    ensures Iou(Strip(0.0, 1.0), Strip(0.0, y)) == y
    ensures Iou(Strip(1.0 + s - y, 1.0 + s), Strip(s, 1.0 + s)) == y
    ensures Iou(Strip(1.0 + s - y, 1.0 + s), Strip(0.0, y)) == 0.0
  {
    hide Iou;
    StripIou(0.0, 1.0, s, 1.0 + s);
    StripIou(0.0, 1.0, 0.0, y);
    StripIou(1.0 + s - y, 1.0 + s, s, 1.0 + s);
    StripIou(1.0 + s - y, 1.0 + s, 0.0, y);
  }

  /** The costs of the strips, when the moved box keeps `x` of its overlap. */
  function StripMatrix(x: real, y: real): (cost: Matrix)
    ensures Rectangular(cost, 2, 2)
  {
    [[1.0 - x, 1.0 - y], [1.0 - y, 1.0]]
  }

  lemma StripCosts(tracks: seq<Trajectory>, s: real, y: real)
    requires tracks == Newborn(Before(s, y)) && 0.0 <= s <= 1.0 && 0.0 < y <= 0.5
    ensures CostMatrix(tracks, Now(s, y)) == StripMatrix((1.0 - s) / (1.0 + s), y)
    ensures Iou(tracks[0].Predicted(), Now(s, y)[0].bbox) == (1.0 - s) / (1.0 + s)
  {
    hide Iou;
    StripOverlaps(s, y);
    assert tracks[0].Predicted() == Strip(0.0, 1.0) && tracks[1].Predicted() == Strip(1.0 + s - y, 1.0 + s);
    assert CostRow(tracks[0].Predicted(), Now(s, y)) == [1.0 - (1.0 - s) / (1.0 + s), 1.0 - y];
    assert CostRow(tracks[1].Predicted(), Now(s, y)) == [1.0 - y, 1.0];
  }

  /** When both assigned pairs fail the gate, nothing is matched. */
  lemma BothFail(cost: Matrix, pairs: Pairing, limit: real)
    requires Rectangular(cost, 2, 2) && Within(pairs, 2, 2) && |pairs| == 2
    requires cost[pairs[0].row][pairs[0].col] > limit && cost[pairs[1].row][pairs[1].col] > limit
    ensures Gated(cost, 2, 2, limit, pairs) == map[]
  {
    assert pairs[..1] == [pairs[0]];
    assert Gated(cost, 2, 2, limit, pairs[..1]) == map[] by {
      assert pairs[..1][..0] == [];
    }
  }

  /** Whatever cheapest assignment the solver picks: the crosswise pairs beat the direct ones and fail the gate. */
  lemma CrosswiseWins(cost: Matrix, pairs: Pairing, limit: real, x: real, y: real)
    requires IsPairing(pairs, 2, 2) && cost == StripMatrix(x, y) && IsOptimal(cost, 2, 2, pairs)
    requires x < 2.0 * y && limit < 1.0 - y
    ensures Gated(cost, 2, 2, limit, pairs) == map[]
  {
    Swap(cost, 2, 2, pairs, 0, 1);
    assert pairs[0].col != pairs[1].col && pairs[0].row != pairs[1].row;
    assert cost[pairs[0].row][pairs[0].col] == 1.0 - y == cost[pairs[1].row][pairs[1].col];
    BothFail(cost, pairs, limit);
  }

  lemma ShiftFor(x: real) returns (s: real)
    requires 0.0 <= x < 1.0
    ensures 0.0 < s <= 1.0 && (1.0 - s) / (1.0 + s) == x
  {
    s := (1.0 - x) / (1.0 + x);
    DivBounds(1.0 - x, 1.0 + x);
    assert s * (1.0 + x) == 1.0 - x;
    assert (1.0 + s) * x == 1.0 - s;
  }

  /** If the solver's choice for the strips fails the gate altogether, the moved box is left over. */
  lemma StripsLeft(env: Env, s: real, y: real, x: real)
    requires 0.0 <= s <= 1.0 && 0.0 < y <= 0.5 && x == (1.0 - s) / (1.0 + s)
    requires Within(env.solve(StripMatrix(x, y)), 2, 2)
    requires Gated(StripMatrix(x, y), 2, 2, 1.0 - env.settings.trackerIouThreshold, env.solve(StripMatrix(x, y))) == map[]
    ensures CanLeave(env, x)
  {
    hide Iou, CostMatrix, Gated, Run, Before, Now;
    var tracks, dets := Run(env, [Before(s, y)]).tracker.tracks, Now(s, y);
    FirstFrame(env, Before(s, y));
    StripCosts(tracks, s, y);
    TwoAndTwo(s, y);
    assert LeftAt(env, [Before(s, y)], dets, 0, 0, x);
  }

  /** For every solver, every overlap below 1 and below twice the threshold is left over by some run of two frames. */
  lemma CanLeaveBelow(env: Env, x: real)
    requires 0.0 <= x < 1.0 && x < 2.0 * env.settings.trackerIouThreshold
    ensures CanLeave(env, x)
  {
    hide Gated, CanLeave;
    var t := env.settings.trackerIouThreshold;
    var y := if t > 0.5 then 0.5 else (x / 2.0 + t) / 2.0;
    var s := ShiftFor(x);
    var cost := StripMatrix(x, y);
    assert IsOptimal(cost, 2, 2, env.solve(cost));
    CrosswiseWins(cost, env.solve(cost), 1.0 - t, x, y);
    StripsLeft(env, s, y, x);
  }

  lemma TwoAndTwo(s: real, y: real)
    ensures |Before(s, y)| == 2 && |Now(s, y)| == 2
  {
  }

  /** Above threshold 1 even a box that did not move is left over, by every solver. */
  lemma UnreachableLeavesAll(env: Env)
    requires env.settings.trackerIouThreshold > 1.0
    ensures CanLeave(env, 1.0)
  {
    hide Iou, Matching, Run;
    var d := Shown(Strip(0.0, 1.0));
    FirstFrame(env, [d]);
    NothingMatches(env.settings, env.solve, Newborn([d]), [d]);
    IouOneIff(d.bbox, d.bbox);
    assert Newborn([d])[0].Predicted() == d.bbox;
    assert LeftAt(env, [[d]], [d], 0, 0, 1.0);
  }

  /** What can be left over, exactly. Up to a threshold of one half it is everything below twice the threshold; above,
      it is everything below 1, and above threshold 1 also 1 itself. */
  lemma LeftoverRange(env: Env, x: real)
    ensures var t := env.settings.trackerIouThreshold;
            && (t <= 0.0 ==> !CanLeave(env, x))
            && (0.0 < t <= 0.5 ==> (CanLeave(env, x) <==> 0.0 <= x < 2.0 * t))
            && (0.5 < t <= 1.0 && x != 1.0 ==> (CanLeave(env, x) <==> 0.0 <= x < 1.0))
            && (t > 1.0 ==> (CanLeave(env, x) <==> 0.0 <= x <= 1.0))
  {
    hide Iou, Matching, Run;
    var t := env.settings.trackerIouThreshold;
    if CanLeave(env, x) {
      var frames: seq<seq<Detection>>, dets: seq<Detection>, i: nat, j: nat :| LeftAt(env, frames, dets, i, j, x);
      var tracks := Run(env, frames).tracker.tracks;
      IouRange(tracks[i].Predicted(), dets[j].bbox);
      if t <= 0.0 {
        NothingLeftOver(env.settings, env.solve, tracks, dets, i, j);
      } else {
        LeftoverBound(env.settings, env.solve, tracks, dets, i, j);
      }
    } else if 0.0 <= x < 1.0 && x < 2.0 * t {
      CanLeaveBelow(env, x);
    } else if t > 1.0 && x == 1.0 {
      UnreachableLeavesAll(env);
    }
  }

  // ----- when is nothing left over that should have been matched -----

  /** No run leaves over a pair at or above the threshold. */
  ghost predicate KeepsThreshold(env: Env) {
    forall x: real :: CanLeave(env, x) ==> x < env.settings.trackerIouThreshold
  }

  function WithSolver(env: Env, solve: Solver): Env { env.(solve := solve) }

  function Tied(): Matrix { [[0.0, 0.5], [0.5, 1.0]] }

  lemma TiedTotals(p: Pairing)
    requires IsPairing(p, 2, 2)
    ensures Total(Tied(), 2, 2, p) == 1.0
  {
    assert p[..2] == p && p[..1][..0] == [] && p[..1] == [p[0]];
    assert Total(Tied(), 2, 2, p[..1]) == Tied()[p[0].row][p[0].col];
  }

  function Crosswise(): Pairing { [Cell(0, 1), Cell(1, 0)] }

  /** A cheapest assignment on every matrix, and the crosswise one on a matrix where both cost the same. */
  ghost function TieBreaker(): (solve: Matrix -> Pairing)
    ensures Solves(solve) && solve(Tied()) == Crosswise()
  {
    var reference := ReferenceSolver();
    var solve: Matrix -> Pairing := c => if c == Tied() then Crosswise() else reference(c);
    assert Solves(solve) by { TieBreakerSolves(reference, solve); }
    solve
  }

  lemma TieBreakerSolves(reference: Matrix -> Pairing, solve: Matrix -> Pairing)
    requires Solves(reference) && forall c :: solve(c) == if c == Tied() then Crosswise() else reference(c)
    ensures Solves(solve)
  {
    forall cost: Matrix, n: nat, m: nat | 0 < n && 0 < m && Rectangular(cost, n, m)
      ensures IsOptimal(cost, n, m, solve(cost))
    {
      if cost == Tied() {
        assert n == 2 && |cost[0]| == 2 == m;
        forall q: Pairing | IsPairing(q, 2, 2)
          ensures Total(cost, 2, 2, Crosswise()) <= Total(cost, 2, 2, q)
        {
          TiedTotals(q);
          TiedTotals(Crosswise());
        }
      }
    }
  }

  /** Above one half a tie can be broken against a box that did not move at all. */
  lemma TieLeavesAll(env: Env)
    requires env.settings.trackerIouThreshold > 0.5
    ensures CanLeave(WithSolver(env, TieBreaker()), 1.0)
  {
    hide CanLeave, Gated;
    TieCosts();
    BothFail(Tied(), Crosswise(), 1.0 - env.settings.trackerIouThreshold);
    StripsLeft(WithSolver(env, TieBreaker()), 0.0, 0.5, 1.0);
  }

  /** A box that did not move at all is left over by some solver exactly for thresholds above one half. */
  lemma FullOverlapIff(env: Env)
    ensures (exists solve: Solver :: CanLeave(WithSolver(env, solve), 1.0)) <==> env.settings.trackerIouThreshold > 0.5
  {
    hide CanLeave;
    if env.settings.trackerIouThreshold > 0.5 {
      TieLeavesAll(env);
    } else {
      forall solve: Solver
        ensures !CanLeave(WithSolver(env, solve), 1.0)
      {
        LeftoverRange(WithSolver(env, solve), 1.0);
      }
    }
  }

  lemma TieCosts()
    ensures StripMatrix(1.0, 0.5) == Tied() && (1.0 - 0.0) / (1.0 + 0.0) == 1.0
    ensures Tied()[0][1] == 0.5 == Tied()[1][0]
  {
  }

  /** No run leaves over a pair at or above the threshold: for thresholds that everything or nothing reaches, with any
      solver; for thresholds between 0 and 1, with no solver; at 1, that is for the solver's ties to say. */
  lemma ThresholdKept(env: Env)
    ensures var t := env.settings.trackerIouThreshold;
            && (t <= 0.0 || t > 1.0 ==> KeepsThreshold(env))
            && (0.0 < t < 1.0 ==> !KeepsThreshold(env))
  {
    hide CanLeave;
    var t := env.settings.trackerIouThreshold;
    forall x: real
      ensures t <= 0.0 || t > 1.0 ==> (CanLeave(env, x) ==> x < t)
    {
      LeftoverRange(env, x);
    }
    if 0.0 < t < 1.0 {
      LeftoverRange(env, t);
      assert CanLeave(env, t);
    }
  }

  lemma ThresholdKeptIff(env: Env)
    ensures (forall solve: Solver :: KeepsThreshold(WithSolver(env, solve)))
       <==> env.settings.trackerIouThreshold <= 0.0 || env.settings.trackerIouThreshold > 1.0
  {
    hide KeepsThreshold;
    forall solve: Solver
      ensures var t := env.settings.trackerIouThreshold;
              && (t <= 0.0 || t > 1.0 ==> KeepsThreshold(WithSolver(env, solve)))
              && (0.0 < t < 1.0 ==> !KeepsThreshold(WithSolver(env, solve)))
    {
      ThresholdKept(WithSolver(env, solve));
    }
    if 0.0 < env.settings.trackerIouThreshold < 1.0 {
      assert !KeepsThreshold(WithSolver(env, env.solve));
    } else if env.settings.trackerIouThreshold == 1.0 {
      TieLeavesAll(env);
      NotKept(WithSolver(env, TieBreaker()), 1.0);
    }
  }

  lemma NotKept(env: Env, x: real)
    requires CanLeave(env, x) && x >= env.settings.trackerIouThreshold
    ensures !KeepsThreshold(env)
  {
  }
}
