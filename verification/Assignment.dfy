/** The linear assignment problem: what the tracker is promised by its solver, and what follows from it. */
module Assignment {
  import opened Seqs

  type Matrix = seq<seq<real>>

  datatype Cell = Cell(row: nat, col: nat)

  type Pairing = seq<Cell>

  function Smaller(n: nat, m: nat): nat { if n <= m then n else m }

  predicate Rectangular(cost: Matrix, n: nat, m: nat) {
    |cost| == n && forall i | 0 <= i < n :: |cost[i]| == m
  }

  predicate Within(p: Pairing, n: nat, m: nat) {
    forall k | 0 <= k < |p| :: p[k].row < n && p[k].col < m
  }

  /** No row and no column is used twice. */
  predicate OneToOne(p: Pairing) {
    forall k, l | 0 <= k < l < |p| :: p[k].row != p[l].row && p[k].col != p[l].col
  }

  /** A maximal one-to-one choice of cells. */
  predicate IsPairing(p: Pairing, n: nat, m: nat) {
    |p| == Smaller(n, m) && Within(p, n, m) && OneToOne(p)
  }

  function Total(cost: Matrix, n: nat, m: nat, p: Pairing): real
    requires Rectangular(cost, n, m) && Within(p, n, m)
  {
    if p == [] then 0.0
    else
      var last := p[|p| - 1];
      Total(cost, n, m, p[..|p| - 1]) + cost[last.row][last.col]
  }

  /** `p` is a cheapest maximal choice. */
  ghost predicate IsOptimal(cost: Matrix, n: nat, m: nat, p: Pairing)
    requires Rectangular(cost, n, m)
  {
    IsPairing(p, n, m)
    && forall q: Pairing | IsPairing(q, n, m) :: Total(cost, n, m, p) <= Total(cost, n, m, q)
  }

  /** The contract of the library routine that the tracker calls. */
  ghost predicate Solves(solve: Matrix -> Pairing) {
    forall cost: Matrix, n: nat, m: nat | 0 < n && 0 < m && Rectangular(cost, n, m) ::
      IsOptimal(cost, n, m, solve(cost))
  }

  /** A solver is any deterministic function of the cost matrix that meets the contract; which of
      several cheapest assignments it returns is its own business. */
  type Solver = solve: Matrix -> Pairing | Solves(solve) ghost witness ReferenceSolver()

  // ----- an optimal assignment always exists -----

  ghost function Cells(n: nat, m: nat): set<Cell> {
    set i: nat, j: nat | i < n && j < m :: Cell(i, j)
  }

  ghost function Lists(n: nat, m: nat, len: nat): set<Pairing> {
    if len == 0 then {[]}
    else set p, c | p in Lists(n, m, len - 1) && c in Cells(n, m) :: p + [c]
  }

  lemma {:induction false} ListsComplete(p: Pairing, n: nat, m: nat)
    requires Within(p, n, m)
    ensures p in Lists(n, m, |p|)
  {
    if |p| == 0 {
    } else {
      var init, last := p[..|p| - 1], p[|p| - 1];
      ListsComplete(init, n, m);
      assert last in Cells(n, m);
      assert init + [last] == p;
    }
  }

  lemma {:induction false} CheapestExists(cost: Matrix, n: nat, m: nat, candidates: set<Pairing>)
    returns (best: Pairing)
    requires Rectangular(cost, n, m)
    requires candidates != {} && forall p | p in candidates :: Within(p, n, m)
    ensures best in candidates
    ensures forall p | p in candidates :: Total(cost, n, m, best) <= Total(cost, n, m, p)
    decreases |candidates|
  {
    var p :| p in candidates;
    if candidates == {p} {
      best := p;
    } else {
      var rest := candidates - {p};
      var b := CheapestExists(cost, n, m, rest);
      best := if Total(cost, n, m, p) <= Total(cost, n, m, b) then p else b;
      assert candidates == rest + {p};
    }
  }

  lemma OptimumExists(cost: Matrix, n: nat, m: nat) returns (best: Pairing)
    requires Rectangular(cost, n, m)
    ensures IsOptimal(cost, n, m, best)
  {
    var k := Smaller(n, m);
    var diagonal: Pairing := seq(k, i requires 0 <= i < k => Cell(i, i));
    assert IsPairing(diagonal, n, m);
    ListsComplete(diagonal, n, m);
    var candidates := set p | p in Lists(n, m, k) && IsPairing(p, n, m);
    assert diagonal in candidates;
    best := CheapestExists(cost, n, m, candidates);
    forall q: Pairing | IsPairing(q, n, m)
      ensures Total(cost, n, m, best) <= Total(cost, n, m, q)
    {
      ListsComplete(q, n, m);
      assert q in candidates;
    }
  }

  ghost function Columns(cost: Matrix): nat { if cost == [] then 0 else |cost[0]| }

  ghost function Reference(cost: Matrix): Pairing {
    if Rectangular(cost, |cost|, Columns(cost)) then
      assert exists p :: IsOptimal(cost, |cost|, Columns(cost), p) by {
        var p := OptimumExists(cost, |cost|, Columns(cost));
      }
      var p :| IsOptimal(cost, |cost|, Columns(cost), p);
      p
    else []
  }

  /** The contract is satisfiable: some function meets it on every matrix. */
  lemma ReferenceSolves()
    ensures Solves(c => Reference(c))
  {
    var solve: Matrix -> Pairing := c => Reference(c);
    forall cost: Matrix, n: nat, m: nat | 0 < n && 0 < m && Rectangular(cost, n, m)
      ensures IsOptimal(cost, n, m, solve(cost))
    {
      assert |cost[0]| == m;
    }
  }

  ghost function ReferenceSolver(): (solve: Matrix -> Pairing)
    ensures Solves(solve)
  {
    ReferenceSolves();
    c => Reference(c)
  }

  // ----- exchange arguments -----

  lemma {:induction false} TotalReplace(cost: Matrix, n: nat, m: nat, p: Pairing, k: nat, c: Cell)
    requires Rectangular(cost, n, m) && Within(p, n, m) && k < |p| && c.row < n && c.col < m
    ensures Within(p[k := c], n, m)
    ensures Total(cost, n, m, p[k := c])
         == Total(cost, n, m, p) - cost[p[k].row][p[k].col] + cost[c.row][c.col]
  {
    var q, last := p[k := c], |p| - 1;
    if k < last {
      assert q[..last] == p[..last][k := c];
      TotalReplace(cost, n, m, p[..last], k, c);
    } else {
      assert q[..last] == p[..last];
    }
  }

  /** Moving one pair of a cheapest assignment to a free row or column cannot pay. */
  lemma Reassign(cost: Matrix, n: nat, m: nat, p: Pairing, k: nat, c: Cell)
    requires Rectangular(cost, n, m) && IsOptimal(cost, n, m, p)
    requires k < |p| && c.row < n && c.col < m
    requires forall l | 0 <= l < |p| && l != k :: p[l].row != c.row && p[l].col != c.col
    ensures cost[p[k].row][p[k].col] <= cost[c.row][c.col]
  {
    TotalReplace(cost, n, m, p, k, c);
    assert IsPairing(p[k := c], n, m);
  }

  lemma SwappedPairing(p: Pairing, n: nat, m: nat, k: nat, l: nat)
    requires IsPairing(p, n, m) && k < |p| && l < |p| && k != l
    ensures IsPairing(p[k := Cell(p[k].row, p[l].col)][l := Cell(p[l].row, p[k].col)], n, m)
  {
  }

  /** Swapping the columns of two pairs of a cheapest assignment cannot pay. */
  lemma Swap(cost: Matrix, n: nat, m: nat, p: Pairing, k: nat, l: nat)
    requires Rectangular(cost, n, m) && IsOptimal(cost, n, m, p)
    requires k < |p| && l < |p| && k != l
    ensures cost[p[k].row][p[k].col] + cost[p[l].row][p[l].col]
         <= cost[p[k].row][p[l].col] + cost[p[l].row][p[k].col]
  {
    var c, d := Cell(p[k].row, p[l].col), Cell(p[l].row, p[k].col);
    var q := p[k := c];
    TotalReplace(cost, n, m, p, k, c);
    TotalReplace(cost, n, m, q, l, d);
    SwappedPairing(p, n, m, k, l);
  }

  predicate UsesRow(p: Pairing, r: nat) { exists k :: 0 <= k < |p| && p[k].row == r }

  predicate UsesCol(p: Pairing, c: nat) { exists k :: 0 <= k < |p| && p[k].col == c }

  /** A maximal choice leaves no free row beside a free column. */
  lemma NoFreeCell(p: Pairing, n: nat, m: nat, r: nat, c: nat)
    requires IsPairing(p, n, m) && r < n && c < m
    ensures UsesRow(p, r) || UsesCol(p, c)
  {
    var rows := seq(|p|, k requires 0 <= k < |p| => p[k].row);
    var cols := seq(|p|, k requires 0 <= k < |p| => p[k].col);
    PigeonHole(rows, n);
    PigeonHole(cols, m);
    if n <= m {
      assert r in rows;
    } else {
      assert c in cols;
    }
  }

  /** The cost a cell would have to beat: the pairs of a cheapest assignment that occupy its row and
      its column bound it from below (four-cell exchange; two-cell when one side is free). */
  lemma ExchangeBound(cost: Matrix, n: nat, m: nat, p: Pairing, c: Cell, low: real, high: real)
    requires Rectangular(cost, n, m) && IsOptimal(cost, n, m, p) && c.row < n && c.col < m
    requires forall k | 0 <= k < |p| && (p[k].row == c.row || p[k].col == c.col) ::
               cost[p[k].row][p[k].col] > low
    requires forall i, j | 0 <= i < n && 0 <= j < m :: cost[i][j] <= high
    ensures UsesRow(p, c.row) && UsesCol(p, c.col) && c !in p ==> cost[c.row][c.col] > low + low - high
    ensures !(UsesRow(p, c.row) && UsesCol(p, c.col)) || c in p ==> cost[c.row][c.col] > low
  {
    NoFreeCell(p, n, m, c.row, c.col);
    if c in p {
      var k :| 0 <= k < |p| && p[k] == c;
    } else if UsesRow(p, c.row) && UsesCol(p, c.col) {
      var k :| 0 <= k < |p| && p[k].row == c.row;
      var l :| 0 <= l < |p| && p[l].col == c.col;
      Swap(cost, n, m, p, k, l);
    } else if UsesRow(p, c.row) {
      var k :| 0 <= k < |p| && p[k].row == c.row;
      Reassign(cost, n, m, p, k, c);
    } else {
      var k :| 0 <= k < |p| && p[k].col == c.col;
      Reassign(cost, n, m, p, k, c);
    }
  }

  /** A cell cheaper than the constant price of the rest of its row and column is always chosen. */
  lemma IsolatedCellChosen(cost: Matrix, n: nat, m: nat, p: Pairing, c: Cell, high: real)
    requires Rectangular(cost, n, m) && IsOptimal(cost, n, m, p) && c.row < n && c.col < m
    requires forall i, j | 0 <= i < n && 0 <= j < m :: cost[i][j] <= high
    requires forall j | 0 <= j < m && j != c.col :: cost[c.row][j] == high
    requires forall i | 0 <= i < n && i != c.row :: cost[i][c.col] == high
    requires cost[c.row][c.col] < high
    ensures c in p
  {
    if c !in p {
      var low := (cost[c.row][c.col] + high) / 2.0;
      ExchangeBound(cost, n, m, p, c, low, high);
      assert false;
    }
  }
}
