/**
 * One round of matching (`Matching` in fast_stream_22/matching/match.py):
 * the grid of pair scores for the round's candidates against its roles,
 * the rejection of roles nobody can take, the conversion of scores to
 * costs for the assignment solver, and the conversion of the solver's
 * index pairs back to uids. The solver itself (Munkres) is a parameter
 * whose only promise is `SolverSound`.
 */
module MatchRound {
  import opened Models
  import opened Wrappers
  import opened PairRules
  import opened Scoring
  import opened Evaluators
  import opened Seqs

  /** A grid cell: `DISALLOWED` or a score. */
  datatype Cell = Disallowed | Score(value: int)

  /** What `score_or_disqualify` returns for an evaluator in state `e` after `score_pair`. */
  function CellOf(e: Eval): (cell: Cell)
    ensures cell.Disallowed? <==> e.disqualified
  {
    if e.disqualified then Disallowed else Score(e.score)
  }

  predicate AllReady(sp: Specialism, cs: seq<Candidate>, rs: seq<Role>)
  {
    forall i, j :: 0 <= i < |cs| && 0 <= j < |rs| ==> Ready(sp, cs[i], rs[j])
  }

  /** One candidate's row of the grid can be evaluated. */
  predicate RowReady(sp: Specialism, c: Candidate, rs: seq<Role>)
  {
    forall j :: 0 <= j < |rs| ==> Ready(sp, c, rs[j])
  }

  // ---------------------------------------------------------------
  // The score grid, built candidate by candidate and role by role,
  // each evaluation seeing the shared weights the previous one left
  // ---------------------------------------------------------------

  function RowUpTo(sp: Specialism, order: seq<Rule>, c: Candidate, rs: seq<Role>, w: Weights, m: nat)
    : (seq<Cell>, Weights)
    requires m <= |rs|
    requires RowReady(sp, c, rs)
  {
    if m == 0 then ([], w)
    else
      var (row, w1) := RowUpTo(sp, order, c, rs, w, m - 1);
      var (e, w2) := Evaluate(sp, order, w1, c, rs[m - 1]);
      (row + [CellOf(e)], w2)
  }

  function GridUpTo(sp: Specialism, order: seq<Rule>, cs: seq<Candidate>, rs: seq<Role>, w: Weights, n: nat)
    : (seq<seq<Cell>>, Weights)
    requires n <= |cs|
    requires AllReady(sp, cs, rs)
  {
    if n == 0 then ([], w)
    else
      var (grid, w1) := GridUpTo(sp, order, cs, rs, w, n - 1);
      var (row, w2) := RowUpTo(sp, order, cs[n - 1], rs, w1, |rs|);
      (grid + [row], w2)
  }

  /** The `score_grid` of a round and the shared weights after it was built. */
  function Grid(sp: Specialism, order: seq<Rule>, cs: seq<Candidate>, rs: seq<Role>, w: Weights)
    : (seq<seq<Cell>>, Weights)
    requires AllReady(sp, cs, rs)
  {
    GridUpTo(sp, order, cs, rs, w, |cs|)
  }

  /** Each row holds one cell per role. */
  predicate Rectangular(grid: seq<seq<Cell>>, width: nat)
  {
    forall i :: 0 <= i < |grid| ==> |grid[i]| == width
  }

  /** The location weights differ from `w` by the same non-negative multiple of 10. */
  predicate BumpedFrom(w: Weights, w': Weights)
  {
    var k := w'.firstLocation - w.firstLocation;
    k >= 0 && k % HasRelocatedWeight == 0 && w'.secondLocation - w.secondLocation == k
  }

  lemma BumpedTransitive(w1: Weights, w2: Weights, w3: Weights)
    requires BumpedFrom(w1, w2) && BumpedFrom(w2, w3)
    ensures BumpedFrom(w1, w3)
  {
  }

  /** One evaluation raises the weights by 10 or leaves them, and leaves them when the candidate has not relocated. */
  lemma EvaluateBumps(sp: Specialism, order: seq<Rule>, w: Weights, c: Candidate, r: Role)
    requires Ready(sp, c, r)
    requires IsEnumeration(order, RuleSet(sp))
    ensures BumpedFrom(w, Evaluate(sp, order, w, c, r).1)
    ensures !c.hasRelocated ==> Evaluate(sp, order, w, c, r).1 == w
  {
    EvaluateSpec(sp, order, w, c, r);
  }

  lemma RowUnfold(sp: Specialism, order: seq<Rule>, c: Candidate, rs: seq<Role>, w: Weights, m: nat)
    requires 0 < m <= |rs|
    requires RowReady(sp, c, rs)
    ensures var w1 := RowUpTo(sp, order, c, rs, w, m - 1).1;
            var e := Evaluate(sp, order, w1, c, rs[m - 1]);
            RowUpTo(sp, order, c, rs, w, m) == (RowUpTo(sp, order, c, rs, w, m - 1).0 + [CellOf(e.0)], e.1)
  {
  }

  lemma GridUnfold(sp: Specialism, order: seq<Rule>, cs: seq<Candidate>, rs: seq<Role>, w: Weights, n: nat)
    requires 0 < n <= |cs|
    requires AllReady(sp, cs, rs)
    ensures RowReady(sp, cs[n - 1], rs)
    ensures var w1 := GridUpTo(sp, order, cs, rs, w, n - 1).1;
            var row := RowUpTo(sp, order, cs[n - 1], rs, w1, |rs|);
            GridUpTo(sp, order, cs, rs, w, n) == (GridUpTo(sp, order, cs, rs, w, n - 1).0 + [row.0], row.1)
  {
    assert RowReady(sp, cs[n - 1], rs);
  }

  /** A row has a cell per role and only raises the weights, in steps of 10. */
  lemma {:induction false} RowShape(sp: Specialism, order: seq<Rule>, c: Candidate, rs: seq<Role>, w: Weights, m: nat)
    requires m <= |rs|
    requires RowReady(sp, c, rs)
    requires IsEnumeration(order, RuleSet(sp))
    ensures |RowUpTo(sp, order, c, rs, w, m).0| == m
    ensures BumpedFrom(w, RowUpTo(sp, order, c, rs, w, m).1)
  {
    if m > 0 {
      RowShape(sp, order, c, rs, w, m - 1);
      RowUnfold(sp, order, c, rs, w, m);
      var w1 := RowUpTo(sp, order, c, rs, w, m - 1).1;
      EvaluateBumps(sp, order, w1, c, rs[m - 1]);
      BumpedTransitive(w, w1, Evaluate(sp, order, w1, c, rs[m - 1]).1);
    }
  }

  /** For a candidate who has not relocated, a row leaves the weights alone ... */
  lemma {:induction false} RowKeepsWeights(sp: Specialism, order: seq<Rule>, c: Candidate, rs: seq<Role>, w: Weights, m: nat)
    requires m <= |rs|
    requires RowReady(sp, c, rs)
    requires IsEnumeration(order, RuleSet(sp))
    requires !c.hasRelocated
    ensures RowUpTo(sp, order, c, rs, w, m).1 == w
  {
    if m > 0 {
      RowKeepsWeights(sp, order, c, rs, w, m - 1);
      RowUnfold(sp, order, c, rs, w, m);
      EvaluateBumps(sp, order, w, c, rs[m - 1]);
    }
  }

  /** ... and each of its cells is the verdict on that pair at the starting weights. */
  lemma {:induction false} RowCell(sp: Specialism, order: seq<Rule>, c: Candidate, rs: seq<Role>, w: Weights, m: nat, j: nat)
    requires j < m <= |rs|
    requires RowReady(sp, c, rs)
    requires IsEnumeration(order, RuleSet(sp))
    requires !c.hasRelocated
    ensures |RowUpTo(sp, order, c, rs, w, m).0| == m
    ensures RowUpTo(sp, order, c, rs, w, m).0[j] == CellOf(Evaluate(sp, order, w, c, rs[j]).0)
  {
    var row := RowUpTo(sp, order, c, rs, w, m - 1).0;
    var cell := CellOf(Evaluate(sp, order, w, c, rs[m - 1]).0);
    assert |row| == m - 1 by {
      RowShape(sp, order, c, rs, w, m - 1);
    }
    assert RowUpTo(sp, order, c, rs, w, m).0 == row + [cell] by {
      RowKeepsWeights(sp, order, c, rs, w, m - 1);
      RowUnfold(sp, order, c, rs, w, m);
    }
    SnocIndex(row, cell, j);
    if j < m - 1 {
      RowCell(sp, order, c, rs, w, m - 1, j);
    }
  }

  lemma RectangularSnoc(grid: seq<seq<Cell>>, row: seq<Cell>, width: nat)
    requires Rectangular(grid, width) && |row| == width
    ensures Rectangular(grid + [row], width)
  {
    assert forall i :: 0 <= i < |grid| ==> (grid + [row])[i] == grid[i];
  }

  /** The grid has a row per candidate, whatever the rules decide. */
  lemma {:induction false} GridLength(sp: Specialism, order: seq<Rule>, cs: seq<Candidate>, rs: seq<Role>, w: Weights, n: nat)
    requires n <= |cs|
    requires AllReady(sp, cs, rs)
    ensures |GridUpTo(sp, order, cs, rs, w, n).0| == n
  {
    if n > 0 {
      GridLength(sp, order, cs, rs, w, n - 1);
      GridUnfold(sp, order, cs, rs, w, n);
    }
  }

  /** The grid has a row per candidate and a cell per role, and building it only raises the shared weights, in steps of 10. */
  lemma {:induction false} GridShape(sp: Specialism, order: seq<Rule>, cs: seq<Candidate>, rs: seq<Role>, w: Weights, n: nat)
    requires n <= |cs|
    requires AllReady(sp, cs, rs)
    requires IsEnumeration(order, RuleSet(sp))
    ensures |GridUpTo(sp, order, cs, rs, w, n).0| == n
    ensures Rectangular(GridUpTo(sp, order, cs, rs, w, n).0, |rs|)
    ensures BumpedFrom(w, GridUpTo(sp, order, cs, rs, w, n).1)
  {
    GridLength(sp, order, cs, rs, w, n);
    if n > 0 {
      var grid := GridUpTo(sp, order, cs, rs, w, n - 1).0;
      var w1 := GridUpTo(sp, order, cs, rs, w, n - 1).1;
      assert RowReady(sp, cs[n - 1], rs) by {
        GridUnfold(sp, order, cs, rs, w, n);
      }
      var row := RowUpTo(sp, order, cs[n - 1], rs, w1, |rs|).0;
      var w2 := RowUpTo(sp, order, cs[n - 1], rs, w1, |rs|).1;
      assert GridUpTo(sp, order, cs, rs, w, n).0 == grid + [row] && GridUpTo(sp, order, cs, rs, w, n).1 == w2 by {
        GridUnfold(sp, order, cs, rs, w, n);
      }
      assert Rectangular(grid, |rs|) && BumpedFrom(w, w1) by {
        GridShape(sp, order, cs, rs, w, n - 1);
      }
      assert |row| == |rs| && BumpedFrom(w1, w2) by {
        RowShape(sp, order, cs[n - 1], rs, w1, |rs|);
      }
      RectangularSnoc(grid, row, |rs|);
      BumpedTransitive(w, w1, w2);
    }
  }

  predicate NoneRelocated(cs: seq<Candidate>)
  {
    forall i :: 0 <= i < |cs| ==> !cs[i].hasRelocated
  }

  /** When none of the candidates has relocated, building the grid leaves the weights alone ... */
  lemma {:induction false} GridKeepsWeights(sp: Specialism, order: seq<Rule>, cs: seq<Candidate>, rs: seq<Role>, w: Weights, n: nat)
    requires n <= |cs|
    requires AllReady(sp, cs, rs)
    requires IsEnumeration(order, RuleSet(sp))
    requires NoneRelocated(cs)
    ensures GridUpTo(sp, order, cs, rs, w, n).1 == w
  {
    if n > 0 {
      var w1 := GridUpTo(sp, order, cs, rs, w, n - 1).1;
      assert w1 == w by {
        GridKeepsWeights(sp, order, cs, rs, w, n - 1);
      }
      assert RowReady(sp, cs[n - 1], rs) && GridUpTo(sp, order, cs, rs, w, n).1 == RowUpTo(sp, order, cs[n - 1], rs, w1, |rs|).1 by {
        GridUnfold(sp, order, cs, rs, w, n);
      }
      RowKeepsWeights(sp, order, cs[n - 1], rs, w, |rs|);
    }
  }

  /** ... and every cell is the verdict on its pair at the starting weights. */
  lemma {:induction false} GridCell(sp: Specialism, order: seq<Rule>, cs: seq<Candidate>, rs: seq<Role>, w: Weights,
                                    n: nat, i: nat, j: nat)
    requires i < n <= |cs| && j < |rs|
    requires AllReady(sp, cs, rs)
    requires IsEnumeration(order, RuleSet(sp))
    requires NoneRelocated(cs)
    ensures |GridUpTo(sp, order, cs, rs, w, n).0| == n && |GridUpTo(sp, order, cs, rs, w, n).0[i]| == |rs|
    ensures GridUpTo(sp, order, cs, rs, w, n).0[i][j] == CellOf(Evaluate(sp, order, w, cs[i], rs[j]).0)
  {
    var grid := GridUpTo(sp, order, cs, rs, w, n - 1).0;
    assert |grid| == n - 1 by {
      GridShape(sp, order, cs, rs, w, n - 1);
    }
    assert RowReady(sp, cs[n - 1], rs) by {
      GridUnfold(sp, order, cs, rs, w, n);
    }
    var row := RowUpTo(sp, order, cs[n - 1], rs, w, |rs|).0;
    assert |row| == |rs| by {
      RowShape(sp, order, cs[n - 1], rs, w, |rs|);
    }
    assert GridUpTo(sp, order, cs, rs, w, n).0 == grid + [row] by {
      GridKeepsWeights(sp, order, cs, rs, w, n - 1);
      GridUnfold(sp, order, cs, rs, w, n);
    }
    SnocIndex(grid, row, i);
    if i < n - 1 {
      GridCell(sp, order, cs, rs, w, n - 1, i, j);
    } else {
      RowCell(sp, order, cs[n - 1], rs, w, |rs|, j);
    }
  }

  /**
   * So, when nobody has relocated, a cell of the grid is `DISALLOWED`
   * exactly when its pair is ineligible, and otherwise holds the pair's
   * score, whatever order the rules run in.
   */
  lemma GridVerdict(sp: Specialism, order: seq<Rule>, cs: seq<Candidate>, rs: seq<Role>, w: Weights, i: nat, j: nat)
    requires AllReady(sp, cs, rs)
    requires IsEnumeration(order, RuleSet(sp))
    requires NoneRelocated(cs)
    requires i < |cs| && j < |rs|
    ensures |Grid(sp, order, cs, rs, w).0| == |cs| && |Grid(sp, order, cs, rs, w).0[i]| == |rs|
    ensures Grid(sp, order, cs, rs, w).0[i][j] == Disallowed <==> Ineligible(sp, w, cs[i], rs[j])
    ensures Grid(sp, order, cs, rs, w).0[i][j] != Disallowed ==>
              Grid(sp, order, cs, rs, w).0[i][j].value
              == BaseScore(sp, w, cs[i], rs[j])
                 + (if sp == Generalist
                    then PreferenceBonus(cs[i].matchPreferences, EarnedRules(sp, w, cs[i], rs[j]))
                    else 0)
  {
    GridCell(sp, order, cs, rs, w, |cs|, i, j);
    EvaluateSpec(sp, order, w, cs[i], rs[j]);
  }

  /** A cell of a row is the verdict on its pair at the weights the cells to its left leave. */
  lemma {:induction false} RowCellAt(sp: Specialism, order: seq<Rule>, c: Candidate, rs: seq<Role>, w: Weights, m: nat, j: nat)
    requires j < m <= |rs|
    requires RowReady(sp, c, rs)
    requires IsEnumeration(order, RuleSet(sp))
    ensures |RowUpTo(sp, order, c, rs, w, m).0| == m
    ensures RowUpTo(sp, order, c, rs, w, m).0[j]
            == CellOf(Evaluate(sp, order, RowUpTo(sp, order, c, rs, w, j).1, c, rs[j]).0)
  {
    var row := RowUpTo(sp, order, c, rs, w, m - 1).0;
    var w1 := RowUpTo(sp, order, c, rs, w, m - 1).1;
    var cell := CellOf(Evaluate(sp, order, w1, c, rs[m - 1]).0);
    assert |row| == m - 1 by {
      RowShape(sp, order, c, rs, w, m - 1);
    }
    assert RowUpTo(sp, order, c, rs, w, m).0 == row + [cell] by {
      RowUnfold(sp, order, c, rs, w, m);
    }
    SnocIndex(row, cell, j);
    if j < m - 1 {
      RowCellAt(sp, order, c, rs, w, m - 1, j);
    }
  }

  /** Row `i` of the grid is candidate `i`'s row, built from the weights the rows above it leave. */
  lemma {:induction false} GridRowAt(sp: Specialism, order: seq<Rule>, cs: seq<Candidate>, rs: seq<Role>, w: Weights,
                                     n: nat, i: nat)
    requires i < n <= |cs|
    requires AllReady(sp, cs, rs)
    ensures RowReady(sp, cs[i], rs)
    ensures |GridUpTo(sp, order, cs, rs, w, n).0| == n
    ensures GridUpTo(sp, order, cs, rs, w, n).0[i]
            == RowUpTo(sp, order, cs[i], rs, GridUpTo(sp, order, cs, rs, w, i).1, |rs|).0
  {
    var grid := GridUpTo(sp, order, cs, rs, w, n - 1).0;
    assert |grid| == n - 1 by {
      GridLength(sp, order, cs, rs, w, n - 1);
    }
    assert RowReady(sp, cs[i], rs) && RowReady(sp, cs[n - 1], rs) by {
      GridUnfold(sp, order, cs, rs, w, n);
    }
    var row := RowUpTo(sp, order, cs[n - 1], rs, GridUpTo(sp, order, cs, rs, w, n - 1).1, |rs|).0;
    assert GridUpTo(sp, order, cs, rs, w, n).0 == grid + [row] by {
      GridUnfold(sp, order, cs, rs, w, n);
    }
    SnocIndex(grid, row, i);
    if i < n - 1 {
      GridRowAt(sp, order, cs, rs, w, n - 1, i);
    }
  }

  /** The shared weights in force when pair (i, j) is scored: what the rows above and the cells to its left leave. */
  function WeightsAt(sp: Specialism, order: seq<Rule>, cs: seq<Candidate>, rs: seq<Role>, w: Weights, i: nat, j: nat)
    : Weights
    requires i < |cs| && j <= |rs|
    requires AllReady(sp, cs, rs)
  {
    assert RowReady(sp, cs[i], rs);
    RowUpTo(sp, order, cs[i], rs, GridUpTo(sp, order, cs, rs, w, i).1, j).1
  }

  /**
   * In general, a cell of the grid is `DISALLOWED` exactly when its pair
   * is ineligible at the weights in force when it is scored, and
   * otherwise holds the pair's score at those weights, whatever order the
   * rules run in.
   */
  lemma GridVerdictAt(sp: Specialism, order: seq<Rule>, cs: seq<Candidate>, rs: seq<Role>, w: Weights, i: nat, j: nat)
    requires AllReady(sp, cs, rs)
    requires IsEnumeration(order, RuleSet(sp))
    requires i < |cs| && j < |rs|
    ensures |Grid(sp, order, cs, rs, w).0| == |cs| && |Grid(sp, order, cs, rs, w).0[i]| == |rs|
    ensures var wij := WeightsAt(sp, order, cs, rs, w, i, j);
            Grid(sp, order, cs, rs, w).0[i][j] == Disallowed <==> Ineligible(sp, wij, cs[i], rs[j])
    ensures var wij := WeightsAt(sp, order, cs, rs, w, i, j);
            Grid(sp, order, cs, rs, w).0[i][j] != Disallowed ==>
              Grid(sp, order, cs, rs, w).0[i][j].value
              == BaseScore(sp, wij, cs[i], rs[j])
                 + (if sp == Generalist
                    then PreferenceBonus(cs[i].matchPreferences, EarnedRules(sp, wij, cs[i], rs[j]))
                    else 0)
  {
    GridRowAt(sp, order, cs, rs, w, |cs|, i);
    var w0 := GridUpTo(sp, order, cs, rs, w, i).1;
    RowCellAt(sp, order, cs[i], rs, w0, |rs|, j);
    EvaluateSpec(sp, order, WeightsAt(sp, order, cs, rs, w, i, j), cs[i], rs[j]);
  }

  // ---------------------------------------------------------------
  // Rejection
  // ---------------------------------------------------------------

  /** `np.all(column == DISALLOWED)` for column `j`; true of every column of a grid with no rows. */
  predicate ColumnDisallowed(grid: seq<seq<Cell>>, j: nat)
  {
    forall i :: 0 <= i < |grid| ==> j < |grid[i]| && grid[i][j] == Disallowed
  }

  /** The roles `reject_impossible_roles` returns, flagged, for the first `m` columns. */
  function RejectedUpTo(rs: seq<Role>, grid: seq<seq<Cell>>, m: nat): seq<Role>
    requires m <= |rs|
  {
    if m == 0 then []
    else RejectedUpTo(rs, grid, m - 1) + (if ColumnDisallowed(grid, m - 1) then [rs[m - 1].(noMatch := true)] else [])
  }

  function Rejected(rs: seq<Role>, grid: seq<seq<Cell>>): seq<Role>
  {
    RejectedUpTo(rs, grid, |rs|)
  }

  /** A role is returned exactly when nobody may take it, flagged `no_match`, in column order. */
  lemma {:induction false} RejectedSpec(rs: seq<Role>, grid: seq<seq<Cell>>, m: nat)
    requires m <= |rs|
    ensures |RejectedUpTo(rs, grid, m)| <= m
    ensures forall q :: q in RejectedUpTo(rs, grid, m) <==>
              exists j :: 0 <= j < m && ColumnDisallowed(grid, j) && q == rs[j].(noMatch := true)
  {
    if m > 0 {
      RejectedSpec(rs, grid, m - 1);
    }
  }

  /** Some role is rejected exactly when some column is all `DISALLOWED`. */
  lemma {:induction false} RejectedEmpty(rs: seq<Role>, grid: seq<seq<Cell>>, m: nat)
    requires m <= |rs|
    ensures RejectedUpTo(rs, grid, m) == [] <==> forall j :: 0 <= j < m ==> !ColumnDisallowed(grid, j)
  {
    if m > 0 {
      RejectedEmpty(rs, grid, m - 1);
    }
  }

  /** With no candidates every column is all `DISALLOWED`, so every role is rejected. */
  lemma {:induction false} NoCandidatesRejectsAll(rs: seq<Role>, grid: seq<seq<Cell>>, m: nat)
    requires grid == [] && m <= |rs|
    ensures |RejectedUpTo(rs, grid, m)| == m
  {
    if m > 0 {
      NoCandidatesRejectsAll(rs, grid, m - 1);
      assert ColumnDisallowed(grid, m - 1);
    }
  }

  // ---------------------------------------------------------------
  // Costs and the solver
  // ---------------------------------------------------------------

  /** `sys.maxsize` on a 64-bit build. */
  const MaxSize: int := 0x7FFF_FFFF_FFFF_FFFF

  /** A cost-matrix cell: still `DISALLOWED`, or a cost. */
  datatype Cost = Forbidden | Cost(value: int)

  /** The inversion `sys.maxsize - x` applied to a score; `DISALLOWED` stays. */
  function CostOf(cell: Cell): (c: Cost)
    ensures cell.Disallowed? <==> c.Forbidden?
    ensures cell.Score? ==> c.value + cell.value == MaxSize
  {
    match cell
    case Disallowed => Forbidden
    case Score(x) => Cost(MaxSize - x)
  }

  /** `make_cost_matrix(score_grid, inversion)` as the inversion is meant to work. */
  function CostMatrix(grid: seq<seq<Cell>>): (m: seq<seq<Cost>>)
    ensures |m| == |grid|
    ensures forall i :: 0 <= i < |grid| ==> |m[i]| == |grid[i]|
    ensures forall i, j :: 0 <= i < |grid| && 0 <= j < |grid[i]| ==> m[i][j] == CostOf(grid[i][j])
  {
    seq(|grid|, i requires 0 <= i < |grid| => seq(|grid[i]|, j requires 0 <= j < |grid[i]| => CostOf(grid[i][j])))
  }

  predicate HasDisallowed(grid: seq<seq<Cell>>)
  {
    exists i, j :: 0 <= i < |grid| && 0 <= j < |grid[i]| && grid[i][j] == Disallowed
  }

  /**
   * The cost matrix as the code builds it. A grid without any `DISALLOWED`
   * cell becomes an integer numpy array whose elements are not of type
   * `int`, so the `type(x) is int` test fails and every score is passed
   * through as its own cost.
   */
  function CostMatrixAsWritten(grid: seq<seq<Cell>>): (m: seq<seq<Cost>>)
    ensures HasDisallowed(grid) ==> m == CostMatrix(grid)
  {
    if HasDisallowed(grid) then CostMatrix(grid)
    else seq(|grid|, i requires 0 <= i < |grid| =>
               seq(|grid[i]|, j requires 0 <= j < |grid[i]| =>
                     if grid[i][j].Score? then Cost(grid[i][j].value) else Forbidden))
  }

  /** The inversion reverses the order of scores. */
  lemma CostReversesOrder(a: int, b: int)
    ensures a < b <==> CostOf(Score(a)).value > CostOf(Score(b)).value
  {
  }

  /** The solver's answer: (row, column) pairs. */
  type Assignment = seq<(int, int)>

  /** Pairs within a `rows` by `cols` matrix, no row and no column used twice. */
  predicate IsAssignment(rows: int, cols: int, ps: Assignment)
  {
    (forall k :: 0 <= k < |ps| ==> 0 <= ps[k].0 < rows && 0 <= ps[k].1 < cols)
    && (forall k, l :: 0 <= k < l < |ps| ==> ps[k].0 != ps[l].0 && ps[k].1 != ps[l].1)
  }

  function Rows(ps: Assignment): set<int>
  {
    set k | 0 <= k < |ps| :: ps[k].0
  }

  lemma {:induction false} RowsCard(ps: Assignment)
    requires forall k, l :: 0 <= k < l < |ps| ==> ps[k].0 != ps[l].0
    ensures |Rows(ps)| == |ps|
  {
    if ps != [] {
      var init := ps[..|ps| - 1];
      RowsCard(init);
      assert Rows(ps) == Rows(init) + {ps[|ps| - 1].0};
      assert ps[|ps| - 1].0 !in Rows(init);
    }
  }

  function Below(n: nat): set<int>
  {
    if n == 0 then {} else Below(n - 1) + {n - 1}
  }

  lemma {:induction false} BelowSpec(n: nat)
    ensures |Below(n)| == n
    ensures forall i :: i in Below(n) <==> 0 <= i < n
  {
    if n > 0 {
      BelowSpec(n - 1);
    }
  }

  lemma SubsetCard(a: set<int>, b: set<int>)
    requires a <= b
    ensures |a| <= |b|
  {
    assert b == a + (b - a);
  }

  /** An assignment never has more pairs than rows: a round pairs at most its candidates. */
  lemma AssignmentSize(ps: Assignment, n: nat, m: nat)
    requires IsAssignment(n, m, ps)
    ensures |ps| <= n
  {
    RowsCard(ps);
    BelowSpec(n);
    SubsetCard(Rows(ps), Below(n));
  }

  /** An assignment with as many pairs as rows uses every row: every candidate of the round is paired. */
  lemma FullAssignmentCoversRows(ps: Assignment, n: nat, m: nat, i: int)
    requires IsAssignment(n, m, ps) && |ps| == n
    requires 0 <= i < n
    ensures exists k :: 0 <= k < |ps| && ps[k].0 == i
  {
    RowsCard(ps);
    BelowSpec(n);
    if i !in Rows(ps) {
      SubsetCard(Rows(ps), Below(n) - {i});
    }
  }

  function Width<T>(m: seq<seq<T>>): nat
  {
    if m == [] then 0 else |m[0]|
  }

  /** `Munkres().compute`: an assignment, or None where it raises `UnsolvableMatrix`. */
  type Solver = seq<seq<Cost>> -> Option<Assignment>

  ghost predicate SolverSound(solver: Solver)
  {
    forall m :: solver(m).Some? ==> IsAssignment(|m|, Width(m), solver(m).value)
  }

  /** The total cost of the chosen cells. */
  function TotalCost(m: seq<seq<Cost>>, ps: Assignment): int
    requires forall k :: 0 <= k < |ps| ==> 0 <= ps[k].0 < |m| && 0 <= ps[k].1 < |m[ps[k].0]|
  {
    if ps == [] then 0
    else
      var cost := m[ps[0].0][ps[0].1];
      (if cost.Cost? then cost.value else 0) + TotalCost(m, ps[1..])
  }

  /** The total score of the chosen cells. */
  function TotalScore(grid: seq<seq<Cell>>, ps: Assignment): int
    requires forall k :: 0 <= k < |ps| ==> 0 <= ps[k].0 < |grid| && 0 <= ps[k].1 < |grid[ps[k].0]|
  {
    if ps == [] then 0
    else
      var cell := grid[ps[0].0][ps[0].1];
      (if cell.Score? then cell.value else 0) + TotalScore(grid, ps[1..])
  }

  predicate AvoidsDisallowed(grid: seq<seq<Cell>>, ps: Assignment)
    requires forall k :: 0 <= k < |ps| ==> 0 <= ps[k].0 < |grid| && 0 <= ps[k].1 < |grid[ps[k].0]|
  {
    forall k :: 0 <= k < |ps| ==> grid[ps[k].0][ps[k].1].Score?
  }

  /** An assignment of allowed cells costs `MaxSize` per pair less its total score. */
  lemma {:induction false} CostIsComplementOfScore(grid: seq<seq<Cell>>, ps: Assignment)
    requires forall k :: 0 <= k < |ps| ==> 0 <= ps[k].0 < |grid| && 0 <= ps[k].1 < |grid[ps[k].0]|
    requires AvoidsDisallowed(grid, ps)
    ensures TotalCost(CostMatrix(grid), ps) == |ps| * MaxSize - TotalScore(grid, ps)
  {
    if ps != [] {
      CostIsComplementOfScore(grid, ps[1..]);
    }
  }

  /**
   * So among assignments of allowed cells with the same number of pairs,
   * a cheaper one is a higher-scoring one: minimising the cost maximises
   * the score.
   */
  lemma CheaperMeansHigherScore(grid: seq<seq<Cell>>, ps1: Assignment, ps2: Assignment)
    requires forall k :: 0 <= k < |ps1| ==> 0 <= ps1[k].0 < |grid| && 0 <= ps1[k].1 < |grid[ps1[k].0]|
    requires forall k :: 0 <= k < |ps2| ==> 0 <= ps2[k].0 < |grid| && 0 <= ps2[k].1 < |grid[ps2[k].0]|
    requires AvoidsDisallowed(grid, ps1) && AvoidsDisallowed(grid, ps2) && |ps1| == |ps2|
    ensures TotalCost(CostMatrix(grid), ps1) <= TotalCost(CostMatrix(grid), ps2)
            <==> TotalScore(grid, ps1) >= TotalScore(grid, ps2)
  {
    CostIsComplementOfScore(grid, ps1);
    CostIsComplementOfScore(grid, ps2);
  }

  /**
   * On the grid [[30, 10], [10, 30]] the code's cost matrix makes the
   * anti-diagonal (score 20) cheaper than the diagonal (score 60), so a
   * cost-minimising solver picks the worse pairing; the intended matrix
   * makes the diagonal cheaper.
   */
  lemma AsWrittenPrefersLowScores()
    ensures var grid := [[Score(30), Score(10)], [Score(10), Score(30)]];
            var diagonal := [(0, 0), (1, 1)];
            var anti := [(0, 1), (1, 0)];
            && TotalScore(grid, diagonal) == 60 && TotalScore(grid, anti) == 20
            && TotalCost(CostMatrixAsWritten(grid), anti) < TotalCost(CostMatrixAsWritten(grid), diagonal)
            && TotalCost(CostMatrix(grid), diagonal) < TotalCost(CostMatrix(grid), anti)
  {
    var grid := [[Score(30), Score(10)], [Score(10), Score(30)]];
    assert !HasDisallowed(grid);
    var written := CostMatrixAsWritten(grid);
    assert written[0][0] == Cost(30) && written[1][1] == Cost(30);
    assert written[0][1] == Cost(10) && written[1][0] == Cost(10);
    var diagonal := [(0, 0), (1, 1)];
    var anti := [(0, 1), (1, 0)];
    assert diagonal[1..] == [(1, 1)] && anti[1..] == [(1, 0)];
    CostIsComplementOfScore(grid, diagonal);
    CostIsComplementOfScore(grid, anti);
  }

  // ---------------------------------------------------------------
  // The round object
  // ---------------------------------------------------------------

  /** `convert_pair`: solver indices to (candidate uid, role uid). */
  function ConvertPair(cs: seq<Candidate>, rs: seq<Role>, p: (int, int)): (string, string)
    requires 0 <= p.0 < |cs| && 0 <= p.1 < |rs|
  {
    (cs[p.0].uid, rs[p.1].uid)
  }

  /** With distinct uids, looking the converted uids up again gives back the solver's indices. */
  lemma ConvertPairRoundTrip(cs: seq<Candidate>, rs: seq<Role>, p: (int, int))
    requires 0 <= p.0 < |cs| && 0 <= p.1 < |rs|
    requires forall a, b :: 0 <= a < b < |cs| ==> cs[a].uid != cs[b].uid
    requires forall a, b :: 0 <= a < b < |rs| ==> rs[a].uid != rs[b].uid
    ensures UidIndex(CandidateUids(cs), ConvertPair(cs, rs, p).0) == Some(p.0)
    ensures UidIndex(RoleUids(rs), ConvertPair(cs, rs, p).1) == Some(p.1)
  {
    UidIndexDistinct(CandidateUids(cs), p.0);
    UidIndexDistinct(RoleUids(rs), p.1);
  }

  function ConvertAll(cs: seq<Candidate>, rs: seq<Role>, ps: Assignment): (ids: seq<(string, string)>)
    requires IsAssignment(|cs|, |rs|, ps)
    ensures |ids| == |ps|
    ensures forall k :: 0 <= k < |ps| ==> ids[k] == ConvertPair(cs, rs, ps[k])
  {
    seq(|ps|, k requires 0 <= k < |ps| => ConvertPair(cs, rs, ps[k]))
  }

  class Matching {
    const specialism: Specialism
    const order: seq<Rule>
    var candidates: seq<Candidate>
    var roles: seq<Role>
    var scoreGrid: seq<seq<Cell>>

    predicate Valid()
      reads this
    {
      |scoreGrid| == |candidates| && Rectangular(scoreGrid, |roles|)
    }

    /** `Matching.__init__` (with the shuffles taken as the identity): score every pair, candidates outer. */
    constructor (sp: Specialism, order: seq<Rule>, cs: seq<Candidate>, rs: seq<Role>, w: SharedWeights)
      requires AllReady(sp, cs, rs)
      modifies w
      ensures specialism == sp && this.order == order && candidates == cs && roles == rs
      ensures (scoreGrid, w.Value()) == Grid(sp, order, cs, rs, old(w.Value()))
      ensures Valid()
    {
      specialism := sp;
      this.order := order;
      candidates := cs;
      roles := rs;
      var grid := [];
      for i := 0 to |cs|
        invariant (grid, w.Value()) == GridUpTo(sp, order, cs, rs, old(w.Value()), i)
        invariant |grid| == i && Rectangular(grid, |rs|)
      {
        var row := [];
        ghost var rowStart := w.Value();
        for j := 0 to |rs|
          invariant (row, w.Value()) == RowUpTo(sp, order, cs[i], rs, rowStart, j)
          invariant |row| == j
        {
          var pair := new PairEvaluator(sp, cs[i], rs[j], w);
          var cell := ScoreOrDisqualify(pair, order);
          row := row + [cell];
        }
        grid := grid + [row];
      }
      scoreGrid := grid;
    }

    /** `score_or_disqualify`: run `score_pair`, then report `DISALLOWED` or the score. */
    static method ScoreOrDisqualify(p: PairEvaluator, order: seq<Rule>) returns (cell: Cell)
      requires p.Valid()
      modifies p, p.weights
      ensures (p.State(), p.weights.Value())
           == EvaluateFrom(p.specialism, order, old(p.State()), old(p.weights.Value()), p.candidate, p.role)
      ensures cell == CellOf(p.State())
    {
      var _ := p.ScorePair(order);
      if p.disqualified {
        cell := Disallowed;
      } else {
        cell := Score(p.score);
      }
    }

    /** `reject_impossible_roles`: flag and return, in column order, the roles whose column is all `DISALLOWED`. */
    method RejectImpossibleRoles() returns (rejects: seq<Role>)
      requires Valid()
      modifies this
      ensures Valid()
      ensures candidates == old(candidates) && scoreGrid == old(scoreGrid) && |roles| == |old(roles)|
      ensures forall j :: 0 <= j < |roles| ==>
                roles[j] == if ColumnDisallowed(scoreGrid, j) then old(roles)[j].(noMatch := true) else old(roles)[j]
      ensures rejects == Rejected(old(roles), scoreGrid)
    {
      rejects := [];
      for j := 0 to |roles|
        invariant candidates == old(candidates) && scoreGrid == old(scoreGrid)
        invariant |roles| == |old(roles)|
        invariant forall k :: 0 <= k < |roles| ==>
                    roles[k] == if k < j && ColumnDisallowed(scoreGrid, k) then old(roles)[k].(noMatch := true)
                                else old(roles)[k]
        invariant rejects == RejectedUpTo(old(roles), scoreGrid, j)
      {
        if ColumnDisallowed(scoreGrid, j) {
          // the appended role is the object whose flag is then set
          roles := roles[j := roles[j].(noMatch := true)];
          rejects := rejects + [roles[j]];
        }
      }
    }

    /** `match`: the solver on the cost matrix; what it returns pairs candidates with roles, each at most once. */
    function Match(solver: Solver): (ps: Option<Assignment>)
      reads this
      requires Valid() && SolverSound(solver)
      ensures ps.Some? ==> IsAssignment(|candidates|, |roles|, ps.value)
    {
      assert Width(CostMatrix(scoreGrid)) <= |roles|;
      solver(CostMatrix(scoreGrid))
    }

    /** `report_pairs`: the solver's pairs as uids, or None where `UnsolvableMatrix` propagates. */
    function ReportPairs(solver: Solver): (pairs: Option<seq<(string, string)>>)
      reads this
      requires Valid() && SolverSound(solver)
      ensures pairs.None? <==> Match(solver).None?
      ensures pairs.Some? ==> IsAssignment(|candidates|, |roles|, Match(solver).value)
                              && pairs.value == ConvertAll(candidates, roles, Match(solver).value)
    {
      match Match(solver)
      case None => None
      case Some(ps) => Some(ConvertAll(candidates, roles, ps))
    }
  }
}
