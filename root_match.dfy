/**
 * Grid construction of the first matcher (matching/match.py): the layout
 * of the score grid, the weighted combination of the scoring functions
 * for one pair, and the mask that turns negative cells into
 * `DISALLOWED`.
 */
module RootMatch {
  import opened Wrappers
  import opened RootModels
  import opened RootScoring
  import MatchRound

  type Cell = MatchRound.Cell

  // ---------------------------------------------------------------
  // `_disallow_blocked` and `prepare_grid`
  // ---------------------------------------------------------------

  /** One cell of the mask. */
  function Blocked(x: int): Cell
  {
    if x < 0 then MatchRound.Disallowed else MatchRound.Score(x)
  }

  /** `_disallow_blocked`, cell by cell; `prepare_grid` returns the same grid as nested lists. */
  function DisallowBlocked(grid: seq<seq<int>>): (masked: seq<seq<Cell>>)
    ensures |masked| == |grid|
    ensures forall i :: 0 <= i < |grid| ==> |masked[i]| == |grid[i]|
  {
    seq(|grid|, i requires 0 <= i < |grid| => seq(|grid[i]|, j requires 0 <= j < |grid[i]| => Blocked(grid[i][j])))
  }

  /** The scores a masked grid still holds, with `DISALLOWED` read back as -1. */
  function Unmasked(masked: seq<seq<Cell>>): (grid: seq<seq<int>>)
    ensures |grid| == |masked|
    ensures forall i :: 0 <= i < |masked| ==> |grid[i]| == |masked[i]|
  {
    seq(|masked|, i requires 0 <= i < |masked| =>
      seq(|masked[i]|, j requires 0 <= j < |masked[i]| =>
        if masked[i][j].Disallowed? then -1 else masked[i][j].value))
  }

  /**
   * The mask disallows exactly the negative cells, keeps every other
   * value in place, and keeps the shape; reading the values back gives
   * the grid again up to the negative cells, which all come back as -1.
   */
  lemma DisallowBlockedSpec(grid: seq<seq<int>>, i: nat, j: nat)
    requires i < |grid| && j < |grid[i]|
    ensures DisallowBlocked(grid)[i][j] == MatchRound.Disallowed <==> grid[i][j] < 0
    ensures grid[i][j] >= 0 ==> DisallowBlocked(grid)[i][j] == MatchRound.Score(grid[i][j])
    ensures Unmasked(DisallowBlocked(grid))[i][j] == if grid[i][j] < 0 then -1 else grid[i][j]
  {
  }

  /** A grid with no negative cell survives the mask and the read-back unchanged. */
  lemma {:induction false} UnmaskedRoundTrip(grid: seq<seq<int>>)
    requires forall i, j :: 0 <= i < |grid| && 0 <= j < |grid[i]| ==> grid[i][j] >= 0
    ensures Unmasked(DisallowBlocked(grid)) == grid
  {
    var back := Unmasked(DisallowBlocked(grid));
    forall i | 0 <= i < |grid| ensures back[i] == grid[i] {
      forall j | 0 <= j < |grid[i]| ensures back[i][j] == grid[i][j] {
        DisallowBlockedSpec(grid, i, j);
      }
    }
  }

  /** The grid has no element: no row, or only empty rows. */
  predicate SizeZero(grid: seq<seq<int>>)
  {
    forall i :: 0 <= i < |grid| ==> grid[i] == []
  }

  predicate HasNegative(grid: seq<seq<int>>)
  {
    exists i, j :: 0 <= i < |grid| && 0 <= j < |grid[i]| && grid[i][j] < 0
  }

  /**
   * `_disallow_blocked` as written: `np.vectorize` without `otypes` raises
   * `ValueError` on a grid of size 0, and otherwise fixes the output type
   * by the lambda's result on the first element. A non-negative first
   * element makes the output an integer array, into which a later
   * `DISALLOWED` cannot be cast (`TypeError`). A negative first element
   * makes it an object array, which holds the mask as intended.
   */
  function DisallowBlockedAsWritten(grid: seq<seq<int>>): (masked: Result<seq<seq<Cell>>, PyError>)
    requires |grid| > 0 ==> forall i :: 0 <= i < |grid| ==> |grid[i]| == |grid[0]|
  {
    if SizeZero(grid) then Failure(ValueError)
    else if grid[0][0] >= 0 && HasNegative(grid) then Failure(TypeError)
    else Success(DisallowBlocked(grid))
  }

  /**
   * The code masks a rectangular grid as intended exactly when it has an
   * element and its first element is negative or no element is; it raises
   * `ValueError` for size 0 and `TypeError` otherwise.
   */
  lemma DisallowBlockedAsWrittenSpec(grid: seq<seq<int>>)
    requires |grid| > 0 ==> forall i :: 0 <= i < |grid| ==> |grid[i]| == |grid[0]|
    ensures DisallowBlockedAsWritten(grid) == Failure(ValueError) <==> SizeZero(grid)
    ensures DisallowBlockedAsWritten(grid) == Failure(TypeError)
            <==> !SizeZero(grid) && grid[0][0] >= 0 && HasNegative(grid)
    ensures DisallowBlockedAsWritten(grid).Success?
            <==> !SizeZero(grid) && (grid[0][0] < 0 || !HasNegative(grid))
    ensures DisallowBlockedAsWritten(grid).Success? ==> DisallowBlockedAsWritten(grid).value == DisallowBlocked(grid)
  {
    if !SizeZero(grid) {
      var i :| 0 <= i < |grid| && grid[i] != [];
      assert |grid[0]| > 0;
    }
  }

  /**
   * The grid [[3, -1]], which has a cell to disallow, makes the code
   * raise `TypeError`, where the intended mask disallows the second cell.
   */
  lemma AsWrittenMaskRaises()
    ensures DisallowBlockedAsWritten([[3, -1]]) == Failure(TypeError)
    ensures DisallowBlocked([[3, -1]]) == [[MatchRound.Score(3), MatchRound.Disallowed]]
  {
    var grid := [[3, -1]];
    assert grid[0][1] < 0;
    assert !SizeZero(grid) by {
      assert grid[0] != [];
    }
    var masked := DisallowBlocked(grid);
    assert masked[0][0] == Blocked(3) && masked[0][1] == Blocked(-1);
    assert masked[0] == [MatchRound.Score(3), MatchRound.Disallowed];
  }

  /** An empty grid makes the code raise `ValueError`, where the intended mask returns it unchanged. */
  lemma AsWrittenMaskEmpty()
    ensures DisallowBlockedAsWritten([]) == Failure(ValueError)
    ensures DisallowBlockedAsWritten([[]]) == Failure(ValueError)
    ensures DisallowBlocked([]) == [] && DisallowBlocked([[]]) == [[]]
  {
  }

  // ---------------------------------------------------------------
  // `generate_grid`
  // ---------------------------------------------------------------

  /**
   * `generate_grid` as written: the scores are listed roles outer,
   * candidates inner, so entry `k` is candidate `k % C` against role
   * `k / C`; the list is then cut into `C` rows of `R`, so cell `[i][j]`
   * is entry `i * R + j`.
   */
  function GridLayoutAsWritten<C, R, X>(cs: seq<C>, rs: seq<R>, f: (C, R) -> X): (grid: seq<seq<X>>)
    ensures |grid| == |cs| && forall i :: 0 <= i < |cs| ==> |grid[i]| == |rs|
  {
    var flat := seq(|rs| * |cs|, k requires 0 <= k < |rs| * |cs| => f(cs[k % |cs|], rs[k / |cs|]));
    seq(|cs|, i requires 0 <= i < |cs| => seq(|rs|, j requires 0 <= j < |rs| => LayoutEntry(flat, |rs|, |cs|, i, j)))
  }

  /** Entry `i * width + j` of a list of `height * width` entries. */
  function LayoutEntry<X>(flat: seq<X>, width: nat, height: nat, i: nat, j: nat): X
    requires |flat| == width * height && i < height && j < width
  {
    EntryBelow(i, j, width, height);
    flat[i * width + j]
  }

  /** The grid `generate_grid` is meant to build: row `i` for candidate `i`, column `j` for role `j`. */
  function GridLayout<C, R, X>(cs: seq<C>, rs: seq<R>, f: (C, R) -> X): (grid: seq<seq<X>>)
    ensures |grid| == |cs| && forall i :: 0 <= i < |cs| ==> |grid[i]| == |rs|
    ensures forall i, j :: 0 <= i < |cs| && 0 <= j < |rs| ==> grid[i][j] == f(cs[i], rs[j])
  {
    seq(|cs|, i requires 0 <= i < |cs| => seq(|rs|, j requires 0 <= j < |rs| => f(cs[i], rs[j])))
  }

  /** Where a cell of the grid as written comes from. */
  lemma LayoutAsWrittenCell<C, R, X>(cs: seq<C>, rs: seq<R>, f: (C, R) -> X, i: nat, j: nat)
    requires i < |cs| && j < |rs|
    ensures var k := i * |rs| + j;
            k < |rs| * |cs| && k / |cs| < |rs|
            && GridLayoutAsWritten(cs, rs, f)[i][j] == f(cs[k % |cs|], rs[k / |cs|])
  {
    var k := i * |rs| + j;
    EntryBelow(i, j, |rs|, |cs|);
    DivBelow(k, |cs|, |rs|);
    var flat := seq(|rs| * |cs|, k requires 0 <= k < |rs| * |cs| => f(cs[k % |cs|], rs[k / |cs|]));
    assert GridLayoutAsWritten(cs, rs, f)[i][j] == LayoutEntry(flat, |rs|, |cs|, i, j) == flat[k];
  }

  lemma EntryBelow(i: nat, j: nat, width: nat, height: nat)
    requires i < height && j < width
    ensures i * width + j < width * height
  {
    assert i * width + j < (i + 1) * width;
    assert (i + 1) * width <= height * width;
  }

  lemma DivBelow(k: nat, c: nat, r: nat)
    requires 0 < c && k < r * c
    ensures k / c < r
  {
    var q := k / c;
    assert q * c <= k;
    MulBelow(q, r, c);
  }

  lemma MulBelow(q: int, r: int, c: int)
    requires 0 < c && q * c < r * c
    ensures q < r
  {
    if q >= r {
      MulAtLeast(q, r, c);
      assert false;
    }
  }

  lemma MulAtLeast(q: int, r: int, c: int)
    requires 0 < c && q >= r
    ensures q * c >= r * c
  {
    assert q * c - r * c == (q - r) * c;
  }

  /**
   * With two candidates and two roles, cell `[0][1]`, meant for candidate
   * 0 against role 1, holds candidate 1 against role 0.
   */
  lemma LayoutAsWrittenTransposes<C, R>(cs: seq<C>, rs: seq<R>)
    requires |cs| == 2 && |rs| == 2
    ensures GridLayoutAsWritten(cs, rs, (c, r) => (c, r))[0][1] == (cs[1], rs[0])
    ensures GridLayout(cs, rs, (c, r) => (c, r))[0][1] == (cs[0], rs[1])
  {
    LayoutAsWrittenCell(cs, rs, (c, r) => (c, r), 0, 1);
  }

  // ---------------------------------------------------------------
  // `match_candidate_to_role`
  // ---------------------------------------------------------------

  /** The scoring functions a weight map can name. */
  datatype Scorer = SkillsScore | LocationScore

  /** A scoring function applied to a pair; `None` for the `KeyError` of a missing skill. */
  function Apply(f: Scorer, c: RootCandidate, r: RootRole): Option<int>
  {
    match f
    case SkillsScore => ScoreSkills(c, r)
    case LocationScore => Some(ScoreLocation(c, r))
  }

  /** The weight map `generate_grid` passes: both functions, weight 1, in that order. */
  const GridWeights: seq<(Scorer, int)> := [(SkillsScore, 1), (LocationScore, 1)]

  /** The exceptions the function can raise. */
  datatype PyError = TypeError | KeyError | ValueError

  /**
   * `match_candidate_to_role` as written: `map` hands the lambda of two
   * parameters one `(function, weight)` item at a time, so the first
   * item already raises `TypeError`; an empty map gives `all([])`, true,
   * and an empty sum.
   */
  function MatchCandidateToRoleAsWritten(c: RootCandidate, r: RootRole, weights: seq<(Scorer, int)>)
    : (result: Result<Cell, PyError>)
  {
    if weights == [] then Success(MatchRound.Score(0)) else Failure(TypeError)
  }

  /** Every call `generate_grid` makes raises. */
  lemma AsWrittenAlwaysRaises(c: RootCandidate, r: RootRole)
    ensures MatchCandidateToRoleAsWritten(c, r, GridWeights) == Failure(TypeError)
  {
  }

  /** The weighted scores in map order, stopping at the first `KeyError`. */
  function Weighted(c: RootCandidate, r: RootRole, weights: seq<(Scorer, int)>): Option<seq<int>>
  {
    if weights == [] then Some([])
    else
      match Apply(weights[0].0, c, r)
      case None => None
      case Some(x) =>
        match Weighted(c, r, weights[1..])
        case None => None
        case Some(rest) => Some([weights[0].1 * x] + rest)
  }

  function Sum(xs: seq<int>): int
  {
    if xs == [] then 0 else xs[0] + Sum(xs[1..])
  }

  /**
   * `match_candidate_to_role` with each item unpacked into its function
   * and weight: `all` walks the weighted scores in map order and stops
   * at the first zero, which gives `DISALLOWED`; when all are non-zero
   * the result is their sum. A `KeyError` met before that stop is raised.
   */
  function MatchCandidateToRole(c: RootCandidate, r: RootRole, weights: seq<(Scorer, int)>)
    : (result: Result<Cell, PyError>)
  {
    if weights == [] then Success(MatchRound.Score(0))
    else
      match Apply(weights[0].0, c, r)
      case None => Failure(KeyError)
      case Some(x) =>
        if weights[0].1 * x == 0 then Success(MatchRound.Disallowed)
        else
          match MatchCandidateToRole(c, r, weights[1..])
          case Failure(e) => Failure(e)
          case Success(cell) =>
            if cell.Disallowed? then Success(MatchRound.Disallowed)
            else Success(MatchRound.Score(weights[0].1 * x + cell.value))
  }

  /**
   * When every function can be applied, the pair is `DISALLOWED` exactly
   * when some weighted score is zero, and otherwise scores the sum of the
   * weighted scores.
   */
  lemma {:induction false} MatchVerdict(c: RootCandidate, r: RootRole, weights: seq<(Scorer, int)>)
    requires Weighted(c, r, weights).Some?
    ensures var ws := Weighted(c, r, weights).value;
            |ws| == |weights|
            && (MatchCandidateToRole(c, r, weights) == Success(MatchRound.Disallowed)
                <==> exists k :: 0 <= k < |ws| && ws[k] == 0)
            && ((forall k :: 0 <= k < |ws| ==> ws[k] != 0) ==>
                  MatchCandidateToRole(c, r, weights) == Success(MatchRound.Score(Sum(ws))))
  {
    if weights != [] {
      var x := Apply(weights[0].0, c, r).value;
      MatchVerdict(c, r, weights[1..]);
      var ws := Weighted(c, r, weights).value;
      var rest := Weighted(c, r, weights[1..]).value;
      assert ws == [weights[0].1 * x] + rest;
      assert forall k :: 1 <= k < |ws| ==> ws[k] == rest[k - 1];
      if ws[0] == 0 {
        assert MatchCandidateToRole(c, r, weights) == Success(MatchRound.Disallowed);
      } else {
        assert Sum(ws) == ws[0] + Sum(rest);
        if exists k :: 0 <= k < |ws| && ws[k] == 0 {
          var k :| 0 <= k < |ws| && ws[k] == 0;
          assert rest[k - 1] == 0;
        }
        if exists k :: 0 <= k < |rest| && rest[k] == 0 {
          var k :| 0 <= k < |rest| && rest[k] == 0;
          assert ws[k + 1] == 0;
        }
      }
    }
  }

  /**
   * Because the test is on truthiness, a location score of -1 for a
   * candidate who cannot move does not disallow a pair on its own, while
   * a location score of 0 does.
   */
  lemma GridWeightsVerdict(c: RootCandidate, r: RootRole)
    requires ScoreSkills(c, r).Some?
    ensures MatchCandidateToRole(c, r, GridWeights) == Success(MatchRound.Disallowed)
            <==> ScoreSkills(c, r).value == 0 || ScoreLocation(c, r) == 0
    ensures ScoreSkills(c, r).value != 0 && ScoreLocation(c, r) != 0 ==>
              MatchCandidateToRole(c, r, GridWeights)
              == Success(MatchRound.Score(ScoreSkills(c, r).value + ScoreLocation(c, r)))
  {
    var loc := ScoreLocation(c, r);
    assert GridWeights[1..] == [(LocationScore, 1)] && GridWeights[1..][1..] == [];
    assert Weighted(c, r, []) == Some([]);
    assert Apply(LocationScore, c, r) == Some(loc);
    assert [1 * loc] + [] == [loc];
    assert Weighted(c, r, [(LocationScore, 1)]) == Some([loc]);
    assert Weighted(c, r, GridWeights[1..]) == Some([ScoreLocation(c, r)]);
    var skills := ScoreSkills(c, r).value;
    assert GridWeights[0] == (SkillsScore, 1);
    assert Apply(SkillsScore, c, r) == Some(skills);
    assert [1 * skills] + [loc] == [skills, loc];
    assert Weighted(c, r, GridWeights) == Some([skills, loc]);
    MatchVerdict(c, r, GridWeights);
    var ws := Weighted(c, r, GridWeights).value;
    assert ws[1..] == [loc] && ws[1..][1..] == [];
    assert Sum([]) == 0;
    assert Sum([loc]) == loc;
    assert Sum(ws) == skills + loc;
  }
}
