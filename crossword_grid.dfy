/**
  `create_crossword` as the source runs it: one 10x10 grid mutated in place by the
  placement loops and the fill pass (icsc/qualification/crosswords.py:5-116, and the
  copy in icsc/qualification/ICSC_Qualification_Round_2025_Skeleton/problem_d.py:5-109).
  Each method is proved equal to the functions of CrosswordBoard and CrosswordFill.
 */
module CrosswordGrid {
  import opened Wrappers
  import opened CrosswordWords
  import opened CrosswordBoard
  import opened CrosswordFill
  import opened Random

  /** The grid's contents as a board value. */
  function Snap(g: array2<Cell>): (b: Board)
    reads g
    requires g.Length0 == N && g.Length1 == N
    ensures forall r, c :: InGrid(r, c) ==> b[r][c] == g[r, c]
  {
    seq(N, r requires 0 <= r < N reads g => seq(N, c requires 0 <= c < N reads g => g[r, c]))
  }

  /** `g[r][c] = v`. */
  method SetCell(g: array2<Cell>, r: int, c: int, v: Cell)
    requires g.Length0 == N && g.Length1 == N && InGrid(r, c)
    modifies g
    ensures Snap(g) == Set(old(Snap(g)), r, c, v)
  {
    ghost var before := Snap(g);
    g[r, c] := v;
    forall r', c' | InGrid(r', c') ensures Snap(g)[r'][c'] == Set(before, r, c, v)[r'][c'] {
    }
    BoardsEqual(Snap(g), Set(before, r, c, v));
  }

  /** The inner `for i, ch in enumerate(w)` walk of one run: `ok` is false at the first
      conflicting letter, and otherwise `inter` and `new_cells` are the run's counts. */
  method EvaluateRun(g: array2<Cell>, w: string, p: Placement) returns (ok: bool, inter: nat, newCells: nat)
    requires g.Length0 == N && g.Length1 == N && RunInGrid(p, |w|)
    ensures ok <==> !HasConflict(Snap(g), w, p)
    ensures ok ==> inter == Inter(Snap(g), w, p) && newCells == CountNew(Snap(g), w, p, |w|)
  {
    ghost var b := Snap(g);
    inter, newCells, ok := 0, 0, true;
    for i := 0 to |w|
      invariant ok
      invariant forall j :: 0 <= j < i ==> !Conflicts(At(b, p, j), w[j])
      invariant inter == CountInter(b, w, p, i) && newCells == CountNew(b, w, p, i)
    {
      var cell := g[Row(p, i), Col(p, i)];
      assert cell == At(b, p, i);
      if cell.Letter? && cell.ch != w[i] {
        ok := false;
        break;
      }
      if cell == Letter(w[i]) {
        inter := inter + 1;
      }
      if cell.Empty? || (cell.Marker? && Upper(cell.letters) != [w[i]]) {
        newCells := newCells + 1;
      }
    }
  }

  /** The running `best`, `best_i` and `placements` agree with the reference choice. */
  ghost predicate BestSoFar(b: Board, w: string, best: Option<Placement>, bestI: int, placements: seq<Placement>)
  {
    (forall q :: q in placements ==> RunInGrid(q, |w|)) &&
    (best.None? <==> placements == []) &&
    (best.None? ==> bestI == -1) &&
    (best.Some? ==> best == Some(placements[FirstMax(Scores(b, w, placements))]) &&
                    RunInGrid(best.value, |w|) && bestI == Inter(b, w, best.value))
  }

  lemma BestSoFarAppend(b: Board, w: string, best: Option<Placement>, bestI: int, placements: seq<Placement>, p: Placement)
    requires BestSoFar(b, w, best, bestI, placements) && RunInGrid(p, |w|)
    ensures var inter := Inter(b, w, p);
      BestSoFar(b, w, if inter > bestI then Some(p) else best, if inter > bestI then inter else bestI, placements + [p])
  {
    var ps := placements + [p];
    var s := Scores(b, w, ps);
    assert s[..|placements|] == Scores(b, w, placements);
    assert s[|placements|] == Inter(b, w, p);
  }

  /** One step of the scan: placement `p` is considered, walked and kept or dropped
      (the body of the innermost `for dr, dc in DIRS` loop up to the append). */
  method ConsiderPlacement(g: array2<Cell>, w: string, isDistractor: bool, wi: nat, p: Placement)
    returns (feasible: bool, inter: nat)
    requires g.Length0 == N && g.Length1 == N && InGrid(p.r, p.c)
    ensures feasible <==> Feasible(Snap(g), w, isDistractor, wi, p)
    ensures feasible ==> inter == Inter(Snap(g), w, p)
  {
    inter := 0;
    // skip the trivial placement for the first unit
    if wi == 0 && p.r == 0 && p.c == 0 && p.d == Right {
      return false, 0;
    }
    var len := |w|;
    var rr, cc := Row(p, len - 1), Col(p, len - 1);
    if !(0 <= rr < N && 0 <= cc < N) {
      return false, 0;
    }
    ConsideredRunInGrid(wi, len, p);
    var ok, newCells;
    ok, inter, newCells := EvaluateRun(g, w, p);
    if !ok {
      return false, inter;
    }
    // a distractor must add at least one new cell
    if isDistractor && newCells == 0 {
      return false, inter;
    }
    feasible := true;
  }

  /** The `for dr, dc in DIRS` loop at one start cell. */
  method ScanCell(g: array2<Cell>, w: string, isDistractor: bool, wi: nat, r: nat, c: nat,
                  best0: Option<Placement>, bestI0: int, placements0: seq<Placement>)
    returns (best: Option<Placement>, bestI: int, placements: seq<Placement>)
    requires g.Length0 == N && g.Length1 == N && r < N && c < N
    requires placements0 == ScanUpTo(Snap(g), w, isDistractor, wi, r, c, 0)
    requires BestSoFar(Snap(g), w, best0, bestI0, placements0)
    ensures placements == ScanUpTo(Snap(g), w, isDistractor, wi, r, c, 3)
    ensures BestSoFar(Snap(g), w, best, bestI, placements)
  {
    ghost var b := Snap(g);
    best, bestI, placements := best0, bestI0, placements0;
    for k := 0 to 3
      invariant placements == ScanUpTo(b, w, isDistractor, wi, r, c, k)
      invariant BestSoFar(b, w, best, bestI, placements)
    {
      var p := Placement(r, c, DirAt(k));
      var feasible, inter := ConsiderPlacement(g, w, isDistractor, wi, p);
      if !feasible {
        continue;
      }
      BestSoFarAppend(b, w, best, bestI, placements, p);
      if inter > bestI {
        bestI, best := inter, Some(p);
      }
      placements := placements + [p];
    }
  }

  /** The three nested loops over rows, columns and `DIRS` for one unit: `placements`
      collects every feasible run in scan order and `best` is the reference choice. */
  method FindPlacement(g: array2<Cell>, w: string, isDistractor: bool, wi: nat)
    returns (best: Option<Placement>, placements: seq<Placement>)
    requires g.Length0 == N && g.Length1 == N
    ensures placements == Placements(Snap(g), w, isDistractor, wi)
    ensures best == Best(Snap(g), w, isDistractor, wi)
  {
    ghost var b := Snap(g);
    best := None;
    var bestI: int := -1;
    placements := [];
    for r := 0 to N
      invariant placements == ScanUpTo(b, w, isDistractor, wi, r, 0, 0)
      invariant BestSoFar(b, w, best, bestI, placements)
    {
      for c := 0 to N
        invariant placements == ScanUpTo(b, w, isDistractor, wi, r, c, 0)
        invariant BestSoFar(b, w, best, bestI, placements)
      {
        best, bestI, placements := ScanCell(g, w, isDistractor, wi, r, c, best, bestI, placements);
      }
    }
  }

  /** `g[r + i*dr][c + i*dc] = ch` for every letter of the unit. */
  method CommitRun(g: array2<Cell>, w: string, p: Placement)
    requires g.Length0 == N && g.Length1 == N && RunInGrid(p, |w|)
    modifies g
    ensures Snap(g) == Commit(old(Snap(g)), w, p)
  {
    ghost var b := Snap(g);
    for i := 0 to |w|
      invariant Snap(g) == CommitUpTo(b, w, p, i)
    {
      SetCell(g, Row(p, i), Col(p, i), Letter(w[i]));
    }
  }

  /** After a distractor: the cell just past the run, if in the grid and empty, gets the
      lower-case letters its parents end with. */
  method MarkAfterRun(g: array2<Cell>, w: string, p: Placement, parents: seq<string>)
    requires g.Length0 == N && g.Length1 == N
    requires forall f :: f in parents ==> |f| > 0
    modifies g
    ensures Snap(g) == MarkAfter(old(Snap(g)), w, p, parents)
  {
    ghost var b := Snap(g);
    var len := |w|;
    var rr, cc := Row(p, len), Col(p, len);
    if 0 <= rr < N && 0 <= cc < N && g[rr, cc] == Empty {
      var forb := MarkerText(parents);
      SetCell(g, rr, cc, Marker(forb));
    }
  }

  /** `(r', c')` comes before `(r, c)` in row-major order. */
  predicate Before(r': int, c': int, r: int, c: int)
  {
    r' < r || (r' == r && c' < c)
  }

  /** The fill pass has reached `(r, c)` on board `cur`: every earlier cell holds its
      filled value, every later cell is still as in `b`. */
  ghost predicate FilledBefore(cur: Board, b: Board, draw: nat -> nat, r: int, c: int)
  {
    forall r', c' :: InGrid(r', c') ==>
      cur[r'][c'] == if Before(r', c', r, c) then FilledCell(b, draw, r', c') else b[r'][c']
  }

  /** A cell the fill can handle: a letter, or a fillable cell with a letter left. */
  predicate Drawable(cell: Cell)
  {
    !Fillable(cell) || Choices(cell) != []
  }

  /** Every cell before `(r, c)` was drawable. */
  ghost predicate DrawableBefore(b: Board, r: int, c: int)
  {
    forall r', c' :: InGrid(r', c') && Before(r', c', r, c) ==> Drawable(b[r'][c'])
  }

  lemma FillStep(cur: Board, b: Board, draw: nat -> nat, r: nat, c: nat)
    requires InGrid(r, c) && FilledBefore(cur, b, draw, r, c)
    ensures FilledBefore(Set(cur, r, c, FilledCell(b, draw, r, c)), b, draw, r, c + 1)
  {
  }

  lemma SkipStep(cur: Board, b: Board, draw: nat -> nat, r: nat, c: nat)
    requires InGrid(r, c) && FilledBefore(cur, b, draw, r, c)
    requires !Fillable(b[r][c])
    ensures FilledBefore(cur, b, draw, r, c + 1)
  {
  }

  lemma DrawableStep(b: Board, r: nat, c: nat)
    requires InGrid(r, c) && DrawableBefore(b, r, c) && Drawable(b[r][c])
    ensures DrawableBefore(b, r, c + 1)
  {
  }

  lemma DrawIndexNext(b: Board, r: nat, c: nat)
    requires InGrid(r, c)
    ensures DrawIndex(b, r, c + 1) == DrawIndex(b, r, c) + if Fillable(b[r][c]) then 1 else 0
  {
  }

  lemma StuckAt(b: Board, r: nat, c: nat)
    requires InGrid(r, c) && Fillable(b[r][c]) && Choices(b[r][c]) == []
    ensures Stuck(b)
  {
  }

  lemma FillNextRow(cur: Board, b: Board, draw: nat -> nat, r: nat)
    requires FilledBefore(cur, b, draw, r, N) && DrawableBefore(b, r, N)
    ensures FilledBefore(cur, b, draw, r + 1, 0) && DrawableBefore(b, r + 1, 0)
  {
    forall r', c' | InGrid(r', c') ensures Before(r', c', r, N) == Before(r', c', r + 1, 0) { }
  }

  /** The body of the fill loop at cell `(r, c)`: `draw` is what the generator had still
      to give when the pass began (at position `start`), `t` how much of it is used. */
  method FillCell(g: array2<Cell>, rng: Generator, ghost b: Board, ghost draw: nat -> nat, ghost start: nat,
                  r: nat, c: nat, t0: nat)
    returns (ok: bool, t: nat)
    requires g.Length0 == N && g.Length1 == N && InGrid(r, c)
    requires t0 == DrawIndex(b, r, c) && FilledBefore(Snap(g), b, draw, r, c) && DrawableBefore(b, r, c)
    requires rng.pos == start + t0 && draw(t0) == rng.stream(rng.pos)
    modifies g, rng
    ensures rng.stream == old(rng.stream) && rng.pos == start + t
    ensures ok ==> t == DrawIndex(b, r, c + 1) && FilledBefore(Snap(g), b, draw, r, c + 1) && DrawableBefore(b, r, c + 1)
    ensures !ok ==> Stuck(b)
  {
    t := t0;
    ghost var cur := Snap(g);
    var cell := g[r, c];
    assert cell == b[r][c] by {
      assert !Before(r, c, r, c);
    }
    if cell.Empty? || cell.Marker? {
      var choices := Choices(cell);
      if |choices| == 0 {
        // random.choice raises IndexError on an empty list
        StuckAt(b, r, c);
        return false, t;
      }
      DrawIndexNext(b, r, c);
      DrawableStep(b, r, c);
      FillStep(cur, b, draw, r, c);
      var i := rng.Choice(|choices|);
      assert FilledCell(b, draw, r, c) == Letter(choices[draw(t0) % |choices|]);
      SetCell(g, r, c, Letter(choices[i]));
      t := t + 1;
    } else {
      DrawIndexNext(b, r, c);
      DrawableStep(b, r, c);
      SkipStep(cur, b, draw, r, c);
    }
    ok := true;
  }

  /** The inner `for c in range(10)` loop of the fill pass on row `r`. */
  method FillRow(g: array2<Cell>, rng: Generator, ghost b: Board, ghost draw: nat -> nat, ghost start: nat,
                 r: nat, t0: nat)
    returns (ok: bool, t: nat)
    requires g.Length0 == N && g.Length1 == N && r < N
    requires t0 == CountRows(b, r) && FilledBefore(Snap(g), b, draw, r, 0) && DrawableBefore(b, r, 0)
    requires rng.pos == start + t0 && forall i :: draw(i) == rng.stream(start + i)
    modifies g, rng
    ensures rng.stream == old(rng.stream) && rng.pos == start + t
    ensures ok ==> t == CountRows(b, r + 1) && FilledBefore(Snap(g), b, draw, r + 1, 0) && DrawableBefore(b, r + 1, 0)
    ensures !ok ==> Stuck(b)
  {
    t := t0;
    for c := 0 to N
      invariant t == DrawIndex(b, r, c) && rng.pos == start + t
      invariant rng.stream == old(rng.stream)
      invariant FilledBefore(Snap(g), b, draw, r, c) && DrawableBefore(b, r, c)
    {
      assert draw(t) == rng.stream(start + t);
      ok, t := FillCell(g, rng, b, draw, start, r, c, t);
      if !ok {
        return;
      }
    }
    ok := true;
    FillNextRow(Snap(g), b, draw, r);
  }

  /** The row-major fill loop. It stops with `ok == false` where `random.choice` would be
      handed an empty list; otherwise the grid is the reference fill of the old grid with
      the generator's upcoming outputs, one consumed per filled cell. */
  method FillPass(g: array2<Cell>, rng: Generator) returns (ok: bool)
    requires g.Length0 == N && g.Length1 == N
    modifies g, rng
    ensures ok <==> FillOutcome(old(Snap(g)), old(rng.Upcoming())).Some?
    ensures ok ==> Snap(g) == FillOutcome(old(Snap(g)), old(rng.Upcoming())).value
    ensures ok ==> rng.pos == old(rng.pos) + CountRows(old(Snap(g)), N)
    ensures rng.stream == old(rng.stream)
  {
    ghost var b := Snap(g);
    ghost var draw := rng.Upcoming();
    ghost var start := rng.pos;
    var t := 0;
    for r := 0 to N
      invariant t == CountRows(b, r)
      invariant rng.stream == old(rng.stream) && rng.pos == start + t
      invariant FilledBefore(Snap(g), b, draw, r, 0) && DrawableBefore(b, r, 0)
    {
      ok, t := FillRow(g, rng, b, draw, start, r, t);
      if !ok {
        return;
      }
    }
    ok := true;
    FillPassResult(Snap(g), b, draw);
  }

  lemma FillPassResult(cur: Board, b: Board, draw: nat -> nat)
    requires FilledBefore(cur, b, draw, N, 0) && DrawableBefore(b, N, 0)
    ensures FillOutcome(b, draw).Some? && cur == FillOutcome(b, draw).value
  {
    forall r, c | InGrid(r, c) ensures Drawable(b[r][c]) {
      assert Before(r, c, N, 0);
    }
    forall r, c | InGrid(r, c) ensures cur[r][c] == FillOutcome(b, draw).value[r][c] {
      assert Before(r, c, N, 0);
      assert FillOutcome(b, draw).value[r][c] == FilledCell(b, draw, r, c);
    }
    BoardsEqual(cur, FillOutcome(b, draw).value);
  }
}
