/**
  `create_crossword` end to end, over the mutable grid and the module-level generator
  (icsc/qualification/crosswords.py:5-116), and the copy that reseeds the generator
  with 42 on entry (icsc/qualification/ICSC_Qualification_Round_2025_Skeleton/problem_d.py:5-109).
 */
module CrosswordGenerator {
  import opened Wrappers
  import opened CrosswordWords
  import opened CrosswordBoard
  import opened CrosswordFill
  import opened CrosswordGrid
  import opened Random

  /** The fill depends on the draws only through their values. */
  lemma CrosswordCongruent(words: seq<string>, d1: nat -> nat, d2: nat -> nat)
    requires forall t :: d1(t) == d2(t)
    ensures Crossword(words, d1) == Crossword(words, d2)
  {
    var b := Placed(words);
    if !Stuck(b) {
      var o1, o2 := FillOutcome(b, d1).value, FillOutcome(b, d2).value;
      forall r, c | InGrid(r, c) ensures o1[r][c] == o2[r][c] {
        assert o1[r][c] == FilledCell(b, d1, r, c);
        assert o2[r][c] == FilledCell(b, d2, r, c);
      }
      BoardsEqual(o1, o2);
    }
  }

  /** The grid as the source builds it: `[[None] * 10 for _ in range(10)]`. */
  method NewGrid() returns (g: array2<Cell>)
    ensures fresh(g) && g.Length0 == N && g.Length1 == N
    ensures Snap(g) == EmptyBoard()
  {
    g := new Cell[N, N]((_, _) => Empty);
    BoardsEqual(Snap(g), EmptyBoard());
  }

  /** One turn of `for wi, w in enumerate(seq)`: find the run, write the unit along it
      and, for a distractor, mark the cell after it. */
  method PlaceUnit(g: array2<Cell>, w: string, wi: nat, fullMap: map<string, seq<string>>)
    requires g.Length0 == N && g.Length1 == N && ParentsNonEmptyWords(fullMap)
    modifies g
    ensures Snap(g) == PlaceStep(old(Snap(g)), w, wi, fullMap)
  {
    var isDistractor := w in fullMap;
    var best, placements := FindPlacement(g, w, isDistractor, wi);
    if best.None? {
      if placements == [] {
        return;
      }
      // `best = random.choice(placements)`: a non-empty list always has a best entry
      assert false;
    }
    var p := best.value;
    CommitRun(g, w, p);
    if isDistractor {
      MarkAfterRun(g, w, p, fullMap[w]);
    }
  }

  /** `create_crossword(words)` of crosswords.py: `ok == false` where the fill pass
      raises; otherwise `g` is the reference crossword for the generator's upcoming
      outputs. Words are taken to be ASCII letters. */
  method CreateCrossword(words: seq<string>, rng: Generator) returns (g: array2<Cell>, ok: bool)
    requires forall i :: 0 <= i < |words| ==> IsLetters(words[i])
    modifies rng
    ensures fresh(g) && g.Length0 == N && g.Length1 == N
    ensures ok <==> Crossword(words, old(rng.Upcoming())).Some?
    ensures ok ==> Snap(g) == Crossword(words, old(rng.Upcoming())).value
    ensures rng.stream == old(rng.stream)
    ensures ok ==> rng.pos == old(rng.pos) + CountRows(Placed(words), N)
  {
    var fullMap := MapOf(words);
    var units := Units(words);
    g := NewGrid();
    for wi := 0 to |units|
      invariant Snap(g) == PlaceUnits(EmptyBoard(), units, fullMap, wi)
      invariant rng.stream == old(rng.stream) && rng.pos == old(rng.pos)
    {
      PlaceUnit(g, units[wi], wi, fullMap);
    }
    ok := FillPass(g, rng);
  }

  /** `create_crossword(words)` of problem_d.py, which calls `random.seed(42)` first:
      the outcome is the reference crossword for the outputs of seed 42, whatever the
      generator's state before the call. */
  method CreateCrosswordSeeded(words: seq<string>, rng: Generator) returns (g: array2<Cell>, ok: bool)
    requires forall i :: 0 <= i < |words| ==> IsLetters(words[i])
    modifies rng
    ensures fresh(g) && g.Length0 == N && g.Length1 == N
    ensures ok <==> Crossword(words, rng.streamOf(42)).Some?
    ensures ok ==> Snap(g) == Crossword(words, rng.streamOf(42)).value
  {
    rng.Seed(42);
    CrosswordCongruent(words, rng.Upcoming(), rng.streamOf(42));
    g, ok := CreateCrossword(words, rng);
  }

  /** Two calls of the reseeding version on the same words give the same grid. */
  method SeededRunsAgree(words: seq<string>, rng: Generator) returns (same: bool)
    requires forall i :: 0 <= i < |words| ==> IsLetters(words[i])
    modifies rng
    ensures same
  {
    var g1, ok1 := CreateCrosswordSeeded(words, rng);
    var g2, ok2 := CreateCrosswordSeeded(words, rng);
    same := ok1 == ok2 && (ok1 ==> Snap(g1) == Snap(g2));
  }
}
