/**
  The placement stage of `create_crossword` as functions on a board value
  (icsc/qualification/crosswords.py:37-106). The grid `g` of the source holds `None`,
  an upper-case letter, or a lower-case string of banned letters; here these are the
  three cases of `Cell`.
 */
module CrosswordBoard {
  import opened Wrappers
  import opened CrosswordWords

  /** `GRID_SIZE` */
  const N := 10

  datatype Cell = Empty | Letter(ch: char) | Marker(letters: string)

  predicate IsGrid(b: seq<seq<Cell>>)
  {
    |b| == N && forall r :: 0 <= r < N ==> |b[r]| == N
  }

  type Board = b: seq<seq<Cell>> | IsGrid(b) witness seq(N, _ => seq(N, _ => Empty))

  function EmptyBoard(): Board
  {
    seq(N, _ => seq(N, _ => Empty))
  }

  predicate InGrid(r: int, c: int)
  {
    0 <= r < N && 0 <= c < N
  }

  function Set(b: Board, r: int, c: int, v: Cell): (b': Board)
    requires InGrid(r, c)
    ensures forall r', c' :: InGrid(r', c') ==> b'[r'][c'] == if r' == r && c' == c then v else b[r'][c']
  {
    b[r := b[r][c := v]]
  }

  /** Two boards that agree on every cell are equal. */
  lemma BoardsEqual(a: Board, b: Board)
    requires forall r, c :: InGrid(r, c) ==> a[r][c] == b[r][c]
    ensures a == b
  {
    forall r | 0 <= r < N ensures a[r] == b[r] {
      assert forall c :: 0 <= c < N ==> a[r][c] == b[r][c];
    }
  }

  /** `DIRS = ((0, 1), (1, 0), (1, 1))` */
  datatype Dir = Right | Down | DownRight

  function DirAt(k: nat): Dir
    requires k < 3
  {
    if k == 0 then Right else if k == 1 then Down else DownRight
  }

  function DirIndex(d: Dir): (k: nat)
    ensures k < 3 && DirAt(k) == d
  {
    match d
    case Right => 0
    case Down => 1
    case DownRight => 2
  }

  /** A run: start cell and direction `(r, c, dr, dc)`. */
  datatype Placement = Placement(r: int, c: int, d: Dir)

  /** `r + i * dr` */
  function Row(p: Placement, i: int): int
  {
    match p.d
    case Right => p.r
    case Down => p.r + i
    case DownRight => p.r + i
  }

  /** `c + i * dc` */
  function Col(p: Placement, i: int): int
  {
    match p.d
    case Right => p.c + i
    case Down => p.c
    case DownRight => p.c + i
  }

  /** Position of cell `(r, c)` along the direction of `p`, counted from its start. */
  function Offset(p: Placement, r: int, c: int): int
  {
    if p.d == Right then c - p.c else r - p.r
  }

  /** Cell `(r, c)` is one of the first `n` cells of the run. */
  predicate OnRun(p: Placement, n: int, r: int, c: int)
  {
    0 <= Offset(p, r, c) < n && Row(p, Offset(p, r, c)) == r && Col(p, Offset(p, r, c)) == c
  }

  predicate RunInGrid(p: Placement, len: int)
  {
    forall i :: 0 <= i < len ==> InGrid(Row(p, i), Col(p, i))
  }

  /** The one placement skipped for the first unit: top-left, horizontal. */
  predicate Skipped(wi: nat, p: Placement)
  {
    wi == 0 && p.r == 0 && p.c == 0 && p.d == Right
  }

  /** The scan looks at `p`: a grid start, not the skipped one, and an end cell
      `(r + (L - 1) * dr, c + (L - 1) * dc)` inside the grid. */
  predicate Considered(wi: nat, len: nat, p: Placement)
  {
    InGrid(p.r, p.c) && !Skipped(wi, p) && InGrid(Row(p, len - 1), Col(p, len - 1))
  }

  /** A considered run lies wholly inside the grid. */
  lemma ConsideredRunInGrid(wi: nat, len: nat, p: Placement)
    requires Considered(wi, len, p)
    ensures RunInGrid(p, len)
  {
  }

  function At(b: Board, p: Placement, i: int): Cell
    requires InGrid(Row(p, i), Col(p, i))
  {
    b[Row(p, i)][Col(p, i)]
  }

  /** A different upper-case letter is in the way; markers never are. */
  predicate Conflicts(cell: Cell, ch: char)
  {
    cell.Letter? && cell.ch != ch
  }

  /** The cell already holds the letter. */
  predicate Intersects(cell: Cell, ch: char)
  {
    cell == Letter(ch)
  }

  /** The cell is empty, or a marker other than exactly the lower-case `ch`. */
  predicate NeedsWrite(cell: Cell, ch: char)
  {
    cell.Empty? || (cell.Marker? && Upper(cell.letters) != [ch])
  }

  predicate HasConflict(b: Board, w: string, p: Placement)
    requires RunInGrid(p, |w|)
  {
    exists i :: 0 <= i < |w| && Conflicts(At(b, p, i), w[i])
  }

  /** `inter` after the first `n` letters. */
  function CountInter(b: Board, w: string, p: Placement, n: nat): (k: nat)
    requires n <= |w| && RunInGrid(p, |w|)
    ensures k <= n
  {
    if n == 0 then 0 else CountInter(b, w, p, n - 1) + (if Intersects(At(b, p, n - 1), w[n - 1]) then 1 else 0)
  }

  /** `new_cells` after the first `n` letters. */
  function CountNew(b: Board, w: string, p: Placement, n: nat): nat
    requires n <= |w| && RunInGrid(p, |w|)
  {
    if n == 0 then 0 else CountNew(b, w, p, n - 1) + (if NeedsWrite(At(b, p, n - 1), w[n - 1]) then 1 else 0)
  }

  /** `inter` once the walk is over: at most one intersection per letter of `w`. */
  function Inter(b: Board, w: string, p: Placement): (k: nat)
    requires RunInGrid(p, |w|)
    ensures k <= |w|
  {
    CountInter(b, w, p, |w|)
  }

  /** The scan appends `p` to `placements`: considered, no conflict, and a distractor
      must add a new cell. (`RunInGrid` follows from `Considered`.) */
  predicate Feasible(b: Board, w: string, isDistractor: bool, wi: nat, p: Placement)
  {
    Considered(wi, |w|, p) && RunInGrid(p, |w|) && !HasConflict(b, w, p) &&
    !(isDistractor && CountNew(b, w, p, |w|) == 0)
  }

  /** `p` is visited before the scan reaches start `(r, c)` and direction `DIRS[k]`:
      the loops run over rows, then columns, then `DIRS`. */
  predicate VisitedBefore(p: Placement, r: int, c: int, k: int)
  {
    p.r < r || (p.r == r && (p.c < c || (p.c == c && DirIndex(p.d) < k)))
  }

  /** `p` comes before `q` in the scan. */
  predicate ScansBefore(p: Placement, q: Placement)
  {
    VisitedBefore(p, q.r, q.c, DirIndex(q.d))
  }

  /** `placements` when the scan reaches start `(r, c)` and direction `DIRS[k]`; column
      `N` stands for the end of row `r`. (The board leads the termination measure only
      so that the verifier does not unroll the whole scan when the cursor is a literal.) */
  function ScanUpTo(b: Board, w: string, isDistractor: bool, wi: nat, r: nat, c: nat, k: nat): seq<Placement>
    requires (c < N && k <= 3) || (c == N && k == 0)
    decreases b, r, c, k
  {
    if k > 0 then
      var p := Placement(r, c, DirAt(k - 1));
      ScanUpTo(b, w, isDistractor, wi, r, c, k - 1) + (if Feasible(b, w, isDistractor, wi, p) then [p] else [])
    else if c > 0 then ScanUpTo(b, w, isDistractor, wi, r, c - 1, 3)
    else if r > 0 then ScanUpTo(b, w, isDistractor, wi, r - 1, N, 0)
    else []
  }

  /** `placements` once the scan is over: where the scan stands after the last row. Every
      listed run is feasible. */
  function Placements(b: Board, w: string, isDistractor: bool, wi: nat): (ps: seq<Placement>)
    ensures forall q :: q in ps ==> Feasible(b, w, isDistractor, wi, q)
  {
    ScanUpToSound(b, w, isDistractor, wi, N, 0, 0);
    ScanUpTo(b, w, isDistractor, wi, N, 0, 0)
  }

  /** Everything listed is feasible and was visited before the scan's current point. */
  lemma {:induction false} ScanUpToSound(b: Board, w: string, isDistractor: bool, wi: nat, r: nat, c: nat, k: nat)
    requires (c < N && k <= 3) || (c == N && k == 0)
    ensures forall q :: q in ScanUpTo(b, w, isDistractor, wi, r, c, k) ==>
      Feasible(b, w, isDistractor, wi, q) && VisitedBefore(q, r, c, k)
    decreases r, c, k
  {
    if k > 0 {
      ScanUpToSound(b, w, isDistractor, wi, r, c, k - 1);
    } else if c > 0 {
      ScanUpToSound(b, w, isDistractor, wi, r, c - 1, 3);
    } else if r > 0 {
      ScanUpToSound(b, w, isDistractor, wi, r - 1, N, 0);
    }
  }

  /** The index of the first maximum, which is what `if inter > best_i` keeps. */
  function FirstMax(s: seq<int>): (k: nat)
    requires |s| > 0
    ensures k < |s|
    ensures forall j :: 0 <= j < |s| ==> s[j] <= s[k]
    ensures forall j :: 0 <= j < k ==> s[j] < s[k]
  {
    if |s| == 1 then 0
    else
      var k := FirstMax(s[..|s| - 1]);
      if s[|s| - 1] > s[k] then |s| - 1 else k
  }

  /** The `inter` of each listed run, each between 0 and the length of `w`. */
  function Scores(b: Board, w: string, ps: seq<Placement>): (s: seq<int>)
    requires forall q :: q in ps ==> RunInGrid(q, |w|)
    ensures |s| == |ps|
    ensures forall i :: 0 <= i < |s| ==> 0 <= s[i] <= |w|
  {
    seq(|ps|, i requires 0 <= i < |ps| => Inter(b, w, ps[i]))
  }

  /** `best` once the scan is over: the first feasible placement with the most
      intersections, or `None` when nothing is feasible. */
  function Best(b: Board, w: string, isDistractor: bool, wi: nat): (best: Option<Placement>)
    ensures best.None? <==> Placements(b, w, isDistractor, wi) == []
    ensures best.Some? ==> best.value in Placements(b, w, isDistractor, wi)
    ensures best.Some? ==> Feasible(b, w, isDistractor, wi, best.value)
  {
    var ps := Placements(b, w, isDistractor, wi);
    ScanUpToSound(b, w, isDistractor, wi, N, 0, 0);
    if ps == [] then None else Some(ps[FirstMax(Scores(b, w, ps))])
  }

  /** Writes the first `n` letters of `w` along `p` (`g[r + i*dr][c + i*dc] = ch`). */
  function CommitUpTo(b: Board, w: string, p: Placement, n: nat): Board
    requires n <= |w| && RunInGrid(p, |w|)
  {
    if n == 0 then b else Set(CommitUpTo(b, w, p, n - 1), Row(p, n - 1), Col(p, n - 1), Letter(w[n - 1]))
  }

  function Commit(b: Board, w: string, p: Placement): Board
    requires RunInGrid(p, |w|)
  {
    CommitUpTo(b, w, p, |w|)
  }

  /** `s` with repeated characters dropped. */
  function Dedup(s: string): (r: string)
    ensures forall ch :: ch in r <==> ch in s
    ensures forall i, j :: 0 <= i < j < |r| ==> r[i] != r[j]
  {
    if s == [] then []
    else
      var d := Dedup(s[..|s| - 1]);
      assert s == s[..|s| - 1] + [s[|s| - 1]];
      if s[|s| - 1] in d then d else d + [s[|s| - 1]]
  }

  /** `f[-1].lower()` for each parent. */
  function LastLetters(parents: seq<string>): string
    requires forall f :: f in parents ==> |f| > 0
  {
    seq(|parents|, i requires 0 <= i < |parents| => LowerChar(parents[i][|parents[i]| - 1]))
  }

  /** `"".join({f[-1].lower() for f in parents})`; Python leaves the order of the set
      unspecified, here it is the order of first occurrence. A character is in the
      marker exactly when it is the lower-cased last letter of some parent, and no
      character is repeated. */
  function MarkerText(parents: seq<string>): (m: string)
    requires forall f :: f in parents ==> |f| > 0
    ensures forall ch :: ch in m <==> exists j :: 0 <= j < |parents| && ch == LowerChar(parents[j][|parents[j]| - 1])
    ensures forall i, j :: 0 <= i < j < |m| ==> m[i] != m[j]
  {
    LastLettersOfParents(parents);
    Dedup(LastLetters(parents))
  }

  lemma LastLettersOfParents(parents: seq<string>)
    requires forall f :: f in parents ==> |f| > 0
    ensures forall ch :: ch in LastLetters(parents) <==>
      exists j :: 0 <= j < |parents| && ch == LowerChar(parents[j][|parents[j]| - 1])
  {
    var s := LastLetters(parents);
    forall ch ensures ch in s <==> exists j :: 0 <= j < |parents| && ch == LowerChar(parents[j][|parents[j]| - 1]) {
      if ch in s {
        var j :| 0 <= j < |s| && s[j] == ch;
        assert 0 <= j < |parents| && ch == LowerChar(parents[j][|parents[j]| - 1]);
      }
      if exists j :: 0 <= j < |parents| && ch == LowerChar(parents[j][|parents[j]| - 1]) {
        var j :| 0 <= j < |parents| && ch == LowerChar(parents[j][|parents[j]| - 1]);
        assert s[j] == ch;
      }
    }
  }

  /** The cell just past the run, if in the grid and empty, gets the marker. */
  function MarkAfter(b: Board, w: string, p: Placement, parents: seq<string>): Board
    requires forall f :: f in parents ==> |f| > 0
  {
    var rr, cc := Row(p, |w|), Col(p, |w|);
    if InGrid(rr, cc) && b[rr][cc].Empty? then Set(b, rr, cc, Marker(MarkerText(parents))) else b
  }

  /** Every parent word is non-empty, so its last letter exists. */
  predicate ParentsNonEmptyWords(fullMap: map<string, seq<string>>)
  {
    forall d, f :: d in fullMap && f in fullMap[d] ==> |f| > 0
  }

  /** One turn of `for wi, w in enumerate(seq)`. */
  function PlaceStep(b: Board, w: string, wi: nat, fullMap: map<string, seq<string>>): Board
    requires ParentsNonEmptyWords(fullMap)
  {
    var isDistractor := w in fullMap;
    match Best(b, w, isDistractor, wi)
    case None => b
    case Some(p) =>
      var b1 := Commit(b, w, p);
      if isDistractor then MarkAfter(b1, w, p, fullMap[w]) else b1
  }

  /** The grid after the first `k` units. */
  function PlaceUnits(b: Board, units: seq<string>, fullMap: map<string, seq<string>>, k: nat): Board
    requires k <= |units| && ParentsNonEmptyWords(fullMap)
  {
    if k == 0 then b else PlaceStep(PlaceUnits(b, units, fullMap, k - 1), units[k - 1], k - 1, fullMap)
  }

  /** `full_map` of crosswords.py:32-35, built from `base` and `distractors`. */
  function MapOf(words: seq<string>): (m: map<string, seq<string>>)
    ensures ParentsNonEmptyWords(m)
  {
    FullMap(UpperAll(words), Distractors(UpperAll(words)))
  }

  /** `seq`: the base words and distractors, longest first and otherwise in their own
      order. */
  function Units(words: seq<string>): (units: seq<string>)
    ensures multiset(units) == multiset(UpperAll(words) + Distractors(UpperAll(words)))
    ensures NonIncreasing(units)
    ensures forall n: nat :: OfLength(units, n) == OfLength(UpperAll(words) + Distractors(UpperAll(words)), n)
  {
    SortByLengthStable(UpperAll(words) + Distractors(UpperAll(words)));
    SortByLength(UpperAll(words) + Distractors(UpperAll(words)))
  }

  /** The grid after every unit has been placed, before the fill. */
  function Placed(words: seq<string>): Board
  {
    PlaceUnits(EmptyBoard(), Units(words), MapOf(words), |Units(words)|)
  }
}
