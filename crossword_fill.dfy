/**
  The fill pass of `create_crossword` (icsc/qualification/crosswords.py:107-115) as a
  function of the placed board and the random draws. `draw(t)` is the generator's
  `t`-th pick in this pass, and `random.choice(lst)` is `lst[draw(t) % |lst|]`.
 */
module CrosswordFill {
  import opened Wrappers
  import opened CrosswordWords
  import opened CrosswordBoard

  /** `string.ascii_uppercase` */
  const Alphabet: string := "ABCDEFGHIJKLMNOPQRSTUVWXYZ"

  lemma AlphabetIsUpper()
    ensures forall ch :: ch in Alphabet <==> IsUpperLetter(ch)
  {
    forall ch | IsUpperLetter(ch) ensures ch in Alphabet {
      var i := ch as int - 'A' as int;
      assert Alphabet[i] == ch;
    }
  }

  /** `cell is None or cell.islower()`: markers are the lower-case strings. */
  predicate Fillable(cell: Cell)
  {
    cell.Empty? || cell.Marker?
  }

  /** `set(cell.upper()) if cell else set()` */
  function Banned(cell: Cell): set<char>
  {
    if cell.Marker? then set i | 0 <= i < |cell.letters| :: UpperChar(cell.letters[i]) else {}
  }

  /** The letters of `s` outside `banned`, in order. */
  function Without(s: string, banned: set<char>): (r: string)
    ensures forall ch :: ch in r <==> ch in s && ch !in banned
  {
    if s == [] then []
    else (if s[0] in banned then [] else [s[0]]) + Without(s[1..], banned)
  }

  /** `list(set(string.ascii_uppercase) - banned)`; Python's set order is unspecified,
      here the letters are in alphabetical order. */
  function Choices(cell: Cell): (cs: string)
    ensures forall ch :: ch in cs <==> IsUpperLetter(ch) && ch !in Banned(cell)
  {
    AlphabetIsUpper();
    Without(Alphabet, Banned(cell))
  }

  /** Fillable cells among the first `c` of a row. */
  function CountRow(row: seq<Cell>, c: nat): nat
    requires c <= |row|
    decreases row, c
  {
    if c == 0 then 0 else CountRow(row, c - 1) + (if Fillable(row[c - 1]) then 1 else 0)
  }

  /** Fillable cells in the first `r` rows. */
  function CountRows(b: Board, r: nat): nat
    requires r <= N
    decreases b, r
  {
    if r == 0 then 0 else CountRows(b, r - 1) + CountRow(b[r - 1], N)
  }

  /** How many draws the pass has made when it reaches `(r, c)` in row-major order. */
  function DrawIndex(b: Board, r: nat, c: nat): nat
    requires r < N && c <= N
  {
    CountRows(b, r) + CountRow(b[r], c)
  }

  /** Some fillable cell has nothing left to choose from: `random.choice` raises. */
  predicate Stuck(b: Board)
  {
    exists r, c :: 0 <= r < N && 0 <= c < N && Fillable(b[r][c]) && Choices(b[r][c]) == []
  }

  /** What the pass leaves in cell `(r, c)`: a letter stays; an empty or marker cell with
      a letter left to choose gets one the cell does not ban, picked by the draw at that
      cell's turn. (Where nothing is left to choose the pass raises; the cell is kept.) */
  function FilledCell(b: Board, draw: nat -> nat, r: int, c: int): (out: Cell)
    requires InGrid(r, c)
    ensures !Fillable(b[r][c]) ==> out == b[r][c]
    ensures Fillable(b[r][c]) && Choices(b[r][c]) != [] ==>
      out.Letter? && IsUpperLetter(out.ch) && out.ch !in Banned(b[r][c])
  {
    var cell := b[r][c];
    if Fillable(cell) && Choices(cell) != [] then
      var cs := Choices(cell);
      Letter(cs[draw(DrawIndex(b, r, c)) % |cs|])
    else cell
  }

  /** The grid after the fill pass, or `None` when the pass raises. */
  function FillOutcome(b: Board, draw: nat -> nat): Option<Board>
  {
    if Stuck(b) then None
    else Some(seq(N, r requires 0 <= r < N => seq(N, c requires 0 <= c < N => FilledCell(b, draw, r, c))))
  }

  /** A marker whose banned set covers the whole alphabet. */
  ghost predicate BansAll(cell: Cell)
  {
    cell.Marker? && forall ch :: IsUpperLetter(ch) ==> ch in Banned(cell)
  }

  /** The pass only raises on a marker that bans every letter of the alphabet. */
  lemma StuckOnlyOnFullBan(b: Board)
    ensures Stuck(b) <==> exists r, c :: 0 <= r < N && 0 <= c < N && BansAll(b[r][c])
  {
    if Stuck(b) {
      var r, c :| 0 <= r < N && 0 <= c < N && Fillable(b[r][c]) && Choices(b[r][c]) == [];
      forall ch | IsUpperLetter(ch) ensures ch in Banned(b[r][c]) {
        assert ch !in Choices(b[r][c]);
      }
      assert BansAll(b[r][c]);
    }
    if exists r, c :: 0 <= r < N && 0 <= c < N && BansAll(b[r][c]) {
      var r, c :| 0 <= r < N && 0 <= c < N && BansAll(b[r][c]);
      if Choices(b[r][c]) != [] {
        var x := Choices(b[r][c])[0];
        assert x in Choices(b[r][c]);
      }
    }
  }

  /** The fill pass leaves every letter alone and turns every empty or marker cell into
      an upper-case letter that the marker does not ban. */
  lemma FillResolves(b: Board, draw: nat -> nat)
    requires FillOutcome(b, draw).Some?
    ensures forall r, c :: InGrid(r, c) ==>
      var out := FillOutcome(b, draw).value[r][c];
      (b[r][c].Letter? ==> out == b[r][c]) &&
      (Fillable(b[r][c]) ==> out.Letter? && IsUpperLetter(out.ch) && out.ch !in Banned(b[r][c]))
  {
    forall r, c | InGrid(r, c)
      ensures var out := FillOutcome(b, draw).value[r][c];
        (b[r][c].Letter? ==> out == b[r][c]) &&
        (Fillable(b[r][c]) ==> out.Letter? && IsUpperLetter(out.ch) && out.ch !in Banned(b[r][c]))
    {
      assert FillOutcome(b, draw).value[r][c] == FilledCell(b, draw, r, c);
      if Fillable(b[r][c]) {
        var cs := Choices(b[r][c]);
        assert cs[draw(DrawIndex(b, r, c)) % |cs|] in cs;
      }
    }
  }

  /** The whole generator: the placed grid, filled with the draws `draw`; `None` where the
      fill pass raises. */
  function Crossword(words: seq<string>, draw: nat -> nat): Option<Board>
  {
    FillOutcome(Placed(words), draw)
  }
}
