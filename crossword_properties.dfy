/**
  What the finished word search guarantees (icsc/qualification/crosswords.py:5-116):
  every cell holds an upper-case letter, every placed unit can still be read along its
  run, and a cell that was still a marker when the fill began gets a letter that does
  not complete any of the marker's parent words.
 */
module CrosswordProperties {
  import opened Wrappers
  import opened CrosswordWords
  import opened CrosswordBoard
  import opened CrosswordPlacement
  import opened CrosswordFill

  /** Letters are upper case; a marker is a non-empty run of lower-case letters. */
  predicate WellFormedCell(cell: Cell)
  {
    match cell
    case Empty => true
    case Letter(ch) => IsUpperLetter(ch)
    case Marker(letters) => |letters| > 0 && forall i :: 0 <= i < |letters| ==> IsLowerLetter(letters[i])
  }

  ghost predicate WellFormed(b: Board)
  {
    forall r, c :: InGrid(r, c) ==> WellFormedCell(CellAt(b, r, c))
  }

  /** Cell `(r, c)`; quantifiers over the grid are stated with it so that they apply
      only where a proof names a cell. */
  function CellAt(b: Board, r: int, c: int): Cell
    requires InGrid(r, c)
  {
    b[r][c]
  }

  /** The words behind every distractor are non-empty upper-case words, and there is
      at least one. */
  predicate GoodMap(fullMap: map<string, seq<string>>)
  {
    ParentsNonEmptyWords(fullMap) &&
    forall d :: d in fullMap ==> fullMap[d] != [] && forall f :: f in fullMap[d] ==> IsUpperWord(f)
  }

  ghost predicate EndsSomeParent(parents: seq<string>, ch: char)
    requires forall f :: f in parents ==> |f| > 0
  {
    exists i :: 0 <= i < |parents| && ch == parents[i][|parents[i]| - 1]
  }

  /** The marker written after a distractor is a well-formed marker. */
  lemma MarkerWellFormed(parents: seq<string>)
    requires parents != [] && forall f :: f in parents ==> IsUpperWord(f) && |f| > 0
    ensures WellFormedCell(Marker(MarkerText(parents)))
  {
    var m := MarkerText(parents);
    var last := LastLetters(parents);
    assert parents[0] in parents;
    assert last[0] in m;
    forall i | 0 <= i < |m| ensures IsLowerLetter(m[i]) {
      assert m[i] in last;
      var j :| 0 <= j < |last| && last[j] == m[i];
      assert parents[j] in parents;
    }
  }

  /** Each banned letter ends some parent word. */
  lemma BannedEndsParent(parents: seq<string>, ch: char)
    requires forall f :: f in parents ==> IsUpperWord(f) && |f| > 0
    requires ch in Banned(Marker(MarkerText(parents)))
    ensures EndsSomeParent(parents, ch)
  {
    var m := MarkerText(parents);
    var last := LastLetters(parents);
    var i :| 0 <= i < |m| && ch == UpperChar(m[i]);
    assert m[i] in last;
    var j :| 0 <= j < |last| && last[j] == m[i];
    assert parents[j] in parents;
    assert IsUpperLetter(parents[j][|parents[j]| - 1]);
  }

  /** The last letter of each parent word is banned. */
  lemma ParentEndBanned(parents: seq<string>, j: nat)
    requires forall f :: f in parents ==> IsUpperWord(f) && |f| > 0
    requires j < |parents|
    ensures parents[j][|parents[j]| - 1] in Banned(Marker(MarkerText(parents)))
  {
    var m := MarkerText(parents);
    var last := LastLetters(parents);
    assert parents[j] in parents;
    assert IsUpperLetter(parents[j][|parents[j]| - 1]);
    assert last[j] in m;
    var i :| 0 <= i < |m| && m[i] == last[j];
    assert UpperChar(m[i]) == parents[j][|parents[j]| - 1];
  }

  /** The marker written after a distractor bans exactly the last letters of its
      parent words. */
  lemma MarkerBansParentEnds(parents: seq<string>)
    requires forall f :: f in parents ==> IsUpperWord(f) && |f| > 0
    ensures forall ch :: ch in Banned(Marker(MarkerText(parents))) <==> EndsSomeParent(parents, ch)
  {
    forall ch ensures ch in Banned(Marker(MarkerText(parents))) <==> EndsSomeParent(parents, ch) {
      if ch in Banned(Marker(MarkerText(parents))) {
        BannedEndsParent(parents, ch);
      }
      if EndsSomeParent(parents, ch) {
        var j :| 0 <= j < |parents| && ch == parents[j][|parents[j]| - 1];
        ParentEndBanned(parents, j);
      }
    }
  }

  /** A placement step keeps the grid well formed. */
  lemma PlaceStepWellFormed(b: Board, w: string, wi: nat, fullMap: map<string, seq<string>>)
    requires WellFormed(b) && IsUpperWord(w) && GoodMap(fullMap)
    ensures WellFormed(PlaceStep(b, w, wi, fullMap))
  {
    PlaceStepEffect(b, w, wi, fullMap);
    if w in fullMap {
      MarkerWellFormed(fullMap[w]);
    }
  }

  lemma {:induction false} PlaceUnitsWellFormed(b: Board, units: seq<string>, fullMap: map<string, seq<string>>, k: nat)
    requires k <= |units| && WellFormed(b) && GoodMap(fullMap)
    requires forall i :: 0 <= i < |units| ==> IsUpperWord(units[i])
    ensures WellFormed(PlaceUnits(b, units, fullMap, k))
  {
    if k > 0 {
      PlaceUnitsWellFormed(b, units, fullMap, k - 1);
      PlaceUnitsStepWellFormed(b, units, fullMap, k);
    }
  }

  lemma PlaceUnitsStepWellFormed(b: Board, units: seq<string>, fullMap: map<string, seq<string>>, k: nat)
    requires 0 < k <= |units| && GoodMap(fullMap) && IsUpperWord(units[k - 1])
    requires WellFormed(PlaceUnits(b, units, fullMap, k - 1))
    ensures WellFormed(PlaceUnits(b, units, fullMap, k))
  {
    PlaceStepWellFormed(PlaceUnits(b, units, fullMap, k - 1), units[k - 1], k - 1, fullMap);
  }

  /** For words of ASCII letters every unit is upper case and every distractor has
      upper-case parents. */
  lemma UnitsUpper(words: seq<string>)
    requires forall i :: 0 <= i < |words| ==> IsLetters(words[i])
    ensures forall i :: 0 <= i < |Units(words)| ==> IsUpperWord(Units(words)[i])
    ensures GoodMap(MapOf(words))
  {
    var base := UpperAll(words);
    var ds := Distractors(base);
    var units := Units(words);
    forall i | 0 <= i < |units| ensures IsUpperWord(units[i]) {
      assert units[i] in multiset(base + ds);
      if units[i] !in base {
        DistractorsAreChops(base, units[i]);
      }
    }
    forall d | d in MapOf(words) ensures MapOf(words)[d] != [] {
      ParentsNonEmpty(base, d);
    }
  }

  lemma PlacedWellFormed(words: seq<string>)
    requires forall i :: 0 <= i < |words| ==> IsLetters(words[i])
    ensures WellFormed(Placed(words))
  {
    UnitsUpper(words);
    PlaceUnitsWellFormed(EmptyBoard(), Units(words), MapOf(words), |Units(words)|);
  }

  /** Full resolution: a finished grid holds an upper-case letter in every cell. */
  lemma CrosswordResolved(words: seq<string>, draw: nat -> nat)
    requires forall i :: 0 <= i < |words| ==> IsLetters(words[i])
    requires Crossword(words, draw).Some?
    ensures forall r, c :: InGrid(r, c) ==>
      Crossword(words, draw).value[r][c].Letter? && IsUpperLetter(Crossword(words, draw).value[r][c].ch)
  {
    PlacedWellFormed(words);
    FillResolves(Placed(words), draw);
  }

  /** Coverage: a unit that found a run is still spelled along it in the finished grid. */
  lemma CrosswordSpellsUnit(words: seq<string>, draw: nat -> nat, j: nat, p: Placement)
    requires Crossword(words, draw).Some? && j < |Units(words)|
    requires ChosenAt(EmptyBoard(), Units(words), MapOf(words), j, p)
    ensures Spells(Crossword(words, draw).value, Units(words)[j], p)
  {
    var units := Units(words);
    var w := units[j];
    PlacedUnitsSpelled(EmptyBoard(), units, MapOf(words), j, |units|, p);
    FillResolves(Placed(words), draw);
    forall i | 0 <= i < |w| ensures At(Crossword(words, draw).value, p, i) == Letter(w[i]) {
      assert At(Placed(words), p, i) == Letter(w[i]);
    }
  }

  /** The fill gives a marker cell a letter that completes none of its distractor's
      parent words. */
  lemma FillRespectsMarker(b: Board, draw: nat -> nat, r: int, c: int, parents: seq<string>)
    requires FillOutcome(b, draw).Some? && InGrid(r, c)
    requires forall f :: f in parents ==> IsUpperWord(f) && |f| > 0
    requires b[r][c] == Marker(MarkerText(parents))
    ensures FillOutcome(b, draw).value[r][c].Letter?
    ensures !EndsSomeParent(parents, FillOutcome(b, draw).value[r][c].ch)
  {
    FillResolves(b, draw);
    MarkerBansParentEnds(parents);
  }

  /** A cell that is a marker when the fill begins never receives the letter that would
      complete the marker's distractor into one of its parent words. */
  lemma CrosswordRespectsMarker(words: seq<string>, draw: nat -> nat, r: int, c: int, parents: seq<string>)
    requires Crossword(words, draw).Some? && InGrid(r, c)
    requires forall f :: f in parents ==> IsUpperWord(f) && |f| > 0
    requires Placed(words)[r][c] == Marker(MarkerText(parents))
    ensures Crossword(words, draw).value[r][c].Letter?
    ensures !EndsSomeParent(parents, Crossword(words, draw).value[r][c].ch)
  {
    FillRespectsMarker(Placed(words), draw, r, c, parents);
  }
}
