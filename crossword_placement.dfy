/**
  What the placement stage promises (icsc/qualification/crosswords.py:36-106):
  where a unit may go, which run is chosen, what committing it writes, and that letters
  once placed stay in the grid.
 */
module CrosswordPlacement {
  import opened Wrappers
  import opened CrosswordWords
  import opened CrosswordBoard

  /** The run `p` spells `w` on the board. */
  predicate Spells(b: Board, w: string, p: Placement)
  {
    RunInGrid(p, |w|) && forall i :: 0 <= i < |w| ==> At(b, p, i) == Letter(w[i])
  }

  /** No upper-case letter of `b` is changed in `b'`. */
  ghost predicate KeepsLetters(b: Board, b': Board)
  {
    forall r, c :: InGrid(r, c) && b[r][c].Letter? ==> b'[r][c] == b[r][c]
  }

  lemma KeepsLettersTransitive(a: Board, b: Board, c: Board)
    requires KeepsLetters(a, b) && KeepsLetters(b, c)
    ensures KeepsLetters(a, c)
  {
  }

  lemma SpellsKept(b: Board, b': Board, w: string, p: Placement)
    requires Spells(b, w, p) && KeepsLetters(b, b')
    ensures Spells(b', w, p)
  {
    forall i | 0 <= i < |w| ensures At(b', p, i) == Letter(w[i]) {
      assert At(b, p, i) == Letter(w[i]);
      assert b[Row(p, i)][Col(p, i)].Letter?;
    }
  }

  /** The list is in strictly increasing scan order. */
  lemma {:induction false} ScanUpToIncreasing(b: Board, w: string, isDistractor: bool, wi: nat, r: nat, c: nat, k: nat)
    requires (c < N && k <= 3) || (c == N && k == 0)
    ensures forall i, j :: 0 <= i < j < |ScanUpTo(b, w, isDistractor, wi, r, c, k)| ==>
      ScansBefore(ScanUpTo(b, w, isDistractor, wi, r, c, k)[i], ScanUpTo(b, w, isDistractor, wi, r, c, k)[j])
    decreases r, c, k
  {
    if k > 0 {
      var prev := ScanUpTo(b, w, isDistractor, wi, r, c, k - 1);
      var cur := ScanUpTo(b, w, isDistractor, wi, r, c, k);
      var p := Placement(r, c, DirAt(k - 1));
      ScanUpToIncreasing(b, w, isDistractor, wi, r, c, k - 1);
      ScanUpToSound(b, w, isDistractor, wi, r, c, k - 1);
      forall i, j | 0 <= i < j < |cur| ensures ScansBefore(cur[i], cur[j]) {
        assert cur[i] == prev[i];
        if j == |prev| {
          assert cur[j] == p && prev[i] in prev;
        } else {
          assert cur[j] == prev[j];
        }
      }
    } else if c > 0 {
      ScanUpToIncreasing(b, w, isDistractor, wi, r, c - 1, 3);
    } else if r > 0 {
      ScanUpToIncreasing(b, w, isDistractor, wi, r - 1, N, 0);
    }
  }

  /** Every feasible placement visited before the scan's current point is listed. */
  lemma {:induction false} ScanUpToComplete(b: Board, w: string, isDistractor: bool, wi: nat, r: nat, c: nat, k: nat)
    requires (c < N && k <= 3) || (c == N && k == 0)
    ensures forall q :: Feasible(b, w, isDistractor, wi, q) && VisitedBefore(q, r, c, k) ==>
      q in ScanUpTo(b, w, isDistractor, wi, r, c, k)
    decreases r, c, k
  {
    if k > 0 {
      var p := Placement(r, c, DirAt(k - 1));
      ScanUpToComplete(b, w, isDistractor, wi, r, c, k - 1);
      forall q | Feasible(b, w, isDistractor, wi, q) && VisitedBefore(q, r, c, k)
        ensures q in ScanUpTo(b, w, isDistractor, wi, r, c, k)
      {
        if !VisitedBefore(q, r, c, k - 1) {
          assert q == p;
        }
      }
    } else if c > 0 {
      ScanUpToComplete(b, w, isDistractor, wi, r, c - 1, 3);
    } else if r > 0 {
      ScanUpToComplete(b, w, isDistractor, wi, r - 1, N, 0);
    }
  }

  /** Every feasible placement is listed in `placements`. */
  lemma FeasibleIsListed(b: Board, w: string, isDistractor: bool, wi: nat, q: Placement)
    requires Feasible(b, w, isDistractor, wi, q)
    ensures q in Placements(b, w, isDistractor, wi)
  {
    ScanUpToComplete(b, w, isDistractor, wi, N, 0, 0);
  }

  /** `placements` is in strictly increasing scan order, so no run is listed twice. */
  lemma PlacementsOrdered(b: Board, w: string, isDistractor: bool, wi: nat, i: int, j: int)
    requires 0 <= i < j < |Placements(b, w, isDistractor, wi)|
    ensures ScansBefore(Placements(b, w, isDistractor, wi)[i], Placements(b, w, isDistractor, wi)[j])
  {
    ScanUpToIncreasing(b, w, isDistractor, wi, N, 0, 0);
  }

  /** The chosen run: `None` exactly when no placement is feasible; otherwise a feasible
      placement with the most intersections, and the first such one in scan order
      (row, then column, then direction). */
  lemma BestIsFirstMaximal(b: Board, w: string, isDistractor: bool, wi: nat)
    ensures Best(b, w, isDistractor, wi).None? <==> forall q :: !Feasible(b, w, isDistractor, wi, q)
    ensures Best(b, w, isDistractor, wi).Some? ==>
      var p := Best(b, w, isDistractor, wi).value;
      Feasible(b, w, isDistractor, wi, p) &&
      forall q :: Feasible(b, w, isDistractor, wi, q) ==>
        Inter(b, w, q) <= Inter(b, w, p) && (Inter(b, w, q) == Inter(b, w, p) ==> p == q || ScansBefore(p, q))
  {
    var ps := Placements(b, w, isDistractor, wi);
    forall q | Feasible(b, w, isDistractor, wi, q)
      ensures q in ps
    {
      FeasibleIsListed(b, w, isDistractor, wi, q);
    }
    if ps != [] {
      ScanUpToSound(b, w, isDistractor, wi, N, 0, 0);
      var s := Scores(b, w, ps);
      var k := FirstMax(s);
      var p := ps[k];
      assert Best(b, w, isDistractor, wi) == Some(p);
      forall q | Feasible(b, w, isDistractor, wi, q)
        ensures Inter(b, w, q) <= Inter(b, w, p) && (Inter(b, w, q) == Inter(b, w, p) ==> p == q || ScansBefore(p, q))
      {
        var j :| 0 <= j < |ps| && ps[j] == q;
        assert s[j] == Inter(b, w, q) && s[k] == Inter(b, w, p);
        if Inter(b, w, q) == Inter(b, w, p) && j != k {
          assert k < j;
          PlacementsOrdered(b, w, isDistractor, wi, k, j);
        }
      }
    }
  }

  /** The very first unit never takes the top-left horizontal run. */
  lemma FirstUnitSkipsTopLeft(b: Board, w: string, isDistractor: bool)
    ensures Best(b, w, isDistractor, 0) != Some(Placement(0, 0, Right))
  {
  }

  /** Committing `w` along `p` writes the run's cells and nothing else. */
  lemma {:induction false} CommitUpToCells(b: Board, w: string, p: Placement, n: nat, r: int, c: int)
    requires n <= |w| && RunInGrid(p, |w|) && InGrid(r, c)
    ensures CommitUpTo(b, w, p, n)[r][c] ==
      if OnRun(p, n, r, c) then Letter(w[Offset(p, r, c)]) else b[r][c]
  {
    if n > 0 {
      CommitUpToCells(b, w, p, n - 1, r, c);
    }
  }

  lemma CommitCells(b: Board, w: string, p: Placement)
    requires RunInGrid(p, |w|)
    ensures forall r, c :: InGrid(r, c) ==>
      Commit(b, w, p)[r][c] == if OnRun(p, |w|, r, c) then Letter(w[Offset(p, r, c)]) else b[r][c]
  {
    forall r, c | InGrid(r, c)
      ensures Commit(b, w, p)[r][c] == if OnRun(p, |w|, r, c) then Letter(w[Offset(p, r, c)]) else b[r][c]
    {
      CommitUpToCells(b, w, p, |w|, r, c);
    }
  }

  /** A conflict-free commit leaves every existing letter as it was, and afterwards the
      run spells the unit. */
  lemma CommitKeepsLetters(b: Board, w: string, p: Placement)
    requires RunInGrid(p, |w|) && !HasConflict(b, w, p)
    ensures KeepsLetters(b, Commit(b, w, p))
    ensures Spells(Commit(b, w, p), w, p)
  {
    CommitCells(b, w, p);
    forall r, c | InGrid(r, c) && b[r][c].Letter?
      ensures Commit(b, w, p)[r][c] == b[r][c]
    {
      if OnRun(p, |w|, r, c) {
        var i := Offset(p, r, c);
        assert At(b, p, i) == b[r][c];
        assert !Conflicts(At(b, p, i), w[i]);
      }
    }
    forall i | 0 <= i < |w|
      ensures At(Commit(b, w, p), p, i) == Letter(w[i])
    {
      assert OnRun(p, |w|, Row(p, i), Col(p, i)) && Offset(p, Row(p, i), Col(p, i)) == i;
    }
  }

  /** One turn of the unit loop. With no feasible run the grid is unchanged. Otherwise
      the chosen run's cells hold the unit's letters, a distractor adds at least one new
      cell and marks the next cell if it is in the grid and empty, every other cell is
      unchanged, and no letter already placed changes. */
  lemma PlaceStepEffect(b: Board, w: string, wi: nat, fullMap: map<string, seq<string>>)
    requires ParentsNonEmptyWords(fullMap)
    ensures Best(b, w, w in fullMap, wi).None? ==> PlaceStep(b, w, wi, fullMap) == b
    ensures Best(b, w, w in fullMap, wi).Some? ==>
      var p := Best(b, w, w in fullMap, wi).value;
      RunInGrid(p, |w|) &&
      (w in fullMap ==> CountNew(b, w, p, |w|) >= 1) &&
      forall r, c :: InGrid(r, c) ==>
        PlaceStep(b, w, wi, fullMap)[r][c] ==
          if OnRun(p, |w|, r, c) then Letter(w[Offset(p, r, c)])
          else if w in fullMap && r == Row(p, |w|) && c == Col(p, |w|) && b[r][c].Empty? then
            Marker(MarkerText(fullMap[w]))
          else b[r][c]
    ensures KeepsLetters(b, PlaceStep(b, w, wi, fullMap))
  {
    var isDistractor := w in fullMap;
    if Best(b, w, isDistractor, wi).Some? {
      var p := Best(b, w, isDistractor, wi).value;
      CommitCells(b, w, p);
      CommitKeepsLetters(b, w, p);
    }
  }

  /** Letters placed by a unit are still there after any number of later units. */
  lemma {:induction false} PlaceUnitsKeepsLetters(b: Board, units: seq<string>, fullMap: map<string, seq<string>>, j: nat, k: nat)
    requires j <= k <= |units| && ParentsNonEmptyWords(fullMap)
    ensures KeepsLetters(PlaceUnits(b, units, fullMap, j), PlaceUnits(b, units, fullMap, k))
    decreases k - j
  {
    if j < k {
      var bj := PlaceUnits(b, units, fullMap, j);
      PlaceStepEffect(bj, units[j], j, fullMap);
      PlaceUnitsKeepsLetters(b, units, fullMap, j + 1, k);
      KeepsLettersTransitive(bj, PlaceUnits(b, units, fullMap, j + 1), PlaceUnits(b, units, fullMap, k));
    }
  }

  /** The run chosen for unit `j` is `Some(p)`. */
  predicate ChosenAt(b: Board, units: seq<string>, fullMap: map<string, seq<string>>, j: nat, p: Placement)
    requires j < |units| && ParentsNonEmptyWords(fullMap)
  {
    Best(PlaceUnits(b, units, fullMap, j), units[j], units[j] in fullMap, j) == Some(p)
  }

  /** Coverage: every unit that found a run can still be read along it after all later
      units are placed. */
  lemma PlacedUnitsSpelled(b: Board, units: seq<string>, fullMap: map<string, seq<string>>, j: nat, k: nat, p: Placement)
    requires j < k <= |units| && ParentsNonEmptyWords(fullMap)
    requires ChosenAt(b, units, fullMap, j, p)
    ensures Spells(PlaceUnits(b, units, fullMap, k), units[j], p)
  {
    var bj := PlaceUnits(b, units, fullMap, j);
    var w := units[j];
    PlaceStepEffect(bj, w, j, fullMap);
    var b1 := PlaceUnits(b, units, fullMap, j + 1);
    assert b1 == PlaceStep(bj, w, j, fullMap);
    forall i | 0 <= i < |w| ensures At(b1, p, i) == Letter(w[i]) {
      assert OnRun(p, |w|, Row(p, i), Col(p, i)) && Offset(p, Row(p, i), Col(p, i)) == i;
    }
    PlaceUnitsKeepsLetters(b, units, fullMap, j + 1, k);
    SpellsKept(b1, PlaceUnits(b, units, fullMap, k), w, p);
  }

  /** The feasibility test lets a marker be overwritten by the very letter it bans: on a
      board whose cell (0, 1) holds the marker "e" after an 'X' at (0, 0), the unit "XE"
      fits along the top row, intersecting the 'X', and puts an 'E' over the marker. */
  lemma MarkerCanBeOverwritten()
    ensures
      var b := Set(Set(EmptyBoard(), 0, 0, Letter('X')), 0, 1, Marker("e"));
      var p := Placement(0, 0, Right);
      Feasible(b, "XE", false, 1, p) && Inter(b, "XE", p) == 1 &&
      Upper(b[0][1].letters) == "E" && Commit(b, "XE", p)[0][1] == Letter('E')
  {
    var b := Set(Set(EmptyBoard(), 0, 0, Letter('X')), 0, 1, Marker("e"));
    var p := Placement(0, 0, Right);
    assert At(b, p, 0) == Letter('X') && At(b, p, 1) == Marker("e");
    assert !HasConflict(b, "XE", p);
    CommitCells(b, "XE", p);
    assert OnRun(p, 2, 0, 1);
  }
}
