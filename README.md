# Competition solutions, modelled in Dafny

This project models four routines from a set of programming-competition solutions
and proves what each one promises.

- **`create_crossword`** builds a 10x10 word search. It upper-cases the words.
  From every word longer than four letters it derives a *distractor*: the word
  minus its last letter, at most three of them. It takes the words and distractors
  longest first. Each one goes on the run with the most shared letters; among equal
  runs it takes the first in row, column and direction order. A word or distractor
  that fits nowhere is dropped without notice. After a distractor, if the cell just
  past its run is inside the grid and empty, it writes a lower-case *marker* there
  naming the letters that would complete it into a real word. Finally it fills every
  empty or marker cell with a random upper-case letter that the marker does not ban. The version in `problem_d.py` is identical, except
  that it reseeds the random generator with 42 on entry.
- **`minimize_extraction`** decides, query by query, whether to answer cleanly or
  with noise. A clean answer leaks the query's volume and doubles trust, capped at
  the maximum. Noise costs the query's volume in trust and is only allowed while
  trust stays positive. The routine returns the least total leakage, found by a
  memoised recursion.
- **`optimal_cakes`** chooses how many cakes to bake from two recipes so as to
  minimise the ingredients left over, and returns that waste.
- **`cake_calculator`** returns how many cakes one recipe allows, and the spare flour
  and sugar.

## How the model is built

- Pure logic is written as functions. The code that works step by step is written as
  methods:
  - `OptimalCakes` keeps the loop over recipe-A counts.
  - `Extraction.Solver` keeps the memo dictionary as a `map` field.
  - The crossword generator works on an `array2` grid and a `Random.Generator` object.
- The crossword methods and `Extraction.Solver.Solve` are proved equal to reference
  functions:
  - `CrosswordBoard.Placed` is the grid after placement.
  - `CrosswordFill.Crossword` is the finished grid, or `None` where the source raises.
  - `Extraction.Leak` is the recursion of `solve`.
- The properties are proved about those reference functions.
- `OptimalCakes.OptimalCakes` is specified directly: its result is attained by some
  pair of cake counts, and no pair wastes less.

The crossword grid uses three cell kinds: `Empty` (the source's `None`), `Letter`
(a placed or filled character) and `Marker` (a lower-case string of banned letters).

Python's `random` module is modelled by `Random.Generator`:

- `seed(s)` restarts the output stream at `streamOf(s)`.
- Each `choice(lst)` consumes one output `o` and picks `lst[o % len(lst)]`.

## Model

| member | source | states |
|---|---|---|
| CakeCalculator.CakeCalculator | icsc/ICSC_Qualification_Round_2025_Skeleton/problem_b.py:20-37 | fails exactly when flour or sugar is negative; otherwise `cakes*100 + spareFlour == flour`, `cakes*50 + spareSugar == sugar`, both spares are non-negative, and one of them is too small for another cake |
| CakeCalculator.CakesMaximal | icsc/ICSC_Qualification_Round_2025_Skeleton/problem_b.py:27-30 | no number of cakes the ingredients allow exceeds the returned count |
| OptimalCakes.RecipeABound | icsc/semifinal/problem_a1.py:33-34 | any feasible recipe-A count is at most `min(flour//100, sugar//50, eggs//20)`, so the loop sees every feasible count |
| OptimalCakes.RecipeBBound | icsc/semifinal/problem_a1.py:40-49 | for a tried recipe-A count, `ymax` is non-negative and feasible, and no feasible recipe-B count exceeds it; the `ymax < 0` skip never fires |
| OptimalCakes.TriedCountFits | icsc/semifinal/problem_a1.py:34-38 | every recipe-A count the loop tries fits the flour, sugar and eggs on its own |
| OptimalCakes.OptimalCakes | icsc/semifinal/problem_a1.py:24-57 | fails exactly when an input is not positive; otherwise the waste is between 0 and the total, no feasible pair of cake counts wastes less, and some feasible pair wastes exactly that much |
| Extraction.LeakIsLowerBound | icsc/semifinal/problem_b1.py:29-53 | no admissible plan of clean and noisy answers leaks less than the recursion's value |
| Extraction.OptimalPlan | icsc/semifinal/problem_b1.py:38-53 | some admissible plan (noise only while trust stays positive) leaks exactly the recursion's value |
| Extraction.Leak | icsc/semifinal/problem_b1.py:29-53 | the recursion `solve(t, trust)` without its memo, with `None` for the unavailable noise option (a definition, no contract); `LeakIsLowerBound` and `OptimalPlan` prove it is the least leak over all admissible plans |
| Extraction.TrustAfterClean | icsc/semifinal/problem_b1.py:46 | trust after a clean answer is twice the trust when that fits under the cap, and the cap otherwise; never above the cap |
| Extraction.AllClean | icsc/semifinal/problem_b1.py:45-48 | answering every query cleanly is always admissible and leaks the sum of the volumes |
| Extraction.LeakAtMostTotal | icsc/semifinal/problem_b1.py:45-51 | the minimum leakage never exceeds the sum of the remaining volumes |
| Extraction.LeakNonNegative | icsc/semifinal/problem_b1.py:29-53 | with non-negative volumes the minimum leakage is non-negative |
| Extraction.Solver.constructor | icsc/semifinal/problem_b1.py:27 | the memo starts empty and consistent |
| Extraction.Solver.Solve | icsc/semifinal/problem_b1.py:29-53 | returns the recursion's value for `(t, trust)` and leaves every memo entry equal to the recursion's value for its key |
| Extraction.MinimizeExtraction | icsc/semifinal/problem_b1.py:27-55 | returns the minimum leakage from query 0 at the initial trust; with no queries it returns 0 |
| CrosswordWords.Upper | icsc/qualification/crosswords.py:28 | `str.upper` on ASCII: the same word up to case and of the same length; a word of ASCII letters comes out all upper case, and an upper-case word comes out unchanged |
| CrosswordWords.UpperAll | icsc/qualification/crosswords.py:28 | one base word per input word, in input order: each is its input word up to case, letter by letter, and of the same length (so the same words are longer than four letters); an upper-case word is kept as it is, and for ASCII-letter input every base word is upper case |
| CrosswordWords.Chop | icsc/qualification/crosswords.py:31 | `w[:-1]` is one letter shorter than `w` and a prefix of it |
| CrosswordWords.Candidates | icsc/qualification/crosswords.py:31 | one candidate per base word longer than four letters, each at least four letters long; `CandidatesInOrder` ties the k-th to the k-th long word |
| CrosswordWords.Distractors | icsc/qualification/crosswords.py:31 | the `[:3]` slice: at most three distractors, a prefix of the candidates, and all of them when there are no more than three |
| CrosswordWords.CandidatesInOrder | icsc/qualification/crosswords.py:31 | the k-th candidate distractor is the k-th word longer than four letters, chopped and upper-cased |
| CrosswordWords.DistractorsFromLongWords | icsc/qualification/crosswords.py:29-31 | there are `min(3, number of long words)` distractors, drawn from the first long words in order |
| CrosswordWords.DistractorsAreChops | icsc/qualification/crosswords.py:31 | each distractor is a base word longer than four letters minus its last letter, and is upper case |
| CrosswordWords.Parents | icsc/qualification/crosswords.py:33-34 | a word is a parent of `d` exactly when it is a base word that starts with `d` and is one letter longer |
| CrosswordWords.StartsWith | icsc/qualification/crosswords.py:33 | `f.startswith(d)` (a definition, no contract); `Chop`, `Parents` and `FullMap` state their results with it |
| CrosswordWords.FullMap | icsc/qualification/crosswords.py:32-35 | keyed by exactly the distractors; a word is listed under `d` exactly when it is a base word that starts with `d` and is one letter longer; for upper-case base words and their own distractors no list is empty |
| CrosswordWords.ParentsNonEmpty | icsc/qualification/crosswords.py:31-35 | every distractor has at least one parent, and every parent is longer than four letters |
| CrosswordWords.Insert | icsc/qualification/crosswords.py:36 | inserting a word adds exactly that word to the multiset |
| CrosswordWords.InsertSorted | icsc/qualification/crosswords.py:36 | inserting into a list sorted by non-increasing length keeps it sorted |
| CrosswordWords.InsertOfLength | icsc/qualification/crosswords.py:36 | insertion keeps the relative order of equal-length words, with the inserted word first |
| CrosswordWords.SortByLength | icsc/qualification/crosswords.py:36 | the sorted units are a permutation of base words plus distractors |
| CrosswordWords.SortByLengthStable | icsc/qualification/crosswords.py:36 | `sorted(key=len, reverse=True)`: non-increasing length, a permutation, and words of equal length keep their input order |
| CrosswordBoard.Units | icsc/qualification/crosswords.py:36 | `seq` is a permutation of base words plus distractors, non-increasing in length, and keeps the input order of every length |
| CrosswordBoard.FirstMax | icsc/qualification/crosswords.py:84-86 | the index of the first maximal score, which is what the strict `inter > best_i` update keeps |
| CrosswordBoard.Feasible | icsc/qualification/crosswords.py:52-83 | the tests a run passes before it is appended (a definition, no contract): not the skipped first run, end cell in the grid, no conflicting letter, and for a distractor at least one new cell; `BestIsFirstMaximal` and `FeasibleIsListed` are about it |
| CrosswordBoard.Inter | icsc/qualification/crosswords.py:58-71 | `inter` for a run: at most one intersection per letter of the unit |
| CrosswordBoard.ScanUpTo | icsc/qualification/crosswords.py:47-87 | `placements` at a point of the scan (a definition, no contract); `ScanUpToSound`, `ScanUpToComplete` and `ScanUpToIncreasing` state what it holds |
| CrosswordBoard.Placements | icsc/qualification/crosswords.py:45-87 | `placements` after the scan: every listed run is feasible (`PlacementsOrdered` adds that all feasible runs are listed, in scan order) |
| CrosswordBoard.Scores | icsc/qualification/crosswords.py:58-71 | the `inter` of each listed run, one per run, each between 0 and the unit's length |
| CrosswordBoard.ScanUpToSound | icsc/qualification/crosswords.py:47-87 | every run in `placements` passes the skip, bounds, conflict and distractor tests, and was visited before the scan's current start and direction |
| CrosswordBoard.Best | icsc/qualification/crosswords.py:43-92 | `None` exactly when `placements` is empty; otherwise a listed, feasible placement. So the `random.choice(placements)` fallback can never run |
| CrosswordBoard.CommitUpTo | icsc/qualification/crosswords.py:94-96 | the grid after the first `n` letters of the unit are written (a definition, no contract); `CommitCells` states its effect |
| CrosswordBoard.Commit | icsc/qualification/crosswords.py:93-96 | the grid after the whole unit is written (a definition, no contract); `CommitCells` and `CommitKeepsLetters` state its effect |
| CrosswordBoard.Dedup | icsc/qualification/crosswords.py:105 | the set built for the marker holds the same letters, without repeats |
| CrosswordBoard.MarkerText | icsc/qualification/crosswords.py:105 | the marker holds a character exactly when it is the lower-cased last letter of some parent, and repeats none |
| CrosswordBoard.MarkAfter | icsc/qualification/crosswords.py:98-106 | the marker write after a distractor, only into an in-grid empty cell (a definition, no contract); `PlaceStepEffect` states its effect |
| CrosswordBoard.PlaceStep | icsc/qualification/crosswords.py:41-106 | one turn of the unit loop (a definition, no contract); `PlaceStepEffect` states its effect and `BestIsFirstMaximal` the run it takes |
| CrosswordBoard.PlaceUnits | icsc/qualification/crosswords.py:41-106 | the grid after the first `k` units (a definition, no contract); `PlaceUnitsKeepsLetters` and `PlacedUnitsSpelled` are about it |
| CrosswordBoard.Placed | icsc/qualification/crosswords.py:28-106 | the grid when the fill begins (a definition, no contract); `PlacedWellFormed` and `CrosswordSpellsUnit` are about it |
| CrosswordBoard.MapOf | icsc/qualification/crosswords.py:32-35 | every parent word listed in `full_map` is non-empty |
| CrosswordPlacement.ScanUpToIncreasing | icsc/qualification/crosswords.py:47-87 | `placements` is in strictly increasing scan order (row, then column, then `DIRS`) at every point of the scan |
| CrosswordPlacement.ScanUpToComplete | icsc/qualification/crosswords.py:47-87 | every feasible run visited so far has been appended to `placements` |
| CrosswordPlacement.FeasibleIsListed | icsc/qualification/crosswords.py:47-87 | every feasible run is appended to `placements` |
| CrosswordPlacement.PlacementsOrdered | icsc/qualification/crosswords.py:47-87 | `placements` is in strictly increasing scan order, so no run is listed twice |
| CrosswordPlacement.BestIsFirstMaximal | icsc/qualification/crosswords.py:43-92 | a unit is skipped exactly when no run is feasible; otherwise the chosen run has the most intersections of any feasible run, and comes first in scan order among ties |
| CrosswordPlacement.FirstUnitSkipsTopLeft | icsc/qualification/crosswords.py:50-53 | the first unit never takes the top-left horizontal run |
| CrosswordPlacement.CommitCells | icsc/qualification/crosswords.py:93-96 | after writing a word, each cell on the run holds the word's letter at that offset, and every other cell is unchanged |
| CrosswordPlacement.CommitKeepsLetters | icsc/qualification/crosswords.py:93-96 | writing a conflict-free run never changes an existing letter, and the word is then spelled along it |
| CrosswordPlacement.SpellsKept | icsc/qualification/crosswords.py:61-68 | a spelled word stays spelled on any later grid that keeps all letters |
| CrosswordPlacement.PlaceStepEffect | icsc/qualification/crosswords.py:41-106 | the effect of one unit on every cell: unchanged if no run fits; otherwise the run holds its letters, a distractor run adds at least one new cell, and the empty cell after a distractor gets the marker; letters are kept |
| CrosswordPlacement.PlaceUnitsKeepsLetters | icsc/qualification/crosswords.py:41-106 | a letter once placed survives every later unit |
| CrosswordPlacement.PlacedUnitsSpelled | icsc/qualification/crosswords.py:41-106 | every unit that found a run is still spelled along it after all units are placed |
| CrosswordPlacement.MarkerCanBeOverwritten | icsc/qualification/crosswords.py:61-78 | a later word may be written over a marker cell, with the very letter that marker bans |
| CrosswordFill.Choices | icsc/qualification/crosswords.py:113-114 | the candidate letters are exactly the upper-case letters the cell does not ban |
| CrosswordFill.FilledCell | icsc/qualification/crosswords.py:110-115 | what the pass leaves in one cell: a letter stays; an empty or marker cell with a letter left to choose gets an upper-case letter it does not ban |
| CrosswordFill.FillOutcome | icsc/qualification/crosswords.py:107-115 | the whole pass on a board, `None` where `random.choice` raises (a definition, no contract); `FillResolves` and `StuckOnlyOnFullBan` are about it |
| CrosswordFill.Crossword | icsc/qualification/crosswords.py:5-116 | the whole generator as a function of the words and the draws (a definition, no contract); `CrosswordResolved`, `CrosswordSpellsUnit` and `CrosswordRespectsMarker` are about it |
| CrosswordFill.StuckOnlyOnFullBan | icsc/qualification/crosswords.py:111-115 | `random.choice` is handed an empty list exactly when some marker bans all 26 letters |
| CrosswordFill.FillResolves | icsc/qualification/crosswords.py:107-115 | the fill leaves letters alone, and turns every empty or marker cell into an upper-case letter the cell does not ban |
| CrosswordGrid.EvaluateRun | icsc/qualification/crosswords.py:58-80 | the walk fails exactly at a conflicting letter; otherwise it returns the run's intersection and new-cell counts |
| CrosswordGrid.ConsiderPlacement | icsc/qualification/crosswords.py:50-83 | one scan step keeps a run exactly when it is feasible, and reports its intersections |
| CrosswordGrid.ScanCell | icsc/qualification/crosswords.py:49-87 | the `DIRS` loop extends `placements` and `best` by the feasible runs from one start cell |
| CrosswordGrid.FindPlacement | icsc/qualification/crosswords.py:43-87 | the nested loops produce exactly the reference `placements` and `best` |
| CrosswordGrid.CommitRun | icsc/qualification/crosswords.py:93-96 | the grid becomes the reference commit of the word along the run |
| CrosswordGrid.MarkAfterRun | icsc/qualification/crosswords.py:97-106 | the grid becomes the reference marking after the distractor |
| CrosswordGrid.FillCell | icsc/qualification/crosswords.py:109-115 | one cell of the fill: a cell with no choices stops the pass; otherwise the cell gets its reference letter from the next generator output, which is consumed |
| CrosswordGrid.FillRow | icsc/qualification/crosswords.py:109-115 | one row of the fill: either it reaches a cell with no choices, or every cell so far holds its reference fill and one output is consumed per filled cell |
| CrosswordGrid.FillPass | icsc/qualification/crosswords.py:107-115 | completes exactly when the reference fill exists, and then the grid equals it; one generator output is consumed per fillable cell |
| CrosswordGenerator.NewGrid | icsc/qualification/crosswords.py:37 | a fresh 10x10 grid of empty cells |
| CrosswordGenerator.PlaceUnit | icsc/qualification/crosswords.py:41-106 | one turn of the unit loop turns the grid into the reference placement step for that unit |
| CrosswordGenerator.CrosswordCongruent | icsc/qualification/crosswords.py:107-115 | the finished grid depends on the generator only through the values it returns |
| CrosswordGenerator.CreateCrossword | icsc/qualification/crosswords.py:5-116 | completes exactly when the reference crossword for the generator's upcoming outputs exists, and the grid equals it; the generator advances by one output per filled cell |
| CrosswordGenerator.CreateCrosswordSeeded | icsc/qualification/ICSC_Qualification_Round_2025_Skeleton/problem_d.py:5-109 | after `random.seed(42)` the result is the reference crossword for the outputs of seed 42, whatever the generator's state before the call |
| CrosswordGenerator.SeededRunsAgree | icsc/qualification/ICSC_Qualification_Round_2025_Skeleton/problem_d.py:17 | two calls on the same words return the same grid |
| Random.Generator.Seed | icsc/qualification/ICSC_Qualification_Round_2025_Skeleton/problem_d.py:17 | reseeding restarts at the first output of that seed |
| Random.Generator.Choice | icsc/qualification/crosswords.py:115 | picks an index below the list length from the next output, and consumes that output |
| CrosswordProperties.MarkerWellFormed | icsc/qualification/crosswords.py:105 | a marker is a non-empty string of lower-case letters |
| CrosswordProperties.BannedEndsParent | icsc/qualification/crosswords.py:105-113 | every letter a marker bans is the last letter of one of its parents |
| CrosswordProperties.ParentEndBanned | icsc/qualification/crosswords.py:105-113 | the last letter of every parent is banned by the marker |
| CrosswordProperties.MarkerBansParentEnds | icsc/qualification/crosswords.py:105-113 | a marker bans exactly the last letters of its parents |
| CrosswordProperties.PlaceStepWellFormed | icsc/qualification/crosswords.py:93-106 | placing a unit keeps letters upper case and markers non-empty and lower case |
| CrosswordProperties.PlaceUnitsWellFormed | icsc/qualification/crosswords.py:41-106 | the grid stays well formed through all units |
| CrosswordProperties.UnitsUpper | icsc/qualification/crosswords.py:28-36 | for words of ASCII letters, every unit and every parent is upper case, and every distractor has a parent |
| CrosswordProperties.PlacedWellFormed | icsc/qualification/crosswords.py:28-106 | the grid is well formed when the fill begins |
| CrosswordProperties.CrosswordResolved | icsc/qualification/crosswords.py:107-116 | every cell of a finished grid is an upper-case letter |
| CrosswordProperties.CrosswordSpellsUnit | icsc/qualification/crosswords.py:41-116 | every unit that found a run is spelled along it in the finished grid |
| CrosswordProperties.FillRespectsMarker | icsc/qualification/crosswords.py:107-115 | on any grid the fill completes, a marker cell gets a letter that is not the last letter of any of the marker's parent words |
| CrosswordProperties.CrosswordRespectsMarker | icsc/qualification/crosswords.py:97-115 | a cell that is still a marker when the fill begins never gets a letter that would complete one of its distractor's parent words |

## Left out

- The `__main__` blocks are not modelled: they read standard input, print, and exit
  with status codes.
- Extraction.MinimizeExtraction: the recursion-depth limit is not modelled. The source's
  `solve` calls itself once per query, so CPython raises `RecursionError` at about 1000
  queries (its default recursion limit). The model returns the minimum leakage for any
  number of queries.
- The `isinstance` checks of `minimize_extraction` and `optimal_cakes` are not modelled.
  Dafny's types already make every argument an integer or a list of integers.
- The Mersenne Twister is not modelled. The outputs after `seed(s)` are an
  uninterpreted stream `streamOf(s)`. `random.choice` is taken to consume one output
  and index by its remainder. CPython's `_randbelow` may consume several.
- Python's `set` iteration order is not modelled, so the model fixes an order in two
  places:
  - the marker's letters follow the parents' order, without repeats;
  - the fill's candidate list is in alphabetical order.
  In Python the order of `list(set(...))` over strings depends on the interpreter's
  string-hash seed. So even after `random.seed(42)` the real grid is fixed only within
  one interpreter run. `CreateCrosswordSeeded` and `SeededRunsAgree` prove determinism
  for the fixed alphabetical order only.
- CrosswordGenerator.CreateCrossword: it requires every word to consist of ASCII
  letters. For other characters, Python's `str.upper`, `str.lower` and `islower` differ
  from the ASCII case mapping the model uses. For example, a marker made of digits is
  not `islower()` and would survive the fill.
- CrosswordGenerator.CreateCrosswordSeeded: it requires every word to consist of ASCII
  letters, for the same reason.
- An `IndexError` from `random.choice`, raised when a marker bans all 26 letters, is
  modelled as the outcome `None` / `ok == false`. No exception object is modelled.
- CakeCalculator.CakeCalculator: the `assert` on non-negative inputs is modelled as a
  `Failure`. Under `python -O` the assertion is removed, and negative inputs return
  floor-division results instead.
- The remaining files of the repository are not part of this model, including
  `entropy.py`, `fano.py` and the other problems.
