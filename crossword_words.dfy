/**
  Preprocessing and ordering stages of `create_crossword`
  (icsc/qualification/crosswords.py, duplicated in
  icsc/qualification/ICSC_Qualification_Round_2025_Skeleton/problem_d.py):
  upper-casing, distractors, their parent words, and the longest-first stable order.
  Words are taken over the ASCII letters, where Python's `upper` and `lower` are the
  shifts below.
 */
module CrosswordWords {

  predicate IsUpperLetter(ch: char) { 'A' <= ch <= 'Z' }
  predicate IsLowerLetter(ch: char) { 'a' <= ch <= 'z' }

  predicate IsLetters(s: string)
  {
    forall i :: 0 <= i < |s| ==> IsUpperLetter(s[i]) || IsLowerLetter(s[i])
  }

  predicate IsUpperWord(s: string)
  {
    forall i :: 0 <= i < |s| ==> IsUpperLetter(s[i])
  }

  function UpperChar(ch: char): (u: char)
    ensures IsLowerLetter(ch) || IsUpperLetter(ch) ==> IsUpperLetter(u)
  {
    if IsLowerLetter(ch) then (ch as int - 32) as char else ch
  }

  function LowerChar(ch: char): (l: char)
    ensures IsLowerLetter(ch) || IsUpperLetter(ch) ==> IsLowerLetter(l)
  {
    if IsUpperLetter(ch) then (ch as int + 32) as char else ch
  }

  /** `str.upper()`: the same word up to case; a word of ASCII letters comes out all
      upper case, and an upper-case word comes out unchanged. */
  function Upper(s: string): (u: string)
    ensures |u| == |s|
    ensures forall i :: 0 <= i < |s| ==> LowerChar(u[i]) == LowerChar(s[i])
    ensures IsLetters(s) ==> IsUpperWord(u)
    ensures IsUpperWord(s) ==> u == s
  {
    seq(|s|, i requires 0 <= i < |s| => UpperChar(s[i]))
  }

  /** `base = [w.upper() for w in words]`: one base word per input word, in input order,
      each the input word up to case; an upper-case word is kept as it is, and for words
      of ASCII letters every base word is upper case. */
  function UpperAll(words: seq<string>): (base: seq<string>)
    ensures |base| == |words|
    ensures forall i :: 0 <= i < |words| ==> |base[i]| == |words[i]|
    ensures forall i, j :: 0 <= i < |words| && 0 <= j < |words[i]| ==> LowerChar(base[i][j]) == LowerChar(words[i][j])
    ensures forall i :: 0 <= i < |words| && IsUpperWord(words[i]) ==> base[i] == words[i]
    ensures (forall i :: 0 <= i < |words| ==> IsLetters(words[i])) ==>
      forall i :: 0 <= i < |base| ==> IsUpperWord(base[i])
  {
    seq(|words|, i requires 0 <= i < |words| => Upper(words[i]))
  }

  /** `w[:-1]` for a non-empty word: one letter shorter, and a prefix of `w`. */
  function Chop(w: string): (d: string)
    requires |w| > 0
    ensures |d| == |w| - 1 && StartsWith(w, d)
  {
    w[..|w| - 1]
  }

  /** Words longer than 4 letters produce a distractor. */
  predicate Long(w: string) { |w| > 4 }

  /** Number of long words in `base`. */
  function CountLong(base: seq<string>): nat
  {
    if base == [] then 0 else (if Long(base[0]) then 1 else 0) + CountLong(base[1..])
  }

  /** `[w[:-1].upper() for w in base if len(w) > 4]`, before truncation: one candidate
      per long word, each at least four letters long. */
  function Candidates(base: seq<string>): (cs: seq<string>)
    ensures |cs| == CountLong(base)
    ensures forall k :: 0 <= k < |cs| ==> |cs[k]| >= 4
  {
    if base == [] then []
    else (if Long(base[0]) then [Upper(Chop(base[0]))] else []) + Candidates(base[1..])
  }

  /** `distractors = [...][:3]`: the first (at most) three candidates, all of them when
      there are no more than three. */
  function Distractors(base: seq<string>): (ds: seq<string>)
    ensures |ds| <= 3 && ds <= Candidates(base)
    ensures |Candidates(base)| <= 3 ==> ds == Candidates(base)
  {
    var c := Candidates(base);
    if |c| <= 3 then c else c[..3]
  }

  /** `d` is the upper-cased, last-letter-dropped form of the `k`-th long word of `base`
      (counting from 0): the word at `j` has exactly `k` long words before it. */
  ghost predicate FromKthLong(base: seq<string>, k: nat, d: string)
  {
    exists j :: 0 <= j < |base| && Long(base[j]) && CountLong(base[..j]) == k && d == Upper(Chop(base[j]))
  }

  lemma {:induction false} CandidatesInOrder(base: seq<string>)
    ensures |Candidates(base)| == CountLong(base)
    ensures forall k :: 0 <= k < |Candidates(base)| ==> FromKthLong(base, k, Candidates(base)[k])
  {
    if base != [] {
      CandidatesInOrder(base[1..]);
      var c, rest := Candidates(base), Candidates(base[1..]);
      assert c == (if Long(base[0]) then [Upper(Chop(base[0]))] else []) + rest;
      forall k | 0 <= k < |c|
        ensures FromKthLong(base, k, c[k])
      {
        if Long(base[0]) && k == 0 {
          assert base[..0] == [];
          assert CountLong(base[..0]) == 0;
          assert c[0] == Upper(Chop(base[0]));
        } else {
          var k' := if Long(base[0]) then k - 1 else k;
          assert c[k] == rest[k'];
          assert FromKthLong(base[1..], k', rest[k']);
          var j' :| 0 <= j' < |base[1..]| && Long(base[1..][j']) && CountLong(base[1..][..j']) == k' &&
                    rest[k'] == Upper(Chop(base[1..][j']));
          assert base[..j' + 1] == [base[0]] + base[1..][..j'];
          assert base[..j' + 1][1..] == base[1..][..j'];
          assert base[j' + 1] == base[1..][j'];
          assert CountLong(base[..j' + 1]) == (if Long(base[0]) then 1 else 0) + CountLong(base[1..][..j']);
          assert 0 <= j' + 1 < |base| && Long(base[j' + 1]) && CountLong(base[..j' + 1]) == k &&
                 c[k] == Upper(Chop(base[j' + 1]));
        }
      }
    }
  }

  /** At most three distractors; each is the upper-cased, last-letter-dropped form of a
      long base word, and they are the first long words in input order. */
  lemma DistractorsFromLongWords(base: seq<string>)
    ensures |Distractors(base)| <= 3
    ensures |Distractors(base)| == if CountLong(base) <= 3 then CountLong(base) else 3
    ensures forall k :: 0 <= k < |Distractors(base)| ==> FromKthLong(base, k, Distractors(base)[k])
  {
    CandidatesInOrder(base);
    var c := Candidates(base);
    forall k | 0 <= k < |Distractors(base)|
      ensures FromKthLong(base, k, Distractors(base)[k])
    {
      assert Distractors(base)[k] == c[k];
    }
  }

  /** With upper-case base words every distractor is its source word minus the last
      letter, one letter shorter and itself upper case. */
  lemma DistractorsAreChops(base: seq<string>, d: string)
    requires forall i :: 0 <= i < |base| ==> IsUpperWord(base[i])
    requires d in Distractors(base)
    ensures exists b :: b in base && |b| > 4 && d == b[..|b| - 1] && |d| == |b| - 1
    ensures IsUpperWord(d)
  {
    DistractorsFromLongWords(base);
    var k :| 0 <= k < |Distractors(base)| && Distractors(base)[k] == d;
    assert FromKthLong(base, k, d);
    var j :| 0 <= j < |base| && Long(base[j]) && CountLong(base[..j]) == k && d == Upper(Chop(base[j]));
    assert IsUpperWord(Chop(base[j]));
  }

  predicate StartsWith(f: string, d: string)
  {
    |d| <= |f| && f[..|d|] == d
  }

  /** `[f for f in base if f.startswith(d) and len(f) == len(d) + 1]` */
  function Parents(base: seq<string>, d: string): (ps: seq<string>)
    ensures forall f :: f in ps <==> f in base && StartsWith(f, d) && |f| == |d| + 1
  {
    if base == [] then []
    else (if StartsWith(base[0], d) && |base[0]| == |d| + 1 then [base[0]] else []) + Parents(base[1..], d)
  }

  /** `full_map`: keyed by the distractors; the words listed under a distractor are the
      base words one letter longer that start with it. With upper-case base words and the
      distractors of `base`, no distractor maps to an empty list. */
  function FullMap(base: seq<string>, distractors: seq<string>): (m: map<string, seq<string>>)
    ensures m.Keys == set d | d in distractors
    ensures forall d, f :: d in m ==> (f in m[d] <==> f in base && StartsWith(f, d) && |f| == |d| + 1)
    ensures (forall i :: 0 <= i < |base| ==> IsUpperWord(base[i])) && distractors == Distractors(base) ==>
      forall d :: d in m ==> m[d] != []
  {
    DistractorParentsNonEmpty(base, distractors);
    map d | d in distractors :: Parents(base, d)
  }

  lemma DistractorParentsNonEmpty(base: seq<string>, distractors: seq<string>)
    ensures (forall i :: 0 <= i < |base| ==> IsUpperWord(base[i])) && distractors == Distractors(base) ==>
      forall d :: d in distractors ==> Parents(base, d) != []
  {
    if (forall i :: 0 <= i < |base| ==> IsUpperWord(base[i])) && distractors == Distractors(base) {
      forall d | d in distractors ensures Parents(base, d) != [] {
        ParentsNonEmpty(base, d);
      }
    }
  }

  /** Every distractor has a parent: the word it was cut from. */
  lemma ParentsNonEmpty(base: seq<string>, d: string)
    requires forall i :: 0 <= i < |base| ==> IsUpperWord(base[i])
    requires d in Distractors(base)
    ensures Parents(base, d) != []
    ensures forall f :: f in Parents(base, d) ==> |f| == |d| + 1 && |f| > 4
  {
    DistractorsAreChops(base, d);
    var b :| b in base && |b| > 4 && d == b[..|b| - 1] && |d| == |b| - 1;
    assert StartsWith(b, d);
    assert b in Parents(base, d);
  }

  /** Insert `x` before the first word that is not longer than it. */
  function Insert(x: string, s: seq<string>): (r: seq<string>)
    ensures multiset(r) == multiset(s) + multiset{x}
  {
    if s == [] || |s[0]| <= |x| then [x] + s
    else assert s == [s[0]] + s[1..]; [s[0]] + Insert(x, s[1..])
  }

  /** `sorted(units, key=len, reverse=True)`: Python's sort is stable, also reversed. */
  function SortByLength(s: seq<string>): (r: seq<string>)
    ensures multiset(r) == multiset(s)
  {
    if s == [] then [] else assert s == [s[0]] + s[1..]; Insert(s[0], SortByLength(s[1..]))
  }

  predicate NonIncreasing(s: seq<string>)
  {
    forall i, j :: 0 <= i < j < |s| ==> |s[i]| >= |s[j]|
  }

  /** The words of length `n`, in order. */
  function OfLength(s: seq<string>, n: nat): seq<string>
  {
    if s == [] then [] else (if |s[0]| == n then [s[0]] else []) + OfLength(s[1..], n)
  }

  lemma {:induction false} InsertSorted(x: string, s: seq<string>)
    requires NonIncreasing(s)
    ensures NonIncreasing(Insert(x, s))
  {
    if s != [] && |s[0]| > |x| {
      InsertSorted(x, s[1..]);
      var r := Insert(x, s[1..]);
      assert multiset(r) == multiset(s[1..]) + multiset{x};
      forall j | 0 <= j < |r| ensures |s[0]| >= |r[j]| {
        assert r[j] in multiset(r);
        if r[j] != x {
          assert r[j] in multiset(s[1..]);
          var k :| 0 <= k < |s[1..]| && s[1..][k] == r[j];
          assert s[k + 1] == r[j];
        }
      }
    }
  }

  lemma OfLengthCons(h: string, t: seq<string>, n: nat)
    ensures OfLength([h] + t, n) == (if |h| == n then [h] else []) + OfLength(t, n)
  {
    assert ([h] + t)[1..] == t;
  }

  lemma {:induction false} InsertOfLength(x: string, s: seq<string>, n: nat)
    ensures OfLength(Insert(x, s), n) == if |x| == n then [x] + OfLength(s, n) else OfLength(s, n)
  {
    if s == [] || |s[0]| <= |x| {
      OfLengthCons(x, s, n);
    } else {
      InsertOfLength(x, s[1..], n);
      OfLengthCons(s[0], Insert(x, s[1..]), n);
      assert s == [s[0]] + s[1..];
      OfLengthCons(s[0], s[1..], n);
    }
  }

  /** The placement order is non-increasing in length, and for every length it keeps the
      words of that length exactly as they came: a stable permutation. */
  lemma {:induction false} SortByLengthStable(s: seq<string>)
    ensures NonIncreasing(SortByLength(s))
    ensures forall n: nat :: OfLength(SortByLength(s), n) == OfLength(s, n)
    ensures multiset(SortByLength(s)) == multiset(s)
  {
    if s != [] {
      SortByLengthStable(s[1..]);
      InsertSorted(s[0], SortByLength(s[1..]));
      forall n: nat ensures OfLength(SortByLength(s), n) == OfLength(s, n) {
        InsertOfLength(s[0], SortByLength(s[1..]), n);
      }
    }
  }
}
