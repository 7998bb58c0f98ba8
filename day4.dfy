/** Day 4: a word search over a grid of letters, counting every occurrence of
    a word in the eight compass directions, and spotting "X-MAS" crosses. */
module Day4 {
  import opened Common

  /** The grid, row by row; rows may differ in length. */
  datatype Wordsearch = Wordsearch(cells: seq<seq<char>>)

  /** Cell coordinates (x, y): column, then row. */
  type Coord = (nat, nat)

  /** A direction of travel (dx, dy). */
  type Delta = (int, int)

  /** `from_str`: one row of characters per line. */
  function ParseWordsearch(s: string): (r: Wordsearch)
    ensures |r.cells| == |Lines(s)|
    ensures forall k :: 0 <= k < |r.cells| ==> r.cells[k] == Lines(s)[k]
  {
    Wordsearch(Lines(s))
  }

  /** `apply_delta`: start + magnitude * delta, when neither coordinate
      becomes negative. */
  function ApplyDelta(start: Coord, delta: Delta, magnitude: nat): (r: Option<Coord>)
    ensures r.Some? <==> start.0 + delta.0 * magnitude >= 0 && start.1 + delta.1 * magnitude >= 0
    ensures r.Some? ==> r.value.0 == start.0 + delta.0 * magnitude && r.value.1 == start.1 + delta.1 * magnitude
  {
    var x, y := start.0 + delta.0 * magnitude, start.1 + delta.1 * magnitude;
    if x >= 0 && y >= 0 then Some((x, y)) else None
  }

  predicate OnGrid(w: Wordsearch, c: Coord)
  {
    c.1 < |w.cells| && c.0 < |w.cells[c.1]|
  }

  /** `char_at`: the letter at a cell, or None off the grid. */
  function CharAt(w: Wordsearch, c: Coord): (r: Option<char>)
    ensures r.Some? <==> OnGrid(w, c)
    ensures r.Some? ==> r.value == w.cells[c.1][c.0]
  {
    if c.1 < |w.cells| && c.0 < |w.cells[c.1]| then Some(w.cells[c.1][c.0]) else None
  }

  /** The letter `magnitude` steps along delta from start, if that cell exists. */
  function LetterAt(w: Wordsearch, start: Coord, delta: Delta, magnitude: nat): Option<char>
  {
    match ApplyDelta(start, delta, magnitude)
    case None => None
    case Some(c) => CharAt(w, c)
  }

  /** `get_word`: the letters at magnitudes 0 .. length - 1, skipping the
      magnitudes that fall off the grid. */
  function GetWord(w: Wordsearch, start: Coord, length: nat, delta: Delta): (r: string)
    ensures |r| <= length
  {
    if length == 0 then []
    else
      GetWord(w, start, length - 1, delta)
        + (match LetterAt(w, start, delta, length - 1) case None => [] case Some(ch) => [ch])
  }

  /** All magnitudes below length land on the grid. */
  predicate Inside(w: Wordsearch, start: Coord, length: nat, delta: Delta)
  {
    forall m: nat :: m < length ==> LetterAt(w, start, delta, m).Some?
  }

  /** When every step lands on the grid, the word has exactly `length` letters,
      letter m being the one m steps from start. */
  lemma {:induction false} GetWordInside(w: Wordsearch, start: Coord, length: nat, delta: Delta)
    requires Inside(w, start, length, delta)
    ensures |GetWord(w, start, length, delta)| == length
    ensures forall m :: 0 <= m < length ==> Some(GetWord(w, start, length, delta)[m]) == LetterAt(w, start, delta, m)
  {
    if length > 0 {
      assert Inside(w, start, length - 1, delta) by {
        forall m: nat | m < length - 1 ensures LetterAt(w, start, delta, m).Some? {
          assert m < length;
        }
      }
      GetWordInside(w, start, length - 1, delta);
      assert LetterAt(w, start, delta, length - 1).Some?;
    }
  }

  /** When some step falls off the grid, the word comes out short. */
  lemma {:induction false} GetWordOutside(w: Wordsearch, start: Coord, length: nat, delta: Delta, m: nat)
    requires m < length && LetterAt(w, start, delta, m).None?
    ensures |GetWord(w, start, length, delta)| < length
  {
    if m < length - 1 {
      GetWordOutside(w, start, length - 1, delta, m);
    }
  }

  /** The first letter of a word read from a cell on the grid is that cell's. */
  lemma GetWordFirst(w: Wordsearch, start: Coord, length: nat, delta: Delta)
    requires OnGrid(w, start) && length > 0
    ensures |GetWord(w, start, length, delta)| > 0
    ensures GetWord(w, start, length, delta)[0] == w.cells[start.1][start.0]
  {
    assert GetWord(w, start, 1, delta) == [w.cells[start.1][start.0]];
    GetWordPrefix(w, start, 1, length, delta);
  }

  /** A shorter reading is a prefix of a longer one. */
  lemma {:induction false} GetWordPrefix(w: Wordsearch, start: Coord, short: nat, length: nat, delta: Delta)
    requires short <= length
    ensures GetWord(w, start, short, delta) <= GetWord(w, start, length, delta)
    decreases length
  {
    if short < length {
      GetWordPrefix(w, start, short, length - 1, delta);
    }
  }

  /** The eight directions, in the order `words_from` reads them. */
  const Deltas: seq<Delta> := [(-1, 0), (-1, -1), (0, -1), (1, -1), (1, 0), (1, 1), (0, 1), (-1, 1)]

  /** `words_from`: the words of the given length read from start in each of
      the eight directions, in the order of Deltas. */
  function WordsFrom(w: Wordsearch, start: Coord, length: nat): (r: seq<string>)
    ensures |r| == 8
    ensures forall k :: 0 <= k < 8 ==> r[k] == GetWord(w, start, length, Deltas[k]) && |r[k]| <= length
  {
    [GetWord(w, start, length, (-1, 0)), GetWord(w, start, length, (-1, -1)),
     GetWord(w, start, length, (0, -1)), GetWord(w, start, length, (1, -1)),
     GetWord(w, start, length, (1, 0)), GetWord(w, start, length, (1, 1)),
     GetWord(w, start, length, (0, 1)), GetWord(w, start, length, (-1, 1))]
  }

  // ---- find_all ----

  /** The matching cells of row y among its first n columns, left to right. */
  function RowMatches(w: Wordsearch, letter: char, y: nat, n: nat): seq<Coord>
    requires y < |w.cells| && n <= |w.cells[y]|
  {
    if n == 0 then []
    else RowMatches(w, letter, y, n - 1) + (if w.cells[y][n - 1] == letter then [(n - 1, y)] else [])
  }

  /** The matching cells of the first n rows, in row-major order. */
  function Matches(w: Wordsearch, letter: char, n: nat): seq<Coord>
    requires n <= |w.cells|
  {
    if n == 0 then []
    else Matches(w, letter, n - 1) + RowMatches(w, letter, n - 1, |w.cells[n - 1]|)
  }

  /** Every cell holding the letter, in row-major order. */
  function AllMatches(w: Wordsearch, letter: char): seq<Coord>
  {
    Matches(w, letter, |w.cells|)
  }

  /** `find_all`: scans rows top to bottom and each row left to right,
      collecting the cells that hold the letter. */
  method FindAll(w: Wordsearch, letter: char) returns (coords: seq<Coord>)
    ensures coords == AllMatches(w, letter)
  {
    coords := [];
    var y := 0;
    while y < |w.cells|
      invariant y <= |w.cells|
      invariant coords == Matches(w, letter, y)
    {
      var row := w.cells[y];
      var x := 0;
      while x < |row|
        invariant x <= |row|
        invariant coords == Matches(w, letter, y) + RowMatches(w, letter, y, x)
      {
        if row[x] == letter {
          coords := coords + [(x, y)];
        }
        x := x + 1;
      }
      y := y + 1;
    }
  }

  /** Row-major order on cells: by row, then by column. */
  predicate Before(a: Coord, b: Coord)
  {
    a.1 < b.1 || (a.1 == b.1 && a.0 < b.0)
  }

  predicate RowMajor(cs: seq<Coord>)
  {
    forall i, j :: 0 <= i < j < |cs| ==> Before(cs[i], cs[j])
  }

  lemma {:induction false} RowMatchesExact(w: Wordsearch, letter: char, y: nat, n: nat)
    requires y < |w.cells| && n <= |w.cells[y]|
    ensures forall c :: c in RowMatches(w, letter, y, n) <==> c.1 == y && c.0 < n && w.cells[y][c.0] == letter
    ensures RowMajor(RowMatches(w, letter, y, n))
  {
    if n > 0 {
      RowMatchesExact(w, letter, y, n - 1);
    }
  }

  lemma {:induction false} MatchesExact(w: Wordsearch, letter: char, n: nat)
    requires n <= |w.cells|
    ensures forall c :: c in Matches(w, letter, n) <==> c.1 < n && OnGrid(w, c) && w.cells[c.1][c.0] == letter
    ensures RowMajor(Matches(w, letter, n))
  {
    if n > 0 {
      MatchesExact(w, letter, n - 1);
      RowMatchesExact(w, letter, n - 1, |w.cells[n - 1]|);
    }
  }

  /** `find_all` returns exactly the cells holding the letter, each once, in
      row-major order. */
  lemma AllMatchesExact(w: Wordsearch, letter: char)
    ensures forall c :: c in AllMatches(w, letter) <==> CharAt(w, c) == Some(letter)
    ensures RowMajor(AllMatches(w, letter))
  {
    MatchesExact(w, letter, |w.cells|);
  }

  // ---- word_count ----

  /** How many of the words equal the search word. */
  function CountEqual(words: seq<string>, search: string): (r: nat)
    ensures r <= |words|
    ensures r == multiset(words)[search]
  {
    if words == [] then 0
    else
      assert words == [words[0]] + words[1..];
      (if words[0] == search then 1 else 0) + CountEqual(words[1..], search)
  }

  /** The sum of a weight over a list of cells. */
  function SumOver(starts: seq<Coord>, weight: Coord -> nat): nat
  {
    if starts == [] then 0 else weight(starts[0]) + SumOver(starts[1..], weight)
  }

  /** Occurrences of the search word over the eight directions from one start. */
  function OccurrencesFrom(w: Wordsearch, search: string): Coord -> nat
  {
    c => CountEqual(WordsFrom(w, c, |search|), search)
  }

  /** `word_count`: reading the word from every cell holding its first letter.
      The source aborts on an empty word; that is None here. */
  function WordCount(w: Wordsearch, search: string): Option<nat>
  {
    if search == [] then None
    else Some(SumOver(AllMatches(w, search[0]), OccurrencesFrom(w, search)))
  }

  // An independent count: every cell of the grid, every direction.

  function RowCells(w: Wordsearch, y: nat, n: nat): seq<Coord>
    requires y < |w.cells| && n <= |w.cells[y]|
  {
    if n == 0 then [] else RowCells(w, y, n - 1) + [(n - 1, y)]
  }

  function Cells(w: Wordsearch, n: nat): seq<Coord>
    requires n <= |w.cells|
  {
    if n == 0 then [] else Cells(w, n - 1) + RowCells(w, n - 1, |w.cells[n - 1]|)
  }

  /** The number of (cell, direction) pairs of the whole grid that spell the word. */
  function Occurrences(w: Wordsearch, search: string): nat
  {
    SumOver(Cells(w, |w.cells|), OccurrencesFrom(w, search))
  }

  lemma {:induction false} SumOverAppend(xs: seq<Coord>, ys: seq<Coord>, weight: Coord -> nat)
    ensures SumOver(xs + ys, weight) == SumOver(xs, weight) + SumOver(ys, weight)
  {
    if xs != [] {
      assert (xs + ys)[1..] == xs[1..] + ys;
      SumOverAppend(xs[1..], ys, weight);
    } else {
      assert xs + ys == ys;
    }
  }

  /** The weight vanishes on every cell of the grid that does not hold the letter. */
  predicate ZeroOffLetter(w: Wordsearch, letter: char, weight: Coord -> nat)
  {
    forall x: nat, y: nat :: y < |w.cells| && x < |w.cells[y]| && w.cells[y][x] != letter ==> weight((x, y)) == 0
  }

  /** A cell that does not hold the first letter starts no occurrence. */
  lemma NoOccurrenceFrom(w: Wordsearch, search: string)
    requires search != []
    ensures ZeroOffLetter(w, search[0], OccurrencesFrom(w, search))
  {
    forall x: nat, y: nat | y < |w.cells| && x < |w.cells[y]| && w.cells[y][x] != search[0]
      ensures OccurrencesFrom(w, search)((x, y)) == 0
    {
      var words := WordsFrom(w, (x, y), |search|);
      forall k | 0 <= k < 8
        ensures words[k] != search
      {
        GetWordFirst(w, (x, y), |search|, Deltas[k]);
      }
      NoneEqual(words, search);
    }
  }

  lemma {:induction false} NoneEqual(words: seq<string>, search: string)
    requires forall k :: 0 <= k < |words| ==> words[k] != search
    ensures CountEqual(words, search) == 0
  {
    if words != [] {
      NoneEqual(words[1..], search);
    }
  }

  /** Over the first n columns of row y, summing over the cells holding the
      letter gives the same as summing over all of them. */
  lemma {:induction false} RowSumsAgree(w: Wordsearch, letter: char, weight: Coord -> nat, y: nat, n: nat)
    requires ZeroOffLetter(w, letter, weight) && y < |w.cells| && n <= |w.cells[y]|
    ensures SumOver(RowMatches(w, letter, y, n), weight) == SumOver(RowCells(w, y, n), weight)
  {
    if n > 0 {
      RowSumsAgree(w, letter, weight, y, n - 1);
      var c: Coord := (n - 1, y);
      SumOverAppend(RowCells(w, y, n - 1), [c], weight);
      var extra := if w.cells[y][n - 1] == letter then [c] else [];
      SumOverAppend(RowMatches(w, letter, y, n - 1), extra, weight);
    }
  }

  /** Sums over two concatenations agree when they agree part by part. */
  lemma SumOverConcat(a: seq<Coord>, b: seq<Coord>, c: seq<Coord>, d: seq<Coord>, weight: Coord -> nat)
    requires SumOver(a, weight) == SumOver(c, weight) && SumOver(b, weight) == SumOver(d, weight)
    ensures SumOver(a + b, weight) == SumOver(c + d, weight)
  {
    SumOverAppend(a, b, weight);
    SumOverAppend(c, d, weight);
  }

  /** The same over the first n rows. */
  lemma {:induction false} SumsAgree(w: Wordsearch, letter: char, weight: Coord -> nat, n: nat)
    requires ZeroOffLetter(w, letter, weight) && n <= |w.cells|
    ensures SumOver(Matches(w, letter, n), weight) == SumOver(Cells(w, n), weight)
  {
    if n > 0 {
      var len := |w.cells[n - 1]|;
      var a, b := Matches(w, letter, n - 1), RowMatches(w, letter, n - 1, len);
      var c, d := Cells(w, n - 1), RowCells(w, n - 1, len);
      SumsAgree(w, letter, weight, n - 1);
      RowSumsAgree(w, letter, weight, n - 1, len);
      SumOverConcat(a, b, c, d, weight);
      assert Matches(w, letter, n) == a + b;
      assert Cells(w, n) == c + d;
    }
  }

  /** Starting only from the cells holding the first letter loses nothing:
      `word_count` is the number of (cell, direction) pairs spelling the word. */
  lemma WordCountIsOccurrences(w: Wordsearch, search: string)
    ensures WordCount(w, search).None? <==> search == []
    ensures search != [] ==> WordCount(w, search) == Some(Occurrences(w, search))
  {
    if search != [] {
      NoOccurrenceFrom(w, search);
      SumsAgree(w, search[0], OccurrencesFrom(w, search), |w.cells|);
    }
  }

  // ---- is_x_mas ----

  predicate IsMasOrSam(word: Option<string>)
  {
    word == Some("MAS") || word == Some("SAM")
  }

  /** `is_x_mas`: the centre holds 'A' and both diagonals through it, read
      from their upper end, spell MAS or SAM. */
  function IsXMas(w: Wordsearch, c: Coord): bool
  {
    var topLeft := match ApplyDelta(c, (-1, -1), 1) case None => None case Some(s) => Some(GetWord(w, s, 3, (1, 1)));
    var topRight := match ApplyDelta(c, (1, -1), 1) case None => None case Some(s) => Some(GetWord(w, s, 3, (-1, 1)));
    CharAt(w, c) == Some('A') && IsMasOrSam(topLeft) && IsMasOrSam(topRight)
  }

  /** The letters M and S at the two ends of a diagonal, in either order. */
  predicate MAndS(a: Option<char>, b: Option<char>)
  {
    (a == Some('M') && b == Some('S')) || (a == Some('S') && b == Some('M'))
  }

  /** The same cross in terms of the four diagonal neighbours of the centre. */
  lemma IsXMasByNeighbours(w: Wordsearch, x: nat, y: nat)
    ensures IsXMas(w, (x, y)) <==>
      x >= 1 && y >= 1 && CharAt(w, (x, y)) == Some('A')
      && MAndS(CharAt(w, (x - 1, y - 1)), CharAt(w, (x + 1, y + 1)))
      && MAndS(CharAt(w, (x + 1, y - 1)), CharAt(w, (x - 1, y + 1)))
  {
    if x >= 1 && y >= 1 {
      DiagonalWord(w, (x - 1, y - 1), (1, 1));
      DiagonalWord(w, (x + 1, y - 1), (-1, 1));
    }
  }

  /** A three-letter diagonal reads MAS or SAM exactly when its ends are M
      and S and its middle is A. */
  lemma DiagonalWord(w: Wordsearch, s: Coord, d: Delta)
    requires s.0 + 2 * d.0 >= 0
    ensures var word := GetWord(w, s, 3, d);
      IsMasOrSam(Some(word)) <==>
        LetterAt(w, s, d, 1) == Some('A') && MAndS(LetterAt(w, s, d, 0), LetterAt(w, s, d, 2))
  {
    var word := GetWord(w, s, 3, d);
    if Inside(w, s, 3, d) {
      GetWordInside(w, s, 3, d);
      assert word == [word[0], word[1], word[2]];
    } else {
      var m: nat :| m < 3 && LetterAt(w, s, d, m).None?;
      GetWordOutside(w, s, 3, d, m);
      assert |"MAS"| == 3 && |"SAM"| == 3;
    }
  }
}
