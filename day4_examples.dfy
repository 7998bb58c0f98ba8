/** The worked examples of the word search, evaluated on the model. */
module Day4Examples {
  import opened Common
  import opened Day4

  const Example: Wordsearch := Wordsearch([
    "..X...",
    ".SAMXM",
    ".A..A.",
    "XMAS.S",
    ".X...."])

  /** A letter that may be absent, as a string of length at most one. */
  function Flat(letter: Option<char>): string
  {
    match letter case None => [] case Some(ch) => [ch]
  }

  /** A four-letter reading, from the four cells it visits. */
  lemma WordOfFour(w: Wordsearch, s: Coord, d: Delta, a: Option<char>, b: Option<char>, c: Option<char>, e: Option<char>, word: string)
    requires LetterAt(w, s, d, 0) == a && LetterAt(w, s, d, 1) == b
    requires LetterAt(w, s, d, 2) == c && LetterAt(w, s, d, 3) == e
    requires word == Flat(a) + Flat(b) + Flat(c) + Flat(e)
    ensures GetWord(w, s, 4, d) == word
  {
    assert GetWord(w, s, 1, d) == Flat(a);
    assert GetWord(w, s, 2, d) == Flat(a) + Flat(b);
    assert GetWord(w, s, 3, d) == Flat(a) + Flat(b) + Flat(c);
  }

  lemma ExampleRowMatches()
    ensures RowMatches(Example, 'X', 0, 6) == [(2, 0)]
    ensures RowMatches(Example, 'X', 1, 6) == [(4, 1)]
    ensures RowMatches(Example, 'X', 2, 6) == []
    ensures RowMatches(Example, 'X', 3, 6) == [(0, 3)]
    ensures RowMatches(Example, 'X', 4, 6) == [(1, 4)]
  {
  }

  lemma ExampleFindAll()
    ensures AllMatches(Example, 'X') == [(2, 0), (4, 1), (0, 3), (1, 4)]
  {
    ExampleRowMatches();
    assert Matches(Example, 'X', 2) == [(2, 0), (4, 1)];
  }

  lemma Letters200(w: Wordsearch)
    requires w == Example
    ensures LetterAt(w, (2, 0), (-1, 0), 0) == Some('X')
    ensures LetterAt(w, (2, 0), (-1, 0), 1) == Some('.')
    ensures LetterAt(w, (2, 0), (-1, 0), 2) == Some('.')
    ensures LetterAt(w, (2, 0), (-1, 0), 3) == None
  {
    assert w.cells[0] == "..X...";
  }

  lemma Word200(w: Wordsearch)
    requires LetterAt(w, (2, 0), (-1, 0), 0) == Some('X')
    requires LetterAt(w, (2, 0), (-1, 0), 1) == Some('.')
    requires LetterAt(w, (2, 0), (-1, 0), 2) == Some('.')
    requires LetterAt(w, (2, 0), (-1, 0), 3) == None
    ensures GetWord(w, (2, 0), 4, (-1, 0)) == "X.."
  {
    WordOfFour(w, (2, 0), (-1, 0), Some('X'), Some('.'), Some('.'), None, "X..");
  }

  lemma Letters201(w: Wordsearch)
    requires w == Example
    ensures LetterAt(w, (2, 0), (-1, -1), 0) == Some('X')
    ensures LetterAt(w, (2, 0), (-1, -1), 1) == None
    ensures LetterAt(w, (2, 0), (-1, -1), 2) == None
    ensures LetterAt(w, (2, 0), (-1, -1), 3) == None
  {
    assert w.cells[0] == "..X...";
  }

  lemma Word201(w: Wordsearch)
    requires LetterAt(w, (2, 0), (-1, -1), 0) == Some('X')
    requires LetterAt(w, (2, 0), (-1, -1), 1) == None
    requires LetterAt(w, (2, 0), (-1, -1), 2) == None
    requires LetterAt(w, (2, 0), (-1, -1), 3) == None
    ensures GetWord(w, (2, 0), 4, (-1, -1)) == "X"
  {
    WordOfFour(w, (2, 0), (-1, -1), Some('X'), None, None, None, "X");
  }

  lemma Letters202(w: Wordsearch)
    requires w == Example
    ensures LetterAt(w, (2, 0), (0, -1), 0) == Some('X')
    ensures LetterAt(w, (2, 0), (0, -1), 1) == None
    ensures LetterAt(w, (2, 0), (0, -1), 2) == None
    ensures LetterAt(w, (2, 0), (0, -1), 3) == None
  {
    assert w.cells[0] == "..X...";
  }

  lemma Word202(w: Wordsearch)
    requires LetterAt(w, (2, 0), (0, -1), 0) == Some('X')
    requires LetterAt(w, (2, 0), (0, -1), 1) == None
    requires LetterAt(w, (2, 0), (0, -1), 2) == None
    requires LetterAt(w, (2, 0), (0, -1), 3) == None
    ensures GetWord(w, (2, 0), 4, (0, -1)) == "X"
  {
    WordOfFour(w, (2, 0), (0, -1), Some('X'), None, None, None, "X");
  }

  lemma Letters203(w: Wordsearch)
    requires w == Example
    ensures LetterAt(w, (2, 0), (1, -1), 0) == Some('X')
    ensures LetterAt(w, (2, 0), (1, -1), 1) == None
    ensures LetterAt(w, (2, 0), (1, -1), 2) == None
    ensures LetterAt(w, (2, 0), (1, -1), 3) == None
  {
    assert w.cells[0] == "..X...";
  }

  lemma Word203(w: Wordsearch)
    requires LetterAt(w, (2, 0), (1, -1), 0) == Some('X')
    requires LetterAt(w, (2, 0), (1, -1), 1) == None
    requires LetterAt(w, (2, 0), (1, -1), 2) == None
    requires LetterAt(w, (2, 0), (1, -1), 3) == None
    ensures GetWord(w, (2, 0), 4, (1, -1)) == "X"
  {
    WordOfFour(w, (2, 0), (1, -1), Some('X'), None, None, None, "X");
  }

  lemma Letters204(w: Wordsearch)
    requires w == Example
    ensures LetterAt(w, (2, 0), (1, 0), 0) == Some('X')
    ensures LetterAt(w, (2, 0), (1, 0), 1) == Some('.')
    ensures LetterAt(w, (2, 0), (1, 0), 2) == Some('.')
    ensures LetterAt(w, (2, 0), (1, 0), 3) == Some('.')
  {
    assert w.cells[0] == "..X...";
  }

  lemma Word204(w: Wordsearch)
    requires LetterAt(w, (2, 0), (1, 0), 0) == Some('X')
    requires LetterAt(w, (2, 0), (1, 0), 1) == Some('.')
    requires LetterAt(w, (2, 0), (1, 0), 2) == Some('.')
    requires LetterAt(w, (2, 0), (1, 0), 3) == Some('.')
    ensures GetWord(w, (2, 0), 4, (1, 0)) == "X..."
  {
    WordOfFour(w, (2, 0), (1, 0), Some('X'), Some('.'), Some('.'), Some('.'), "X...");
  }

  lemma Letters205(w: Wordsearch)
    requires w == Example
    ensures LetterAt(w, (2, 0), (1, 1), 0) == Some('X')
    ensures LetterAt(w, (2, 0), (1, 1), 1) == Some('M')
    ensures LetterAt(w, (2, 0), (1, 1), 2) == Some('A')
    ensures LetterAt(w, (2, 0), (1, 1), 3) == Some('S')
  {
    assert w.cells[0] == "..X...";
    assert w.cells[1] == ".SAMXM";
    assert w.cells[2] == ".A..A.";
    assert w.cells[3] == "XMAS.S";
  }

  lemma Word205(w: Wordsearch)
    requires LetterAt(w, (2, 0), (1, 1), 0) == Some('X')
    requires LetterAt(w, (2, 0), (1, 1), 1) == Some('M')
    requires LetterAt(w, (2, 0), (1, 1), 2) == Some('A')
    requires LetterAt(w, (2, 0), (1, 1), 3) == Some('S')
    ensures GetWord(w, (2, 0), 4, (1, 1)) == "XMAS"
  {
    WordOfFour(w, (2, 0), (1, 1), Some('X'), Some('M'), Some('A'), Some('S'), "XMAS");
  }

  lemma Letters206(w: Wordsearch)
    requires w == Example
    ensures LetterAt(w, (2, 0), (0, 1), 0) == Some('X')
    ensures LetterAt(w, (2, 0), (0, 1), 1) == Some('A')
    ensures LetterAt(w, (2, 0), (0, 1), 2) == Some('.')
    ensures LetterAt(w, (2, 0), (0, 1), 3) == Some('A')
  {
    assert w.cells[0] == "..X...";
    assert w.cells[1] == ".SAMXM";
    assert w.cells[2] == ".A..A.";
    assert w.cells[3] == "XMAS.S";
  }

  lemma Word206(w: Wordsearch)
    requires LetterAt(w, (2, 0), (0, 1), 0) == Some('X')
    requires LetterAt(w, (2, 0), (0, 1), 1) == Some('A')
    requires LetterAt(w, (2, 0), (0, 1), 2) == Some('.')
    requires LetterAt(w, (2, 0), (0, 1), 3) == Some('A')
    ensures GetWord(w, (2, 0), 4, (0, 1)) == "XA.A"
  {
    WordOfFour(w, (2, 0), (0, 1), Some('X'), Some('A'), Some('.'), Some('A'), "XA.A");
  }

  lemma Letters207(w: Wordsearch)
    requires w == Example
    ensures LetterAt(w, (2, 0), (-1, 1), 0) == Some('X')
    ensures LetterAt(w, (2, 0), (-1, 1), 1) == Some('S')
    ensures LetterAt(w, (2, 0), (-1, 1), 2) == Some('.')
    ensures LetterAt(w, (2, 0), (-1, 1), 3) == None
  {
    assert w.cells[0] == "..X...";
    assert w.cells[1] == ".SAMXM";
    assert w.cells[2] == ".A..A.";
  }

  lemma Word207(w: Wordsearch)
    requires LetterAt(w, (2, 0), (-1, 1), 0) == Some('X')
    requires LetterAt(w, (2, 0), (-1, 1), 1) == Some('S')
    requires LetterAt(w, (2, 0), (-1, 1), 2) == Some('.')
    requires LetterAt(w, (2, 0), (-1, 1), 3) == None
    ensures GetWord(w, (2, 0), 4, (-1, 1)) == "XS."
  {
    WordOfFour(w, (2, 0), (-1, 1), Some('X'), Some('S'), Some('.'), None, "XS.");
  }

  lemma CountXmas20()
    ensures CountEqual(["X..", "X", "X", "X", "X...", "XMAS", "XA.A", "XS."], "XMAS") == 1
  {
    assert |"X.."| != |"XMAS"|;
    assert |"X"| != |"XMAS"|;
    assert |"X"| != |"XMAS"|;
    assert |"X"| != |"XMAS"|;
    assert "X..."[1] != "XMAS"[1];
    assert "XA.A"[1] != "XMAS"[1];
    assert |"XS."| != |"XMAS"|;
  }

  lemma Words20(w: Wordsearch)
    requires GetWord(w, (2, 0), 4, (-1, 0)) == "X.."
    requires GetWord(w, (2, 0), 4, (-1, -1)) == "X"
    requires GetWord(w, (2, 0), 4, (0, -1)) == "X"
    requires GetWord(w, (2, 0), 4, (1, -1)) == "X"
    requires GetWord(w, (2, 0), 4, (1, 0)) == "X..."
    requires GetWord(w, (2, 0), 4, (1, 1)) == "XMAS"
    requires GetWord(w, (2, 0), 4, (0, 1)) == "XA.A"
    requires GetWord(w, (2, 0), 4, (-1, 1)) == "XS."
    ensures WordsFrom(w, (2, 0), 4) == ["X..", "X", "X", "X", "X...", "XMAS", "XA.A", "XS."]
    ensures CountEqual(WordsFrom(w, (2, 0), 4), "XMAS") == 1
  {
    var r := WordsFrom(w, (2, 0), 4);
    assert r == ["X..", "X", "X", "X", "X...", "XMAS", "XA.A", "XS."];
    CountXmas20();
  }

  lemma ExampleWordsFrom20(w: Wordsearch)
    requires w == Example
    ensures WordsFrom(w, (2, 0), 4) == ["X..", "X", "X", "X", "X...", "XMAS", "XA.A", "XS."]
    ensures CountEqual(WordsFrom(w, (2, 0), 4), "XMAS") == 1
  {
    Letters200(w);
    Word200(w);
    Letters201(w);
    Word201(w);
    Letters202(w);
    Word202(w);
    Letters203(w);
    Word203(w);
    Letters204(w);
    Word204(w);
    Letters205(w);
    Word205(w);
    Letters206(w);
    Word206(w);
    Letters207(w);
    Word207(w);
    Words20(w);
  }

  lemma Letters410(w: Wordsearch)
    requires w == Example
    ensures LetterAt(w, (4, 1), (-1, 0), 0) == Some('X')
    ensures LetterAt(w, (4, 1), (-1, 0), 1) == Some('M')
    ensures LetterAt(w, (4, 1), (-1, 0), 2) == Some('A')
    ensures LetterAt(w, (4, 1), (-1, 0), 3) == Some('S')
  {
    assert w.cells[1] == ".SAMXM";
  }

  lemma Word410(w: Wordsearch)
    requires LetterAt(w, (4, 1), (-1, 0), 0) == Some('X')
    requires LetterAt(w, (4, 1), (-1, 0), 1) == Some('M')
    requires LetterAt(w, (4, 1), (-1, 0), 2) == Some('A')
    requires LetterAt(w, (4, 1), (-1, 0), 3) == Some('S')
    ensures GetWord(w, (4, 1), 4, (-1, 0)) == "XMAS"
  {
    WordOfFour(w, (4, 1), (-1, 0), Some('X'), Some('M'), Some('A'), Some('S'), "XMAS");
  }

  lemma Letters411(w: Wordsearch)
    requires w == Example
    ensures LetterAt(w, (4, 1), (-1, -1), 0) == Some('X')
    ensures LetterAt(w, (4, 1), (-1, -1), 1) == Some('.')
    ensures LetterAt(w, (4, 1), (-1, -1), 2) == None
    ensures LetterAt(w, (4, 1), (-1, -1), 3) == None
  {
    assert w.cells[0] == "..X...";
    assert w.cells[1] == ".SAMXM";
  }

  lemma Word411(w: Wordsearch)
    requires LetterAt(w, (4, 1), (-1, -1), 0) == Some('X')
    requires LetterAt(w, (4, 1), (-1, -1), 1) == Some('.')
    requires LetterAt(w, (4, 1), (-1, -1), 2) == None
    requires LetterAt(w, (4, 1), (-1, -1), 3) == None
    ensures GetWord(w, (4, 1), 4, (-1, -1)) == "X."
  {
    WordOfFour(w, (4, 1), (-1, -1), Some('X'), Some('.'), None, None, "X.");
  }

  lemma Letters412(w: Wordsearch)
    requires w == Example
    ensures LetterAt(w, (4, 1), (0, -1), 0) == Some('X')
    ensures LetterAt(w, (4, 1), (0, -1), 1) == Some('.')
    ensures LetterAt(w, (4, 1), (0, -1), 2) == None
    ensures LetterAt(w, (4, 1), (0, -1), 3) == None
  {
    assert w.cells[0] == "..X...";
    assert w.cells[1] == ".SAMXM";
  }

  lemma Word412(w: Wordsearch)
    requires LetterAt(w, (4, 1), (0, -1), 0) == Some('X')
    requires LetterAt(w, (4, 1), (0, -1), 1) == Some('.')
    requires LetterAt(w, (4, 1), (0, -1), 2) == None
    requires LetterAt(w, (4, 1), (0, -1), 3) == None
    ensures GetWord(w, (4, 1), 4, (0, -1)) == "X."
  {
    WordOfFour(w, (4, 1), (0, -1), Some('X'), Some('.'), None, None, "X.");
  }

  lemma Letters413(w: Wordsearch)
    requires w == Example
    ensures LetterAt(w, (4, 1), (1, -1), 0) == Some('X')
    ensures LetterAt(w, (4, 1), (1, -1), 1) == Some('.')
    ensures LetterAt(w, (4, 1), (1, -1), 2) == None
    ensures LetterAt(w, (4, 1), (1, -1), 3) == None
  {
    assert w.cells[0] == "..X...";
    assert w.cells[1] == ".SAMXM";
  }

  lemma Word413(w: Wordsearch)
    requires LetterAt(w, (4, 1), (1, -1), 0) == Some('X')
    requires LetterAt(w, (4, 1), (1, -1), 1) == Some('.')
    requires LetterAt(w, (4, 1), (1, -1), 2) == None
    requires LetterAt(w, (4, 1), (1, -1), 3) == None
    ensures GetWord(w, (4, 1), 4, (1, -1)) == "X."
  {
    WordOfFour(w, (4, 1), (1, -1), Some('X'), Some('.'), None, None, "X.");
  }

  lemma Letters414(w: Wordsearch)
    requires w == Example
    ensures LetterAt(w, (4, 1), (1, 0), 0) == Some('X')
    ensures LetterAt(w, (4, 1), (1, 0), 1) == Some('M')
    ensures LetterAt(w, (4, 1), (1, 0), 2) == None
    ensures LetterAt(w, (4, 1), (1, 0), 3) == None
  {
    assert w.cells[1] == ".SAMXM";
  }

  lemma Word414(w: Wordsearch)
    requires LetterAt(w, (4, 1), (1, 0), 0) == Some('X')
    requires LetterAt(w, (4, 1), (1, 0), 1) == Some('M')
    requires LetterAt(w, (4, 1), (1, 0), 2) == None
    requires LetterAt(w, (4, 1), (1, 0), 3) == None
    ensures GetWord(w, (4, 1), 4, (1, 0)) == "XM"
  {
    WordOfFour(w, (4, 1), (1, 0), Some('X'), Some('M'), None, None, "XM");
  }

  lemma Letters415(w: Wordsearch)
    requires w == Example
    ensures LetterAt(w, (4, 1), (1, 1), 0) == Some('X')
    ensures LetterAt(w, (4, 1), (1, 1), 1) == Some('.')
    ensures LetterAt(w, (4, 1), (1, 1), 2) == None
    ensures LetterAt(w, (4, 1), (1, 1), 3) == None
  {
    assert w.cells[1] == ".SAMXM";
    assert w.cells[2] == ".A..A.";
    assert w.cells[3] == "XMAS.S";
    assert w.cells[4] == ".X....";
  }

  lemma Word415(w: Wordsearch)
    requires LetterAt(w, (4, 1), (1, 1), 0) == Some('X')
    requires LetterAt(w, (4, 1), (1, 1), 1) == Some('.')
    requires LetterAt(w, (4, 1), (1, 1), 2) == None
    requires LetterAt(w, (4, 1), (1, 1), 3) == None
    ensures GetWord(w, (4, 1), 4, (1, 1)) == "X."
  {
    WordOfFour(w, (4, 1), (1, 1), Some('X'), Some('.'), None, None, "X.");
  }

  lemma Letters416(w: Wordsearch)
    requires w == Example
    ensures LetterAt(w, (4, 1), (0, 1), 0) == Some('X')
    ensures LetterAt(w, (4, 1), (0, 1), 1) == Some('A')
    ensures LetterAt(w, (4, 1), (0, 1), 2) == Some('.')
    ensures LetterAt(w, (4, 1), (0, 1), 3) == Some('.')
  {
    assert w.cells[1] == ".SAMXM";
    assert w.cells[2] == ".A..A.";
    assert w.cells[3] == "XMAS.S";
    assert w.cells[4] == ".X....";
  }

  lemma Word416(w: Wordsearch)
    requires LetterAt(w, (4, 1), (0, 1), 0) == Some('X')
    requires LetterAt(w, (4, 1), (0, 1), 1) == Some('A')
    requires LetterAt(w, (4, 1), (0, 1), 2) == Some('.')
    requires LetterAt(w, (4, 1), (0, 1), 3) == Some('.')
    ensures GetWord(w, (4, 1), 4, (0, 1)) == "XA.."
  {
    WordOfFour(w, (4, 1), (0, 1), Some('X'), Some('A'), Some('.'), Some('.'), "XA..");
  }

  lemma Letters417(w: Wordsearch)
    requires w == Example
    ensures LetterAt(w, (4, 1), (-1, 1), 0) == Some('X')
    ensures LetterAt(w, (4, 1), (-1, 1), 1) == Some('.')
    ensures LetterAt(w, (4, 1), (-1, 1), 2) == Some('A')
    ensures LetterAt(w, (4, 1), (-1, 1), 3) == Some('X')
  {
    assert w.cells[1] == ".SAMXM";
    assert w.cells[2] == ".A..A.";
    assert w.cells[3] == "XMAS.S";
    assert w.cells[4] == ".X....";
  }

  lemma Word417(w: Wordsearch)
    requires LetterAt(w, (4, 1), (-1, 1), 0) == Some('X')
    requires LetterAt(w, (4, 1), (-1, 1), 1) == Some('.')
    requires LetterAt(w, (4, 1), (-1, 1), 2) == Some('A')
    requires LetterAt(w, (4, 1), (-1, 1), 3) == Some('X')
    ensures GetWord(w, (4, 1), 4, (-1, 1)) == "X.AX"
  {
    WordOfFour(w, (4, 1), (-1, 1), Some('X'), Some('.'), Some('A'), Some('X'), "X.AX");
  }

  lemma CountXmas41()
    ensures CountEqual(["XMAS", "X.", "X.", "X.", "XM", "X.", "XA..", "X.AX"], "XMAS") == 1
  {
    assert |"X."| != |"XMAS"|;
    assert |"X."| != |"XMAS"|;
    assert |"X."| != |"XMAS"|;
    assert |"XM"| != |"XMAS"|;
    assert |"X."| != |"XMAS"|;
    assert "XA.."[1] != "XMAS"[1];
    assert "X.AX"[1] != "XMAS"[1];
  }

  lemma Words41(w: Wordsearch)
    requires GetWord(w, (4, 1), 4, (-1, 0)) == "XMAS"
    requires GetWord(w, (4, 1), 4, (-1, -1)) == "X."
    requires GetWord(w, (4, 1), 4, (0, -1)) == "X."
    requires GetWord(w, (4, 1), 4, (1, -1)) == "X."
    requires GetWord(w, (4, 1), 4, (1, 0)) == "XM"
    requires GetWord(w, (4, 1), 4, (1, 1)) == "X."
    requires GetWord(w, (4, 1), 4, (0, 1)) == "XA.."
    requires GetWord(w, (4, 1), 4, (-1, 1)) == "X.AX"
    ensures WordsFrom(w, (4, 1), 4) == ["XMAS", "X.", "X.", "X.", "XM", "X.", "XA..", "X.AX"]
    ensures CountEqual(WordsFrom(w, (4, 1), 4), "XMAS") == 1
  {
    var r := WordsFrom(w, (4, 1), 4);
    assert r == ["XMAS", "X.", "X.", "X.", "XM", "X.", "XA..", "X.AX"];
    CountXmas41();
  }

  lemma ExampleWordsFrom41(w: Wordsearch)
    requires w == Example
    ensures WordsFrom(w, (4, 1), 4) == ["XMAS", "X.", "X.", "X.", "XM", "X.", "XA..", "X.AX"]
    ensures CountEqual(WordsFrom(w, (4, 1), 4), "XMAS") == 1
  {
    Letters410(w);
    Word410(w);
    Letters411(w);
    Word411(w);
    Letters412(w);
    Word412(w);
    Letters413(w);
    Word413(w);
    Letters414(w);
    Word414(w);
    Letters415(w);
    Word415(w);
    Letters416(w);
    Word416(w);
    Letters417(w);
    Word417(w);
    Words41(w);
  }

  lemma Letters030(w: Wordsearch)
    requires w == Example
    ensures LetterAt(w, (0, 3), (-1, 0), 0) == Some('X')
    ensures LetterAt(w, (0, 3), (-1, 0), 1) == None
    ensures LetterAt(w, (0, 3), (-1, 0), 2) == None
    ensures LetterAt(w, (0, 3), (-1, 0), 3) == None
  {
    assert w.cells[3] == "XMAS.S";
  }

  lemma Word030(w: Wordsearch)
    requires LetterAt(w, (0, 3), (-1, 0), 0) == Some('X')
    requires LetterAt(w, (0, 3), (-1, 0), 1) == None
    requires LetterAt(w, (0, 3), (-1, 0), 2) == None
    requires LetterAt(w, (0, 3), (-1, 0), 3) == None
    ensures GetWord(w, (0, 3), 4, (-1, 0)) == "X"
  {
    WordOfFour(w, (0, 3), (-1, 0), Some('X'), None, None, None, "X");
  }

  lemma Letters031(w: Wordsearch)
    requires w == Example
    ensures LetterAt(w, (0, 3), (-1, -1), 0) == Some('X')
    ensures LetterAt(w, (0, 3), (-1, -1), 1) == None
    ensures LetterAt(w, (0, 3), (-1, -1), 2) == None
    ensures LetterAt(w, (0, 3), (-1, -1), 3) == None
  {
    assert w.cells[3] == "XMAS.S";
  }

  lemma Word031(w: Wordsearch)
    requires LetterAt(w, (0, 3), (-1, -1), 0) == Some('X')
    requires LetterAt(w, (0, 3), (-1, -1), 1) == None
    requires LetterAt(w, (0, 3), (-1, -1), 2) == None
    requires LetterAt(w, (0, 3), (-1, -1), 3) == None
    ensures GetWord(w, (0, 3), 4, (-1, -1)) == "X"
  {
    WordOfFour(w, (0, 3), (-1, -1), Some('X'), None, None, None, "X");
  }

  lemma Letters032(w: Wordsearch)
    requires w == Example
    ensures LetterAt(w, (0, 3), (0, -1), 0) == Some('X')
    ensures LetterAt(w, (0, 3), (0, -1), 1) == Some('.')
    ensures LetterAt(w, (0, 3), (0, -1), 2) == Some('.')
    ensures LetterAt(w, (0, 3), (0, -1), 3) == Some('.')
  {
    assert w.cells[0] == "..X...";
    assert w.cells[1] == ".SAMXM";
    assert w.cells[2] == ".A..A.";
    assert w.cells[3] == "XMAS.S";
  }

  lemma Word032(w: Wordsearch)
    requires LetterAt(w, (0, 3), (0, -1), 0) == Some('X')
    requires LetterAt(w, (0, 3), (0, -1), 1) == Some('.')
    requires LetterAt(w, (0, 3), (0, -1), 2) == Some('.')
    requires LetterAt(w, (0, 3), (0, -1), 3) == Some('.')
    ensures GetWord(w, (0, 3), 4, (0, -1)) == "X..."
  {
    WordOfFour(w, (0, 3), (0, -1), Some('X'), Some('.'), Some('.'), Some('.'), "X...");
  }

  lemma Letters033(w: Wordsearch)
    requires w == Example
    ensures LetterAt(w, (0, 3), (1, -1), 0) == Some('X')
    ensures LetterAt(w, (0, 3), (1, -1), 1) == Some('A')
    ensures LetterAt(w, (0, 3), (1, -1), 2) == Some('A')
    ensures LetterAt(w, (0, 3), (1, -1), 3) == Some('.')
  {
    assert w.cells[0] == "..X...";
    assert w.cells[1] == ".SAMXM";
    assert w.cells[2] == ".A..A.";
    assert w.cells[3] == "XMAS.S";
  }

  lemma Word033(w: Wordsearch)
    requires LetterAt(w, (0, 3), (1, -1), 0) == Some('X')
    requires LetterAt(w, (0, 3), (1, -1), 1) == Some('A')
    requires LetterAt(w, (0, 3), (1, -1), 2) == Some('A')
    requires LetterAt(w, (0, 3), (1, -1), 3) == Some('.')
    ensures GetWord(w, (0, 3), 4, (1, -1)) == "XAA."
  {
    WordOfFour(w, (0, 3), (1, -1), Some('X'), Some('A'), Some('A'), Some('.'), "XAA.");
  }

  lemma Letters034(w: Wordsearch)
    requires w == Example
    ensures LetterAt(w, (0, 3), (1, 0), 0) == Some('X')
    ensures LetterAt(w, (0, 3), (1, 0), 1) == Some('M')
    ensures LetterAt(w, (0, 3), (1, 0), 2) == Some('A')
    ensures LetterAt(w, (0, 3), (1, 0), 3) == Some('S')
  {
    assert w.cells[3] == "XMAS.S";
  }

  lemma Word034(w: Wordsearch)
    requires LetterAt(w, (0, 3), (1, 0), 0) == Some('X')
    requires LetterAt(w, (0, 3), (1, 0), 1) == Some('M')
    requires LetterAt(w, (0, 3), (1, 0), 2) == Some('A')
    requires LetterAt(w, (0, 3), (1, 0), 3) == Some('S')
    ensures GetWord(w, (0, 3), 4, (1, 0)) == "XMAS"
  {
    WordOfFour(w, (0, 3), (1, 0), Some('X'), Some('M'), Some('A'), Some('S'), "XMAS");
  }

  lemma Letters035(w: Wordsearch)
    requires w == Example
    ensures LetterAt(w, (0, 3), (1, 1), 0) == Some('X')
    ensures LetterAt(w, (0, 3), (1, 1), 1) == Some('X')
    ensures LetterAt(w, (0, 3), (1, 1), 2) == None
    ensures LetterAt(w, (0, 3), (1, 1), 3) == None
  {
    assert w.cells[3] == "XMAS.S";
    assert w.cells[4] == ".X....";
  }

  lemma Word035(w: Wordsearch)
    requires LetterAt(w, (0, 3), (1, 1), 0) == Some('X')
    requires LetterAt(w, (0, 3), (1, 1), 1) == Some('X')
    requires LetterAt(w, (0, 3), (1, 1), 2) == None
    requires LetterAt(w, (0, 3), (1, 1), 3) == None
    ensures GetWord(w, (0, 3), 4, (1, 1)) == "XX"
  {
    WordOfFour(w, (0, 3), (1, 1), Some('X'), Some('X'), None, None, "XX");
  }

  lemma Letters036(w: Wordsearch)
    requires w == Example
    ensures LetterAt(w, (0, 3), (0, 1), 0) == Some('X')
    ensures LetterAt(w, (0, 3), (0, 1), 1) == Some('.')
    ensures LetterAt(w, (0, 3), (0, 1), 2) == None
    ensures LetterAt(w, (0, 3), (0, 1), 3) == None
  {
    assert w.cells[3] == "XMAS.S";
    assert w.cells[4] == ".X....";
  }

  lemma Word036(w: Wordsearch)
    requires LetterAt(w, (0, 3), (0, 1), 0) == Some('X')
    requires LetterAt(w, (0, 3), (0, 1), 1) == Some('.')
    requires LetterAt(w, (0, 3), (0, 1), 2) == None
    requires LetterAt(w, (0, 3), (0, 1), 3) == None
    ensures GetWord(w, (0, 3), 4, (0, 1)) == "X."
  {
    WordOfFour(w, (0, 3), (0, 1), Some('X'), Some('.'), None, None, "X.");
  }

  lemma Letters037(w: Wordsearch)
    requires w == Example
    ensures LetterAt(w, (0, 3), (-1, 1), 0) == Some('X')
    ensures LetterAt(w, (0, 3), (-1, 1), 1) == None
    ensures LetterAt(w, (0, 3), (-1, 1), 2) == None
    ensures LetterAt(w, (0, 3), (-1, 1), 3) == None
  {
    assert w.cells[3] == "XMAS.S";
  }

  lemma Word037(w: Wordsearch)
    requires LetterAt(w, (0, 3), (-1, 1), 0) == Some('X')
    requires LetterAt(w, (0, 3), (-1, 1), 1) == None
    requires LetterAt(w, (0, 3), (-1, 1), 2) == None
    requires LetterAt(w, (0, 3), (-1, 1), 3) == None
    ensures GetWord(w, (0, 3), 4, (-1, 1)) == "X"
  {
    WordOfFour(w, (0, 3), (-1, 1), Some('X'), None, None, None, "X");
  }

  lemma CountXmas03()
    ensures CountEqual(["X", "X", "X...", "XAA.", "XMAS", "XX", "X.", "X"], "XMAS") == 1
  {
    assert |"X"| != |"XMAS"|;
    assert |"X"| != |"XMAS"|;
    assert "X..."[1] != "XMAS"[1];
    assert "XAA."[1] != "XMAS"[1];
    assert |"XX"| != |"XMAS"|;
    assert |"X."| != |"XMAS"|;
    assert |"X"| != |"XMAS"|;
  }

  lemma Words03(w: Wordsearch)
    requires GetWord(w, (0, 3), 4, (-1, 0)) == "X"
    requires GetWord(w, (0, 3), 4, (-1, -1)) == "X"
    requires GetWord(w, (0, 3), 4, (0, -1)) == "X..."
    requires GetWord(w, (0, 3), 4, (1, -1)) == "XAA."
    requires GetWord(w, (0, 3), 4, (1, 0)) == "XMAS"
    requires GetWord(w, (0, 3), 4, (1, 1)) == "XX"
    requires GetWord(w, (0, 3), 4, (0, 1)) == "X."
    requires GetWord(w, (0, 3), 4, (-1, 1)) == "X"
    ensures WordsFrom(w, (0, 3), 4) == ["X", "X", "X...", "XAA.", "XMAS", "XX", "X.", "X"]
    ensures CountEqual(WordsFrom(w, (0, 3), 4), "XMAS") == 1
  {
    var r := WordsFrom(w, (0, 3), 4);
    assert r == ["X", "X", "X...", "XAA.", "XMAS", "XX", "X.", "X"];
    CountXmas03();
  }

  lemma ExampleWordsFrom03(w: Wordsearch)
    requires w == Example
    ensures WordsFrom(w, (0, 3), 4) == ["X", "X", "X...", "XAA.", "XMAS", "XX", "X.", "X"]
    ensures CountEqual(WordsFrom(w, (0, 3), 4), "XMAS") == 1
  {
    Letters030(w);
    Word030(w);
    Letters031(w);
    Word031(w);
    Letters032(w);
    Word032(w);
    Letters033(w);
    Word033(w);
    Letters034(w);
    Word034(w);
    Letters035(w);
    Word035(w);
    Letters036(w);
    Word036(w);
    Letters037(w);
    Word037(w);
    Words03(w);
  }

  lemma Letters140(w: Wordsearch)
    requires w == Example
    ensures LetterAt(w, (1, 4), (-1, 0), 0) == Some('X')
    ensures LetterAt(w, (1, 4), (-1, 0), 1) == Some('.')
    ensures LetterAt(w, (1, 4), (-1, 0), 2) == None
    ensures LetterAt(w, (1, 4), (-1, 0), 3) == None
  {
    assert w.cells[4] == ".X....";
  }

  lemma Word140(w: Wordsearch)
    requires LetterAt(w, (1, 4), (-1, 0), 0) == Some('X')
    requires LetterAt(w, (1, 4), (-1, 0), 1) == Some('.')
    requires LetterAt(w, (1, 4), (-1, 0), 2) == None
    requires LetterAt(w, (1, 4), (-1, 0), 3) == None
    ensures GetWord(w, (1, 4), 4, (-1, 0)) == "X."
  {
    WordOfFour(w, (1, 4), (-1, 0), Some('X'), Some('.'), None, None, "X.");
  }

  lemma Letters141(w: Wordsearch)
    requires w == Example
    ensures LetterAt(w, (1, 4), (-1, -1), 0) == Some('X')
    ensures LetterAt(w, (1, 4), (-1, -1), 1) == Some('X')
    ensures LetterAt(w, (1, 4), (-1, -1), 2) == None
    ensures LetterAt(w, (1, 4), (-1, -1), 3) == None
  {
    assert w.cells[3] == "XMAS.S";
    assert w.cells[4] == ".X....";
  }

  lemma Word141(w: Wordsearch)
    requires LetterAt(w, (1, 4), (-1, -1), 0) == Some('X')
    requires LetterAt(w, (1, 4), (-1, -1), 1) == Some('X')
    requires LetterAt(w, (1, 4), (-1, -1), 2) == None
    requires LetterAt(w, (1, 4), (-1, -1), 3) == None
    ensures GetWord(w, (1, 4), 4, (-1, -1)) == "XX"
  {
    WordOfFour(w, (1, 4), (-1, -1), Some('X'), Some('X'), None, None, "XX");
  }

  lemma Letters142(w: Wordsearch)
    requires w == Example
    ensures LetterAt(w, (1, 4), (0, -1), 0) == Some('X')
    ensures LetterAt(w, (1, 4), (0, -1), 1) == Some('M')
    ensures LetterAt(w, (1, 4), (0, -1), 2) == Some('A')
    ensures LetterAt(w, (1, 4), (0, -1), 3) == Some('S')
  {
    assert w.cells[1] == ".SAMXM";
    assert w.cells[2] == ".A..A.";
    assert w.cells[3] == "XMAS.S";
    assert w.cells[4] == ".X....";
  }

  lemma Word142(w: Wordsearch)
    requires LetterAt(w, (1, 4), (0, -1), 0) == Some('X')
    requires LetterAt(w, (1, 4), (0, -1), 1) == Some('M')
    requires LetterAt(w, (1, 4), (0, -1), 2) == Some('A')
    requires LetterAt(w, (1, 4), (0, -1), 3) == Some('S')
    ensures GetWord(w, (1, 4), 4, (0, -1)) == "XMAS"
  {
    WordOfFour(w, (1, 4), (0, -1), Some('X'), Some('M'), Some('A'), Some('S'), "XMAS");
  }

  lemma Letters143(w: Wordsearch)
    requires w == Example
    ensures LetterAt(w, (1, 4), (1, -1), 0) == Some('X')
    ensures LetterAt(w, (1, 4), (1, -1), 1) == Some('A')
    ensures LetterAt(w, (1, 4), (1, -1), 2) == Some('.')
    ensures LetterAt(w, (1, 4), (1, -1), 3) == Some('X')
  {
    assert w.cells[1] == ".SAMXM";
    assert w.cells[2] == ".A..A.";
    assert w.cells[3] == "XMAS.S";
    assert w.cells[4] == ".X....";
  }

  lemma Word143(w: Wordsearch)
    requires LetterAt(w, (1, 4), (1, -1), 0) == Some('X')
    requires LetterAt(w, (1, 4), (1, -1), 1) == Some('A')
    requires LetterAt(w, (1, 4), (1, -1), 2) == Some('.')
    requires LetterAt(w, (1, 4), (1, -1), 3) == Some('X')
    ensures GetWord(w, (1, 4), 4, (1, -1)) == "XA.X"
  {
    WordOfFour(w, (1, 4), (1, -1), Some('X'), Some('A'), Some('.'), Some('X'), "XA.X");
  }

  lemma Letters144(w: Wordsearch)
    requires w == Example
    ensures LetterAt(w, (1, 4), (1, 0), 0) == Some('X')
    ensures LetterAt(w, (1, 4), (1, 0), 1) == Some('.')
    ensures LetterAt(w, (1, 4), (1, 0), 2) == Some('.')
    ensures LetterAt(w, (1, 4), (1, 0), 3) == Some('.')
  {
    assert w.cells[4] == ".X....";
  }

  lemma Word144(w: Wordsearch)
    requires LetterAt(w, (1, 4), (1, 0), 0) == Some('X')
    requires LetterAt(w, (1, 4), (1, 0), 1) == Some('.')
    requires LetterAt(w, (1, 4), (1, 0), 2) == Some('.')
    requires LetterAt(w, (1, 4), (1, 0), 3) == Some('.')
    ensures GetWord(w, (1, 4), 4, (1, 0)) == "X..."
  {
    WordOfFour(w, (1, 4), (1, 0), Some('X'), Some('.'), Some('.'), Some('.'), "X...");
  }

  lemma Letters145(w: Wordsearch)
    requires w == Example
    ensures LetterAt(w, (1, 4), (1, 1), 0) == Some('X')
    ensures LetterAt(w, (1, 4), (1, 1), 1) == None
    ensures LetterAt(w, (1, 4), (1, 1), 2) == None
    ensures LetterAt(w, (1, 4), (1, 1), 3) == None
  {
    assert w.cells[4] == ".X....";
  }

  lemma Word145(w: Wordsearch)
    requires LetterAt(w, (1, 4), (1, 1), 0) == Some('X')
    requires LetterAt(w, (1, 4), (1, 1), 1) == None
    requires LetterAt(w, (1, 4), (1, 1), 2) == None
    requires LetterAt(w, (1, 4), (1, 1), 3) == None
    ensures GetWord(w, (1, 4), 4, (1, 1)) == "X"
  {
    WordOfFour(w, (1, 4), (1, 1), Some('X'), None, None, None, "X");
  }

  lemma Letters146(w: Wordsearch)
    requires w == Example
    ensures LetterAt(w, (1, 4), (0, 1), 0) == Some('X')
    ensures LetterAt(w, (1, 4), (0, 1), 1) == None
    ensures LetterAt(w, (1, 4), (0, 1), 2) == None
    ensures LetterAt(w, (1, 4), (0, 1), 3) == None
  {
    assert w.cells[4] == ".X....";
  }

  lemma Word146(w: Wordsearch)
    requires LetterAt(w, (1, 4), (0, 1), 0) == Some('X')
    requires LetterAt(w, (1, 4), (0, 1), 1) == None
    requires LetterAt(w, (1, 4), (0, 1), 2) == None
    requires LetterAt(w, (1, 4), (0, 1), 3) == None
    ensures GetWord(w, (1, 4), 4, (0, 1)) == "X"
  {
    WordOfFour(w, (1, 4), (0, 1), Some('X'), None, None, None, "X");
  }

  lemma Letters147(w: Wordsearch)
    requires w == Example
    ensures LetterAt(w, (1, 4), (-1, 1), 0) == Some('X')
    ensures LetterAt(w, (1, 4), (-1, 1), 1) == None
    ensures LetterAt(w, (1, 4), (-1, 1), 2) == None
    ensures LetterAt(w, (1, 4), (-1, 1), 3) == None
  {
    assert w.cells[4] == ".X....";
  }

  lemma Word147(w: Wordsearch)
    requires LetterAt(w, (1, 4), (-1, 1), 0) == Some('X')
    requires LetterAt(w, (1, 4), (-1, 1), 1) == None
    requires LetterAt(w, (1, 4), (-1, 1), 2) == None
    requires LetterAt(w, (1, 4), (-1, 1), 3) == None
    ensures GetWord(w, (1, 4), 4, (-1, 1)) == "X"
  {
    WordOfFour(w, (1, 4), (-1, 1), Some('X'), None, None, None, "X");
  }

  lemma CountXmas14()
    ensures CountEqual(["X.", "XX", "XMAS", "XA.X", "X...", "X", "X", "X"], "XMAS") == 1
  {
    assert |"X."| != |"XMAS"|;
    assert |"XX"| != |"XMAS"|;
    assert "XA.X"[1] != "XMAS"[1];
    assert "X..."[1] != "XMAS"[1];
    assert |"X"| != |"XMAS"|;
    assert |"X"| != |"XMAS"|;
    assert |"X"| != |"XMAS"|;
  }

  lemma Words14(w: Wordsearch)
    requires GetWord(w, (1, 4), 4, (-1, 0)) == "X."
    requires GetWord(w, (1, 4), 4, (-1, -1)) == "XX"
    requires GetWord(w, (1, 4), 4, (0, -1)) == "XMAS"
    requires GetWord(w, (1, 4), 4, (1, -1)) == "XA.X"
    requires GetWord(w, (1, 4), 4, (1, 0)) == "X..."
    requires GetWord(w, (1, 4), 4, (1, 1)) == "X"
    requires GetWord(w, (1, 4), 4, (0, 1)) == "X"
    requires GetWord(w, (1, 4), 4, (-1, 1)) == "X"
    ensures WordsFrom(w, (1, 4), 4) == ["X.", "XX", "XMAS", "XA.X", "X...", "X", "X", "X"]
    ensures CountEqual(WordsFrom(w, (1, 4), 4), "XMAS") == 1
  {
    var r := WordsFrom(w, (1, 4), 4);
    assert r == ["X.", "XX", "XMAS", "XA.X", "X...", "X", "X", "X"];
    CountXmas14();
  }

  lemma ExampleWordsFrom14(w: Wordsearch)
    requires w == Example
    ensures WordsFrom(w, (1, 4), 4) == ["X.", "XX", "XMAS", "XA.X", "X...", "X", "X", "X"]
    ensures CountEqual(WordsFrom(w, (1, 4), 4), "XMAS") == 1
  {
    Letters140(w);
    Word140(w);
    Letters141(w);
    Word141(w);
    Letters142(w);
    Word142(w);
    Letters143(w);
    Word143(w);
    Letters144(w);
    Word144(w);
    Letters145(w);
    Word145(w);
    Letters146(w);
    Word146(w);
    Letters147(w);
    Word147(w);
    Words14(w);
  }

  lemma ExampleWordsFrom(w: Wordsearch)
    requires w == Example
    ensures WordsFrom(w, (2, 0), 4) == ["X..", "X", "X", "X", "X...", "XMAS", "XA.A", "XS."]
  {
    ExampleWordsFrom20(w);
  }

  lemma CountFromStarts(w: Wordsearch)
    requires AllMatches(w, 'X') == [(2, 0), (4, 1), (0, 3), (1, 4)]
    requires CountEqual(WordsFrom(w, (2, 0), 4), "XMAS") == 1
    requires CountEqual(WordsFrom(w, (4, 1), 4), "XMAS") == 1
    requires CountEqual(WordsFrom(w, (0, 3), 4), "XMAS") == 1
    requires CountEqual(WordsFrom(w, (1, 4), 4), "XMAS") == 1
    ensures WordCount(w, "XMAS") == Some(4)
  {
    hide CountEqual, WordsFrom, AllMatches;
    assert "XMAS"[0] == 'X' && |"XMAS"| == 4;
    var weight := OccurrencesFrom(w, "XMAS");
    SumOverFour(weight, (2, 0), (4, 1), (0, 3), (1, 4));
  }

  lemma SumOverFour(weight: Coord -> nat, a: Coord, b: Coord, c: Coord, d: Coord)
    ensures SumOver([a, b, c, d], weight) == weight(a) + weight(b) + weight(c) + weight(d)
  {
    assert [a, b, c, d][1..] == [b, c, d] && [b, c, d][1..] == [c, d] && [c, d][1..] == [d];
    assert SumOver([d], weight) == weight(d) + SumOver([], weight);
    assert SumOver([c, d], weight) == weight(c) + SumOver([d], weight);
    assert SumOver([b, c, d], weight) == weight(b) + SumOver([c, d], weight);
  }

  lemma ExampleWordCount(w: Wordsearch)
    requires w == Example
    ensures WordCount(w, "XMAS") == Some(4)
  {
    ExampleFindAll();
    ExampleWordsFrom20(w);
    ExampleWordsFrom41(w);
    ExampleWordsFrom03(w);
    ExampleWordsFrom14(w);
    CountFromStarts(w);
  }

  lemma ExampleIsXMas()
    ensures !IsXMas(Example, (1, 1))
    ensures IsXMas(Example, (4, 2))
  {
    IsXMasByNeighbours(Example, 1, 1);
    IsXMasByNeighbours(Example, 4, 2);
  }
}
