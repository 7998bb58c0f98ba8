/** Small shared vocabulary: an optional value and the text helpers the
    puzzle parsers are built from. */
module Common {

  datatype Option<+T> = None | Some(value: T)

  /** Sum of a sequence of naturals. */
  function Sum(xs: seq<nat>): nat
  {
    if xs == [] then 0 else xs[0] + Sum(xs[1..])
  }

  lemma {:induction false} SumAppend(xs: seq<nat>, ys: seq<nat>)
    ensures Sum(xs + ys) == Sum(xs) + Sum(ys)
  {
    if xs == [] {
      assert xs + ys == ys;
    } else {
      assert (xs + ys)[1..] == xs[1..] + ys;
      SumAppend(xs[1..], ys);
    }
  }

  /** Smallest element of a non-empty sequence. */
  function Min(xs: seq<nat>): (m: nat)
    requires xs != []
    ensures m in xs
    ensures forall i :: 0 <= i < |xs| ==> m <= xs[i]
  {
    if |xs| == 1 then xs[0]
    else
      var rest := Min(xs[1..]);
      assert forall i :: 1 <= i < |xs| ==> xs[i] == xs[1..][i - 1];
      if xs[0] <= rest then xs[0] else rest
  }

  /** Quotient and remainder are the only such split. */
  lemma DivModUnique(a: int, p: nat, q: int, r: nat)
    requires p > 0 && r < p && a == q * p + r
    ensures a / p == q && a % p == r
  {
    var q0, r0 := a / p, a % p;
    assert (q0 - q) * p == r - r0;
    MultipleSign(q0 - q, p);
  }

  /** A nonzero multiple of p is at least p away from 0. */
  lemma MultipleSign(x: int, p: nat)
    ensures x >= 1 ==> x * p >= p
    ensures x <= -1 ==> x * p <= -(p as int)
  {
  }

  /** Adding a multiple of the modulus does not change the remainder. */
  lemma ModAddMultiple(x: int, n: int, m: nat)
    requires m > 0
    ensures (x + n * m) % m == x % m
  {
    DivModUnique(x + n * m, m, x / m + n, x % m);
  }

  predicate IsDigit(c: char)
  {
    '0' <= c <= '9'
  }

  function DigitValue(c: char): (d: nat)
    requires IsDigit(c)
    ensures d < 10
  {
    (c as int - '0' as int) as nat
  }

  /** Decimal value of a string of digits, most significant first. */
  function DecimalValue(s: string): nat
    requires forall i :: 0 <= i < |s| ==> IsDigit(s[i])
  {
    if s == [] then 0
    else DecimalValue(s[..|s| - 1]) * 10 + DigitValue(s[|s| - 1])
  }

  /** The digits of s in order, everything else dropped. */
  function Digits(s: string): (r: string)
    ensures forall i :: 0 <= i < |r| ==> IsDigit(r[i])
    ensures |r| <= |s|
    ensures r == [] <==> forall i :: 0 <= i < |s| ==> !IsDigit(s[i])
  {
    if s == [] then []
    else (if IsDigit(s[0]) then [s[0]] else []) + Digits(s[1..])
  }

  /** Digits are taken from each part of a text in turn, so with the
      single-character case this pins the result to the text's digits in
      their order. */
  lemma {:induction false} DigitsAppend(a: string, b: string)
    ensures Digits(a + b) == Digits(a) + Digits(b)
  {
    if a != [] {
      assert (a + b)[1..] == a[1..] + b;
      DigitsAppend(a[1..], b);
    } else {
      assert a + b == b;
    }
  }

  /** A single character is kept exactly when it is a digit. */
  lemma DigitsSingle(c: char)
    ensures Digits([c]) == if IsDigit(c) then [c] else []
  {
    assert [c][1..] == [];
  }

  predicate AllDigits(s: string)
  {
    forall i :: 0 <= i < |s| ==> IsDigit(s[i])
  }

  /** A non-empty run of decimal digits and nothing else. */
  function ParseDigits(s: string): (r: Option<nat>)
    ensures r.Some? <==> s != [] && AllDigits(s)
  {
    if s != [] && AllDigits(s) then Some(DecimalValue(s)) else None
  }

  /** An unsigned decimal literal as Rust's `str::parse` reads it: an
      optional '+' then one or more digits (no width limit here). */
  function ParseNat(s: string): (r: Option<nat>)
    ensures s != [] && s[0] != '+' ==> r == ParseDigits(s)
    ensures s != [] && s[0] == '+' ==> r == ParseDigits(s[1..])
    ensures s == [] ==> r.None?
  {
    if s != [] && s[0] == '+' then ParseDigits(s[1..]) else ParseDigits(s)
  }

  /** A signed decimal literal: an optional '-' or '+' then digits. */
  function ParseInt(s: string): (r: Option<int>)
    ensures s != [] && s[0] == '-' ==> r == (match ParseDigits(s[1..]) case Some(n) => Some(-(n as int)) case None => None)
    ensures (s == [] || s[0] != '-') ==> r == (match ParseNat(s) case Some(n) => Some(n as int) case None => None)
  {
    if s != [] && s[0] == '-' then
      match ParseDigits(s[1..])
      case Some(n) => Some(-(n as int))
      case None => None
    else
      match ParseNat(s)
      case Some(n) => Some(n as int)
      case None => None
  }

  /** Exclusive upper bound of Rust's `u8`. */
  const U8Limit: nat := 256

  /** `str::parse::<u8>`: an unsigned literal that fits in 8 bits. */
  function ParseU8(s: string): (r: Option<nat>)
    ensures r.Some? <==> ParseNat(s).Some? && ParseNat(s).value < U8Limit
    ensures r.Some? ==> r.value == ParseNat(s).value
  {
    match ParseNat(s)
    case Some(n) => if n < U8Limit then Some(n) else None
    case None => None
  }

  /** Exclusive upper bound of Rust's `u32`. */
  const U32Limit: nat := 0x1_0000_0000

  /** `str::parse::<u32>`: an unsigned literal that fits in 32 bits. */
  function ParseU32(s: string): (r: Option<nat>)
    ensures r.Some? <==> ParseNat(s).Some? && ParseNat(s).value < U32Limit
    ensures r.Some? ==> r.value == ParseNat(s).value
  {
    match ParseNat(s)
    case Some(n) => if n < U32Limit then Some(n) else None
    case None => None
  }

  /** Exclusive upper bound of Rust's `u64`. */
  const U64Limit: nat := 0x1_0000_0000_0000_0000

  /** `str::parse::<u64>`: an unsigned literal that fits in 64 bits. */
  function ParseU64(s: string): (r: Option<nat>)
    ensures r.Some? <==> ParseNat(s).Some? && ParseNat(s).value < U64Limit
    ensures r.Some? ==> r.value == ParseNat(s).value
  {
    match ParseNat(s)
    case Some(n) => if n < U64Limit then Some(n) else None
    case None => None
  }

  /** ASCII whitespace; Rust's `str::trim` also drops the other Unicode
      whitespace characters, which puzzle input does not contain. */
  predicate IsSpace(c: char)
  {
    c == ' ' || c == '\t' || c == '\n' || c == '\r' || c == '\U{000B}' || c == '\U{000C}'
  }

  /** Drop leading whitespace. */
  function TrimStart(s: string): (r: string)
    ensures |r| <= |s| && r == s[|s| - |r|..]
    ensures r == [] || !IsSpace(r[0])
    ensures forall i :: 0 <= i < |s| - |r| ==> IsSpace(s[i])
  {
    if s != [] && IsSpace(s[0]) then
      var r := TrimStart(s[1..]);
      assert forall i :: 1 <= i < |s| - |r| ==> s[i] == s[1..][i - 1];
      r
    else s
  }

  /** Drop trailing whitespace. */
  function TrimEnd(s: string): (r: string)
    ensures |r| <= |s| && r == s[..|r|]
    ensures r == [] || !IsSpace(r[|r| - 1])
    ensures forall i :: |r| <= i < |s| ==> IsSpace(s[i])
  {
    if s != [] && IsSpace(s[|s| - 1]) then TrimEnd(s[..|s| - 1]) else s
  }

  /** `str::trim`. */
  function Trim(s: string): (r: string)
    ensures |r| <= |s|
    ensures r == [] || (!IsSpace(r[0]) && !IsSpace(r[|r| - 1]))
  {
    TrimEnd(TrimStart(s))
  }

  /** Trimming removes whitespace from the two ends and nothing else: the
      result is the text between a run of leading and a run of trailing
      whitespace. */
  lemma TrimRemovesEnds(s: string)
    ensures var i, r := |s| - |TrimStart(s)|, Trim(s);
      i + |r| <= |s| && r == s[i..i + |r|] &&
      (forall k :: 0 <= k < i ==> IsSpace(s[k])) &&
      (forall k :: i + |r| <= k < |s| ==> IsSpace(s[k]))
  {
    hide TrimStart, TrimEnd;
    var t := TrimStart(s);
    var i := |s| - |t|;
    var r := TrimEnd(t);
    assert Trim(s) == r;
    assert r == s[i..i + |r|] by {
      assert t == s[i..] && r == t[..|r|];
    }
    assert forall k :: 0 <= k < i ==> IsSpace(s[k]);
    forall k | i + |r| <= k < |s|
      ensures IsSpace(s[k])
    {
      assert s[k] == t[k - i] && IsSpace(t[k - i]);
    }
  }

  /** Text with no whitespace at either end is its own trim. */
  lemma TrimUnchanged(s: string)
    requires s != [] && !IsSpace(s[0]) && !IsSpace(s[|s| - 1])
    ensures Trim(s) == s
  {
    assert TrimStart(s) == s;
  }

  /** The range of Rust's `i64`. */
  const I64Min: int := -0x8000_0000_0000_0000
  const I64Max: int := 0x7FFF_FFFF_FFFF_FFFF

  predicate InI64(v: int)
  {
    I64Min <= v <= I64Max
  }

  /** `str::parse::<i64>`: a signed literal within 64 bits. */
  function ParseI64(s: string): (r: Option<int>)
    ensures r.Some? <==> ParseInt(s).Some? && InI64(ParseInt(s).value)
    ensures r.Some? ==> r.value == ParseInt(s).value
  {
    match ParseInt(s)
    case Some(n) => if InI64(n) then Some(n) else None
    case None => None
  }

  /** The pieces that parse as u32, in order; the others are dropped (a
      `flat_map` over the parse results). */
  function U32Pieces(pieces: seq<string>): (r: seq<nat>)
    ensures |r| <= |pieces|
    ensures forall k :: 0 <= k < |r| ==> r[k] < U32Limit
    ensures forall n: nat :: n in r <==> exists k :: 0 <= k < |pieces| && ParseU32(pieces[k]) == Some(n)
  {
    if pieces == [] then []
    else
      var rest := U32Pieces(pieces[1..]);
      assert forall n :: (exists k :: 0 <= k < |pieces| - 1 && ParseU32(pieces[1..][k]) == Some(n)) <==>
        (exists k :: 1 <= k < |pieces| && ParseU32(pieces[k]) == Some(n)) by {
        forall n ensures (exists k :: 0 <= k < |pieces| - 1 && ParseU32(pieces[1..][k]) == Some(n)) <==>
          (exists k :: 1 <= k < |pieces| && ParseU32(pieces[k]) == Some(n))
        {
          if k :| 1 <= k < |pieces| && ParseU32(pieces[k]) == Some(n) {
            assert pieces[1..][k - 1] == pieces[k];
          }
        }
      }
      (match ParseU32(pieces[0]) case Some(n) => [n] case None => []) + rest
  }

  /** The parsed values of two runs of pieces follow each other: with the
      single-piece case this pins the result to the values of exactly the
      pieces that parse, in their order. */
  lemma {:induction false} U32PiecesAppend(a: seq<string>, b: seq<string>)
    ensures U32Pieces(a + b) == U32Pieces(a) + U32Pieces(b)
  {
    if a != [] {
      assert (a + b)[1..] == a[1..] + b;
      U32PiecesAppend(a[1..], b);
    } else {
      assert a + b == b;
    }
  }

  /** A single piece contributes its value exactly when it parses. */
  lemma U32PiecesSingle(p: string)
    ensures U32Pieces([p]) == (match ParseU32(p) case Some(n) => [n] case None => [])
  {
    assert [p][1..] == [];
  }

  /** The pieces of s between occurrences of the separator character. */
  function Split(s: string, sep: char): (r: seq<string>)
    ensures |r| >= 1
    ensures forall i :: 0 <= i < |r| ==> sep !in r[i]
    decreases |s|
  {
    if s == [] then [[]]
    else
      var rest := Split(s[1..], sep);
      if s[0] == sep then [[]] + rest
      else [[s[0]] + rest[0]] + rest[1..]
  }

  /** Text without the separator is a single piece. */
  lemma {:induction false} SplitWithout(s: string, sep: char)
    requires sep !in s
    ensures Split(s, sep) == [s]
    decreases |s|
  {
    if s != [] {
      SplitWithout(s[1..], sep);
      assert [s[0]] + s[1..] == s;
    }
  }

  /** Rust's `str::lines`: split at newlines, drop one trailing empty piece
      and the carriage return of each "\r\n" ending; a final line with no
      newline after it keeps a carriage return at its end. */
  function Lines(s: string): seq<string>
  {
    var pieces := Split(s, '\n');
    var kept := if pieces[|pieces| - 1] == [] then pieces[..|pieces| - 1] else pieces;
    seq(|kept|, i requires 0 <= i < |kept| => if i < |pieces| - 1 then StripCr(kept[i]) else kept[i])
  }

  function StripCr(line: string): string
  {
    if line != [] && line[|line| - 1] == '\r' then line[..|line| - 1] else line
  }

  /** A line of text: no newline inside and no carriage return at its end. */
  predicate PlainLine(line: string)
  {
    '\n' !in line && (line == [] || line[|line| - 1] != '\r')
  }

  /** Text holding the given lines, each ended by a newline. */
  function JoinLines(rows: seq<string>): string
  {
    if rows == [] then [] else rows[0] + "\n" + JoinLines(rows[1..])
  }

  /** Splitting takes a leading piece without the separator off whole. */
  lemma {:induction false} SplitLeading(piece: string, sep: char, rest: string)
    requires sep !in piece
    ensures Split(piece + [sep] + rest, sep) == [piece] + Split(rest, sep)
    decreases |piece|
  {
    if piece == [] {
      assert piece + [sep] + rest == [sep] + rest;
      assert ([sep] + rest)[1..] == rest;
    } else {
      var s := piece + [sep] + rest;
      assert s[1..] == piece[1..] + [sep] + rest;
      SplitLeading(piece[1..], sep, rest);
      assert [s[0]] + piece[1..] == piece;
    }
  }

  /** Splitting at newlines takes a leading line off whole. */
  lemma SplitLeadingLine(line: string, rest: string)
    requires '\n' !in line
    ensures Split(line + "\n" + rest, '\n') == [line] + Split(rest, '\n')
  {
    SplitLeading(line, '\n', rest);
  }

  lemma {:induction false} SplitJoinLines(rows: seq<string>)
    requires forall i :: 0 <= i < |rows| ==> '\n' !in rows[i]
    ensures Split(JoinLines(rows), '\n') == rows + [[]]
  {
    if rows != [] {
      SplitLeadingLine(rows[0], JoinLines(rows[1..]));
      SplitJoinLines(rows[1..]);
      assert [rows[0]] + (rows[1..] + [[]]) == rows + [[]];
    }
  }

  /** Lines written one per line are read back by `Lines`. */
  lemma LinesOfJoinLines(rows: seq<string>)
    requires forall i :: 0 <= i < |rows| ==> PlainLine(rows[i])
    ensures Lines(JoinLines(rows)) == rows
  {
    hide JoinLines, Split;
    SplitJoinLines(rows);
    var pieces := Split(JoinLines(rows), '\n');
    assert pieces[|pieces| - 1] == [];
    assert pieces[..|pieces| - 1] == rows;
    var lines := Lines(JoinLines(rows));
    assert |lines| == |rows|;
    forall i | 0 <= i < |rows|
      ensures lines[i] == rows[i]
    {
      assert StripCr(rows[i]) == rows[i];
    }
  }

  /** Does `sep` occur in s at position i? */
  predicate OccursAt(s: string, sep: string, i: nat)
  {
    i + |sep| <= |s| && s[i..i + |sep|] == sep
  }

  /** Rust's `str::split_once`: the text before and after the first
      occurrence of a non-empty separator, if there is one. */
  function SplitOnce(s: string, sep: string): (r: Option<(string, string)>)
    requires sep != []
    ensures r.Some? ==> r.value.0 + sep + r.value.1 == s
    ensures r.Some? ==> forall i :: 0 <= i < |r.value.0| ==> !OccursAt(s, sep, i)
    ensures r.None? ==> forall i :: 0 <= i <= |s| ==> !OccursAt(s, sep, i)
    decreases |s|
  {
    if |s| < |sep| then None
    else if s[..|sep|] == sep then
      assert [] + sep + s[|sep|..] == s by {
        assert s == s[..|sep|] + s[|sep|..];
      }
      Some(([], s[|sep|..]))
    else
      match SplitOnce(s[1..], sep)
      case None =>
        SplitOnceNowhere(s, sep);
        None
      case Some((before, after)) =>
        SplitOnceLater(s, sep, before, after);
        Some(([s[0]] + before, after))
  }

  /** No occurrence in the tail and none at the front: none at all. */
  lemma SplitOnceNowhere(s: string, sep: string)
    requires sep != [] && |s| >= |sep| && s[..|sep|] != sep
    requires forall i :: 0 <= i <= |s| - 1 ==> !OccursAt(s[1..], sep, i)
    ensures forall i :: 0 <= i <= |s| ==> !OccursAt(s, sep, i)
  {
    OccursInTail(s, sep);
    assert !OccursAt(s, sep, 0);
  }

  /** The first occurrence in the tail, and none at the front: the first
      occurrence is one further on. */
  lemma SplitOnceLater(s: string, sep: string, before: string, after: string)
    requires sep != [] && |s| >= |sep| && s[..|sep|] != sep
    requires before + sep + after == s[1..]
    requires forall i :: 0 <= i < |before| ==> !OccursAt(s[1..], sep, i)
    ensures ([s[0]] + before) + sep + after == s
    ensures forall i :: 0 <= i < |[s[0]] + before| ==> !OccursAt(s, sep, i)
  {
    OccursInTail(s, sep);
    assert !OccursAt(s, sep, 0);
    assert [s[0]] + before + sep + after == [s[0]] + (before + sep + after);
  }

  /** A separator whose first character does not occur before it splits
      text at that place. */
  lemma SplitOnceAt(before: string, sep: string, after: string)
    requires sep != [] && sep[0] !in before
    ensures SplitOnce(before + sep + after, sep) == Some((before, after))
  {
    var s := before + sep + after;
    assert OccursAt(s, sep, |before|) by {
      assert s[|before|..|before| + |sep|] == sep;
    }
    var (x, y) := SplitOnce(s, sep).value;
    assert (x + sep + y)[|x|] == sep[0];
    assert |x| <= |before|;
    assert forall i :: 0 <= i < |before| ==> s[i] == before[i];
    assert x == s[..|x|] && before == s[..|before|];
    assert y == s[|x| + |sep|..] && after == s[|before| + |sep|..];
  }

  /** A separator that does not occur earlier splits text at that place. */
  lemma SplitOnceFirst(before: string, sep: string, after: string)
    requires sep != []
    requires forall i :: 0 <= i < |before| ==> !OccursAt(before + sep + after, sep, i)
    ensures SplitOnce(before + sep + after, sep) == Some((before, after))
  {
    var s := before + sep + after;
    assert OccursAt(s, sep, |before|) by {
      assert s[|before|..|before| + |sep|] == sep;
    }
    var (x, y) := SplitOnce(s, sep).value;
    assert OccursAt(s, sep, |x|) by {
      assert s[|x|..|x| + |sep|] == sep;
    }
    assert |x| == |before|;
    assert x == s[..|x|] && before == s[..|before|];
    assert y == s[|x| + |sep|..] && after == s[|before| + |sep|..];
  }

  /** An occurrence past the first character is an occurrence in the tail. */
  lemma OccursInTail(s: string, sep: string)
    requires s != []
    ensures forall i :: 1 <= i <= |s| ==> (OccursAt(s, sep, i) <==> OccursAt(s[1..], sep, i - 1))
  {
    forall i | 1 <= i <= |s|
      ensures OccursAt(s, sep, i) <==> OccursAt(s[1..], sep, i - 1)
    {
      if i + |sep| <= |s| {
        var t := s[1..];
        var x, y := s[i..i + |sep|], t[i - 1..i - 1 + |sep|];
        assert forall k :: 0 <= k < |sep| ==> x[k] == y[k];
        assert x == y;
      }
    }
  }

  /** Rust's `str::split` with a text separator: the pieces between
      successive non-overlapping occurrences, left to right. */
  function SplitOn(s: string, sep: string): (r: seq<string>)
    requires sep != []
    ensures |r| >= 1
    decreases |s|
  {
    match SplitOnce(s, sep)
    case None => [s]
    case Some((before, after)) => [before] + SplitOn(after, sep)
  }

  /** Text without the separator's first character does not split. */
  lemma {:induction false} SplitOnceAbsent(s: string, sep: string)
    requires sep != [] && sep[0] !in s
    ensures SplitOnce(s, sep) == None
    decreases |s|
  {
    if |s| >= |sep| {
      assert s[..|sep|][0] != sep[0];
      SplitOnceAbsent(s[1..], sep);
    }
  }

  /** Pieces written one after another with the separator between them. */
  function Join(pieces: seq<string>, sep: string): string
  {
    if pieces == [] then []
    else if |pieces| == 1 then pieces[0]
    else pieces[0] + sep + Join(pieces[1..], sep)
  }

  lemma SplitOnStep(before: string, sep: string, after: string)
    requires sep != [] && SplitOnce(before + sep + after, sep) == Some((before, after))
    ensures SplitOn(before + sep + after, sep) == [before] + SplitOn(after, sep)
  {
  }

  /** Splitting joined pieces gives the pieces back, as long as none of them
      holds the separator's first character. */
  lemma {:induction false} SplitOnJoin(pieces: seq<string>, sep: string)
    requires sep != [] && pieces != []
    requires forall k :: 0 <= k < |pieces| ==> sep[0] !in pieces[k]
    ensures SplitOn(Join(pieces, sep), sep) == pieces
  {
    if |pieces| == 1 {
      SplitOnceAbsent(pieces[0], sep);
    } else {
      var rest := Join(pieces[1..], sep);
      assert Join(pieces, sep) == pieces[0] + sep + rest;
      SplitOnceAt(pieces[0], sep, rest);
      SplitOnJoin(pieces[1..], sep);
      hide *;
      SplitOnStep(pieces[0], sep, rest);
      assert [pieces[0]] + pieces[1..] == pieces;
    }
  }

  // ---- Sorting, as the iterator adaptors `sorted()` and `sort()` do ----

  predicate Ascending(xs: seq<nat>)
  {
    forall i, j :: 0 <= i < j < |xs| ==> xs[i] <= xs[j]
  }

  /** Insert x into an ascending sequence, keeping it ascending. */
  function Insert(x: nat, xs: seq<nat>): (r: seq<nat>)
    requires Ascending(xs)
    ensures Ascending(r) && multiset(r) == multiset(xs) + multiset{x} && |r| == |xs| + 1
  {
    if xs == [] then [x]
    else if x <= xs[0] then [x] + xs
    else
      var rest := Insert(x, xs[1..]);
      InsertBehindHead(x, xs, rest);
      [xs[0]] + rest
  }

  /** Putting the head back in front of the tail with x inserted. */
  lemma InsertBehindHead(x: nat, xs: seq<nat>, rest: seq<nat>)
    requires Ascending(xs) && xs != [] && xs[0] < x
    requires Ascending(rest) && multiset(rest) == multiset(xs[1..]) + multiset{x}
    ensures Ascending([xs[0]] + rest)
    ensures multiset([xs[0]] + rest) == multiset(xs) + multiset{x}
  {
    assert xs == [xs[0]] + xs[1..];
    forall k | 0 <= k < |rest|
      ensures xs[0] <= rest[k]
    {
      assert rest[k] in multiset(rest);
      if rest[k] != x {
        HeadIsLeast(xs, rest[k]);
      }
    }
  }

  /** The elements of xs in ascending order. */
  function Sort(xs: seq<nat>): (r: seq<nat>)
    ensures Ascending(r) && multiset(r) == multiset(xs) && |r| == |xs|
  {
    if xs == [] then []
    else
      assert xs == [xs[0]] + xs[1..];
      Insert(xs[0], Sort(xs[1..]))
  }

  /** An ascending arrangement of a multiset is unique. */
  lemma {:induction false} AscendingUnique(xs: seq<nat>, ys: seq<nat>)
    requires Ascending(xs) && Ascending(ys) && multiset(xs) == multiset(ys)
    ensures xs == ys
    decreases |xs|
  {
    if xs != [] {
      SameHead(xs, ys);
      var xt, yt := xs[1..], ys[1..];
      assert Ascending(xt) && Ascending(yt);
      assert multiset(xt) == multiset(yt) by {
        DropHead(xs);
        DropHead(ys);
      }
      AscendingUnique(xt, yt);
      SameHeadSameTail(xs, ys);
    } else {
      assert |multiset(ys)| == 0;
    }
  }

  lemma SameHead(xs: seq<nat>, ys: seq<nat>)
    requires Ascending(xs) && Ascending(ys) && multiset(xs) == multiset(ys) && xs != []
    ensures |ys| == |xs| && xs[0] == ys[0]
  {
    assert |ys| == |xs| by { assert |multiset(xs)| == |multiset(ys)|; }
    assert ys[0] in multiset(ys);
    assert xs[0] in multiset(xs);
    HeadIsLeast(xs, ys[0]);
    HeadIsLeast(ys, xs[0]);
  }

  lemma SameHeadSameTail<T>(xs: seq<T>, ys: seq<T>)
    requires xs != [] && ys != [] && xs[0] == ys[0] && xs[1..] == ys[1..]
    ensures xs == ys
  {
    assert xs == [xs[0]] + xs[1..];
    assert ys == [ys[0]] + ys[1..];
  }

  lemma HeadIsLeast(xs: seq<nat>, v: nat)
    requires Ascending(xs) && v in multiset(xs)
    ensures xs[0] <= v
  {
    var i :| 0 <= i < |xs| && xs[i] == v;
  }

  lemma DropHead(xs: seq<nat>)
    requires xs != []
    ensures multiset(xs[1..]) == multiset(xs) - multiset{xs[0]}
  {
    assert xs == [xs[0]] + xs[1..];
  }

  /** Sorting is determined by the multiset alone: any ascending permutation
      of xs is Sort(xs). */
  lemma SortIsUnique(xs: seq<nat>, ys: seq<nat>)
    requires Ascending(ys) && multiset(ys) == multiset(xs)
    ensures Sort(xs) == ys
  {
    AscendingUnique(Sort(xs), ys);
  }

  // ---- Decimal text of a number ----

  function Pow10(k: nat): (r: nat)
    ensures r >= 1
  {
    if k == 0 then 1 else 10 * Pow10(k - 1)
  }

  function DecimalDigit(d: nat): (c: char)
    requires d < 10
    ensures IsDigit(c) && DigitValue(c) == d
  {
    ('0' as int + d) as char
  }

  /** `format!("{stone}")`: the decimal digits of n, no leading zeros. */
  function Show(n: nat): (s: string)
    ensures |s| >= 1 && AllDigits(s)
  {
    if n < 10 then [DecimalDigit(n)] else Show(n / 10) + [DecimalDigit(n % 10)]
  }

  /** Reading the decimal text of n gives n back, and it has as many digits
      as n needs. */
  lemma {:induction false} ShowValue(n: nat)
    ensures DecimalValue(Show(n)) == n
    ensures n < Pow10(|Show(n)|)
    ensures n > 0 ==> Pow10(|Show(n)| - 1) <= n
  {
    var s := Show(n);
    if n >= 10 {
      ShowValue(n / 10);
      assert s[..|s| - 1] == Show(n / 10);
    }
  }

  lemma {:induction false} Pow10Monotone(a: nat, b: nat)
    ensures a <= b ==> Pow10(a) <= Pow10(b)
    decreases b
  {
    if a < b {
      Pow10Monotone(a, b - 1);
    }
  }

  /** A subset is no larger than the set containing it. */
  lemma SubsetCard<T>(a: set<T>, b: set<T>)
    requires a <= b
    ensures |a| <= |b|
  {
    assert b == a + (b - a);
  }
}
