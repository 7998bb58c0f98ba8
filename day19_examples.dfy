/** The towel example: eight patterns and eight designs. */
module Day19Examples {
  import opened Common
  import opened Day19

  function Leaf(): Trie
  {
    Node(true, false, None, None, None, None, None)
  }

  /** The trie of "r, wr, b, g, bwu, rb, gb, br", node by node. */
  function ExampleTree(): Trie
  {
    Node(false, true,
      Some(Node(false, false, None, None, None, Some(Leaf()), None)),
      None,
      Some(Node(true, false, Some(Node(false, false, None, Some(Leaf()), None, None, None)), None, None, Some(Leaf()), None)),
      Some(Node(true, false, None, None, Some(Leaf()), None, None)),
      Some(Node(true, false, None, None, Some(Leaf()), None, None)))
  }

  function ExamplePatterns(): seq<seq<Colour>>
  {
    [[Red], [White, Red], [Black], [Green], [Black, White, Blue], [Red, Black], [Green, Black], [Black, Red]]
  }

  lemma ExampleWellFormed()
    ensures WellFormed(ExampleTree())
  {
    assert NoRootBelow(Leaf());
  }

  /** A leaf holds only the empty rest of a pattern. */
  lemma LeafHolds(s: seq<Colour>)
    ensures Accepts(Leaf(), s) <==> s == []
  {
  }

  /** A node whose only child is a leaf holds the empty rest (when marked)
      and that child's colour. */
  lemma OneLeafHolds(n: Trie, c: Colour, s: seq<Colour>)
    requires forall d :: Child(n, d) == if d == c then Some(Leaf()) else None
    ensures Accepts(n, s) <==> (s == [] && n.isMatch) || s == [c]
  {
    if s != [] {
      LeafHolds(s[1..]);
      assert s == [s[0]] + s[1..];
    }
  }

  /** The example tree holds exactly the eight patterns: the language
      `parse_patterns` gives the pattern line. */
  lemma ExampleTreeHolds(q: seq<Colour>)
    ensures Accepts(ExampleTree(), q) <==> q in ExamplePatterns()
  {
    var t := ExampleTree();
    var ps := ExamplePatterns();
    if q != [] {
      var rest := q[1..];
      assert q == [q[0]] + rest;
      assert forall k :: 0 <= k < |ps| ==> ps[k] == [ps[k][0]] + ps[k][1..];
      assert q in ps <==> exists k :: 0 <= k < |ps| && ps[k][0] == q[0] && ps[k][1..] == rest;
      match q[0]
      case White =>
        OneLeafHolds(Child(t, White).value, Red, rest);
        assert q in ps <==> rest == [Red] by {
          assert ps[1][1..] == [Red];
        }
      case Blue =>
      case Black =>
        var b := Child(t, Black).value;
        if rest != [] {
          assert rest == [rest[0]] + rest[1..];
          if rest[0] == White {
            OneLeafHolds(Child(b, White).value, Blue, rest[1..]);
          } else if rest[0] == Red {
            LeafHolds(rest[1..]);
          }
        }
        assert q in ps <==> rest == [] || rest == [White, Blue] || rest == [Red] by {
          assert ps[2][1..] == [] && ps[4][1..] == [White, Blue] && ps[7][1..] == [Red];
        }
      case Red =>
        OneLeafHolds(Child(t, Red).value, Black, rest);
        assert q in ps <==> rest == [] || rest == [Black] by {
          assert ps[0][1..] == [] && ps[5][1..] == [Black];
        }
      case Green =>
        OneLeafHolds(Child(t, Green).value, Black, rest);
        assert q in ps <==> rest == [] || rest == [Black] by {
          assert ps[3][1..] == [] && ps[6][1..] == [Black];
        }
    }
  }

  function ExampleDesigns(): seq<seq<Colour>>
  {
    [[Black, Red, White, Red, Red], [Black, Green, Green, Red], [Green, Black, Black, Red], [Red, Red, Black, Green, Black, Red],
     [Blue, Black, White, Blue], [Black, White, Blue, Red, Red, Green], [Black, Red, Green, Red], [Black, Black, Red, Green, White, Black]]
  }

  /** brwrr can be made (a br towel, then wr, then r), in 2 ways. */
  lemma DesignBrwrr()
    ensures WellFormed(ExampleTree())
    ensures Matches(ExampleTree(), [Black, Red, White, Red, Red])
    ensures Count(ExampleTree(), [Black, Red, White, Red, Red]) == 2
  {
    var t, d := ExampleTree(), [Black, Red, White, Red, Red];
    ExampleWellFormed();
    hide Matches;
    assert Ways(t, d, 0, t) == 2;
    WaysCount(t, d, 0, t);
    assert d[0..] == d;
    CountPositive(t, d);
  }

  /** bggr can be made (b, two g towels and r), in 1 way. */
  lemma DesignBggr()
    ensures WellFormed(ExampleTree())
    ensures Matches(ExampleTree(), [Black, Green, Green, Red])
    ensures Count(ExampleTree(), [Black, Green, Green, Red]) == 1
  {
    var t, d := ExampleTree(), [Black, Green, Green, Red];
    ExampleWellFormed();
    hide Matches;
    assert Ways(t, d, 0, t) == 1;
    WaysCount(t, d, 0, t);
    assert d[0..] == d;
    CountPositive(t, d);
  }

  /** gbbr can be made (gb and br), in 4 ways. */
  lemma DesignGbbr()
    ensures WellFormed(ExampleTree())
    ensures Matches(ExampleTree(), [Green, Black, Black, Red])
    ensures Count(ExampleTree(), [Green, Black, Black, Red]) == 4
  {
    var t, d := ExampleTree(), [Green, Black, Black, Red];
    ExampleWellFormed();
    hide Matches;
    assert Ways(t, d, 0, t) == 4;
    WaysCount(t, d, 0, t);
    assert d[0..] == d;
    CountPositive(t, d);
  }

  /** rrbgbr can be made (r, rb, g and br), in 6 ways. */
  lemma DesignRrbgbr()
    ensures WellFormed(ExampleTree())
    ensures Matches(ExampleTree(), [Red, Red, Black, Green, Black, Red])
    ensures Count(ExampleTree(), [Red, Red, Black, Green, Black, Red]) == 6
  {
    var t, d := ExampleTree(), [Red, Red, Black, Green, Black, Red];
    ExampleWellFormed();
    hide Matches;
    assert Ways(t, d, 3, t) == 3;
    assert Ways(t, d, 2, t) == 3;
    assert Ways(t, d, 0, t) == 6;
    WaysCount(t, d, 0, t);
    assert d[0..] == d;
    CountPositive(t, d);
  }

  /** ubwu cannot be made. */
  lemma DesignUbwu()
    ensures WellFormed(ExampleTree())
    ensures !Matches(ExampleTree(), [Blue, Black, White, Blue])
    ensures Count(ExampleTree(), [Blue, Black, White, Blue]) == 0
  {
    var t, d := ExampleTree(), [Blue, Black, White, Blue];
    ExampleWellFormed();
    hide Matches;
    assert Ways(t, d, 0, t) == 0;
    WaysCount(t, d, 0, t);
    assert d[0..] == d;
    CountPositive(t, d);
  }

  /** bwurrg can be made (bwu, r, r and g), in 1 way. */
  lemma DesignBwurrg()
    ensures WellFormed(ExampleTree())
    ensures Matches(ExampleTree(), [Black, White, Blue, Red, Red, Green])
    ensures Count(ExampleTree(), [Black, White, Blue, Red, Red, Green]) == 1
  {
    var t, d := ExampleTree(), [Black, White, Blue, Red, Red, Green];
    ExampleWellFormed();
    hide Matches;
    assert Ways(t, d, 0, t) == 1;
    WaysCount(t, d, 0, t);
    assert d[0..] == d;
    CountPositive(t, d);
  }

  /** brgr can be made (br, g and r), in 2 ways. */
  lemma DesignBrgr()
    ensures WellFormed(ExampleTree())
    ensures Matches(ExampleTree(), [Black, Red, Green, Red])
    ensures Count(ExampleTree(), [Black, Red, Green, Red]) == 2
  {
    var t, d := ExampleTree(), [Black, Red, Green, Red];
    ExampleWellFormed();
    hide Matches;
    assert Ways(t, d, 0, t) == 2;
    WaysCount(t, d, 0, t);
    assert d[0..] == d;
    CountPositive(t, d);
  }

  /** bbrgwb cannot be made. */
  lemma DesignBbrgwb()
    ensures WellFormed(ExampleTree())
    ensures !Matches(ExampleTree(), [Black, Black, Red, Green, White, Black])
    ensures Count(ExampleTree(), [Black, Black, Red, Green, White, Black]) == 0
  {
    var t, d := ExampleTree(), [Black, Black, Red, Green, White, Black];
    ExampleWellFormed();
    hide Matches;
    assert Ways(t, d, 0, t) == 0;
    WaysCount(t, d, 0, t);
    assert d[0..] == d;
    CountPositive(t, d);
  }

  /** `count_matches` gives 6 on the example. */
  lemma CountMatchesExample()
    ensures WellFormed(ExampleTree()) && CountMatches(ExampleTree(), ExampleDesigns()) == 6
  {
    hide Count, Matches, Ways, MatchesImpl, Composable, SumFrom, Accepts;
    DesignBrwrr();
    DesignBggr();
    DesignGbbr();
    DesignRrbgbr();
    DesignUbwu();
    DesignBwurrg();
    DesignBrgr();
    DesignBbrgwb();
    var t, ds := ExampleTree(), ExampleDesigns();
    forall k | 0 <= k < 8
      ensures CountMatches(t, ds[k..]) == (if Matches(t, ds[k]) then 1 else 0) + CountMatches(t, ds[k + 1..])
    {
      assert ds[k..][1..] == ds[k + 1..];
    }
    assert ds[0..] == ds;
    assert ds[8..] == [];
  }

  /** `sum_combinations` gives 16 on the example. */
  lemma SumCombinationsExample()
    ensures TotalCount(ExampleTree(), ExampleDesigns()) == 16
  {
    hide Count, Matches, Ways, MatchesImpl, Composable, SumFrom, Accepts;
    DesignBrwrr();
    DesignBggr();
    DesignGbbr();
    DesignRrbgbr();
    DesignUbwu();
    DesignBwurrg();
    DesignBrgr();
    DesignBbrgwb();
    var t, ds := ExampleTree(), ExampleDesigns();
    assert ds[..8] == ds;
    forall k | 0 < k <= 8
      ensures TotalCount(t, ds[..k]) == TotalCount(t, ds[..k - 1]) + Count(t, ds[k - 1])
    {
      assert ds[..k][..k - 1] == ds[..k - 1];
    }
    assert ds[..0] == [];
    assert TotalCount(t, ds[..2]) == 3;
    assert TotalCount(t, ds[..4]) == 13;
    assert TotalCount(t, ds[..6]) == 14;
  }
}
