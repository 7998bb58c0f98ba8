/** Day 19: towel designs as sequences of stripe colours, matched against a
    trie of the available towel patterns. */
module Day19 {
  import opened Common

  datatype Colour = White | Blue | Black | Red | Green

  /** `From<char> for Colour`; any other character is `unreachable!()`,
      which is None here. */
  function ParseColour(c: char): (r: Option<Colour>)
    ensures r.Some? <==> c in "wubrg"
  {
    match c
    case 'w' => Some(White)
    case 'u' => Some(Blue)
    case 'b' => Some(Black)
    case 'r' => Some(Red)
    case 'g' => Some(Green)
    case _ => None
  }

  /** The letter a colour is written as. */
  function ShowColour(c: Colour): char
  {
    match c
    case White => 'w'
    case Blue => 'u'
    case Black => 'b'
    case Red => 'r'
    case Green => 'g'
  }

  /** Each colour reads back from its letter, and a letter read as a colour
      is the letter of that colour. */
  lemma ParseShowColour(c: Colour, ch: char)
    ensures ParseColour(ShowColour(c)) == Some(c)
    ensures ParseColour(ch) == Some(c) ==> ShowColour(c) == ch
  {
  }

  /** Every character of the text as a colour; None when one is not a
      colour letter. */
  function ParseColours(s: string): (r: Option<seq<Colour>>)
    ensures r.Some? <==> forall i :: 0 <= i < |s| ==> ParseColour(s[i]).Some?
    ensures r.Some? ==> |r.value| == |s| && forall i :: 0 <= i < |s| ==> ParseColour(s[i]) == Some(r.value[i])
  {
    if s == [] then Some([])
    else
      assert forall i :: 1 <= i < |s| ==> s[i] == s[1..][i - 1];
      match (ParseColour(s[0]), ParseColours(s[1..]))
      case (Some(c), Some(cs)) => Some([c] + cs)
      case (_, _) => None
  }

  // ---- The pattern trie ----

  /** `TreeNode`: a node of the trie of towel patterns, with one optional
      child per colour. The shared, mutable `Rc<RefCell<TreeNode>>`
      children are values here. */
  datatype Trie = Node(isMatch: bool, isRoot: bool, w: Option<Trie>, u: Option<Trie>, b: Option<Trie>, r: Option<Trie>, g: Option<Trie>)

  /** `TreeNode::new`. */
  const Empty := Node(false, false, None, None, None, None, None)

  /** The root `parse_patterns` starts from. */
  const Root := Node(false, true, None, None, None, None, None)

  /** `get_node`: the child stored for that colour. */
  function Child(t: Trie, c: Colour): (r: Option<Trie>)
    ensures r.Some? ==> r.value < t
  {
    match c
    case White => t.w
    case Blue => t.u
    case Black => t.b
    case Red => t.r
    case Green => t.g
  }

  /** The node with the child for one colour replaced. */
  function WithChild(t: Trie, c: Colour, child: Trie): (r: Trie)
    ensures r.isMatch == t.isMatch && r.isRoot == t.isRoot
    ensures forall d :: Child(r, d) == if d == c then Some(child) else Child(t, d)
  {
    match c
    case White => t.(w := Some(child))
    case Blue => t.(u := Some(child))
    case Black => t.(b := Some(child))
    case Red => t.(r := Some(child))
    case Green => t.(g := Some(child))
  }

  /** Following the colours from the node ends on a node marked as a match:
      the node holds that (rest of a) pattern. */
  predicate Accepts(t: Trie, p: seq<Colour>)
    decreases |p|
  {
    if p == [] then t.isMatch
    else
      match Child(t, p[0])
      case None => false
      case Some(next) => Accepts(next, p[1..])
  }

  /** `TreeNode::insert`: walk the colours, creating the missing children,
      and mark the node reached as a match. */
  function Insert(t: Trie, p: seq<Colour>): (r: Trie)
    ensures r.isRoot == t.isRoot
    ensures p != [] ==> r.isMatch == t.isMatch
    decreases |p|
  {
    if p == [] then t.(isMatch := true)
    else
      var next := match Child(t, p[0]) case Some(n) => n case None => Empty;
      WithChild(t, p[0], Insert(next, p[1..]))
  }

  /** After inserting a pattern the trie holds exactly what it held before
      and the pattern. */
  lemma {:induction false} InsertAccepts(t: Trie, p: seq<Colour>, q: seq<Colour>)
    ensures Accepts(Insert(t, p), q) <==> Accepts(t, q) || q == p
    decreases |p|
  {
    if p != [] && q != [] {
      var next := match Child(t, p[0]) case Some(n) => n case None => Empty;
      if q[0] == p[0] {
        InsertAccepts(next, p[1..], q[1..]);
        if Child(t, p[0]).None? {
          EmptyAcceptsNothing(q[1..]);
        }
        assert q == p <==> q[1..] == p[1..] by {
          assert q == [q[0]] + q[1..] && p == [p[0]] + p[1..];
        }
      }
    }
  }

  /** A fresh node holds no pattern. */
  lemma EmptyAcceptsNothing(q: seq<Colour>)
    ensures !Accepts(Empty, q)
  {
  }

  /** Inserting reuses the child already stored for the pattern's first
      colour and leaves the other children alone. */
  lemma InsertReusesChildren(t: Trie, p: seq<Colour>, c: Colour)
    requires p != []
    ensures c != p[0] ==> Child(Insert(t, p), c) == Child(t, c)
    ensures Child(t, p[0]).Some? ==> Child(Insert(t, p), p[0]) == Some(Insert(Child(t, p[0]).value, p[1..]))
  {
  }

  /** Only the node `parse_patterns` starts from is marked as the root. */
  predicate NoRootBelow(t: Trie)
  {
    forall c :: Child(t, c).Some? ==> !Child(t, c).value.isRoot && NoRootBelow(Child(t, c).value)
  }

  lemma {:induction false} InsertNoRootBelow(t: Trie, p: seq<Colour>)
    requires NoRootBelow(t)
    ensures NoRootBelow(Insert(t, p))
    decreases |p|
  {
    if p != [] {
      var next := match Child(t, p[0]) case Some(n) => n case None => Empty;
      assert !next.isRoot && NoRootBelow(next) by {
        if Child(t, p[0]).None? {
          assert forall c :: Child(Empty, c).None?;
        }
      }
      InsertNoRootBelow(next, p[1..]);
      var r := Insert(t, p);
      forall c | Child(r, c).Some?
        ensures !Child(r, c).value.isRoot && NoRootBelow(Child(r, c).value)
      {
        if c == p[0] {
          assert Child(r, c).value == Insert(next, p[1..]);
        } else {
          assert Child(r, c) == Child(t, c);
        }
      }
    } else {
      assert forall c :: Child(Insert(t, p), c) == Child(t, c);
    }
  }

  /** The patterns, in order, inserted into a trie. */
  function InsertAll(t: Trie, patterns: seq<seq<Colour>>): Trie
  {
    if patterns == [] then t
    else Insert(InsertAll(t, patterns[..|patterns| - 1]), patterns[|patterns| - 1])
  }

  lemma InsertAllSnoc(t: Trie, patterns: seq<seq<Colour>>, p: seq<Colour>)
    ensures InsertAll(t, patterns + [p]) == Insert(InsertAll(t, patterns), p)
  {
    assert (patterns + [p])[..|patterns|] == patterns;
  }

  /** A trie built from the root holds exactly the inserted patterns, and
      only its top node is marked as the root. */
  lemma {:induction false} InsertAllAccepts(patterns: seq<seq<Colour>>, q: seq<Colour>)
    ensures Accepts(InsertAll(Root, patterns), q) <==> q in patterns
    ensures InsertAll(Root, patterns).isRoot && NoRootBelow(InsertAll(Root, patterns))
  {
    if patterns == [] {
      assert !Accepts(Root, q);
    } else {
      var front := patterns[..|patterns| - 1];
      InsertAllAccepts(front, q);
      InsertAccepts(InsertAll(Root, front), patterns[|patterns| - 1], q);
      InsertNoRootBelow(InsertAll(Root, front), patterns[|patterns| - 1]);
      assert patterns == front + [patterns[|patterns| - 1]];
    }
  }

  /** The pieces of the pattern list, each read as colours. */
  function ParsePieces(pieces: seq<string>): (r: Option<seq<seq<Colour>>>)
    ensures r.Some? <==> forall i :: 0 <= i < |pieces| ==> ParseColours(pieces[i]).Some?
    ensures r.Some? ==> |r.value| == |pieces| && forall i :: 0 <= i < |pieces| ==> ParseColours(pieces[i]) == Some(r.value[i])
  {
    if pieces == [] then Some([])
    else
      assert forall i :: 1 <= i < |pieces| ==> pieces[i] == pieces[1..][i - 1];
      match (ParseColours(pieces[0]), ParsePieces(pieces[1..]))
      case (Some(p), Some(ps)) => Some([p] + ps)
      case (_, _) => None
  }

  /** `parse_patterns`: a root, with every ", "-separated pattern inserted in
      turn. None where a letter is not a colour. */
  method ParsePatterns(input: string) returns (r: Option<Trie>)
    ensures r.Some? <==> ParsePieces(SplitOn(input, ", ")).Some?
    ensures r.Some? ==> r.value.isRoot && NoRootBelow(r.value)
    ensures r.Some? ==> forall q :: Accepts(r.value, q) <==> q in ParsePieces(SplitOn(input, ", ")).value
  {
    hide ParsePieces, Accepts, Insert;
    var pieces := SplitOn(input, ", ");
    var root := Root;
    ghost var patterns: seq<seq<Colour>> := [];
    var i := 0;
    while i < |pieces|
      invariant 0 <= i <= |pieces| && |patterns| == i
      invariant forall k :: 0 <= k < i ==> ParseColours(pieces[k]) == Some(patterns[k])
      invariant root == InsertAll(Root, patterns)
    {
      var pattern := ParseColours(pieces[i]);
      if pattern.None? {
        return None;
      }
      assert (patterns + [pattern.value])[..i] == patterns;
      patterns := patterns + [pattern.value];
      root := Insert(root, pattern.value);
      i := i + 1;
    }
    PiecesParsed(pieces, patterns);
    PatternTreeHolds(patterns);
    return Some(root);
  }

  lemma {:induction false} PiecesParsed(pieces: seq<string>, patterns: seq<seq<Colour>>)
    requires |patterns| == |pieces|
    requires forall k :: 0 <= k < |pieces| ==> ParseColours(pieces[k]) == Some(patterns[k])
    ensures ParsePieces(pieces) == Some(patterns)
  {
    if pieces != [] {
      PiecesParsed(pieces[1..], patterns[1..]);
      assert patterns == [patterns[0]] + patterns[1..];
    }
  }

  lemma PatternTreeHolds(patterns: seq<seq<Colour>>)
    ensures InsertAll(Root, patterns).isRoot && NoRootBelow(InsertAll(Root, patterns))
    ensures forall q :: Accepts(InsertAll(Root, patterns), q) <==> q in patterns
  {
    forall q
      ensures Accepts(InsertAll(Root, patterns), q) <==> q in patterns
    {
      InsertAllAccepts(patterns, q);
    }
    InsertAllAccepts(patterns, []);
  }

  // ---- Matching ----

  /** A root the matcher terminates on: marked as the root, holding no empty
      pattern, and the only node so marked. */
  predicate WellFormed(root: Trie)
  {
    root.isRoot && !root.isMatch && NoRootBelow(root)
  }

  /** The design can be cut into pieces each of which the trie holds. */
  predicate Composable(root: Trie, design: seq<Colour>)
    decreases |design|
  {
    design == [] || exists k :: 1 <= k <= |design| && Accepts(root, design[..k]) && Composable(root, design[k..])
  }

  /** `matches_impl`: from a node reached inside a pattern, either finish the
      pattern there and start again at the root, or follow the next colour. */
  function MatchesImpl(node: Trie, design: seq<Colour>, start: nat, root: Trie): bool
    requires WellFormed(root) && NoRootBelow(node) && (node.isRoot ==> node == root)
    requires start <= |design|
    decreases |design| - start, if node.isRoot then 0 else 1
  {
    if node.isMatch && MatchesImpl(root, design, start, root) then true
    else if start >= |design| then node.isRoot
    else
      match Child(node, design[start])
      case None => false
      case Some(next) => MatchesImpl(next, design, start + 1, root)
  }

  /** From the root, the rest of the design is matched exactly when it is
      composable; from a node inside a pattern, exactly when some stretch of
      it finishes that pattern and the rest is composable. */
  lemma {:induction false} MatchesImplComposable(node: Trie, design: seq<Colour>, start: nat, root: Trie)
    requires WellFormed(root) && NoRootBelow(node) && (node.isRoot ==> node == root)
    requires start <= |design|
    ensures node.isRoot ==> (MatchesImpl(node, design, start, root) <==> Composable(root, design[start..]))
    ensures !node.isRoot ==> (MatchesImpl(node, design, start, root) <==>
      exists k :: start <= k <= |design| && Accepts(node, design[start..k]) && Composable(root, design[k..]))
    decreases |design| - start, if node.isRoot then 0 else 1, 1
  {
    if node.isRoot {
      if start == |design| {
        assert design[start..] == [];
      } else {
        RootStep(design, start, root);
      }
    } else {
      if node.isMatch {
        MatchesImplComposable(root, design, start, root);
      }
      NodeStep(node, design, start, root);
    }
  }

  /** The root case, one colour on: the child for that colour carries on. */
  lemma {:induction false} RootStep(design: seq<Colour>, start: nat, root: Trie)
    requires WellFormed(root) && start < |design|
    ensures MatchesImpl(root, design, start, root) <==> Composable(root, design[start..])
    decreases |design| - start, 0, 0
  {
    var w := design[start..];
    match Child(root, design[start])
    case None =>
    case Some(next) =>
      MatchesImplComposable(next, design, start + 1, root);
      if MatchesImpl(next, design, start + 1, root) {
        var k :| start + 1 <= k <= |design| && Accepts(next, design[start + 1..k]) && Composable(root, design[k..]);
        SliceShift(design, start, k);
      }
      if Composable(root, w) {
        var j :| 1 <= j <= |w| && Accepts(root, w[..j]) && Composable(root, w[j..]);
        SliceShift(design, start, start + j);
      }
  }

  /** A stretch of the design seen from its start position. */
  lemma SliceShift(design: seq<Colour>, start: nat, k: nat)
    requires start < k <= |design|
    ensures var w, j := design[start..], k - start;
      w[..j][0] == design[start] && w[..j][1..] == design[start + 1..k] && w[j..] == design[k..]
      && design[start..k] == w[..j]
  {
  }

  /** The case of a node inside a pattern. */
  lemma {:induction false} NodeStep(node: Trie, design: seq<Colour>, start: nat, root: Trie)
    requires WellFormed(root) && NoRootBelow(node) && !node.isRoot
    requires start <= |design|
    requires node.isMatch ==> (MatchesImpl(root, design, start, root) <==> Composable(root, design[start..]))
    ensures MatchesImpl(node, design, start, root) <==>
      exists k :: start <= k <= |design| && Accepts(node, design[start..k]) && Composable(root, design[k..])
    decreases |design| - start, 1, 0
  {
    if MatchesImpl(node, design, start, root) {
      if node.isMatch && MatchesImpl(root, design, start, root) {
        assert design[start..start] == [];
      } else {
        var next := Child(node, design[start]).value;
        MatchesImplComposable(next, design, start + 1, root);
        var k :| start + 1 <= k <= |design| && Accepts(next, design[start + 1..k]) && Composable(root, design[k..]);
        assert design[start..k][1..] == design[start + 1..k] && design[start..k][0] == design[start];
      }
    }
    if k :| start <= k <= |design| && Accepts(node, design[start..k]) && Composable(root, design[k..]) {
      if k == start {
        assert design[start..k] == [];
      } else {
        assert design[start..k][1..] == design[start + 1..k] && design[start..k][0] == design[start];
        var next := Child(node, design[start]).value;
        MatchesImplComposable(next, design, start + 1, root);
      }
    }
  }

  /** `matches`: the design is a concatenation of the trie's patterns. */
  function Matches(root: Trie, design: seq<Colour>): (r: bool)
    requires WellFormed(root)
    ensures r <==> Composable(root, design)
  {
    MatchesImplComposable(root, design, 0, root);
    assert design[0..] == design;
    MatchesImpl(root, design, 0, root)
  }

  /** `count_matches`: how many designs can be made. */
  function CountMatches(root: Trie, designs: seq<seq<Colour>>): (r: nat)
    requires WellFormed(root)
    ensures r <= |designs|
    ensures r == 0 <==> forall i :: 0 <= i < |designs| ==> !Composable(root, designs[i])
  {
    if designs == [] then 0
    else
      assert forall i :: 1 <= i < |designs| ==> designs[i] == designs[1..][i - 1];
      (if Matches(root, designs[0]) then 1 else 0) + CountMatches(root, designs[1..])
  }

  // ---- Counting arrangements ----

  /** The number of ways to cut the design into the trie's patterns. */
  function Count(root: Trie, design: seq<Colour>): nat
    decreases |design|, 1
  {
    if design == [] then 1 else SumFrom(root, design, 1)
  }

  /** The ways whose first piece is at least i colours long. */
  function SumFrom(root: Trie, design: seq<Colour>, i: nat): nat
    requires 1 <= i
    decreases |design|, 0, |design| + 1 - i
  {
    if i > |design| then 0
    else (if Accepts(root, design[..i]) then Count(root, design[i..]) else 0) + SumFrom(root, design, i + 1)
  }

  /** From a node inside a pattern: the ways to finish that pattern within
      the rest of the design, at a stretch of at least i colours, and cut
      what follows into patterns. */
  function SumNode(root: Trie, node: Trie, rest: seq<Colour>, i: nat): nat
    decreases |rest| + 1 - i
  {
    if i > |rest| then 0
    else (if Accepts(node, rest[..i]) then Count(root, rest[i..]) else 0) + SumNode(root, node, rest, i + 1)
  }

  /** A design can be made exactly when it can be made in at least one way. */
  lemma {:induction false} CountPositive(root: Trie, design: seq<Colour>)
    ensures Count(root, design) > 0 <==> Composable(root, design)
    decreases |design|, 1
  {
    if design != [] {
      SumFromPositive(root, design, 1);
    }
  }

  lemma {:induction false} SumFromPositive(root: Trie, design: seq<Colour>, i: nat)
    requires 1 <= i
    ensures SumFrom(root, design, i) > 0 <==>
      exists k :: i <= k <= |design| && Accepts(root, design[..k]) && Composable(root, design[k..])
    decreases |design|, 0, |design| + 1 - i
  {
    if i <= |design| {
      CountPositive(root, design[i..]);
      SumFromPositive(root, design, i + 1);
      if k :| i <= k <= |design| && Accepts(root, design[..k]) && Composable(root, design[k..]) {
        if k > i {
          assert i + 1 <= k;
        }
      }
    }
  }

  /** From the root, the node sum is the count: the root holds no empty
      pattern. */
  lemma {:induction false} SumNodeRoot(root: Trie, rest: seq<Colour>, i: nat)
    requires 1 <= i
    ensures SumNode(root, root, rest, i) == SumFrom(root, rest, i)
    decreases |rest| + 1 - i
  {
    if i <= |rest| {
      SumNodeRoot(root, rest, i + 1);
    }
  }

  /** One colour on: stretches through a node are stretches through its child
      for that colour, one shorter. */
  lemma {:induction false} SumNodeShift(root: Trie, node: Trie, rest: seq<Colour>, i: nat)
    requires rest != [] && 1 <= i
    ensures Child(node, rest[0]).None? ==> SumNode(root, node, rest, i) == 0
    ensures Child(node, rest[0]).Some? ==> SumNode(root, node, rest, i) == SumNode(root, Child(node, rest[0]).value, rest[1..], i - 1)
    decreases |rest| + 1 - i
  {
    if i <= |rest| {
      SumNodeShift(root, node, rest, i + 1);
      assert rest[..i][0] == rest[0] && rest[..i][1..] == rest[1..][..i - 1];
      assert rest[i..] == rest[1..][i - 1..];
    }
  }

  /** `combinations_impl` without its cache: from a node inside a pattern,
      the ways that finish the pattern here and start again at the root,
      plus the ways that follow the next colour. */
  function Ways(node: Trie, design: seq<Colour>, start: nat, root: Trie): nat
    requires WellFormed(root) && NoRootBelow(node) && (node.isRoot ==> node == root)
    requires start <= |design|
    decreases |design| - start, if node.isRoot then 0 else 1
  {
    if !node.isMatch && start >= |design| then (if node.isRoot then 1 else 0)
    else
      (if node.isMatch then Ways(root, design, start, root) else 0)
      + (if start < |design| && Child(node, design[start]).Some? then Ways(Child(node, design[start]).value, design, start + 1, root) else 0)
  }

  /** The recursion counts the cuts: from the root, the cuts of the rest of
      the design; from a node inside a pattern, the cuts that finish it. */
  lemma {:induction false} WaysCount(node: Trie, design: seq<Colour>, start: nat, root: Trie)
    requires WellFormed(root) && NoRootBelow(node) && (node.isRoot ==> node == root)
    requires start <= |design|
    ensures Ways(node, design, start, root) == if node.isRoot then Count(root, design[start..]) else SumNode(root, node, design[start..], 0)
    decreases |design| - start, if node.isRoot then 0 else 1
  {
    var rest := design[start..];
    if start < |design| {
      assert rest[0] == design[start] && rest[1..] == design[start + 1..];
      SumNodeShift(root, node, rest, 1);
      if Child(node, design[start]).Some? {
        WaysCount(Child(node, design[start]).value, design, start + 1, root);
      }
    }
    if node.isRoot {
      if start < |design| {
        SumNodeRoot(root, rest, 1);
      }
    } else {
      if node.isMatch {
        WaysCount(root, design, start, root);
      }
      assert rest[..0] == [] && rest[0..] == rest;
    }
  }

  /** Every cached count is the count from the root at that position. */
  predicate CacheValid(cache: map<nat, nat>, design: seq<Colour>, root: Trie)
    requires WellFormed(root)
  {
    forall k :: k in cache ==> k <= |design| && cache[k] == Ways(root, design, k, root)
  }

  /** `combinations_impl`: the recursion with a cache of the counts from
      the root, keyed by position, threaded through the calls. */
  method CombinationsImpl(node: Trie, design: seq<Colour>, start: nat, root: Trie, cache: map<nat, nat>)
    returns (count: nat, cache': map<nat, nat>)
    requires WellFormed(root) && NoRootBelow(node) && (node.isRoot ==> node == root)
    requires start <= |design|
    requires CacheValid(cache, design, root)
    ensures count == Ways(node, design, start, root)
    ensures CacheValid(cache', design, root) && cache.Keys <= cache'.Keys
    decreases |design| - start, if node.isRoot then 0 else 1
  {
    count := 0;
    cache' := cache;
    if node.isMatch {
      if start in cache' {
        count := count + cache'[start];
      } else {
        var sub;
        sub, cache' := CombinationsImpl(root, design, start, root, cache');
        cache' := cache'[start := sub];
        count := count + sub;
      }
    } else if start >= |design| {
      return if node.isRoot then 1 else 0, cache;
    }
    if start < |design| {
      match Child(node, design[start]) {
        case Some(next) =>
          var sub;
          sub, cache' := CombinationsImpl(next, design, start + 1, root, cache');
          count := count + sub;
        case None =>
      }
    }
  }

  /** `combinations`: the number of ways to make the design. */
  method Combinations(root: Trie, design: seq<Colour>) returns (count: nat)
    requires WellFormed(root)
    ensures count == Count(root, design)
    ensures count > 0 <==> Matches(root, design)
  {
    var cache;
    count, cache := CombinationsImpl(root, design, 0, root, map[]);
    WaysCount(root, design, 0, root);
    assert design[0..] == design;
    CountPositive(root, design);
  }

  /** The counts of the designs, added up. */
  function TotalCount(root: Trie, designs: seq<seq<Colour>>): nat
  {
    if designs == [] then 0 else TotalCount(root, designs[..|designs| - 1]) + Count(root, designs[|designs| - 1])
  }

  /** `sum_combinations`. */
  method SumCombinations(root: Trie, designs: seq<seq<Colour>>) returns (total: nat)
    requires WellFormed(root)
    ensures total == TotalCount(root, designs)
  {
    total := 0;
    var i := 0;
    while i < |designs|
      invariant 0 <= i <= |designs|
      invariant total == TotalCount(root, designs[..i])
    {
      var c := Combinations(root, designs[i]);
      assert designs[..i + 1][..i] == designs[..i];
      total := total + c;
      i := i + 1;
    }
    assert designs[..i] == designs;
  }

  /** Every design that can be made adds at least one way, so the total is
      at least the number of designs that can be made. */
  lemma {:induction false} MatchesBelowTotal(root: Trie, designs: seq<seq<Colour>>)
    requires WellFormed(root)
    ensures CountMatches(root, designs) <= TotalCount(root, designs)
  {
    if designs != [] {
      var last := designs[|designs| - 1];
      var front := designs[..|designs| - 1];
      MatchesBelowTotal(root, front);
      CountPositive(root, last);
      CountMatchesSnoc(root, front, last);
      assert designs == front + [last];
    }
  }

  lemma {:induction false} CountMatchesSnoc(root: Trie, front: seq<seq<Colour>>, last: seq<Colour>)
    requires WellFormed(root)
    ensures CountMatches(root, front + [last]) == CountMatches(root, front) + if Composable(root, last) then 1 else 0
  {
    if front == [] {
      assert [last][1..] == [];
    } else {
      assert (front + [last])[1..] == front[1..] + [last];
      CountMatchesSnoc(root, front[1..], last);
    }
  }

  // ---- Parsing ----

  /** `parse_designs`: one design per line. None where a letter is not a
      colour. */
  function ParseDesigns(text: string): (r: Option<seq<seq<Colour>>>)
    ensures r.Some? <==> forall i :: 0 <= i < |Lines(text)| ==> ParseColours(Lines(text)[i]).Some?
    ensures r.Some? ==> (|r.value| == |Lines(text)|
      && forall i :: 0 <= i < |Lines(text)| ==> ParseColours(Lines(text)[i]) == Some(r.value[i]))
  {
    ParsePieces(Lines(text))
  }

  /** `parse_input`: the patterns before the first blank line, the designs
      after it; None where the source panics. */
  method ParseInput(input: string) returns (r: Option<(Trie, seq<seq<Colour>>)>)
    ensures r.None? <==> (SplitOnce(input, "\n\n").None?
      || ParsePieces(SplitOn(SplitOnce(input, "\n\n").value.0, ", ")).None?
      || ParseDesigns(SplitOnce(input, "\n\n").value.1).None?)
    ensures r.Some? ==> var (patterns, designs) := SplitOnce(input, "\n\n").value;
      && ParsePieces(SplitOn(patterns, ", ")).Some?
      && (forall q :: Accepts(r.value.0, q) <==> q in ParsePieces(SplitOn(patterns, ", ")).value)
      && r.value.0.isRoot && NoRootBelow(r.value.0)
      && ParseDesigns(designs) == Some(r.value.1)
  {
    match SplitOnce(input, "\n\n")
    case None => return None;
    case Some((patterns, designs)) =>
      var root := ParsePatterns(patterns);
      var parsed := ParseDesigns(designs);
      if root.None? || parsed.None? {
        return None;
      }
      return Some((root.value, parsed.value));
  }
}
