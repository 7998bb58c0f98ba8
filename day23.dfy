/** Day 23: LAN party. The network is a map from each computer to the
    computers it links to; the puzzle asks for the trios of mutually linked
    computers and for the password spelled by a large clique. */
module Day23 {
  import opened Common

  type Computer = string

  /** `Network::links`: each computer's set of linked computers. */
  type Links = map<Computer, set<Computer>>

  /** The computers x links to; none when x is not a key. */
  function Neighbours(links: Links, x: Computer): set<Computer>
  {
    if x in links then links[x] else {}
  }

  /** Every link is recorded from both ends, as `parse_input` builds it. */
  ghost predicate Symmetric(links: Links)
  {
    forall x, y :: y in Neighbours(links, x) ==> x in Neighbours(links, y)
  }

  /** No computer links to itself. */
  ghost predicate Loopless(links: Links)
  {
    forall x :: x !in Neighbours(links, x)
  }

  // ---- Ordering names ----

  /** Rust's order on `&str`: lexicographic, a proper prefix first. */
  predicate Less(x: string, y: string)
    decreases |x|
  {
    if x == [] then y != []
    else if y == [] then false
    else if x[0] != y[0] then x[0] < y[0]
    else Less(x[1..], y[1..])
  }

  lemma {:induction false} LessIrreflexive(x: string)
    ensures !Less(x, x)
    decreases |x|
  {
    if x != [] {
      LessIrreflexive(x[1..]);
    }
  }

  lemma {:induction false} LessTransitive(x: string, y: string, z: string)
    requires Less(x, y) && Less(y, z)
    ensures Less(x, z)
    decreases |x|
  {
    if x != [] && x[0] == y[0] && y[0] == z[0] {
      LessTransitive(x[1..], y[1..], z[1..]);
    }
  }

  lemma {:induction false} LessTotal(x: string, y: string)
    ensures x == y || Less(x, y) || Less(y, x)
    decreases |x|
  {
    if x != [] && y != [] && x[0] == y[0] {
      LessTotal(x[1..], y[1..]);
      if x[1..] == y[1..] {
        assert x == [x[0]] + x[1..] && y == [y[0]] + y[1..];
      }
    }
  }

  lemma LessAsymmetric(x: string, y: string)
    requires Less(x, y)
    ensures !Less(y, x)
  {
    if Less(y, x) {
      LessTransitive(x, y, x);
      LessIrreflexive(x);
    }
  }

  /** Not after: the order `sorted` leaves equal or ascending neighbours in. */
  predicate NonDecreasing(r: seq<string>)
  {
    forall i, j :: 0 <= i < j < |r| ==> !Less(r[j], r[i])
  }

  /** "Not after" is transitive. */
  lemma NotAfterTransitive(x: string, y: string, z: string)
    requires !Less(y, x) && !Less(z, y)
    ensures !Less(z, x)
  {
    LessTotal(x, y);
    LessTotal(y, z);
    if Less(x, y) && Less(y, z) {
      LessTransitive(x, y, z);
      LessAsymmetric(x, z);
    } else if Less(x, y) {
      LessAsymmetric(x, y);
    } else if Less(y, z) {
      LessAsymmetric(y, z);
    }
  }

  /** Insert x into a non-decreasing sequence of names. */
  function InsertName(x: string, r: seq<string>): (s: seq<string>)
    requires NonDecreasing(r)
    ensures NonDecreasing(s) && multiset(s) == multiset(r) + multiset{x}
  {
    if r == [] then [x]
    else if !Less(r[0], x) then
      InsertNameInFront(x, r);
      [x] + r
    else
      var rest := InsertName(x, r[1..]);
      InsertNameBehind(x, r, rest);
      [r[0]] + rest
  }

  lemma InsertNameInFront(x: string, r: seq<string>)
    requires NonDecreasing(r) && r != [] && !Less(r[0], x)
    ensures NonDecreasing([x] + r) && multiset([x] + r) == multiset(r) + multiset{x}
  {
    forall j | 0 <= j < |r|
      ensures !Less(r[j], x)
    {
      if j > 0 {
        NotAfterTransitive(x, r[0], r[j]);
      }
    }
  }

  lemma InsertNameBehind(x: string, r: seq<string>, rest: seq<string>)
    requires NonDecreasing(r) && r != [] && Less(r[0], x)
    requires NonDecreasing(rest) && multiset(rest) == multiset(r[1..]) + multiset{x}
    ensures NonDecreasing([r[0]] + rest) && multiset([r[0]] + rest) == multiset(r) + multiset{x}
  {
    assert r == [r[0]] + r[1..];
    forall k | 0 <= k < |rest|
      ensures !Less(rest[k], r[0])
    {
      assert rest[k] in multiset(rest);
      if rest[k] == x {
        LessAsymmetric(r[0], x);
      } else {
        assert rest[k] in r[1..];
      }
    }
  }

  /** `sorted`: the names in non-decreasing order. */
  function SortNames(xs: seq<string>): (r: seq<string>)
    ensures NonDecreasing(r) && multiset(r) == multiset(xs)
  {
    if xs == [] then []
    else
      assert xs == [xs[0]] + xs[1..];
      InsertName(xs[0], SortNames(xs[1..]))
  }

  /** A non-decreasing arrangement of a multiset of names is unique. */
  lemma {:induction false} NonDecreasingUnique(a: seq<string>, b: seq<string>)
    requires NonDecreasing(a) && NonDecreasing(b) && multiset(a) == multiset(b)
    ensures a == b
    decreases |a|
  {
    if a != [] {
      SameFirst(a, b);
      DropFirst(a);
      DropFirst(b);
      NonDecreasingUnique(a[1..], b[1..]);
      assert a == [a[0]] + a[1..] && b == [b[0]] + b[1..];
    } else {
      assert |multiset(b)| == 0;
    }
  }

  /** Two non-decreasing arrangements of one multiset start alike. */
  lemma SameFirst(a: seq<string>, b: seq<string>)
    requires NonDecreasing(a) && NonDecreasing(b) && multiset(a) == multiset(b) && a != []
    ensures b != [] && a[0] == b[0]
  {
    assert a[0] in multiset(b);
    assert b[0] in multiset(a);
    var i :| 0 <= i < |a| && a[i] == b[0];
    var j :| 0 <= j < |b| && b[j] == a[0];
    LessIrreflexive(a[0]);
    if i > 0 {
      assert !Less(a[i], a[0]);
    }
    if j > 0 {
      assert !Less(b[j], b[0]);
    }
    LessTotal(a[0], b[0]);
  }

  lemma DropFirst(a: seq<string>)
    requires a != []
    ensures multiset(a[1..]) == multiset(a) - multiset{a[0]}
  {
    assert a == [a[0]] + a[1..];
  }

  /** Sorting depends on the multiset of names only. */
  lemma SortNamesPermutation(xs: seq<string>, ys: seq<string>)
    requires multiset(xs) == multiset(ys)
    ensures SortNames(xs) == SortNames(ys)
  {
    NonDecreasingUnique(SortNames(xs), SortNames(ys));
  }

  /** Every name occurs at most once. */
  ghost predicate Distinct(r: seq<string>)
  {
    forall v :: multiset(r)[v] <= 1
  }

  lemma TwoCopies(r: seq<string>, i: nat, j: nat)
    requires i < j < |r| && r[i] == r[j]
    ensures multiset(r)[r[i]] >= 2
  {
    assert r == r[..j] + [r[j]] + r[j + 1..];
    assert r[..j][i] == r[i];
    assert r[i] in multiset(r[..j]);
  }

  /** Non-decreasing with no repeats: strictly ascending. */
  lemma DistinctAscending(r: seq<string>, i: nat, j: nat)
    requires NonDecreasing(r) && Distinct(r) && i < j < |r|
    ensures Less(r[i], r[j])
  {
    LessTotal(r[i], r[j]);
    if r[i] == r[j] {
      TwoCopies(r, i, j);
    }
  }

  // ---- Trios ----

  /** The trio `trios` records for start and neighbours a and b: the three
      names sorted. */
  function TrioOf(start: Computer, a: Computer, b: Computer): seq<Computer>
  {
    SortNames([start, a, b])
  }

  /** The order of the three names does not matter. */
  lemma TrioOfSwap(start: Computer, a: Computer, b: Computer)
    ensures TrioOf(start, a, b) == TrioOf(start, b, a)
  {
    assert multiset([start, a, b]) == multiset([start, b, a]);
    SortNamesPermutation([start, a, b], [start, b, a]);
  }

  /** c is recorded while visiting start: two different neighbours of start
      that are linked to each other. */
  ghost predicate FoundFrom(links: Links, start: Computer, c: seq<Computer>)
  {
    exists a, b :: a in Neighbours(links, start) && b in Neighbours(links, start) && a != b
      && b in Neighbours(links, a) && c == TrioOf(start, a, b)
  }

  /** The pairs of start's neighbours done once those in firsts are still
      to be taken as first element: pairs with a member outside firsts. */
  ghost predicate DoneFrom(links: Links, start: Computer, firsts: set<Computer>, c: seq<Computer>)
  {
    exists a, b :: a in Neighbours(links, start) && b in Neighbours(links, start) && a != b
      && (a !in firsts || b !in firsts) && b in Neighbours(links, a) && c == TrioOf(start, a, b)
  }

  /** The pairs of a with the seconds already looked at. */
  ghost predicate PairedWith(links: Links, start: Computer, a: Computer, seen: set<Computer>, c: seq<Computer>)
  {
    exists b :: b in seen && b in Neighbours(links, a) && c == TrioOf(start, a, b)
  }

  lemma DoneNone(links: Links, start: Computer, c: seq<Computer>)
    ensures !DoneFrom(links, start, Neighbours(links, start), c)
  {
  }

  lemma DoneAll(links: Links, start: Computer, c: seq<Computer>)
    ensures DoneFrom(links, start, {}, c) <==> FoundFrom(links, start, c)
  {
  }

  /** Taking a out of firsts and pairing it with the rest of firsts. */
  lemma DoneStep(links: Links, start: Computer, firsts: set<Computer>, a: Computer, c: seq<Computer>)
    requires Symmetric(links) && a in Neighbours(links, start) && a !in firsts
    requires firsts <= Neighbours(links, start)
    ensures DoneFrom(links, start, firsts, c) <==>
      DoneFrom(links, start, firsts + {a}, c) || PairedWith(links, start, a, firsts, c)
  {
    if DoneFrom(links, start, firsts, c) && !DoneFrom(links, start, firsts + {a}, c) {
      DoneWithA(links, start, firsts, a, c);
    }
    if PairedWith(links, start, a, firsts, c) {
      var b :| b in firsts && b in Neighbours(links, a) && c == TrioOf(start, a, b);
      assert DoneFrom(links, start, firsts, c);
    }
  }

  /** A pair newly done involves a. */
  lemma DoneWithA(links: Links, start: Computer, firsts: set<Computer>, a: Computer, c: seq<Computer>)
    requires Symmetric(links) && a !in firsts
    requires DoneFrom(links, start, firsts, c) && !DoneFrom(links, start, firsts + {a}, c)
    ensures PairedWith(links, start, a, firsts, c)
  {
    hide TrioOf, SortNames;
    var x, y :| x in Neighbours(links, start) && y in Neighbours(links, start) && x != y
      && (x !in firsts || y !in firsts) && y in Neighbours(links, x) && c == TrioOf(start, x, y);
    assert x in firsts + {a} && y in firsts + {a};
    if x == a {
      assert y in firsts && y in Neighbours(links, a) && c == TrioOf(start, a, y);
    } else {
      TrioOfSwap(start, x, y);
      assert x in firsts && x in Neighbours(links, a) && c == TrioOf(start, a, x);
    }
  }

  /** Looking at one more second b for the first a. */
  lemma PairedStep(links: Links, start: Computer, a: Computer, seen: set<Computer>, b: Computer)
    ensures forall c :: PairedWith(links, start, a, seen + {b}, c) <==>
      PairedWith(links, start, a, seen, c) || (b in Neighbours(links, a) && c == TrioOf(start, a, b))
  {
    forall c
      ensures PairedWith(links, start, a, seen + {b}, c) <==>
        PairedWith(links, start, a, seen, c) || (b in Neighbours(links, a) && c == TrioOf(start, a, b))
    {
      if PairedWith(links, start, a, seen + {b}, c) {
        var d :| d in seen + {b} && d in Neighbours(links, a) && c == TrioOf(start, a, d);
        if d != b {
          assert PairedWith(links, start, a, seen, c);
        }
      }
    }
  }

  lemma PairedNone(links: Links, start: Computer, a: Computer)
    ensures forall c :: !PairedWith(links, start, a, {}, c)
  {
  }

  /** The inner loops of `trios` for one start: every pair of its
      neighbours, each pair once, recording the linked ones. */
  method TriosFrom(links: Links, start: Computer, clusters: set<seq<Computer>>) returns (clusters': set<seq<Computer>>)
    requires Symmetric(links) && start in links
    ensures forall c :: c in clusters' <==> c in clusters || FoundFrom(links, start, c)
  {
    hide DoneFrom, PairedWith, FoundFrom, TrioOf;
    var connected := links[start];
    var firsts := connected;
    clusters' := clusters;
    forall c ensures !DoneFrom(links, start, firsts, c) {
      DoneNone(links, start, c);
    }
    while firsts != {}
      invariant firsts <= connected
      invariant forall c :: c in clusters' <==> c in clusters || DoneFrom(links, start, firsts, c)
      decreases |firsts|
    {
      var a :| a in firsts;
      ghost var before := firsts;
      firsts := firsts - {a};
      assert firsts + {a} == before;
      assert a in Neighbours(links, start);
      assert start in Neighbours(links, a);
      var seconds := firsts;
      ghost var seen: set<Computer> := {};
      PairedNone(links, start, a);
      while seconds != {}
        invariant seconds <= firsts && seen == firsts - seconds
        invariant forall c :: c in clusters' <==>
          c in clusters || DoneFrom(links, start, firsts + {a}, c) || PairedWith(links, start, a, seen, c)
        decreases |seconds|
      {
        var b :| b in seconds;
        PairedStep(links, start, a, seen, b);
        seconds := seconds - {b};
        seen := seen + {b};
        if b in links[a] {
          clusters' := clusters' + {TrioOf(start, a, b)};
        }
      }
      assert seen == firsts;
      forall c
        ensures DoneFrom(links, start, firsts, c) <==>
          DoneFrom(links, start, firsts + {a}, c) || PairedWith(links, start, a, firsts, c)
      {
        DoneStep(links, start, firsts, a, c);
      }
    }
    forall c ensures DoneFrom(links, start, firsts, c) <==> FoundFrom(links, start, c) {
      DoneAll(links, start, c);
    }
  }

  /** `trios`: for every computer, every pair of its neighbours that are
      linked to each other, recorded as the sorted three names. */
  method Trios(links: Links) returns (clusters: set<seq<Computer>>)
    requires Symmetric(links)
    ensures forall c :: c in clusters <==> exists s :: s in links && FoundFrom(links, s, c)
  {
    clusters := {};
    var starts := links.Keys;
    while starts != {}
      invariant starts <= links.Keys
      invariant forall c :: c in clusters <==> exists s :: s in links && s !in starts && FoundFrom(links, s, c)
      decreases |starts|
    {
      var start :| start in starts;
      clusters := TriosFrom(links, start, clusters);
      starts := starts - {start};
    }
  }

  /** Three computers, strictly ascending, each linked to the other two. */
  ghost predicate IsTrio(links: Links, c: seq<Computer>)
  {
    |c| == 3 && Less(c[0], c[1]) && Less(c[1], c[2])
    && c[1] in Neighbours(links, c[0]) && c[2] in Neighbours(links, c[0]) && c[2] in Neighbours(links, c[1])
  }

  /** In a symmetric network without self-links, what `trios` records is
      exactly the set of trios of mutually linked computers, each listed
      once in ascending order. */
  lemma TriosExact(links: Links, c: seq<Computer>)
    requires Symmetric(links) && Loopless(links)
    ensures (exists s :: s in links && FoundFrom(links, s, c)) <==> IsTrio(links, c)
  {
    if s :| s in links && FoundFrom(links, s, c) {
      var a, b :| a in Neighbours(links, s) && b in Neighbours(links, s) && a != b
        && b in Neighbours(links, a) && c == TrioOf(s, a, b);
      FoundIsTrio(links, s, a, b);
    }
    if IsTrio(links, c) {
      TrioIsFound(links, c);
    }
  }

  lemma FoundIsTrio(links: Links, s: Computer, a: Computer, b: Computer)
    requires Symmetric(links) && Loopless(links)
    requires a in Neighbours(links, s) && b in Neighbours(links, s) && a != b && b in Neighbours(links, a)
    ensures IsTrio(links, TrioOf(s, a, b))
  {
    var c := TrioOf(s, a, b);
    assert s != a && s != b;
    TrioShape(s, a, b);
    hide TrioOf, SortNames;
    DistinctAscending(c, 0, 1);
    DistinctAscending(c, 1, 2);
    assert c[1] != c[0] && c[2] != c[0] && c[2] != c[1] by {
      LessIrreflexive(c[0]);
      LessIrreflexive(c[1]);
      LessTransitive(c[0], c[1], c[2]);
    }
  }

  /** Three different names sort to three different names, each one of
      them. */
  lemma TrioShape(s: Computer, a: Computer, b: Computer)
    requires s != a && s != b && a != b
    ensures |TrioOf(s, a, b)| == 3 && NonDecreasing(TrioOf(s, a, b)) && Distinct(TrioOf(s, a, b))
    ensures forall i :: 0 <= i < 3 ==> TrioOf(s, a, b)[i] in {s, a, b}
  {
    var c := TrioOf(s, a, b);
    assert multiset(c) == multiset{s, a, b};
    assert |c| == 3 by { assert |multiset(c)| == 3; }
    forall i | 0 <= i < 3
      ensures c[i] in {s, a, b}
    {
      assert c[i] in multiset(c);
    }
  }

  lemma TrioIsFound(links: Links, c: seq<Computer>)
    requires IsTrio(links, c)
    ensures FoundFrom(links, c[0], c)
  {
    LessTransitive(c[0], c[1], c[2]);
    LessAsymmetric(c[0], c[1]);
    LessAsymmetric(c[1], c[2]);
    LessAsymmetric(c[0], c[2]);
    LessIrreflexive(c[1]);
    assert c == [c[0], c[1], c[2]];
    assert NonDecreasing(c);
    NonDecreasingUnique(c, SortNames(c));
    assert c == TrioOf(c[0], c[1], c[2]);
  }

  /** Some member of the trio starts with prefix. */
  predicate Mentions(c: seq<Computer>, prefix: string)
  {
    exists k :: 0 <= k < |c| && prefix <= c[k]
  }

  /** `clusters_containing`: the trios with a member whose name starts
      with the given text. */
  method ClustersContaining(links: Links, prefix: string) returns (clusters: set<seq<Computer>>)
    requires Symmetric(links)
    ensures forall c :: c in clusters <==> (exists s :: s in links && FoundFrom(links, s, c)) && Mentions(c, prefix)
  {
    var all := Trios(links);
    clusters := set c | c in all && Mentions(c, prefix);
  }

  // ---- The password ----

  /** Every member of clique is linked to computer. */
  predicate Admits(links: Links, clique: set<Computer>, computer: Computer)
  {
    forall b :: b in clique ==> b in Neighbours(links, computer)
  }

  /** The greedy growth of `find_lan_password`: each computer of order, in
      turn, joins when it is linked to everyone already in. */
  function Greedy(links: Links, order: seq<Computer>, clique: set<Computer>): set<Computer>
  {
    if order == [] then clique
    else
      var before := Greedy(links, order[..|order| - 1], clique);
      var computer := order[|order| - 1];
      if Admits(links, before, computer) then before + {computer} else before
  }

  /** Pairwise linked. */
  ghost predicate Clique(links: Links, clique: set<Computer>)
  {
    forall x, y :: x in clique && y in clique && x != y ==> y in Neighbours(links, x)
  }

  /** Greedy growth keeps a clique a clique, only adds computers of the
      order, and ends with no computer of the order left to add. */
  lemma {:induction false} GreedyGrows(links: Links, order: seq<Computer>, clique: set<Computer>)
    requires Symmetric(links) && Clique(links, clique)
    ensures Clique(links, Greedy(links, order, clique))
    ensures clique <= Greedy(links, order, clique)
    ensures forall x :: x in Greedy(links, order, clique) ==> x in clique || x in order
    ensures forall x :: x in order ==> x in Greedy(links, order, clique) || !Admits(links, Greedy(links, order, clique), x)
  {
    if order != [] {
      var front := order[..|order| - 1];
      var computer := order[|order| - 1];
      GreedyGrows(links, front, clique);
      var before := Greedy(links, front, clique);
      var after := Greedy(links, order, clique);
      assert order == front + [computer];
      forall x | x in order
        ensures x in after || !Admits(links, after, x)
      {
        if x != computer {
          assert x in front;
          if x !in before {
            var b :| b in before && b !in Neighbours(links, x);
          }
        }
      }
    }
  }

  /** One clique grown from pc, the body of the `iter_mut` loop. */
  method Grow(links: Links, order: seq<Computer>, pc: Computer) returns (clique: set<Computer>)
    requires forall x :: x in order ==> x in links
    ensures clique == Greedy(links, order, {pc})
  {
    clique := {pc};
    var k := 0;
    while k < |order|
      invariant k <= |order|
      invariant clique == Greedy(links, order[..k], {pc})
    {
      var computer := order[k];
      assert order[..k + 1][..k] == order[..k];
      if forall b | b in clique :: b in links[computer] {
        clique := clique + {computer};
      }
      k := k + 1;
    }
    assert order[..k] == order;
  }

  /** A greedy clique from a computer of a symmetric network is a clique
      holding it, to which no computer can be added. */
  lemma GreedyMaximal(links: Links, order: seq<Computer>, pc: Computer)
    requires Symmetric(links) && (forall x :: x in order <==> x in links)
    ensures pc in Greedy(links, order, {pc}) && Clique(links, Greedy(links, order, {pc}))
    ensures forall x :: x in links ==> x in Greedy(links, order, {pc}) || !Admits(links, Greedy(links, order, {pc}), x)
  {
    GreedyGrows(links, order, {pc});
  }

  /** password is the members of clique, sorted and joined with commas. */
  ghost predicate Spells(password: string, clique: set<Computer>)
  {
    exists names :: NonDecreasing(names) && Distinct(names) && (forall x :: x in names <==> x in clique)
      && password == Join(names, ",")
  }

  /** A clique spells one password only. */
  lemma SpellsUnique(p: string, q: string, clique: set<Computer>)
    requires Spells(p, clique) && Spells(q, clique)
    ensures p == q
  {
    var a :| NonDecreasing(a) && Distinct(a) && (forall x :: x in a <==> x in clique) && p == Join(a, ",");
    var b :| NonDecreasing(b) && Distinct(b) && (forall x :: x in b <==> x in clique) && q == Join(b, ",");
    forall v
      ensures multiset(a)[v] == multiset(b)[v]
    {
      assert v in a <==> v in multiset(a);
      assert v in b <==> v in multiset(b);
    }
    assert multiset(a) == multiset(b);
    NonDecreasingUnique(a, b);
  }

  /** `.iter().sorted().join(",")` on a clique. */
  method SpellPassword(clique: set<Computer>) returns (password: string)
    ensures Spells(password, clique)
  {
    var names: seq<Computer> := [];
    var rest := clique;
    while rest != {}
      invariant rest <= clique
      invariant NonDecreasing(names) && Distinct(names)
      invariant forall x :: x in names <==> x in clique && x !in rest
      decreases |rest|
    {
      var x :| x in rest;
      assert multiset(names)[x] == 0 by { assert x !in names; }
      ghost var before := names;
      names := InsertName(x, names);
      forall y
        ensures y in names <==> y in before || y == x
      {
        assert y in names <==> y in multiset(names);
        assert y in before <==> y in multiset(before);
      }
      rest := rest - {x};
    }
    password := Join(names, ",");
  }

  /** The largest clique, the last of them when several tie, as
      `max_by_key` picks it. */
  ghost predicate LastLargest(links: Links, order: seq<Computer>, i: nat)
  {
    i < |order|
    && (forall j :: 0 <= j < |order| ==> |Greedy(links, order, {order[j]})| <= |Greedy(links, order, {order[i]})|)
    && (forall j :: i < j < |order| ==> |Greedy(links, order, {order[j]})| < |Greedy(links, order, {order[i]})|)
  }

  /** `find_lan_password`, with order the sequence in which `keys()` lists
      the computers: a greedy clique from each computer, the last largest
      of them, spelled. None when there is no computer, where the source
      panics on `unwrap`. */
  method FindLanPassword(links: Links, order: seq<Computer>) returns (password: Option<string>)
    requires forall x :: x in order <==> x in links
    ensures password.None? <==> links == map[]
    ensures password.Some? ==>
      exists i: nat :: LastLargest(links, order, i) && Spells(password.value, Greedy(links, order, {order[i]}))
  {
    hide Greedy, Spells;
    var cliques: seq<set<Computer>> := [];
    var k := 0;
    while k < |order|
      invariant k <= |order| && |cliques| == k
      invariant forall j :: 0 <= j < k ==> cliques[j] == {order[j]}
    {
      cliques := cliques + [{order[k]}];
      k := k + 1;
    }
    k := 0;
    while k < |cliques|
      invariant k <= |cliques| == |order|
      invariant forall j :: 0 <= j < k ==> cliques[j] == Greedy(links, order, {order[j]})
      invariant forall j :: k <= j < |cliques| ==> cliques[j] == {order[j]}
    {
      var grown := Grow(links, order, order[k]);
      cliques := cliques[k := grown];
      k := k + 1;
    }
    if cliques == [] {
      assert links.Keys == {};
      return None;
    }
    var best := 0;
    k := 1;
    while k < |cliques|
      invariant 1 <= k <= |cliques| && best < k
      invariant forall j :: 0 <= j < k ==> |cliques[j]| <= |cliques[best]|
      invariant forall j :: best < j < k ==> |cliques[j]| < |cliques[best]|
    {
      if |cliques[k]| >= |cliques[best]| {
        best := k;
      }
      k := k + 1;
    }
    assert order[0] in links;
    var spelled := SpellPassword(cliques[best]);
    password := Some(spelled);
    assert LastLargest(links, order, best);
  }

  // ---- Input ----

  /** Some line of the input is "x-y" or "y-x". */
  ghost predicate Listed(lines: seq<string>, x: Computer, y: Computer)
  {
    exists k :: 0 <= k < |lines| && (SplitOnce(lines[k], "-") == Some((x, y)) || SplitOnce(lines[k], "-") == Some((y, x)))
  }

  /** links records exactly the listed links, from both ends, and no
      computer without one. */
  ghost predicate Describes(links: Links, lines: seq<string>)
  {
    (forall x :: x in links ==> links[x] != {})
    && forall x, y :: y in Neighbours(links, x) <==> Listed(lines, x, y)
  }

  lemma ListedStep(lines: seq<string>, k: nat, a: Computer, b: Computer)
    requires k < |lines| && SplitOnce(lines[k], "-") == Some((a, b))
    ensures forall x, y :: Listed(lines[..k + 1], x, y) <==> Listed(lines[..k], x, y) || (x == a && y == b) || (x == b && y == a)
  {
    forall x, y
      ensures Listed(lines[..k + 1], x, y) <==> Listed(lines[..k], x, y) || (x == a && y == b) || (x == b && y == a)
    {
      if Listed(lines[..k + 1], x, y) {
        var j :| 0 <= j < k + 1 && (SplitOnce(lines[..k + 1][j], "-") == Some((x, y)) || SplitOnce(lines[..k + 1][j], "-") == Some((y, x)));
        if j < k {
          assert lines[..k][j] == lines[..k + 1][j];
        } else {
          assert lines[..k + 1][j] == lines[k];
        }
      }
      if Listed(lines[..k], x, y) {
        var j :| 0 <= j < k && (SplitOnce(lines[..k][j], "-") == Some((x, y)) || SplitOnce(lines[..k][j], "-") == Some((y, x)));
        assert lines[..k + 1][j] == lines[..k][j];
      }
      if (x == a && y == b) || (x == b && y == a) {
        assert lines[..k + 1][k] == lines[k];
      }
    }
  }

  /** Recording the link of line k from both ends. */
  lemma DescribesStep(links: Links, lines: seq<string>, k: nat, a: Computer, b: Computer)
    requires k < |lines| && SplitOnce(lines[k], "-") == Some((a, b)) && Describes(links, lines[..k])
    ensures Describes(links[a := Neighbours(links, a) + {b}][b := Neighbours(links[a := Neighbours(links, a) + {b}], b) + {a}], lines[..k + 1])
  {
    ListedStep(lines, k, a, b);
    var first := links[a := Neighbours(links, a) + {b}];
    var both := first[b := Neighbours(first, b) + {a}];
    forall x, y
      ensures y in Neighbours(both, x) <==> Listed(lines[..k + 1], x, y)
    {
      assert y in Neighbours(both, x) <==> y in Neighbours(links, x) || (x == a && y == b) || (x == b && y == a);
    }
  }

  /** `parse_input`: each line "a-b" links a and b both ways; a line with no
      "-" makes the source panic on `unwrap`, None here. */
  method ParseInput(input: string) returns (network: Option<Links>)
    ensures network.None? <==> exists k :: 0 <= k < |Lines(input)| && SplitOnce(Lines(input)[k], "-").None?
    ensures network.Some? ==> Describes(network.value, Lines(input)) && Symmetric(network.value)
  {
    hide Describes, Listed, Symmetric;
    var lines := Lines(input);
    var links: Links := map[];
    var k := 0;
    DescribesNone(lines);
    while k < |lines|
      invariant k <= |lines|
      invariant forall j :: 0 <= j < k ==> SplitOnce(lines[j], "-").Some?
      invariant Describes(links, lines[..k])
    {
      match SplitOnce(lines[k], "-") {
        case None =>
          return None;
        case Some((a, b)) =>
          DescribesStep(links, lines, k, a, b);
          links := links[a := Neighbours(links, a) + {b}];
          links := links[b := Neighbours(links, b) + {a}];
      }
      k := k + 1;
    }
    assert lines[..k] == lines;
    DescribesSymmetric(links, lines);
    network := Some(links);
  }

  lemma DescribesNone(lines: seq<string>)
    ensures Describes(map[], lines[..0])
  {
  }

  /** A network read from lines has every link from both ends. */
  lemma DescribesSymmetric(links: Links, lines: seq<string>)
    requires Describes(links, lines)
    ensures Symmetric(links)
  {
  }
}
