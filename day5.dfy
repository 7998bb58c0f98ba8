/** Day 5: page-ordering rules "a|b" (page a must come before page b), the
    updates that respect them, and re-sorting the ones that do not. */
module Day5 {
  import opened Common

  /** For each page, the pages that must come after it. */
  type Rules = map<nat, set<nat>>

  type Update = seq<nat>

  /** The pages that must come after p; none when p has no rule. */
  function RuleOf(rules: Rules, p: nat): set<nat>
  {
    if p in rules then rules[p] else {}
  }

  // ---- parse_rules ----

  /** What one line of the rules section says. */
  datatype RuleLine = NoRule | Rule(before: nat, after: nat) | BadRule

  /** A line without '|' is skipped; around the first '|' both sides must
      parse as u32, otherwise the source aborts. */
  function RuleLineOf(line: string): (r: RuleLine)
    ensures r.NoRule? <==> SplitOnce(line, "|").None?
    ensures r.Rule? ==> exists b, a :: SplitOnce(line, "|") == Some((b, a)) && ParseU32(b) == Some(r.before) && ParseU32(a) == Some(r.after)
  {
    match SplitOnce(line, "|")
    case None => NoRule
    case Some((b, a)) =>
      match (ParseU32(b), ParseU32(a))
      case (Some(x), Some(y)) => Rule(x, y)
      case _ => BadRule
  }

  predicate NoBadRule(lines: seq<string>)
  {
    forall k :: 0 <= k < |lines| ==> !RuleLineOf(lines[k]).BadRule?
  }

  /** The rules recorded by the lines, in order. */
  function RulesOf(lines: seq<string>): Rules
  {
    if lines == [] then map[]
    else
      var rules := RulesOf(lines[..|lines| - 1]);
      match RuleLineOf(lines[|lines| - 1])
      case Rule(a, b) => rules[a := RuleOf(rules, a) + {b}]
      case _ => rules
  }

  /** `parse_rules`: records b under a for every "a|b" line. None stands for
      the abort on a side that is not a u32. */
  method ParseRules(input: string) returns (result: Option<Rules>)
    ensures result.Some? <==> NoBadRule(Lines(input))
    ensures result.Some? ==> result.value == RulesOf(Lines(input))
  {
    var lines := Lines(input);
    var rules: Rules := map[];
    var i := 0;
    while i < |lines|
      invariant i <= |lines|
      invariant NoBadRule(lines[..i])
      invariant rules == RulesOf(lines[..i])
    {
      PrefixStep(lines, i);
      match RuleLineOf(lines[i]) {
        case NoRule =>
        case BadRule =>
          assert !NoBadRule(lines) by {
            assert RuleLineOf(lines[i]).BadRule?;
          }
          return None;
        case Rule(a, b) =>
          rules := rules[a := RuleOf(rules, a) + {b}];
      }
      i := i + 1;
    }
    assert lines[..i] == lines;
    return Some(rules);
  }

  /** One more line of the prefix: one more rule recorded, one more line
      checked. */
  lemma PrefixStep(lines: seq<string>, i: nat)
    requires i < |lines|
    ensures RulesOf(lines[..i + 1]) == match RuleLineOf(lines[i])
      case Rule(a, b) => RulesOf(lines[..i])[a := RuleOf(RulesOf(lines[..i]), a) + {b}]
      case _ => RulesOf(lines[..i])
    ensures NoBadRule(lines[..i + 1]) <==> NoBadRule(lines[..i]) && !RuleLineOf(lines[i]).BadRule?
  {
    assert lines[..i + 1][..i] == lines[..i];
    assert lines[..i + 1][i] == lines[i];
  }

  /** The rules say b after a exactly when some line says "a|b", and a page
      is only a key when it has at least one such line. */
  lemma {:induction false} RulesOfExact(lines: seq<string>, a: nat, b: nat)
    ensures b in RuleOf(RulesOf(lines), a) <==> exists k :: 0 <= k < |lines| && RuleLineOf(lines[k]) == Rule(a, b)
    ensures a in RulesOf(lines) ==> RulesOf(lines)[a] != {}
  {
    if lines != [] {
      var init := lines[..|lines| - 1];
      RulesOfExact(init, a, b);
      forall k | 0 <= k < |init|
        ensures init[k] == lines[k]
      {
      }
      if RuleLineOf(lines[|lines| - 1]) == Rule(a, b) {
        assert RuleLineOf(lines[|lines| - 1]) == Rule(a, b);
      }
    }
  }

  // ---- parse_updates and parse_input ----

  /** `parse_updates`: one update per line, the comma-separated u32 pieces. */
  function ParseUpdates(input: string): (r: seq<Update>)
    ensures |r| == |Lines(input)|
    ensures forall k :: 0 <= k < |r| ==> r[k] == U32Pieces(Split(Lines(input)[k], ','))
  {
    var lines := Lines(input);
    seq(|lines|, k requires 0 <= k < |lines| => U32Pieces(Split(lines[k], ',')))
  }

  /** `parse_input`: rules before the first blank line, updates after it. None
      stands for the aborts: no blank line, or a malformed rule. */
  method ParseInput(input: string) returns (result: Option<(Rules, seq<Update>)>)
    ensures SplitOnce(input, "\n\n").None? ==> result.None?
    ensures SplitOnce(input, "\n\n").Some? ==>
      var (ruleText, updateText) := SplitOnce(input, "\n\n").value;
      (result.Some? <==> NoBadRule(Lines(ruleText)))
      && (result.Some? ==> result.value == (RulesOf(Lines(ruleText)), ParseUpdates(updateText)))
  {
    match SplitOnce(input, "\n\n") {
      case None => return None;
      case Some((ruleText, updateText)) =>
        var rules := ParseRules(ruleText);
        if rules.None? {
          return None;
        }
        return Some((rules.value, ParseUpdates(updateText)));
    }
  }

  // ---- validate_update ----

  /** No page is preceded by a page that its rules place after it. */
  predicate Valid(update: Update, rules: Rules)
  {
    forall i, j :: 0 <= i < j < |update| ==> update[i] !in RuleOf(rules, update[j])
  }

  /** `validate_update`: walks the pages, remembering the ones seen, and fails
      as soon as a page's rule names a page already seen. */
  method ValidateUpdate(update: Update, rules: Rules) returns (ok: bool)
    ensures ok <==> Valid(update, rules)
  {
    var seen: set<nat> := {};
    var idx := 0;
    while idx < |update|
      invariant idx <= |update|
      invariant seen == set i | 0 <= i < idx :: update[i]
      invariant Valid(update[..idx], rules)
    {
      var page := update[idx];
      var rule := RuleOf(rules, page);
      if seen * rule != {} {
        var p :| p in seen * rule;
        var i :| 0 <= i < idx && update[i] == p;
        assert !Valid(update, rules) by {
          assert update[i] in RuleOf(rules, update[idx]);
        }
        return false;
      }
      var next := update[..idx + 1];
      assert Valid(next, rules) by {
        forall i, j | 0 <= i < j < idx + 1
          ensures next[i] !in RuleOf(rules, next[j])
        {
          assert next[i] == update[i] && next[j] == update[j];
          if j < idx {
            assert update[..idx][i] !in RuleOf(rules, update[..idx][j]);
          } else {
            assert update[i] in seen;
            assert update[i] !in seen * rule;
          }
        }
      }
      seen := seen + {page};
      idx := idx + 1;
    }
    assert update[..idx] == update;
    return true;
  }

  /** Page p is not named by the rules of any of the pages. */
  predicate NotNamedBy(p: nat, pages: Update, rules: Rules)
  {
    pages == [] || (p !in RuleOf(rules, pages[0]) && NotNamedBy(p, pages[1..], rules))
  }

  /** An independent, page-by-page check: each page is named by the rules of
      none of the pages after it. */
  predicate Checked(update: Update, rules: Rules)
  {
    update == [] || (NotNamedBy(update[0], update[1..], rules) && Checked(update[1..], rules))
  }

  lemma {:induction false} NotNamedByAll(p: nat, pages: Update, rules: Rules)
    ensures NotNamedBy(p, pages, rules) <==> forall j :: 0 <= j < |pages| ==> p !in RuleOf(rules, pages[j])
  {
    if pages != [] {
      NotNamedByAll(p, pages[1..], rules);
      assert forall j :: 1 <= j < |pages| ==> pages[j] == pages[1..][j - 1];
    }
  }

  lemma {:induction false} CheckedIsValid(update: Update, rules: Rules)
    ensures Checked(update, rules) <==> Valid(update, rules)
  {
    if update != [] {
      var rest := update[1..];
      CheckedIsValid(rest, rules);
      NotNamedByAll(update[0], rest, rules);
      assert forall i :: 1 <= i < |update| ==> update[i] == rest[i - 1];
      if Valid(update, rules) {
        assert Valid(rest, rules) by {
          forall i, j | 0 <= i < j < |rest|
            ensures rest[i] !in RuleOf(rules, rest[j])
          {
            assert update[i + 1] !in RuleOf(rules, update[j + 1]);
          }
        }
        forall j | 0 <= j < |rest|
          ensures update[0] !in RuleOf(rules, rest[j])
        {
          assert update[0] !in RuleOf(rules, update[j + 1]);
        }
      }
    }
  }

  // ---- get_middle and the sums ----

  /** `get_middle`: the page at (len - 1) / 2. The source aborts on an empty
      update; that is None here. */
  function GetMiddle(update: Update): (r: Option<nat>)
    ensures r.Some? <==> update != []
    ensures r.Some? ==> r.value in update
    ensures r.Some? ==> exists m :: 0 <= m < |update| && update[m] == r.value && m == |update| - 1 - m - (|update| + 1) % 2
  {
    if update == [] then None
    else
      var m := (|update| - 1) / 2;
      Some(update[m])
  }

  /** `sum_valid_middle_pages`: the middles of the valid updates. None if a
      valid update is empty. */
  function SumValidMiddles(updates: seq<Update>, rules: Rules): Option<nat>
  {
    if updates == [] then Some(0)
    else
      var here := if Valid(updates[0], rules) then GetMiddle(updates[0]) else Some(0);
      match (here, SumValidMiddles(updates[1..], rules))
      case (Some(x), Some(y)) => Some(x + y)
      case _ => None
  }

  /** The sum fails exactly when some valid update is empty. */
  lemma {:induction false} SumValidMiddlesFails(updates: seq<Update>, rules: Rules)
    ensures SumValidMiddles(updates, rules).None? <==> exists k :: 0 <= k < |updates| && updates[k] == [] && Valid(updates[k], rules)
  {
    if updates != [] {
      SumValidMiddlesFails(updates[1..], rules);
      assert forall k :: 1 <= k < |updates| ==> updates[k] == updates[1..][k - 1];
    }
  }

  // ---- sort_pages ----

  datatype Ordering = Less | Equal | Greater

  /** The comparator of `sort_pages`: a first if a's rule names b, b first if
      b's rule names a, otherwise equal. */
  function Compare(rules: Rules, a: nat, b: nat): (r: Ordering)
    ensures r == Less <==> b in RuleOf(rules, a)
    ensures r == Greater <==> b !in RuleOf(rules, a) && a in RuleOf(rules, b)
  {
    if b in RuleOf(rules, a) then Less
    else if a in RuleOf(rules, b) then Greater
    else Equal
  }

  /** Insert x, which came earlier than every page of ys, in front of the
      first page it does not compare greater than (stable). */
  function InsertPage(rules: Rules, x: nat, ys: Update): Update
  {
    if ys == [] then [x]
    else if Compare(rules, x, ys[0]) == Greater then [ys[0]] + InsertPage(rules, x, ys[1..])
    else [x] + ys
  }

  lemma {:induction false} InsertPermutes(rules: Rules, x: nat, ys: Update)
    ensures multiset(InsertPage(rules, x, ys)) == multiset(ys) + multiset{x}
  {
    if ys != [] && Compare(rules, x, ys[0]) == Greater {
      InsertPermutes(rules, x, ys[1..]);
      assert ys == [ys[0]] + ys[1..];
    }
  }

  /** `sort_pages`: a stable sort by Compare, written as an insertion sort. */
  function SortPages(update: Update, rules: Rules): Update
  {
    if update == [] then []
    else InsertPage(rules, update[0], SortPages(update[1..], rules))
  }

  /** Sorting only reorders the pages. */
  lemma {:induction false} SortPermutes(update: Update, rules: Rules)
    ensures multiset(SortPages(update, rules)) == multiset(update)
    ensures |SortPages(update, rules)| == |update|
  {
    if update != [] {
      SortPermutes(update[1..], rules);
      InsertPermutes(rules, update[0], SortPages(update[1..], rules));
      assert update == [update[0]] + update[1..];
    }
  }

  /** `sort_and_sum_invalid_middle_pages`: the middles of the invalid updates
      once sorted. An invalid update is never empty, so this cannot fail. */
  function SumSortedInvalidMiddles(updates: seq<Update>, rules: Rules): nat
  {
    if updates == [] then 0
    else
      var here := if Valid(updates[0], rules) then 0 else InvalidMiddle(updates[0], rules);
      here + SumSortedInvalidMiddles(updates[1..], rules)
  }

  /** The middle of a sorted invalid update. */
  function InvalidMiddle(update: Update, rules: Rules): (r: nat)
    requires !Valid(update, rules)
    ensures r in update
  {
    var sorted := SortPages(update, rules);
    SortPermutes(update, rules);
    assert sorted != [];
    assert GetMiddle(sorted).value in multiset(update);
    GetMiddle(sorted).value
  }

  // ---- What sorting achieves ----

  /** Sorting leaves an update that already obeys the rules as it is. */
  lemma {:induction false} SortKeepsValid(update: Update, rules: Rules)
    requires Valid(update, rules)
    ensures SortPages(update, rules) == update
  {
    if update != [] {
      var rest := update[1..];
      assert Valid(rest, rules) by {
        forall i, j | 0 <= i < j < |rest|
          ensures rest[i] !in RuleOf(rules, rest[j])
        {
          assert rest[i] == update[i + 1] && rest[j] == update[j + 1];
        }
      }
      SortKeepsValid(rest, rules);
      if rest != [] {
        assert update[0] !in RuleOf(rules, update[1]);
      }
      assert update == [update[0]] + rest;
    }
  }

  /** On the pages `pages`, the rules are a strict total order: no page is
      after itself, of two distinct pages one is after the other, and "after"
      is transitive. */
  predicate TotalOn(rules: Rules, pages: set<nat>)
  {
    (forall a :: a in pages ==> a !in RuleOf(rules, a))
    && (forall a, b :: a in pages && b in pages && a != b ==> b in RuleOf(rules, a) || a in RuleOf(rules, b))
    && (forall a, b, c :: a in pages && b in pages && c in pages && b in RuleOf(rules, a) && c in RuleOf(rules, b) ==> c in RuleOf(rules, a))
  }

  predicate Within(update: Update, pages: set<nat>)
  {
    forall k :: 0 <= k < |update| ==> update[k] in pages
  }

  lemma InsertWithin(rules: Rules, x: nat, ys: Update, pages: set<nat>)
    requires x in pages && Within(ys, pages)
    ensures Within(InsertPage(rules, x, ys), pages)
  {
    var r := InsertPage(rules, x, ys);
    InsertPermutes(rules, x, ys);
    forall k | 0 <= k < |r|
      ensures r[k] in pages
    {
      assert r[k] in multiset(ys) + multiset{x};
      if r[k] != x {
        assert r[k] in multiset(ys);
      }
    }
  }

  /** x placed in front of a valid ys is valid when x is not after ys's head
      and differs from it or equals it. */
  lemma InsertFront(rules: Rules, x: nat, ys: Update, pages: set<nat>)
    requires TotalOn(rules, pages) && x in pages && Within(ys, pages)
    requires Valid(ys, rules) && ys != [] && Compare(rules, x, ys[0]) != Greater
    ensures Valid([x] + ys, rules)
  {
    var r := [x] + ys;
    forall i, j | 0 <= i < j < |r|
      ensures r[i] !in RuleOf(rules, r[j])
    {
      if i == 0 {
        var y := ys[j - 1];
        assert ys[0] in pages && y in pages;
        if j > 1 {
          assert ys[0] !in RuleOf(rules, y);
        }
      } else {
        assert r[i] == ys[i - 1] && r[j] == ys[j - 1];
      }
    }
  }

  /** Inserting into a valid update keeps it valid when the rules order its
      pages totally. */
  lemma {:induction false} InsertValid(rules: Rules, x: nat, ys: Update, pages: set<nat>)
    requires TotalOn(rules, pages) && x in pages && Within(ys, pages) && Valid(ys, rules)
    ensures Valid(InsertPage(rules, x, ys), rules)
  {
    if ys != [] {
      if Compare(rules, x, ys[0]) == Greater {
        var rest := ys[1..];
        assert Valid(rest, rules) by {
          forall i, j | 0 <= i < j < |rest|
            ensures rest[i] !in RuleOf(rules, rest[j])
          {
            assert rest[i] == ys[i + 1] && rest[j] == ys[j + 1];
          }
        }
        assert Within(rest, pages) by {
          forall k | 0 <= k < |rest|
            ensures rest[k] in pages
          {
            assert rest[k] == ys[k + 1];
          }
        }
        InsertValid(rules, x, rest, pages);
        var tail := InsertPage(rules, x, rest);
        InsertPermutes(rules, x, rest);
        var r := [ys[0]] + tail;
        forall i, j | 0 <= i < j < |r|
          ensures r[i] !in RuleOf(rules, r[j])
        {
          if i == 0 {
            var z := tail[j - 1];
            assert z in multiset(rest) + multiset{x};
            if z != x {
              assert z in multiset(rest);
              var k :| 0 <= k < |rest| && rest[k] == z;
              assert ys[0] !in RuleOf(rules, ys[k + 1]);
            }
          } else {
            assert r[i] == tail[i - 1] && r[j] == tail[j - 1];
          }
        }
      } else {
        InsertFront(rules, x, ys, pages);
      }
    }
  }

  /** When the rules order an update's pages totally, sorting yields an
      update that obeys them. */
  lemma {:induction false} SortIsValid(update: Update, rules: Rules, pages: set<nat>)
    requires TotalOn(rules, pages) && Within(update, pages)
    ensures Valid(SortPages(update, rules), rules)
    ensures Within(SortPages(update, rules), pages)
  {
    if update != [] {
      var rest := update[1..];
      assert Within(rest, pages) by {
        forall k | 0 <= k < |rest|
          ensures rest[k] in pages
        {
          assert rest[k] == update[k + 1];
        }
      }
      SortIsValid(rest, rules, pages);
      InsertValid(rules, update[0], SortPages(rest, rules), pages);
      InsertWithin(rules, update[0], SortPages(rest, rules), pages);
    }
  }

  // ---- There is only one valid order ----

  /** Two valid orders of the same pages start with the same page: the first
      page of each occurs in the other, and of two distinct pages one has to
      come after the other. */
  lemma HeadsAgree(s1: Update, s2: Update, rules: Rules, pages: set<nat>)
    requires TotalOn(rules, pages) && Within(s1, pages) && Within(s2, pages)
    requires s1 != [] && multiset(s1) == multiset(s2)
    requires Valid(s1, rules) && Valid(s2, rules)
    ensures s2 != [] && s1[0] == s2[0]
  {
    var a := s1[0];
    assert a in multiset(s2);
    var k :| 0 <= k < |s2| && s2[k] == a;
    var b := s2[0];
    assert b in multiset(s1);
    var j :| 0 <= j < |s1| && s1[j] == b;
    assert a in pages && b in pages;
    assert j > 0 ==> a !in RuleOf(rules, b);
    assert k > 0 ==> b !in RuleOf(rules, a);
  }

  /** Where the rules order the pages totally, two valid orders of the same
      pages are the same order. */
  lemma {:induction false} ValidUnique(s1: Update, s2: Update, rules: Rules, pages: set<nat>)
    requires TotalOn(rules, pages) && Within(s1, pages) && Within(s2, pages)
    requires multiset(s1) == multiset(s2)
    requires Valid(s1, rules) && Valid(s2, rules)
    ensures s1 == s2
    decreases |s1|
  {
    if s1 == [] {
      assert |s2| == |multiset(s2)| == 0;
    } else {
      HeadsAgree(s1, s2, rules, pages);
      var t1, t2 := s1[1..], s2[1..];
      TailsSameMultiset(s1, s2);
      ValidTail(s1, rules, pages);
      ValidTail(s2, rules, pages);
      hide *;
      ValidUnique(t1, t2, rules, pages);
      assert s1 == [s1[0]] + t1 && s2 == [s2[0]] + t2;
    }
  }

  lemma TailsSameMultiset(s1: Update, s2: Update)
    requires s1 != [] && s2 != [] && s1[0] == s2[0] && multiset(s1) == multiset(s2)
    ensures multiset(s1[1..]) == multiset(s2[1..])
  {
    var t1, t2 := s1[1..], s2[1..];
    assert s1 == [s1[0]] + t1 && s2 == [s2[0]] + t2;
    assert multiset(t1) == multiset(s1) - multiset{s1[0]};
    assert multiset(t2) == multiset(s2) - multiset{s1[0]};
  }

  /** Dropping the first page keeps an update valid and within the pages. */
  lemma ValidTail(s: Update, rules: Rules, pages: set<nat>)
    requires s != [] && Valid(s, rules) && Within(s, pages)
    ensures Valid(s[1..], rules) && Within(s[1..], pages)
  {
    var t := s[1..];
    forall i, j | 0 <= i < j < |t|
      ensures t[i] !in RuleOf(rules, t[j])
    {
      assert t[i] == s[i + 1] && t[j] == s[j + 1];
    }
    assert forall k :: 0 <= k < |t| ==> t[k] == s[k + 1];
  }

  /** A reordering of an update holds the same pages. */
  lemma WithinReordering(update: Update, reordering: Update, pages: set<nat>)
    requires Within(update, pages) && multiset(reordering) == multiset(update)
    ensures Within(reordering, pages)
  {
    forall k | 0 <= k < |reordering|
      ensures reordering[k] in pages
    {
      assert reordering[k] in multiset(update);
    }
  }

  /** Where the rules order an update's pages totally, sorting gives the one
      valid reordering of the update: any comparison sort that respects the
      rules, stable or not, lands on it. */
  lemma SortIsOnlyValidOrder(update: Update, reordering: Update, rules: Rules, pages: set<nat>)
    requires TotalOn(rules, pages) && Within(update, pages)
    requires multiset(reordering) == multiset(update) && Valid(reordering, rules)
    ensures SortPages(update, rules) == reordering
  {
    SortIsValid(update, rules, pages);
    SortPermutes(update, rules);
    WithinReordering(update, reordering, pages);
    ValidUnique(SortPages(update, rules), reordering, rules, pages);
  }

  /** So the middle page that `sort_and_sum_invalid_middle_pages` adds is
      the middle page of any valid reordering of the update. */
  lemma InvalidMiddleOfValidOrder(update: Update, reordering: Update, rules: Rules, pages: set<nat>)
    requires TotalOn(rules, pages) && Within(update, pages) && !Valid(update, rules)
    requires multiset(reordering) == multiset(update) && Valid(reordering, rules)
    ensures GetMiddle(reordering) == Some(InvalidMiddle(update, rules))
  {
    SortIsOnlyValidOrder(update, reordering, rules, pages);
  }
}
