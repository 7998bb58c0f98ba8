/** The worked example of day 5. */
module Day5Examples {
  import opened Common
  import opened Day5

  const ExampleRules: Rules := map[
    97 := {13, 61, 47, 29, 53, 75},
    75 := {29, 53, 47, 61, 13},
    61 := {13, 53, 29},
    29 := {13},
    53 := {29, 13},
    47 := {53, 13, 61, 29}]

  const ExampleUpdates: seq<Update> := [
    [75, 47, 61, 53, 29],
    [97, 61, 53, 29, 13],
    [75, 29, 13],
    [75, 97, 47, 61, 53],
    [61, 13, 29],
    [97, 13, 75, 29, 47]]

  /** The rule of every page of the example, without the map in sight. */
  predicate ExampleRuleSets(rules: Rules)
  {
    RuleOf(rules, 97) == {13, 61, 47, 29, 53, 75}
    && RuleOf(rules, 75) == {29, 53, 47, 61, 13}
    && RuleOf(rules, 61) == {13, 53, 29}
    && RuleOf(rules, 29) == {13}
    && RuleOf(rules, 53) == {29, 13}
    && RuleOf(rules, 47) == {53, 13, 61, 29}
    && RuleOf(rules, 13) == {}
  }

  lemma ExampleRuleSetsHold()
    ensures ExampleRuleSets(ExampleRules)
  {
  }

  lemma CheckedValid(rules: Rules)
    requires ExampleRuleSets(rules)
    ensures Checked([75, 47, 61, 53, 29], rules)
    ensures Checked([97, 61, 53, 29, 13], rules)
    ensures Checked([75, 29, 13], rules)
  {
    assert Checked([29], rules);
    assert NotNamedBy(53, [29], rules);
    assert Checked([53, 29], rules);
    assert NotNamedBy(61, [29], rules);
    assert NotNamedBy(61, [53, 29], rules);
    assert Checked([61, 53, 29], rules);
    assert NotNamedBy(47, [29], rules);
    assert NotNamedBy(47, [53, 29], rules);
    assert NotNamedBy(47, [61, 53, 29], rules);
    assert Checked([47, 61, 53, 29], rules);
    assert NotNamedBy(75, [29], rules);
    assert NotNamedBy(75, [53, 29], rules);
    assert NotNamedBy(75, [61, 53, 29], rules);
    assert NotNamedBy(75, [47, 61, 53, 29], rules);
    assert Checked([75, 47, 61, 53, 29], rules);
    assert Checked([13], rules);
    assert NotNamedBy(29, [13], rules);
    assert Checked([29, 13], rules);
    assert NotNamedBy(53, [13], rules);
    assert NotNamedBy(53, [29, 13], rules);
    assert Checked([53, 29, 13], rules);
    assert NotNamedBy(61, [13], rules);
    assert NotNamedBy(61, [29, 13], rules);
    assert NotNamedBy(61, [53, 29, 13], rules);
    assert Checked([61, 53, 29, 13], rules);
    assert NotNamedBy(97, [13], rules);
    assert NotNamedBy(97, [29, 13], rules);
    assert NotNamedBy(97, [53, 29, 13], rules);
    assert NotNamedBy(97, [61, 53, 29, 13], rules);
    assert Checked([97, 61, 53, 29, 13], rules);
    assert Checked([13], rules);
    assert NotNamedBy(29, [13], rules);
    assert Checked([29, 13], rules);
    assert NotNamedBy(75, [13], rules);
    assert NotNamedBy(75, [29, 13], rules);
    assert Checked([75, 29, 13], rules);
  }

  lemma CheckedInvalid(rules: Rules)
    requires ExampleRuleSets(rules)
    ensures !Checked([75, 97, 47, 61, 53], rules)
    ensures !Checked([61, 13, 29], rules)
    ensures !Checked([97, 13, 75, 29, 47], rules)
  {
  }

  lemma ExampleValid()
    ensures Valid([75, 47, 61, 53, 29], ExampleRules)
    ensures Valid([97, 61, 53, 29, 13], ExampleRules)
    ensures Valid([75, 29, 13], ExampleRules)
    ensures !Valid([75, 97, 47, 61, 53], ExampleRules)
    ensures !Valid([61, 13, 29], ExampleRules)
    ensures !Valid([97, 13, 75, 29, 47], ExampleRules)
  {
    ExampleRuleSetsHold();
    CheckedValid(ExampleRules);
    CheckedInvalid(ExampleRules);
    CheckedIsValid([75, 47, 61, 53, 29], ExampleRules);
    CheckedIsValid([97, 61, 53, 29, 13], ExampleRules);
    CheckedIsValid([75, 29, 13], ExampleRules);
    CheckedIsValid([75, 97, 47, 61, 53], ExampleRules);
    CheckedIsValid([61, 13, 29], ExampleRules);
    CheckedIsValid([97, 13, 75, 29, 47], ExampleRules);
  }

  lemma ExampleMiddles()
    ensures GetMiddle([75, 47, 61, 53, 29]) == Some(61)
    ensures GetMiddle([97, 61, 53, 29, 13]) == Some(53)
    ensures GetMiddle([75, 29, 13]) == Some(29)
    ensures GetMiddle([75, 97, 47, 61, 53]) == Some(47)
    ensures GetMiddle([61, 13, 29]) == Some(13)
    ensures GetMiddle([97, 13, 75, 29, 47]) == Some(75)
  {
  }

  /** Which example updates are valid, without the rules in sight. */
  predicate ValidAsInExample(rules: Rules)
  {
    Valid([75, 47, 61, 53, 29], rules)
    && Valid([97, 61, 53, 29, 13], rules)
    && Valid([75, 29, 13], rules)
    && !Valid([75, 97, 47, 61, 53], rules)
    && !Valid([61, 13, 29], rules)
    && !Valid([97, 13, 75, 29, 47], rules)
  }

  lemma SumValidWith(rules: Rules)
    requires ValidAsInExample(rules)
    ensures SumValidMiddles(ExampleUpdates, rules) == Some(143)
  {
    assert SumValidMiddles(ExampleUpdates[6..], rules) == Some(0);
    assert SumValidMiddles(ExampleUpdates[5..], rules) == Some(0);
    assert SumValidMiddles(ExampleUpdates[4..], rules) == Some(0);
    assert SumValidMiddles(ExampleUpdates[3..], rules) == Some(0);
    assert SumValidMiddles(ExampleUpdates[2..], rules) == Some(29);
    assert SumValidMiddles(ExampleUpdates[1..], rules) == Some(82);
    assert ExampleUpdates[0..] == ExampleUpdates;
  }

  lemma ExampleSumValid()
    ensures SumValidMiddles(ExampleUpdates, ExampleRules) == Some(143)
  {
    ExampleValid();
    SumValidWith(ExampleRules);
  }

  /** One step of the insertion sort, so that the example never unfolds it
      more than once. */
  lemma SortStep(rules: Rules, xs: Update, sortedTail: Update)
    requires xs != [] && SortPages(xs[1..], rules) == sortedTail
    ensures SortPages(xs, rules) == InsertPage(rules, xs[0], sortedTail)
  {
  }

  lemma InsertBefore(rules: Rules, x: nat, ys: Update)
    requires ys != [] && Compare(rules, x, ys[0]) != Greater
    ensures InsertPage(rules, x, ys) == [x] + ys
  {
  }

  lemma InsertBehind(rules: Rules, x: nat, ys: Update, rest: Update)
    requires ys != [] && Compare(rules, x, ys[0]) == Greater && InsertPage(rules, x, ys[1..]) == rest
    ensures InsertPage(rules, x, ys) == [ys[0]] + rest
  {
  }

  /** The comparisons the insertion sort makes on the example. */
  predicate SortCompares(rules: Rules)
  {
    Compare(rules, 61, 53) != Greater && Compare(rules, 47, 61) != Greater
    && Compare(rules, 97, 47) != Greater && Compare(rules, 75, 47) != Greater
    && Compare(rules, 75, 97) == Greater && Compare(rules, 13, 29) == Greater
    && Compare(rules, 61, 29) != Greater && Compare(rules, 29, 47) == Greater
    && Compare(rules, 13, 47) == Greater && Compare(rules, 13, 75) == Greater
    && Compare(rules, 97, 75) != Greater
  }

  lemma ExampleCompares(rules: Rules)
    requires ExampleRuleSets(rules)
    ensures SortCompares(rules)
  {
  }

  lemma SortFirst(rules: Rules)
    requires SortCompares(rules)
    ensures SortPages([75, 97, 47, 61, 53], rules) == [97, 75, 47, 61, 53]
  {
    SortStep(rules, [53], []);
    InsertBefore(rules, 61, [53]);
    SortStep(rules, [61, 53], [53]);
    InsertBefore(rules, 47, [61, 53]);
    SortStep(rules, [47, 61, 53], [61, 53]);
    InsertBefore(rules, 97, [47, 61, 53]);
    SortStep(rules, [97, 47, 61, 53], [47, 61, 53]);
    InsertBefore(rules, 75, [47, 61, 53]);
    InsertBehind(rules, 75, [97, 47, 61, 53], [75, 47, 61, 53]);
    SortStep(rules, [75, 97, 47, 61, 53], [97, 47, 61, 53]);
  }

  lemma SortSecond(rules: Rules)
    requires SortCompares(rules)
    ensures SortPages([61, 13, 29], rules) == [61, 29, 13]
  {
    SortStep(rules, [29], []);
    InsertBehind(rules, 13, [29], [13]);
    SortStep(rules, [13, 29], [29]);
    InsertBefore(rules, 61, [29, 13]);
    SortStep(rules, [61, 13, 29], [29, 13]);
  }

  lemma SortThird(rules: Rules)
    requires SortCompares(rules)
    ensures SortPages([97, 13, 75, 29, 47], rules) == [97, 75, 47, 29, 13]
  {
    SortStep(rules, [47], []);
    InsertBehind(rules, 29, [47], [29]);
    SortStep(rules, [29, 47], [47]);
    InsertBefore(rules, 75, [47, 29]);
    SortStep(rules, [75, 29, 47], [47, 29]);
    InsertBehind(rules, 13, [29], [13]);
    InsertBehind(rules, 13, [47, 29], [29, 13]);
    InsertBehind(rules, 13, [75, 47, 29], [47, 29, 13]);
    SortStep(rules, [13, 75, 29, 47], [75, 47, 29]);
    InsertBefore(rules, 97, [75, 47, 29, 13]);
    SortStep(rules, [97, 13, 75, 29, 47], [75, 47, 29, 13]);
  }

  lemma ExampleSorts()
    ensures SortPages([75, 97, 47, 61, 53], ExampleRules) == [97, 75, 47, 61, 53]
    ensures SortPages([61, 13, 29], ExampleRules) == [61, 29, 13]
    ensures SortPages([97, 13, 75, 29, 47], ExampleRules) == [97, 75, 47, 29, 13]
  {
    ExampleRuleSetsHold();
    ExampleCompares(ExampleRules);
    SortFirst(ExampleRules);
    SortSecond(ExampleRules);
    SortThird(ExampleRules);
  }

  lemma SumSortedWith(rules: Rules)
    requires ValidAsInExample(rules)
    requires SortPages([75, 97, 47, 61, 53], rules) == [97, 75, 47, 61, 53]
    requires SortPages([61, 13, 29], rules) == [61, 29, 13]
    requires SortPages([97, 13, 75, 29, 47], rules) == [97, 75, 47, 29, 13]
    ensures SumSortedInvalidMiddles(ExampleUpdates, rules) == 123
  {
    assert SumSortedInvalidMiddles(ExampleUpdates[6..], rules) == 0;
    assert SumSortedInvalidMiddles(ExampleUpdates[5..], rules) == 47;
    assert SumSortedInvalidMiddles(ExampleUpdates[4..], rules) == 76;
    assert SumSortedInvalidMiddles(ExampleUpdates[3..], rules) == 123;
    assert SumSortedInvalidMiddles(ExampleUpdates[2..], rules) == 123;
    assert SumSortedInvalidMiddles(ExampleUpdates[1..], rules) == 123;
    assert ExampleUpdates[0..] == ExampleUpdates;
  }

  lemma ExampleSumSorted()
    ensures SumSortedInvalidMiddles(ExampleUpdates, ExampleRules) == 123
  {
    ExampleValid();
    ExampleSorts();
    SumSortedWith(ExampleRules);
  }
}
