/** The worked examples of Day 7, evaluated in the model. */
module Day7Examples {
  import opened Common
  import opened Day7

  const ExampleEquations: seq<Equation> := [
    Equation(190, 10, [19]),
    Equation(3267, 81, [40, 27]),
    Equation(83, 17, [5]),
    Equation(156, 15, [6]),
    Equation(7290, 6, [8, 6, 15]),
    Equation(161011, 16, [10, 13]),
    Equation(192, 17, [8, 14]),
    Equation(21037, 9, [7, 18, 13]),
    Equation(292, 11, [6, 16, 20])
  ]

  /** Adding or multiplying the next number, and the cases that give none. */
  lemma ExampleApply()
    ensures Apply(Equation(190, 10, [19]), Add) == Some(Equation(190, 29, []))
    ensures Apply(Equation(190, 190, [19]), Add) == None
    ensures Apply(Equation(190, 29, []), Add) == None
    ensures Apply(Equation(190, 10, [19]), Mul) == Some(Equation(190, 190, []))
    ensures Apply(Equation(190, 190, []), Mul) == None
    ensures Apply(Equation(190, 10, [20]), Mul) == None
  {
  }

  /** The example equations in ascending order of the `Ord`. */
  const ExampleSorted: seq<Equation> := [
    Equation(83, 17, [5]),
    Equation(156, 15, [6]),
    Equation(190, 10, [19]),
    Equation(192, 17, [8, 14]),
    Equation(3267, 81, [40, 27]),
    Equation(161011, 16, [10, 13]),
    Equation(292, 11, [6, 16, 20]),
    Equation(7290, 6, [8, 6, 15]),
    Equation(21037, 9, [7, 18, 13])
  ]

  /** Each example equation is strictly below the next in the sorted order. */
  lemma ExampleOrder()
    ensures Compare(Equation(83, 17, [5]), Equation(156, 15, [6])) == Less
    ensures Compare(Equation(156, 15, [6]), Equation(190, 10, [19])) == Less
    ensures Compare(Equation(190, 10, [19]), Equation(192, 17, [8, 14])) == Less
    ensures Compare(Equation(192, 17, [8, 14]), Equation(3267, 81, [40, 27])) == Less
    ensures Compare(Equation(3267, 81, [40, 27]), Equation(161011, 16, [10, 13])) == Less
    ensures Compare(Equation(161011, 16, [10, 13]), Equation(292, 11, [6, 16, 20])) == Less
    ensures Compare(Equation(292, 11, [6, 16, 20]), Equation(7290, 6, [8, 6, 15])) == Less
    ensures Compare(Equation(7290, 6, [8, 6, 15]), Equation(21037, 9, [7, 18, 13])) == Less
  {
  }

  /** The sorted order holds the same equations: it picks each example once. */
  lemma ExampleSortedPicks()
    ensures ExampleSorted == [ExampleEquations[2], ExampleEquations[3], ExampleEquations[0],
      ExampleEquations[6], ExampleEquations[1], ExampleEquations[5], ExampleEquations[8],
      ExampleEquations[4], ExampleEquations[7]]
  {
  }

  /** Which example equations can be made true. */
  lemma ExampleSolvable0()
    ensures Solvable(Equation(190, 10, [19]))
  {
  }

  lemma ExampleSolvable1()
    ensures Solvable(Equation(3267, 81, [40, 27]))
  {
  }

  lemma ExampleSolvable2()
    ensures !Solvable(Equation(83, 17, [5]))
  {
  }

  lemma ExampleSolvable3()
    ensures !Solvable(Equation(156, 15, [6]))
  {
  }

  lemma ExampleSolvable4()
    ensures !Solvable(Equation(7290, 6, [8, 6, 15]))
  {
  }

  lemma ExampleSolvable5()
    ensures !Solvable(Equation(161011, 16, [10, 13]))
  {
  }

  lemma ExampleSolvable6()
    ensures !Solvable(Equation(192, 17, [8, 14]))
  {
  }

  lemma ExampleSolvable7()
    ensures !Solvable(Equation(21037, 9, [7, 18, 13]))
  {
  }

  lemma ExampleSolvable8()
    ensures Solvable(Equation(292, 11, [6, 16, 20]))
  {
  }

  lemma ExampleCalibrationTotal()
    ensures CalibrationTotal(ExampleEquations) == 3749
  {
    ExampleSolvable0();
    ExampleSolvable1();
    ExampleSolvable2();
    ExampleSolvable3();
    ExampleSolvable4();
    ExampleSolvable5();
    ExampleSolvable6();
    ExampleSolvable7();
    ExampleSolvable8();
  }
}
