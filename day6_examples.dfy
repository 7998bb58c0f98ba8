/** The worked example of day 6. */
module Day6Examples {
  import opened Common
  import opened Day6

  const ExampleLab: Layout := Layout(10, 10, {(0, 4), (1, 9), (3, 2), (4, 7), (6, 1), (7, 8), (8, 0), (9, 6)})

  lemma ExampleSteps()
    ensures TakeStep(Guard(6, 4, Up), ExampleLab) == Some(Guard(5, 4, Up))
    ensures TakeStep(Guard(1, 4, Up), ExampleLab) == Some(Guard(1, 4, Right))
    ensures TakeStep(Guard(1, 4, Right), ExampleLab) == Some(Guard(1, 5, Right))
    ensures TakeStep(Guard(1, 8, Right), ExampleLab) == Some(Guard(1, 8, Down))
    ensures TakeStep(Guard(1, 8, Down), ExampleLab) == Some(Guard(2, 8, Down))
    ensures TakeStep(Guard(6, 8, Down), ExampleLab) == Some(Guard(6, 8, Left))
    ensures TakeStep(Guard(6, 8, Left), ExampleLab) == Some(Guard(6, 7, Left))
    ensures TakeStep(Guard(6, 2, Left), ExampleLab) == Some(Guard(6, 2, Up))
    ensures TakeStep(Guard(0, 0, Up), ExampleLab) == None
    ensures TakeStep(Guard(9, 9, Right), ExampleLab) == None
    ensures TakeStep(Guard(9, 9, Down), ExampleLab) == None
    ensures TakeStep(Guard(0, 0, Left), ExampleLab) == None
  {
  }
}
