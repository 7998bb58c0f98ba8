/** The worked examples for Day 11: single blinks, the row 125 17 blinked six
    times, and the count that follows from it. */
module Day11Examples {
  import opened Common
  import opened Day11

  lemma Pow10Values()
    ensures Pow10(0) == 1 && Pow10(1) == 10 && Pow10(2) == 100 && Pow10(3) == 1000
    ensures Pow10(4) == 10000 && Pow10(5) == 100000 && Pow10(6) == 1000000
    ensures Pow10(7) == 10000000
  {
    assert Pow10(1) == 10;
    assert Pow10(2) == 100;
    assert Pow10(3) == 1000;
    assert Pow10(4) == 10000;
    assert Pow10(5) == 100000;
    assert Pow10(6) == 1000000;
  }

  lemma Stone0(stone: nat)
    requires stone == 0
    ensures BlinkStone(stone) == [1]
  {
  }

  lemma Stone1(stone: nat)
    requires stone == 1
    ensures BlinkStone(stone) == [2024]
  {
    Pow10Values();
    DigitCount(stone, 1);
  }

  lemma Stone2(stone: nat)
    requires stone == 2
    ensures BlinkStone(stone) == [4048]
  {
    Pow10Values();
    DigitCount(stone, 1);
  }

  lemma Stone4(stone: nat)
    requires stone == 4
    ensures BlinkStone(stone) == [8096]
  {
    Pow10Values();
    DigitCount(stone, 1);
  }

  lemma Stone7(stone: nat)
    requires stone == 7
    ensures BlinkStone(stone) == [14168]
  {
    Pow10Values();
    DigitCount(stone, 1);
  }

  lemma Stone10(stone: nat)
    requires stone == 10
    ensures BlinkStone(stone) == [1, 0]
  {
    Pow10Values();
    DigitCount(stone, 2);
  }

  lemma Stone17(stone: nat)
    requires stone == 17
    ensures BlinkStone(stone) == [1, 7]
  {
    Pow10Values();
    DigitCount(stone, 2);
  }

  lemma Stone20(stone: nat)
    requires stone == 20
    ensures BlinkStone(stone) == [2, 0]
  {
    Pow10Values();
    DigitCount(stone, 2);
  }

  lemma Stone24(stone: nat)
    requires stone == 24
    ensures BlinkStone(stone) == [2, 4]
  {
    Pow10Values();
    DigitCount(stone, 2);
  }

  lemma Stone28(stone: nat)
    requires stone == 28
    ensures BlinkStone(stone) == [2, 8]
  {
    Pow10Values();
    DigitCount(stone, 2);
  }

  lemma Stone32(stone: nat)
    requires stone == 32
    ensures BlinkStone(stone) == [3, 2]
  {
    Pow10Values();
    DigitCount(stone, 2);
  }

  lemma Stone60(stone: nat)
    requires stone == 60
    ensures BlinkStone(stone) == [6, 0]
  {
    Pow10Values();
    DigitCount(stone, 2);
  }

  lemma Stone67(stone: nat)
    requires stone == 67
    ensures BlinkStone(stone) == [6, 7]
  {
    Pow10Values();
    DigitCount(stone, 2);
  }

  lemma Stone72(stone: nat)
    requires stone == 72
    ensures BlinkStone(stone) == [7, 2]
  {
    Pow10Values();
    DigitCount(stone, 2);
  }

  lemma Stone99(stone: nat)
    requires stone == 99
    ensures BlinkStone(stone) == [9, 9]
  {
    Pow10Values();
    DigitCount(stone, 2);
  }

  lemma Stone125(stone: nat)
    requires stone == 125
    ensures BlinkStone(stone) == [253000]
  {
    Pow10Values();
    DigitCount(stone, 3);
  }

  lemma Stone253(stone: nat)
    requires stone == 253
    ensures BlinkStone(stone) == [512072]
  {
    Pow10Values();
    DigitCount(stone, 3);
  }

  lemma Stone512(stone: nat)
    requires stone == 512
    ensures BlinkStone(stone) == [1036288]
  {
    Pow10Values();
    DigitCount(stone, 3);
  }

  lemma Stone999(stone: nat)
    requires stone == 999
    ensures BlinkStone(stone) == [2021976]
  {
    Pow10Values();
    DigitCount(stone, 3);
  }

  lemma Stone2024(stone: nat)
    requires stone == 2024
    ensures BlinkStone(stone) == [20, 24]
  {
    Pow10Values();
    DigitCount(stone, 4);
  }

  lemma Stone2867(stone: nat)
    requires stone == 2867
    ensures BlinkStone(stone) == [28, 67]
  {
    Pow10Values();
    DigitCount(stone, 4);
  }

  lemma Stone4048(stone: nat)
    requires stone == 4048
    ensures BlinkStone(stone) == [40, 48]
  {
    Pow10Values();
    DigitCount(stone, 4);
  }

  lemma Stone6032(stone: nat)
    requires stone == 6032
    ensures BlinkStone(stone) == [60, 32]
  {
    Pow10Values();
    DigitCount(stone, 4);
  }

  lemma Stone8096(stone: nat)
    requires stone == 8096
    ensures BlinkStone(stone) == [80, 96]
  {
    Pow10Values();
    DigitCount(stone, 4);
  }

  lemma Stone14168(stone: nat)
    requires stone == 14168
    ensures BlinkStone(stone) == [28676032]
  {
    Pow10Values();
    DigitCount(stone, 5);
  }

  lemma Stone253000(stone: nat)
    requires stone == 253000
    ensures BlinkStone(stone) == [253, 0]
  {
    Pow10Values();
    DigitCount(stone, 6);
  }

  lemma Stone512072(stone: nat)
    requires stone == 512072
    ensures BlinkStone(stone) == [512, 72]
  {
    Pow10Values();
    DigitCount(stone, 6);
  }

  lemma Stone1036288(stone: nat)
    requires stone == 1036288
    ensures BlinkStone(stone) == [2097446912]
  {
    Pow10Values();
    DigitCount(stone, 7);
  }

  lemma Stone28676032(stone: nat)
    requires stone == 28676032
    ensures BlinkStone(stone) == [2867, 6032]
  {
    Pow10Values();
    DigitCount(stone, 8);
  }

  lemma BlinkMixedPart1Flat()
    ensures [1] + [2024] + [1, 0] == [1, 2024, 1, 0]
  {
  }

  /** Part 1 of the row in BlinkMixed. */
  lemma BlinkMixedPart1(stones: seq<nat>)
    requires stones == [0, 1, 10]
    ensures Blink(stones) == [1, 2024, 1, 0]
  {
    hide *;
    BlinkPrefix(stones, 0);
    Stone0(stones[0]);
    BlinkPrefix(stones, 1);
    Stone1(stones[1]);
    BlinkPrefix(stones, 2);
    Stone10(stones[2]);
    assert stones[..3] == stones;
    assert Blink(stones) == [1] + [2024] + [1, 0];
    BlinkMixedPart1Flat();
  }

  lemma BlinkMixedPart2Flat()
    ensures [9, 9] + [2021976] == [9, 9, 2021976]
  {
  }

  /** Part 2 of the row in BlinkMixed. */
  lemma BlinkMixedPart2(stones: seq<nat>)
    requires stones == [99, 999]
    ensures Blink(stones) == [9, 9, 2021976]
  {
    hide *;
    BlinkPrefix(stones, 0);
    Stone99(stones[0]);
    BlinkPrefix(stones, 1);
    Stone999(stones[1]);
    assert stones[..2] == stones;
    assert Blink(stones) == [9, 9] + [2021976];
    BlinkMixedPart2Flat();
  }

  lemma BlinkMixedSplit()
    ensures [0, 1, 10, 99, 999] == [0, 1, 10] + [99, 999]
  {
  }

  lemma BlinkMixedFlat()
    ensures [1, 2024, 1, 0] + [9, 9, 2021976] == [1, 2024, 1, 0, 9, 9, 2021976]
  {
  }

  /** Zero, odd-length, and even-length stones in one row. */
  lemma BlinkMixed(stones: seq<nat>)
    requires stones == [0, 1, 10, 99, 999]
    ensures Blink(stones) == [1, 2024, 1, 0, 9, 9, 2021976]
  {
    hide *;
    BlinkMixedSplit();
    BlinkMixedPart1([0, 1, 10]);
    BlinkMixedPart2([99, 999]);
    BlinkAppend([0, 1, 10], [99, 999]);
    BlinkMixedFlat();
  }

  lemma BlinkStep1Flat()
    ensures [253000] + [1, 7] == [253000, 1, 7]
  {
  }

  /** Blink number 1 from the row 125 17. */
  lemma BlinkStep1(stones: seq<nat>)
    requires stones == [125, 17]
    ensures Blink(stones) == [253000, 1, 7]
  {
    hide *;
    BlinkPrefix(stones, 0);
    Stone125(stones[0]);
    BlinkPrefix(stones, 1);
    Stone17(stones[1]);
    assert stones[..2] == stones;
    assert Blink(stones) == [253000] + [1, 7];
    BlinkStep1Flat();
  }

  lemma BlinkStep2Flat()
    ensures [253, 0] + [2024] + [14168] == [253, 0, 2024, 14168]
  {
  }

  /** Blink number 2 from the row 125 17. */
  lemma BlinkStep2(stones: seq<nat>)
    requires stones == [253000, 1, 7]
    ensures Blink(stones) == [253, 0, 2024, 14168]
  {
    hide *;
    BlinkPrefix(stones, 0);
    Stone253000(stones[0]);
    BlinkPrefix(stones, 1);
    Stone1(stones[1]);
    BlinkPrefix(stones, 2);
    Stone7(stones[2]);
    assert stones[..3] == stones;
    assert Blink(stones) == [253, 0] + [2024] + [14168];
    BlinkStep2Flat();
  }

  lemma BlinkStep3Flat()
    ensures [512072] + [1] + [20, 24] + [28676032] == [512072, 1, 20, 24, 28676032]
  {
  }

  /** Blink number 3 from the row 125 17. */
  lemma BlinkStep3(stones: seq<nat>)
    requires stones == [253, 0, 2024, 14168]
    ensures Blink(stones) == [512072, 1, 20, 24, 28676032]
  {
    hide *;
    BlinkPrefix(stones, 0);
    Stone253(stones[0]);
    BlinkPrefix(stones, 1);
    Stone0(stones[1]);
    BlinkPrefix(stones, 2);
    Stone2024(stones[2]);
    BlinkPrefix(stones, 3);
    Stone14168(stones[3]);
    assert stones[..4] == stones;
    assert Blink(stones) == [512072] + [1] + [20, 24] + [28676032];
    BlinkStep3Flat();
  }

  lemma BlinkStep4Part1Flat()
    ensures [512, 72] + [2024] + [2, 0] == [512, 72, 2024, 2, 0]
  {
  }

  /** Part 1 of the row in BlinkStep4. */
  lemma BlinkStep4Part1(stones: seq<nat>)
    requires stones == [512072, 1, 20]
    ensures Blink(stones) == [512, 72, 2024, 2, 0]
  {
    hide *;
    BlinkPrefix(stones, 0);
    Stone512072(stones[0]);
    BlinkPrefix(stones, 1);
    Stone1(stones[1]);
    BlinkPrefix(stones, 2);
    Stone20(stones[2]);
    assert stones[..3] == stones;
    assert Blink(stones) == [512, 72] + [2024] + [2, 0];
    BlinkStep4Part1Flat();
  }

  lemma BlinkStep4Part2Flat()
    ensures [2, 4] + [2867, 6032] == [2, 4, 2867, 6032]
  {
  }

  /** Part 2 of the row in BlinkStep4. */
  lemma BlinkStep4Part2(stones: seq<nat>)
    requires stones == [24, 28676032]
    ensures Blink(stones) == [2, 4, 2867, 6032]
  {
    hide *;
    BlinkPrefix(stones, 0);
    Stone24(stones[0]);
    BlinkPrefix(stones, 1);
    Stone28676032(stones[1]);
    assert stones[..2] == stones;
    assert Blink(stones) == [2, 4] + [2867, 6032];
    BlinkStep4Part2Flat();
  }

  lemma BlinkStep4Split()
    ensures [512072, 1, 20, 24, 28676032] == [512072, 1, 20] + [24, 28676032]
  {
  }

  lemma BlinkStep4Flat()
    ensures [512, 72, 2024, 2, 0] + [2, 4, 2867, 6032] == [512, 72, 2024, 2, 0, 2, 4, 2867, 6032]
  {
  }

  /** Blink number 4 from the row 125 17. */
  lemma BlinkStep4(stones: seq<nat>)
    requires stones == [512072, 1, 20, 24, 28676032]
    ensures Blink(stones) == [512, 72, 2024, 2, 0, 2, 4, 2867, 6032]
  {
    hide *;
    BlinkStep4Split();
    BlinkStep4Part1([512072, 1, 20]);
    BlinkStep4Part2([24, 28676032]);
    BlinkAppend([512072, 1, 20], [24, 28676032]);
    BlinkStep4Flat();
  }

  lemma BlinkStep5Part1Flat()
    ensures [1036288] + [7, 2] + [20, 24] == [1036288, 7, 2, 20, 24]
  {
  }

  /** Part 1 of the row in BlinkStep5. */
  lemma BlinkStep5Part1(stones: seq<nat>)
    requires stones == [512, 72, 2024]
    ensures Blink(stones) == [1036288, 7, 2, 20, 24]
  {
    hide *;
    BlinkPrefix(stones, 0);
    Stone512(stones[0]);
    BlinkPrefix(stones, 1);
    Stone72(stones[1]);
    BlinkPrefix(stones, 2);
    Stone2024(stones[2]);
    assert stones[..3] == stones;
    assert Blink(stones) == [1036288] + [7, 2] + [20, 24];
    BlinkStep5Part1Flat();
  }

  lemma BlinkStep5Part2Flat()
    ensures [4048] + [1] + [4048] == [4048, 1, 4048]
  {
  }

  /** Part 2 of the row in BlinkStep5. */
  lemma BlinkStep5Part2(stones: seq<nat>)
    requires stones == [2, 0, 2]
    ensures Blink(stones) == [4048, 1, 4048]
  {
    hide *;
    BlinkPrefix(stones, 0);
    Stone2(stones[0]);
    BlinkPrefix(stones, 1);
    Stone0(stones[1]);
    BlinkPrefix(stones, 2);
    Stone2(stones[2]);
    assert stones[..3] == stones;
    assert Blink(stones) == [4048] + [1] + [4048];
    BlinkStep5Part2Flat();
  }

  lemma BlinkStep5Part3Flat()
    ensures [8096] + [28, 67] + [60, 32] == [8096, 28, 67, 60, 32]
  {
  }

  /** Part 3 of the row in BlinkStep5. */
  lemma BlinkStep5Part3(stones: seq<nat>)
    requires stones == [4, 2867, 6032]
    ensures Blink(stones) == [8096, 28, 67, 60, 32]
  {
    hide *;
    BlinkPrefix(stones, 0);
    Stone4(stones[0]);
    BlinkPrefix(stones, 1);
    Stone2867(stones[1]);
    BlinkPrefix(stones, 2);
    Stone6032(stones[2]);
    assert stones[..3] == stones;
    assert Blink(stones) == [8096] + [28, 67] + [60, 32];
    BlinkStep5Part3Flat();
  }

  lemma BlinkStep5Split()
    ensures [512, 72, 2024, 2, 0, 2, 4, 2867, 6032] == [512, 72, 2024] + [2, 0, 2] + [4, 2867, 6032]
  {
  }

  lemma BlinkStep5Flat()
    ensures [1036288, 7, 2, 20, 24] + [4048, 1, 4048] + [8096, 28, 67, 60, 32] == [1036288, 7, 2, 20, 24, 4048, 1, 4048, 8096, 28, 67, 60, 32]
  {
  }

  /** Blink number 5 from the row 125 17. */
  lemma BlinkStep5(stones: seq<nat>)
    requires stones == [512, 72, 2024, 2, 0, 2, 4, 2867, 6032]
    ensures Blink(stones) == [1036288, 7, 2, 20, 24, 4048, 1, 4048, 8096, 28, 67, 60, 32]
  {
    hide *;
    BlinkStep5Split();
    BlinkStep5Part1([512, 72, 2024]);
    BlinkStep5Part2([2, 0, 2]);
    BlinkStep5Part3([4, 2867, 6032]);
    BlinkAppend([512, 72, 2024], [2, 0, 2]);
    BlinkAppend([512, 72, 2024] + [2, 0, 2], [4, 2867, 6032]);
    BlinkStep5Flat();
  }

  lemma BlinkStep6Part1Flat()
    ensures [2097446912] + [14168] + [4048] == [2097446912, 14168, 4048]
  {
  }

  /** Part 1 of the row in BlinkStep6. */
  lemma BlinkStep6Part1(stones: seq<nat>)
    requires stones == [1036288, 7, 2]
    ensures Blink(stones) == [2097446912, 14168, 4048]
  {
    hide *;
    BlinkPrefix(stones, 0);
    Stone1036288(stones[0]);
    BlinkPrefix(stones, 1);
    Stone7(stones[1]);
    BlinkPrefix(stones, 2);
    Stone2(stones[2]);
    assert stones[..3] == stones;
    assert Blink(stones) == [2097446912] + [14168] + [4048];
    BlinkStep6Part1Flat();
  }

  lemma BlinkStep6Part2Flat()
    ensures [2, 0] + [2, 4] + [40, 48] == [2, 0, 2, 4, 40, 48]
  {
  }

  /** Part 2 of the row in BlinkStep6. */
  lemma BlinkStep6Part2(stones: seq<nat>)
    requires stones == [20, 24, 4048]
    ensures Blink(stones) == [2, 0, 2, 4, 40, 48]
  {
    hide *;
    BlinkPrefix(stones, 0);
    Stone20(stones[0]);
    BlinkPrefix(stones, 1);
    Stone24(stones[1]);
    BlinkPrefix(stones, 2);
    Stone4048(stones[2]);
    assert stones[..3] == stones;
    assert Blink(stones) == [2, 0] + [2, 4] + [40, 48];
    BlinkStep6Part2Flat();
  }

  lemma BlinkStep6Part3Flat()
    ensures [2024] + [40, 48] + [80, 96] == [2024, 40, 48, 80, 96]
  {
  }

  /** Part 3 of the row in BlinkStep6. */
  lemma BlinkStep6Part3(stones: seq<nat>)
    requires stones == [1, 4048, 8096]
    ensures Blink(stones) == [2024, 40, 48, 80, 96]
  {
    hide *;
    BlinkPrefix(stones, 0);
    Stone1(stones[0]);
    BlinkPrefix(stones, 1);
    Stone4048(stones[1]);
    BlinkPrefix(stones, 2);
    Stone8096(stones[2]);
    assert stones[..3] == stones;
    assert Blink(stones) == [2024] + [40, 48] + [80, 96];
    BlinkStep6Part3Flat();
  }

  lemma BlinkStep6Part4Flat()
    ensures [2, 8] + [6, 7] + [6, 0] + [3, 2] == [2, 8, 6, 7, 6, 0, 3, 2]
  {
  }

  /** Part 4 of the row in BlinkStep6. */
  lemma BlinkStep6Part4(stones: seq<nat>)
    requires stones == [28, 67, 60, 32]
    ensures Blink(stones) == [2, 8, 6, 7, 6, 0, 3, 2]
  {
    hide *;
    BlinkPrefix(stones, 0);
    Stone28(stones[0]);
    BlinkPrefix(stones, 1);
    Stone67(stones[1]);
    BlinkPrefix(stones, 2);
    Stone60(stones[2]);
    BlinkPrefix(stones, 3);
    Stone32(stones[3]);
    assert stones[..4] == stones;
    assert Blink(stones) == [2, 8] + [6, 7] + [6, 0] + [3, 2];
    BlinkStep6Part4Flat();
  }

  lemma BlinkStep6Split()
    ensures [1036288, 7, 2, 20, 24, 4048, 1, 4048, 8096, 28, 67, 60, 32] == [1036288, 7, 2] + [20, 24, 4048] + [1, 4048, 8096] + [28, 67, 60, 32]
  {
  }

  lemma BlinkStep6Flat()
    ensures [2097446912, 14168, 4048] + [2, 0, 2, 4, 40, 48] + [2024, 40, 48, 80, 96] + [2, 8, 6, 7, 6, 0, 3, 2] == [2097446912, 14168, 4048, 2, 0, 2, 4, 40, 48, 2024, 40, 48, 80, 96, 2, 8, 6, 7, 6, 0, 3, 2]
  {
  }

  /** Blink number 6 from the row 125 17. */
  lemma BlinkStep6(stones: seq<nat>)
    requires stones == [1036288, 7, 2, 20, 24, 4048, 1, 4048, 8096, 28, 67, 60, 32]
    ensures Blink(stones) == [2097446912, 14168, 4048, 2, 0, 2, 4, 40, 48, 2024, 40, 48, 80, 96, 2, 8, 6, 7, 6, 0, 3, 2]
  {
    hide *;
    BlinkStep6Split();
    BlinkStep6Part1([1036288, 7, 2]);
    BlinkStep6Part2([20, 24, 4048]);
    BlinkStep6Part3([1, 4048, 8096]);
    BlinkStep6Part4([28, 67, 60, 32]);
    BlinkAppend([1036288, 7, 2], [20, 24, 4048]);
    BlinkAppend([1036288, 7, 2] + [20, 24, 4048], [1, 4048, 8096]);
    BlinkAppend([1036288, 7, 2] + [20, 24, 4048] + [1, 4048, 8096], [28, 67, 60, 32]);
    BlinkStep6Flat();
  }

  /** Six blinks of 125 17 leave 22 stones, and counting stone by stone
      agrees. */
  lemma CountSixBlinks(stones: seq<nat>)
    requires stones == [125, 17]
    ensures |BlinkTimes(stones, 6)| == 22
    ensures CountAll(stones, 6) == 22
  {
    var r1 := Blink(stones);
    BlinkStep1(stones);
    var r2 := Blink(r1);
    BlinkStep2(r1);
    var r3 := Blink(r2);
    BlinkStep3(r2);
    var r4 := Blink(r3);
    BlinkStep4(r3);
    var r5 := Blink(r4);
    BlinkStep5(r4);
    var r6 := Blink(r5);
    BlinkStep6(r5);
    assert BlinkTimes(r5, 1) == BlinkTimes(r6, 0) == r6;
    assert BlinkTimes(r4, 2) == BlinkTimes(r5, 1);
    assert BlinkTimes(r3, 3) == BlinkTimes(r4, 2);
    assert BlinkTimes(r2, 4) == BlinkTimes(r3, 3);
    assert BlinkTimes(r1, 5) == BlinkTimes(r2, 4);
    assert BlinkTimes(stones, 6) == BlinkTimes(r1, 5);
    CountAllIsLength(stones, 6);
  }
}
