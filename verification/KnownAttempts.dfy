/** Attempts computed draw by draw, for the seeds that the counterexamples name. */
module KnownAttempts {
  import opened Bits
  import opened JavaRandom
  import opened Remainders
  import opened StructurePositions
  import opened Words

  /** One draw with its quotients: multiplication and division of known numbers. */
  lemma DrawExact(state: nat, next: nat, range: nat, draw: nat, wraps: nat, quotient: nat, rest: nat)
    requires state * MULTIPLIER + INCREMENT == wraps * TWO48 + next && next < TWO48
    requires next == (quotient * range + draw) * 0x2_0000 + rest && rest < 0x2_0000 && draw < range
    ensures Step(state) == next && next / 0x2_0000 % range == draw
  {
    ModUnique(wraps, next, TWO48);
    ModUnique(quotient * range + draw, rest, 0x2_0000);
    ModUnique(quotient, draw, range);
  }

  lemma NotPowers()
    ensures !PowerOfTwo(12) && !PowerOfTwo(20) && !PowerOfTwo(24)
  {
    assert !PowerOfTwo(3) && !PowerOfTwo(5);
    assert !PowerOfTwo(6) && !PowerOfTwo(10);
    assert !PowerOfTwo(12);
  }

  // ----- desert pyramids around region (0, 0) of seed 2005390828

  lemma Pyramid00Mixed()
    ensures Xor(2019748445, MULTIPLIER) == 24269163568
  {
    hide Xor;
    XorNothing();
    XorByte(0x0, 0x0, 0, 0, 0, 5);
    assert Xor(0x0, 0x5) == 0x5;
    XorByte(0x0, 0x5, 7, 8, 13, 14);
    assert Xor(0x78, 0x5de) == 0x5a6;
    XorByte(0x78, 0x5de, 6, 2, 14, 12);
    assert Xor(0x7862, 0x5deec) == 0x5a68e;
    XorByte(0x7862, 0x5deec, 14, 10, 14, 6);
    assert Xor(0x7862ea, 0x5deece6) == 0x5a68e0c;
    XorByte(0x7862ea, 0x5deece6, 5, 13, 6, 13);
  }

  lemma Pyramid00()
    ensures Attempt(2019748445, 24) == Chunk(23, 21)
  {
    hide Xor, Attempt, Step, PowerOfTwo;
    Pyramid00Mixed();
    DrawExact(24269163568, 13745601269883, 24, 23, 2174064, 4369608, 20603);
    DrawExact(13745601269883, 42785439401578, 24, 21, 1231349299, 13601124, 50794);
    NotPowers();
    AttemptIs(2019748445, 24269163568, 13745601269883, 42785439401578, 24);
  }

  lemma Pyramid11Mixed()
    ensures Xor(476790864698, MULTIPLIER) == 458959609175
  {
    hide Xor;
    XorNothing();
    XorByte(0x0, 0x0, 6, 15, 0, 5);
    assert Xor(0x6f, 0x5) == 0x6a;
    XorByte(0x6f, 0x5, 0, 2, 13, 14);
    assert Xor(0x6f02, 0x5de) == 0x6adc;
    XorByte(0x6f02, 0x5de, 15, 3, 14, 12);
    assert Xor(0x6f02f3, 0x5deec) == 0x6adc1f;
    XorByte(0x6f02f3, 0x5deec, 3, 11, 14, 6);
    assert Xor(0x6f02f33b, 0x5deece6) == 0x6adc1fdd;
    XorByte(0x6f02f33b, 0x5deece6, 3, 10, 6, 13);
  }

  lemma Pyramid11()
    ensures Attempt(476790864698, 24) == Chunk(0, 2)
  {
    hide Xor, Attempt, Step, PowerOfTwo;
    Pyramid11Mixed();
    DrawExact(458959609175, 19004569774102, 24, 0, 41114214, 6041390, 92182);
    DrawExact(19004569774102, 145282780435817, 24, 2, 1702454713, 46184152, 71017);
    NotPowers();
    AttemptIs(476790864698, 458959609175, 19004569774102, 145282780435817, 24);
  }

  lemma Pyramid10Mixed()
    ensures Xor(343892877157, MULTIPLIER) == 368552458504
  {
    hide Xor;
    XorNothing();
    XorByte(0x0, 0x0, 5, 0, 0, 5);
    assert Xor(0x50, 0x5) == 0x55;
    XorByte(0x50, 0x5, 1, 1, 13, 14);
    assert Xor(0x5011, 0x5de) == 0x55cf;
    XorByte(0x5011, 0x5de, 9, 12, 14, 12);
    assert Xor(0x50119c, 0x5deec) == 0x55cf70;
    XorByte(0x50119c, 0x5deec, 13, 15, 14, 6);
    assert Xor(0x50119cdf, 0x5deece6) == 0x55cf7039;
    XorByte(0x50119cdf, 0x5deece6, 6, 5, 6, 13);
  }

  lemma Pyramid10()
    ensures Attempt(343892877157, 24) == Chunk(2, 23)
  {
    hide Xor, Attempt, Step, PowerOfTwo;
    Pyramid10Mixed();
    DrawExact(368552458504, 253959963244659, 24, 2, 33015420, 80731698, 96371);
    DrawExact(253959963244659, 44788161157890, 24, 23, 22750072304, 14237772, 105218);
    NotPowers();
    AttemptIs(343892877157, 368552458504, 253959963244659, 44788161157890, 24);
  }

  lemma Pyramid01Mixed()
    ensures Xor(134917735986, MULTIPLIER) == 114744991839
  {
    hide Xor;
    XorNothing();
    XorByte(0x0, 0x0, 1, 15, 0, 5);
    assert Xor(0x1f, 0x5) == 0x1a;
    XorByte(0x1f, 0x5, 6, 9, 13, 14);
    assert Xor(0x1f69, 0x5de) == 0x1ab7;
    XorByte(0x1f69, 0x5de, 11, 9, 14, 12);
    assert Xor(0x1f69b9, 0x5deec) == 0x1ab755;
    XorByte(0x1f69b9, 0x5deec, 4, 6, 14, 6);
    assert Xor(0x1f69b946, 0x5deece6) == 0x1ab755a0;
    XorByte(0x1f69b946, 0x5deece6, 3, 2, 6, 13);
  }

  lemma Pyramid01()
    ensures Attempt(134917735986, 24) == Chunk(23, 0)
  {
    hide Xor, Attempt, Step, PowerOfTwo;
    Pyramid01Mixed();
    DrawExact(114744991839, 125293710713470, 24, 23, 10279009, 39829797, 41598);
    DrawExact(125293710713470, 136468528915377, 24, 0, 11223977754, 43382177, 25521);
    NotPowers();
    AttemptIs(134917735986, 114744991839, 125293710713470, 136468528915377, 24);
  }

  // ----- ocean ruins in seven regions of seed 1424313348772

  lemma Ruin1Mixed()
    ensures Xor(132912345175, MULTIPLIER) == 116716836410
  {
    hide Xor;
    XorNothing();
    XorByte(0x0, 0x0, 1, 14, 0, 5);
    assert Xor(0x1e, 0x5) == 0x1b;
    XorByte(0x1e, 0x5, 15, 2, 13, 14);
    assert Xor(0x1ef2, 0x5de) == 0x1b2c;
    XorByte(0x1ef2, 0x5de, 3, 1, 14, 12);
    assert Xor(0x1ef231, 0x5deec) == 0x1b2cdd;
    XorByte(0x1ef231, 0x5deec, 7, 0, 14, 6);
    assert Xor(0x1ef23170, 0x5deece6) == 0x1b2cdd96;
    XorByte(0x1ef23170, 0x5deece6, 5, 7, 6, 13);
  }

  lemma Ruin1()
    ensures Attempt(132912345175, 12) == Chunk(4, 11)
  {
    hide Xor, Attempt, Step, PowerOfTwo;
    Ruin1Mixed();
    DrawExact(116716836410, 256804563522237, 12, 4, 10455649, 163271944, 70333);
    DrawExact(256804563522237, 247526492915844, 12, 11, 23004895391, 157373105, 51332);
    NotPowers();
    AttemptIs(132912345175, 116716836410, 256804563522237, 247526492915844, 12);
  }

  lemma Ruin2Mixed()
    ensures Xor(531606307798, MULTIPLIER) == 541582714299
  {
    hide Xor;
    XorNothing();
    XorByte(0x0, 0x0, 7, 11, 0, 5);
    assert Xor(0x7b, 0x5) == 0x7e;
    XorByte(0x7b, 0x5, 12, 6, 13, 14);
    assert Xor(0x7bc6, 0x5de) == 0x7e18;
    XorByte(0x7bc6, 0x5de, 3, 4, 14, 12);
    assert Xor(0x7bc634, 0x5deec) == 0x7e18d8;
    XorByte(0x7bc634, 0x5deec, 8, 3, 14, 6);
    assert Xor(0x7bc63483, 0x5deece6) == 0x7e18d865;
    XorByte(0x7bc63483, 0x5deece6, 13, 6, 6, 13);
  }

  lemma Ruin2()
    ensures Attempt(531606307798, 12) == Chunk(10, 0)
  {
    hide Xor, Attempt, Step, PowerOfTwo;
    Ruin2Mixed();
    DrawExact(541582714299, 13606220288682, 12, 10, 48515702, 8650601, 86698);
    DrawExact(13606220288682, 257280805760621, 12, 0, 1218863364, 163574731, 61037);
    NotPowers();
    AttemptIs(531606307798, 541582714299, 13606220288682, 257280805760621, 12);
  }

  lemma Ruin3Mixed()
    ensures Xor(1006377424051, MULTIPLIER) == 1028882182878
  {
    hide Xor;
    XorNothing();
    XorByte(0x0, 0x0, 14, 10, 0, 5);
    assert Xor(0xea, 0x5) == 0xef;
    XorByte(0xea, 0x5, 5, 0, 13, 14);
    assert Xor(0xea50, 0x5de) == 0xef8e;
    XorByte(0xea50, 0x5de, 12, 4, 14, 12);
    assert Xor(0xea50c4, 0x5deec) == 0xef8e28;
    XorByte(0xea50c4, 0x5deec, 13, 4, 14, 6);
    assert Xor(0xea50c4d4, 0x5deece6) == 0xef8e2832;
    XorByte(0xea50c4d4, 0x5deece6, 11, 3, 6, 13);
  }

  lemma Ruin3()
    ensures Attempt(1006377424051, 12) == Chunk(8, 11)
  {
    hide Xor, Attempt, Step, PowerOfTwo;
    Ruin3Mixed();
    DrawExact(1028882182878, 148679108926609, 12, 8, 92168638, 94527631, 72849);
    DrawExact(148679108926609, 236011135659976, 12, 11, 13318872923, 150051838, 94152);
    NotPowers();
    AttemptIs(1006377424051, 1028882182878, 148679108926609, 236011135659976, 12);
  }

  lemma Ruin4Mixed()
    ensures Xor(1823021669016, MULTIPLIER) == 1845399649525
  {
    hide Xor;
    XorNothing();
    XorByte(0x0, 0x0, 0, 1, 0, 0);
    assert Xor(0x1, 0x0) == 0x1;
    XorByte(0x1, 0x0, 10, 8, 0, 5);
    assert Xor(0x1a8, 0x5) == 0x1ad;
    XorByte(0x1a8, 0x5, 7, 4, 13, 14);
    assert Xor(0x1a874, 0x5de) == 0x1adaa;
    XorByte(0x1a874, 0x5de, 8, 15, 14, 12);
    assert Xor(0x1a8748f, 0x5deec) == 0x1adaa63;
    XorByte(0x1a8748f, 0x5deec, 1, 10, 14, 6);
    assert Xor(0x1a8748f1a, 0x5deece6) == 0x1adaa63fc;
    XorByte(0x1a8748f1a, 0x5deece6, 9, 8, 6, 13);
  }

  lemma Ruin4()
    ensures Attempt(1823021669016, 12) == Chunk(5, 1)
  {
    hide Xor, Attempt, Step, PowerOfTwo;
    Ruin4Mixed();
    DrawExact(1845399649525, 132328105103964, 12, 5, 165313362, 84131943, 53852);
    DrawExact(132328105103964, 72698746255671, 12, 1, 11854128188, 46220618, 14647);
    NotPowers();
    AttemptIs(1823021669016, 1845399649525, 132328105103964, 72698746255671, 12);
  }

  lemma Ruin5Mixed()
    ensures Xor(1367506872482, MULTIPLIER) == 1356055056079
  {
    hide Xor;
    XorNothing();
    XorByte(0x0, 0x0, 0, 1, 0, 0);
    assert Xor(0x1, 0x0) == 0x1;
    XorByte(0x1, 0x0, 3, 14, 0, 5);
    assert Xor(0x13e, 0x5) == 0x13b;
    XorByte(0x13e, 0x5, 6, 5, 13, 14);
    assert Xor(0x13e65, 0x5de) == 0x13bbb;
    XorByte(0x13e65, 0x5de, 12, 2, 14, 12);
    assert Xor(0x13e65c2, 0x5deec) == 0x13bbb2e;
    XorByte(0x13e65c2, 0x5deec, 14, 8, 14, 6);
    assert Xor(0x13e65c2e8, 0x5deece6) == 0x13bbb2e0e;
    XorByte(0x13e65c2e8, 0x5deece6, 10, 2, 6, 13);
  }

  lemma Ruin5()
    ensures Attempt(1367506872482, 12) == Chunk(3, 3)
  {
    hide Xor, Attempt, Step, PowerOfTwo;
    Ruin5Mixed();
    DrawExact(1356055056079, 274818796505134, 12, 3, 121477220, 174725085, 18478);
    DrawExact(274818796505134, 133724885094305, 12, 3, 24618634414, 85019992, 4001);
    NotPowers();
    AttemptIs(1367506872482, 1356055056079, 274818796505134, 133724885094305, 12);
  }

  lemma Ruin6Mixed()
    ensures Xor(1842277988735, MULTIPLIER) == 1826145427218
  {
    hide Xor;
    XorNothing();
    XorByte(0x0, 0x0, 0, 1, 0, 0);
    assert Xor(0x1, 0x0) == 0x1;
    XorByte(0x1, 0x0, 10, 12, 0, 5);
    assert Xor(0x1ac, 0x5) == 0x1a9;
    XorByte(0x1ac, 0x5, 15, 0, 13, 14);
    assert Xor(0x1acf0, 0x5de) == 0x1a92e;
    XorByte(0x1acf0, 0x5de, 5, 3, 14, 12);
    assert Xor(0x1acf053, 0x5deec) == 0x1a92ebf;
    XorByte(0x1acf053, 0x5deec, 3, 9, 14, 6);
    assert Xor(0x1acf05339, 0x5deece6) == 0x1a92ebfdf;
    XorByte(0x1acf05339, 0x5deece6, 7, 15, 6, 13);
  }

  lemma Ruin6()
    ensures Attempt(1842277988735, 12) == Chunk(2, 3)
  {
    hide Xor, Attempt, Step, PowerOfTwo;
    Ruin6Mixed();
    DrawExact(1826145427218, 154715638998709, 12, 2, 163588543, 98365554, 9909);
    DrawExact(154715638998709, 214974091172124, 12, 3, 13859633340, 136676846, 71964);
    NotPowers();
    AttemptIs(1842277988735, 1826145427218, 154715638998709, 214974091172124, 12);
  }

  lemma Ruin7Mixed()
    ensures Xor(2373869938899, MULTIPLIER) == 2394096160446
  {
    hide Xor;
    XorNothing();
    XorByte(0x0, 0x0, 0, 2, 0, 0);
    assert Xor(0x2, 0x0) == 0x2;
    XorByte(0x2, 0x0, 2, 8, 0, 5);
    assert Xor(0x228, 0x5) == 0x22d;
    XorByte(0x228, 0x5, 11, 5, 13, 14);
    assert Xor(0x228b5, 0x5de) == 0x22d6b;
    XorByte(0x228b5, 0x5de, 10, 12, 14, 12);
    assert Xor(0x228b5ac, 0x5deec) == 0x22d6b40;
    XorByte(0x228b5ac, 0x5deec, 10, 8, 14, 6);
    assert Xor(0x228b5aca8, 0x5deece6) == 0x22d6b404e;
    XorByte(0x228b5aca8, 0x5deece6, 13, 3, 6, 13);
  }

  lemma Ruin7()
    ensures Attempt(2373869938899, 12) == Chunk(8, 0)
  {
    hide Xor, Attempt, Step, PowerOfTwo;
    Ruin7Mixed();
    DrawExact(2394096160446, 256159571786481, 12, 8, 214466327, 162861869, 15089);
    DrawExact(256159571786481, 207039768927912, 12, 0, 22947116171, 131632340, 106152);
    NotPowers();
    AttemptIs(2373869938899, 2394096160446, 256159571786481, 207039768927912, 12);
  }
}
