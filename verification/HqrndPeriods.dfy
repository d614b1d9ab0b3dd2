/** Both generators of the high quality random generator (verus/lib/alglib/src/alglibmisc.cpp) run through all their
    seeds: each multiplier's powers are all the remainders but zero. */
module HqrndPeriods {
  import opened ModularPowers

  const M1: int := 2147483563
  const M2: int := 2147483399

  // Half of each period; M1 - 1 == 2 * 3 * 7 * 631 * 81031 and M2 - 1 == 2 * 19 * 31 * 1019 * 1789.
  const HALF1: nat := 1073741781
  const HALF2: nat := 1073741699

  // ---------------------------------------------------------------- powers of the first multiplier

  lemma First42()
    ensures Leaves(40014, 42, 819059838, 2147483563)
  {
    hide Leaves;
    PowerOne(40014, 2147483563);
    Square(40014, 1, 40014, 0, 1601120196, 2147483563);
    Raise(40014, 2, 1601120196, 1, 40014, 47767222646682, 732249858, 2147483563);
    Square(40014, 5, 732249858, 249682867, 1695805043, 2147483563);
    Raise(40014, 10, 1695805043, 1, 40014, 53583856148464, 445508654, 2147483563);
    Square(40014, 21, 445508654, 92423506, 819059838, 2147483563);
  }

  lemma FirstOver81031()
    ensures Leaves(40014, 26502, 1981936858, 2147483563)
  {
    hide Leaves;
    First42();
    Square(40014, 42, 819059838, 312393086, 844740826, 2147483563);
    Square(40014, 84, 844740826, 332289883, 1217469147, 2147483563);
    Raise(40014, 168, 1217469147, 42, 819059838, 565329581625095341, 1823127359, 2147483563);
    Raise(40014, 378, 1823127359, 42, 819059838, 1267709659685300450, 1581345928, 2147483563);
    Raise(40014, 798, 1581345928, 42, 819059838, 953760982676413431, 1348753539, 2147483563);
    Square(40014, 1638, 1348753539, 847101295, 1756510436, 2147483563);
    Raise(40014, 3276, 1756510436, 42, 819059838, 1176758249607478963, 459539279, 2147483563);
    Raise(40014, 6594, 459539279, 42, 819059838, 80543604214479815, 1959624913, 2147483563);
    Raise(40014, 13230, 1959624913, 42, 819059838, 1464642684951024428, 1981936858, 2147483563);
  }

  lemma FirstOver631()
    ensures Leaves(40014, 3403302, 272054228, 2147483563)
  {
    hide Leaves;
    First42();
    Square(40014, 42, 819059838, 312393086, 844740826, 2147483563);
    Square(40014, 84, 844740826, 332289883, 1217469147, 2147483563);
    Raise(40014, 168, 1217469147, 42, 819059838, 565329581625095341, 1823127359, 2147483563);
    Raise(40014, 378, 1823127359, 42, 819059838, 1267709659685300450, 1581345928, 2147483563);
    Raise(40014, 798, 1581345928, 42, 819059838, 953760982676413431, 1348753539, 2147483563);
    Raise(40014, 1638, 1348753539, 42, 819059838, 693826650122231148, 619667274, 2147483563);
    Square(40014, 3318, 619667274, 178808134, 1770889634, 2147483563);
    Square(40014, 6636, 1770889634, 1460337182, 1025914490, 2147483563);
    Raise(40014, 13272, 1025914490, 42, 819059838, 401428414768255542, 579807654, 2147483563);
    Square(40014, 26586, 579807654, 156544581, 1062761613, 2147483563);
    Square(40014, 53172, 1062761613, 525946864, 614965337, 2147483563);
    Square(40014, 106344, 614965337, 176104894, 482666247, 2147483563);
    Square(40014, 212688, 482666247, 108483580, 1087669469, 2147483563);
    Raise(40014, 425376, 1087669469, 42, 819059838, 451210979294602310, 481631788, 2147483563);
    Raise(40014, 850794, 481631788, 42, 819059838, 88474082698455890, 140639002, 2147483563);
    Raise(40014, 1701630, 140639002, 42, 819059838, 7543924521816748, 272054228, 2147483563);
  }

  lemma First51130561()
    ensures Leaves(40014, 51130561, 274035869, 2147483563)
  {
    hide Leaves;
    PowerOne(40014, 2147483563);
    Raise(40014, 1, 40014, 1, 40014, 29833, 1346387765, 2147483563);
    Square(40014, 3, 1346387765, 844132194, 2127568003, 2147483563);
    Square(40014, 6, 2127568003, 2107837138, 53445315, 2147483563);
    Square(40014, 12, 53445315, 1330115, 1596049480, 2147483563);
    Square(40014, 24, 1596049480, 1186213476, 689175412, 2147483563);
    Raise(40014, 48, 689175412, 1, 40014, 8849967350690, 433227946, 2147483563);
    Raise(40014, 97, 433227946, 1, 40014, 3497156331044, 1515315052, 2147483563);
    Square(40014, 195, 1515315052, 1069242040, 1049174184, 2147483563);
    Square(40014, 390, 1049174184, 512584350, 2096026806, 2147483563);
    Square(40014, 780, 2096026806, 2045803025, 2147383561, 2147483563);
    Square(40014, 1560, 2147383561, 2147283563, 1410465752, 2147483563);
    Raise(40014, 3120, 1410465752, 1, 40014, 37068687586282, 189834290, 2147483563);
    Raise(40014, 6241, 189834290, 1, 40014, 671477467881, 93317397, 2147483563);
    Square(40014, 12483, 93317397, 4055042, 540580963, 2147483563);
    Square(40014, 24966, 540580963, 136079168, 1011291785, 2147483563);
    Square(40014, 49932, 1011291785, 476236974, 650627863, 2147483563);
    Square(40014, 99864, 650627863, 197122168, 429022185, 2147483563);
    Raise(40014, 199728, 429022185, 1, 40014, 3429585388346, 2072682352, 2147483563);
    Raise(40014, 399457, 2072682352, 1, 40014, 80047471572448, 324014432, 2147483563);
    Square(40014, 798915, 324014432, 48887616, 350026816, 2147483563);
    Square(40014, 1597830, 350026816, 57052251, 664447543, 2147483563);
    Square(40014, 3195660, 664447543, 205585060, 250368069, 2147483563);
    Square(40014, 6391320, 250368069, 29189592, 944112465, 2147483563);
    Square(40014, 12782640, 944112465, 415066434, 2000351883, 2147483563);
    Raise(40014, 25565280, 2000351883, 1, 40014, 74558114762179, 274035869, 2147483563);
  }

  lemma FirstOver7()
    ensures Leaves(40014, 306783366, 735754574, 2147483563)
  {
    hide Leaves;
    First51130561();
    Raise(40014, 51130561, 274035869, 51130561, 274035869, 9582799195912239, 822112352, 2147483563);
    Square(40014, 153391683, 822112352, 314725910, 735754574, 2147483563);
  }

  lemma FirstOver3()
    ensures Leaves(40014, 715827854, 1135448757, 2147483563)
  {
    hide Leaves;
    First51130561();
    Raise(40014, 51130561, 274035869, 51130561, 274035869, 9582799195912239, 822112352, 2147483563);
    Raise(40014, 153391683, 822112352, 51130561, 274035869, 86246188337553886, 1135448758, 2147483563);
    Square(40014, 357913927, 1135448758, 600350989, 1135448757, 2147483563);
  }

  /** Half way round, the first generator negates. */
  lemma FirstHalfPower()
    ensures Leaves(40014, 1073741781, 2147483562, 2147483563)
  {
    hide Leaves;
    First51130561();
    Square(40014, 51130561, 274035869, 34969141, 1988855778, 2147483563);
    Raise(40014, 102261122, 1988855778, 51130561, 274035869, 504759087314941905, 1396744281, 2147483563);
    Square(40014, 255652805, 1396744281, 908456120, 1099451401, 2147483563);
    Raise(40014, 511305610, 1099451401, 51130561, 274035869, 154251585857626889, 2147483562, 2147483563);
  }

  // ---------------------------------------------------------------- powers of the second multiplier

  lemma Second1178()
    ensures Leaves(40692, 1178, 101175725, 2147483399)
  {
    hide Leaves;
    PowerOne(40692, 2147483399);
    Square(40692, 1, 40692, 0, 1655838864, 2147483399);
    Square(40692, 2, 1655838864, 1276751356, 1872071452, 2147483399);
    Raise(40692, 4, 1872071452, 1, 40692, 66408559793732, 1422611300, 2147483399);
    Square(40692, 9, 1422611300, 942416091, 514716691, 2147483399);
    Square(40692, 18, 514716691, 123369182, 1700779863, 2147483399);
    Raise(40692, 36, 1700779863, 1, 40692, 54811972485000, 992993148, 2147483399);
    Raise(40692, 73, 992993148, 1, 40692, 18684080253625, 1264422193, 2147483399);
    Square(40692, 147, 1264422193, 744482347, 1119871796, 2147483399);
    Raise(40692, 294, 1119871796, 1, 40692, 23763797050879, 389588551, 2147483399);
    Square(40692, 589, 389588551, 70677724, 101175725, 2147483399);
  }

  lemma SecondOver1789()
    ensures Leaves(40692, 1200382, 1318587927, 2147483399)
  {
    hide Leaves;
    Second1178();
    Raise(40692, 1178, 101175725, 1178, 101175725, 482279897718443, 765575368, 2147483399);
    Raise(40692, 3534, 765575368, 1178, 101175725, 27613560828848717, 526433317, 2147483399);
    Raise(40692, 8246, 526433317, 1178, 101175725, 13056694548750367, 523222092, 2147483399);
    Raise(40692, 17670, 523222092, 1178, 101175725, 12897889613813578, 1630344778, 2147483399);
    Raise(40692, 36518, 1630344778, 1178, 101175725, 125229147298502287, 1017897387, 2147483399);
    Raise(40692, 74214, 1017897387, 1178, 101175725, 48815136596488091, 1940006216, 2147483399);
    Square(40692, 149606, 1940006216, 1752574254, 2138829310, 2147483399);
    Raise(40692, 299212, 2138829310, 1178, 101175725, 215525550854419144, 319882044, 2147483399);
    Raise(40692, 599602, 319882044, 1178, 101175725, 4820879039576127, 1318587927, 2147483399);
  }

  lemma SecondOver1019()
    ensures Leaves(40692, 2107442, 92450291, 2147483399)
  {
    hide Leaves;
    Second1178();
    Raise(40692, 1178, 101175725, 1178, 101175725, 482279897718443, 765575368, 2147483399);
    Square(40692, 3534, 765575368, 272926740, 795146164, 2147483399);
    Raise(40692, 7068, 795146164, 1178, 101175725, 29787938337407435, 2079428035, 2147483399);
    Raise(40692, 15314, 2079428035, 1178, 101175725, 203720296516742021, 648053746, 2147483399);
    Raise(40692, 31806, 648053746, 1178, 101175725, 19786480919458800, 1600412900, 2147483399);
    Raise(40692, 64790, 1600412900, 1178, 101175725, 120673135276243471, 1342612071, 2147483399);
    Raise(40692, 130758, 1342612071, 1178, 101175725, 84927356236198540, 1014192265, 2147483399);
    Raise(40692, 262694, 1014192265, 1178, 101175725, 48460411523349057, 1951483382, 2147483399);
    Square(40692, 526566, 1951483382, 1773372214, 409282538, 2147483399);
    Raise(40692, 1053132, 409282538, 1178, 101175725, 7892106581872791, 92450291, 2147483399);
  }

  lemma Second1822991()
    ensures Leaves(40692, 1822991, 790238950, 2147483399)
  {
    hide Leaves;
    PowerOne(40692, 2147483399);
    Raise(40692, 1, 40692, 1, 40692, 31375, 2103410263, 2147483399);
    Square(40692, 3, 2103410263, 2060241646, 1780294415, 2147483399);
    Raise(40692, 6, 1780294415, 1, 40692, 60056895611154, 2007787254, 2147483399);
    Raise(40692, 13, 2007787254, 1, 40692, 76386147363117, 1841722389, 2147483399);
    Raise(40692, 27, 1841722389, 1, 40692, 64272849703919, 2131285451, 2147483399);
    Raise(40692, 55, 2131285451, 1, 40692, 86072112306900, 1430080392, 2147483399);
    Square(40692, 111, 1430080392, 952337945, 457598609, 2147483399);
    Raise(40692, 222, 457598609, 1, 40692, 3967789390731, 1692802983, 2147483399);
    Square(40692, 445, 1692802983, 1334390729, 946690418, 2147483399);
    Square(40692, 890, 946690418, 417336286, 1547698610, 2147483399);
    Square(40692, 1780, 1547698610, 1115431666, 1942019366, 2147483399);
    Raise(40692, 3560, 1942019366, 1, 40692, 71463837497894, 592811846, 2147483399);
    Square(40692, 7121, 592811846, 163645448, 1856009964, 2147483399);
    Square(40692, 14242, 1856009964, 1604097609, 764188305, 2147483399);
    Square(40692, 28484, 764188305, 271938663, 1160017488, 2147483399);
    Square(40692, 56968, 1160017488, 626612793, 1897306737, 2147483399);
    Raise(40692, 113936, 1897306737, 1, 40692, 68210984566393, 1092271141, 2147483399);
    Raise(40692, 227873, 1092271141, 1, 40692, 22606854499049, 804234101, 2147483399);
    Raise(40692, 455747, 804234101, 1, 40692, 12255871213365, 2008127457, 2147483399);
    Raise(40692, 911495, 2008127457, 1, 40692, 76412035562242, 790238950, 2147483399);
  }

  lemma SecondOver31()
    ensures Leaves(40692, 69273658, 2139088494, 2147483399)
  {
    hide Leaves;
    Second1822991();
    Square(40692, 1822991, 790238950, 290795075, 2023642575, 2147483399);
    Square(40692, 3645982, 2023642575, 1906943389, 642331414, 2147483399);
    Raise(40692, 7291964, 642331414, 1822991, 790238950, 151826276432440136, 1372371936, 2147483399);
    Raise(40692, 16406919, 1372371936, 1822991, 790238950, 693062296790082069, 1550466669, 2147483399);
    Square(40692, 34636829, 1550466669, 1119425133, 2139088494, 2147483399);
  }

  lemma SecondOver19()
    ensures Leaves(40692, 113025442, 593830216, 2147483399)
  {
    hide Leaves;
    Second1822991();
    Raise(40692, 1822991, 790238950, 1822991, 790238950, 229797595477838791, 1571644391, 2147483399);
    Raise(40692, 5468973, 1571644391, 1822991, 790238950, 908944132324078361, 529885911, 2147483399);
    Raise(40692, 12760937, 529885911, 1822991, 790238950, 103322132510290310, 2060559260, 2147483399);
    Raise(40692, 27344865, 2060559260, 1822991, 790238950, 1562423759350954895, 1278731895, 2147483399);
    Square(40692, 56512721, 1278731895, 761428591, 593830216, 2147483399);
  }

  /** So does the second. */
  lemma SecondHalfPower()
    ensures Leaves(40692, 1073741699, 2147483398, 2147483399)
  {
    hide Leaves;
    Second1822991();
    Square(40692, 1822991, 790238950, 290795075, 2023642575, 2147483399);
    Square(40692, 3645982, 2023642575, 1906943389, 642331414, 2147483399);
    Raise(40692, 7291964, 642331414, 1822991, 790238950, 151826276432440136, 1372371936, 2147483399);
    Square(40692, 16406919, 1372371936, 877028773, 257548669, 2147483399);
    Square(40692, 32813838, 257548669, 30887929, 2146680890, 2147483399);
    Raise(40692, 65627676, 2146680890, 1822991, 790238950, 1695756915618277140, 221096140, 2147483399);
    Raise(40692, 133078343, 221096140, 1822991, 790238950, 17988333785560453, 2131000253, 2147483399);
    Square(40692, 267979677, 2131000253, 2114643624, 944866033, 2147483399);
    Raise(40692, 535959354, 944866033, 1822991, 790238950, 328525503948270048, 2147483398, 2147483399);
  }

  // ---------------------------------------------------------------- all seeds are reached

  lemma SmallPrimes()
    ensures Prime(2) && Prime(3) && Prime(7) && Prime(19) && Prime(31)
  {
    PrimeByRoot(2, 1);
    PrimeByRoot(3, 1);
    PrimeByRoot(7, 2);
    PrimeByRoot(19, 4);
    PrimeByRoot(31, 5);
  }

  lemma MediumPrimes()
    ensures Prime(631) && Prime(1019) && Prime(1789)
  {
    PrimeByRoot(631, 25);
    PrimeByRoot(1019, 31);
    assert Prime(1789) by { Prime1789(); }
  }

  lemma Prime1789()
    ensures Prime(1789)
  {
    PrimeByRoot(1789, 42);
  }

  lemma LargePrime()
    ensures Prime(81031)
  {
    forall g | 1 < g <= 284 ensures 81031 % g != 0 {
      if g < 100 {
        DivideBelow100(g);
      } else if g < 200 {
        DivideBelow200(g);
      } else {
        DivideBelow285(g);
      }
    }
    PrimeByRoot(81031, 284);
  }

  lemma DivideBelow100(g: int)
    requires 1 < g < 100
    ensures 81031 % g != 0
  {
  }

  lemma DivideBelow200(g: int)
    requires 100 <= g < 200
    ensures 81031 % g != 0
  {
  }

  lemma DivideBelow285(g: int)
    requires 200 <= g < 285
    ensures 81031 % g != 0
  {
  }

  lemma LeavesOnly(a: int, k: nat, r: int, t: int, m: int)
    requires Leaves(a, k, r, m) && r != t
    ensures !Leaves(a, k, t, m)
  {
  }

  /** An exponent whose power is 1 is a multiple of the period. */
  lemma FirstOrder(d: nat)
    requires Leaves(40014, d, 1, 2147483563)
    ensures d % 2147483562 == 0
  {
    hide Leaves, Prime;
    SmallPrimes();
    MediumPrimes();
    LargePrime();
    FirstWholePower();
    FirstHalfPower();
    LeavesOnly(40014, 1073741781, 2147483562, 1, 2147483563);
    PrimeInOrder(40014, 1073741781, 2, d, 2147483563);
    FirstOver3();
    LeavesOnly(40014, 715827854, 1135448757, 1, 2147483563);
    PrimeInOrder(40014, 715827854, 3, d, 2147483563);
    FirstOver7();
    LeavesOnly(40014, 306783366, 735754574, 1, 2147483563);
    PrimeInOrder(40014, 306783366, 7, d, 2147483563);
    FirstOver631();
    LeavesOnly(40014, 3403302, 272054228, 1, 2147483563);
    PrimeInOrder(40014, 3403302, 631, d, 2147483563);
    FirstOver81031();
    LeavesOnly(40014, 26502, 1981936858, 1, 2147483563);
    PrimeInOrder(40014, 26502, 81031, d, 2147483563);
    Both(2, 3, 2, -1, d);
    Both(6, 7, 6, -5, d);
    Both(42, 631, 616, -41, d);
    Both(26502, 81031, 79065, -25859, d);
  }

  lemma FirstWholePower()
    ensures Leaves(40014, 2147483562, 1, 2147483563)
  {
    hide Leaves;
    FirstHalfPower();
    Alternates(40014, 1073741781, 2, 2147483563);
  }

  lemma FirstGenerates()
    ensures Generates(40014, 2147483563)
  {
    FirstWholePower();
    forall d: nat | 0 < d < 2147483562 ensures !Leaves(40014, d, 1, 2147483563) {
      if Leaves(40014, d, 1, 2147483563) {
        FirstOrder(d);
      }
    }
  }

  lemma SecondOrder(d: nat)
    requires Leaves(40692, d, 1, 2147483399)
    ensures d % 2147483398 == 0
  {
    hide Leaves, Prime;
    SmallPrimes();
    MediumPrimes();
    SecondWholePower();
    SecondHalfPower();
    LeavesOnly(40692, 1073741699, 2147483398, 1, 2147483399);
    PrimeInOrder(40692, 1073741699, 2, d, 2147483399);
    SecondOver19();
    LeavesOnly(40692, 113025442, 593830216, 1, 2147483399);
    PrimeInOrder(40692, 113025442, 19, d, 2147483399);
    SecondOver31();
    LeavesOnly(40692, 69273658, 2139088494, 1, 2147483399);
    PrimeInOrder(40692, 69273658, 31, d, 2147483399);
    SecondOver1019();
    LeavesOnly(40692, 2107442, 92450291, 1, 2147483399);
    PrimeInOrder(40692, 2107442, 1019, d, 2147483399);
    SecondOver1789();
    LeavesOnly(40692, 1200382, 1318587927, 1, 2147483399);
    PrimeInOrder(40692, 1200382, 1789, d, 2147483399);
    Both(2, 19, 10, -1, d);
    Both(38, 31, 9, -11, d);
    Both(1178, 1019, 141, -163, d);
    Both(1200382, 1789, 967, -648837, d);
  }

  lemma SecondWholePower()
    ensures Leaves(40692, 2147483398, 1, 2147483399)
  {
    hide Leaves;
    SecondHalfPower();
    Alternates(40692, 1073741699, 2, 2147483399);
  }

  lemma SecondGenerates()
    ensures Generates(40692, 2147483399)
  {
    SecondWholePower();
    forall d: nat | 0 < d < 2147483398 ensures !Leaves(40692, d, 1, 2147483399) {
      if Leaves(40692, d, 1, 2147483399) {
        SecondOrder(d);
      }
    }
  }

  // ---------------------------------------------------------------- from one class of seeds to the other

  lemma FirstBridge()
    ensures Leaves(40014, 148118, 1169235060, 2147483563)
  {
    hide Leaves;
    PowerOne(40014, 2147483563);
    Square(40014, 1, 40014, 0, 1601120196, 2147483563);
    Square(40014, 2, 1601120196, 1193762749, 439883729, 2147483563);
    Raise(40014, 4, 439883729, 1, 40014, 3605437034624, 1860990862, 2147483563);
    Square(40014, 9, 1860990862, 1612718741, 407948861, 2147483563);
    Square(40014, 18, 407948861, 77496413, 82237802, 2147483563);
    Square(40014, 36, 82237802, 3149293, 1125220245, 2147483563);
    Square(40014, 72, 1125220245, 589583371, 1517229152, 2147483563);
    Raise(40014, 144, 1517229152, 1, 40014, 42892807821384, 1085196264, 2147483563);
    Square(40014, 289, 1085196264, 548386470, 902965086, 2147483563);
    Raise(40014, 578, 902965086, 1, 40014, 15192317774518, 840415910, 2147483563);
    Square(40014, 1157, 840415910, 328896068, 1815797816, 2147483563);
    Square(40014, 2314, 1815797816, 1535342000, 6823856, 2147483563);
    Raise(40014, 4628, 6823856, 1, 40014, 867644516, 1862271796, 2147483563);
    Square(40014, 9257, 1862271796, 1614939598, 234237942, 2147483563);
    Raise(40014, 18514, 234237942, 1, 40014, 1022342950843, 168601487, 2147483563);
    Raise(40014, 37029, 168601487, 1, 40014, 529669445113, 809138747, 2147483563);
    Square(40014, 74059, 809138747, 304871023, 1169235060, 2147483563);
  }

  lemma SecondBridge()
    ensures Leaves(40692, 148118, 1154794018, 2147483399)
  {
    hide Leaves;
    PowerOne(40692, 2147483399);
    Square(40692, 1, 40692, 0, 1655838864, 2147483399);
    Square(40692, 2, 1655838864, 1276751356, 1872071452, 2147483399);
    Raise(40692, 4, 1872071452, 1, 40692, 66408559793732, 1422611300, 2147483399);
    Square(40692, 9, 1422611300, 942416091, 514716691, 2147483399);
    Square(40692, 18, 514716691, 123369182, 1700779863, 2147483399);
    Square(40692, 36, 1700779863, 1346996276, 1161476645, 2147483399);
    Square(40692, 72, 1161476645, 628190186, 1030733811, 2147483399);
    Raise(40692, 144, 1030733811, 1, 40692, 20131320605578, 1866975310, 2147483399);
    Square(40692, 289, 1866975310, 1623107684, 1970258184, 2147483399);
    Raise(40692, 578, 1970258184, 1, 40692, 73557252790851, 505333803, 2147483399);
    Square(40692, 1157, 505333803, 118912328, 2137999937, 2147483399);
    Square(40692, 2314, 2137999937, 2128558354, 1594238723, 2147483399);
    Raise(40692, 4628, 1594238723, 1, 40692, 48159938969473, 1962025741, 2147483399);
    Square(40692, 9257, 1962025741, 1792584291, 2115913972, 2147483399);
    Raise(40692, 18514, 2115913972, 1, 40692, 84835033035117, 463051845, 2147483399);
    Raise(40692, 37029, 463051845, 1, 40692, 4062921753947, 285359447, 2147483399);
    Square(40692, 74059, 285359447, 37918809, 1154794018, 2147483399);
  }
}
