/** The secret-number examples. */
module Day22Examples {
  import opened Common
  import opened Day22
  import opened Bits

  /** 42 mixed with 15 is 37. */
  lemma MixExample()
    ensures Mix(42, 15) == 37
  {
    hide Xor;
    XorWithZero(2, 0);
    XorStep(5, 1, 2);
    XorStep(10, 3, 4);
    XorStep(21, 7, 9);
    XorStep(42, 15, 18);
  }

  /** 100000000 pruned is 16113920. */
  lemma PruneExample()
    ensures Prune(100000000) == 16113920
  {
  }

  /** The multiply-by-64 stage from 123. */
  lemma From123Times64()
    ensures Xor(123, 7872) == 7867
  {
    hide Xor;
    XorWithZero(0, 61);
    XorStep(1, 123, 61);
    XorStep(3, 246, 122);
    XorStep(7, 492, 245);
    XorStep(15, 984, 491);
    XorStep(30, 1968, 983);
    XorStep(61, 3936, 1966);
    XorStep(123, 7872, 3933);
  }

  /** The divide-by-32 stage from 123. */
  lemma From123Over32()
    ensures Xor(7867, 245) == 7758
  {
    hide Xor;
    XorWithZero(30, 0);
    XorStep(61, 1, 30);
    XorStep(122, 3, 60);
    XorStep(245, 7, 121);
    XorStep(491, 15, 242);
    XorStep(983, 30, 484);
    XorStep(1966, 61, 969);
    XorStep(3933, 122, 1939);
    XorStep(7867, 245, 3879);
  }

  /** The multiply-by-2048 stage from 123. */
  lemma From123Times2048()
    ensures Xor(7758, 15888384) == 15887950
  {
    hide Xor;
    XorWithZero(0, 1939);
    XorStep(1, 3879, 1939);
    XorStep(3, 7758, 3878);
    XorStep(7, 15516, 7757);
    XorStep(15, 31032, 15515);
    XorStep(30, 62064, 31031);
    XorStep(60, 124128, 62062);
    XorStep(121, 248256, 124124);
    XorStep(242, 496512, 248249);
    XorStep(484, 993024, 496498);
    XorStep(969, 1986048, 992996);
    XorStep(1939, 3972096, 1985993);
    XorStep(3879, 7944192, 3971987);
    XorStep(7758, 15888384, 7943975);
  }

  /** 123 is followed by 15887950. */
  lemma From123()
    ensures NextSecretOf(123) == 15887950
  {
    hide Xor;
    From123Times64();
    From123Over32();
    From123Times2048();
  }

  /** The multiply-by-64 stage from 15887950. */
  lemma From15887950Times64()
    ensures Xor(15887950, 1016828800) == 1013579214
  {
    hide Xor;
    XorWithZero(0, 60);
    XorStep(1, 121, 60);
    XorStep(3, 242, 120);
    XorStep(7, 484, 241);
    XorStep(15, 969, 483);
    XorStep(30, 1939, 966);
    XorStep(60, 3878, 1933);
    XorStep(121, 7757, 3866);
    XorStep(242, 15515, 7732);
    XorStep(484, 31031, 15465);
    XorStep(969, 62062, 30931);
    XorStep(1939, 124124, 61863);
    XorStep(3878, 248249, 123727);
    XorStep(7757, 496498, 247455);
    XorStep(15515, 992996, 494911);
    XorStep(31031, 1985993, 989823);
    XorStep(62062, 3971987, 1979646);
    XorStep(124124, 7943975, 3959293);
    XorStep(248249, 15887950, 7918587);
    XorStep(496498, 31775900, 15837175);
    XorStep(992996, 63551800, 31674350);
    XorStep(1985993, 127103600, 63348700);
    XorStep(3971987, 254207200, 126697401);
    XorStep(7943975, 508414400, 253394803);
    XorStep(15887950, 1016828800, 506789607);
  }

  /** The divide-by-32 stage from 15887950. */
  lemma From15887950Over32()
    ensures Xor(6946254, 217070) == 6992416
  {
    hide Xor;
    XorWithZero(26, 0);
    XorStep(52, 1, 26);
    XorStep(105, 3, 53);
    XorStep(211, 6, 106);
    XorStep(423, 13, 213);
    XorStep(847, 26, 426);
    XorStep(1695, 52, 853);
    XorStep(3391, 105, 1707);
    XorStep(6783, 211, 3414);
    XorStep(13566, 423, 6828);
    XorStep(27133, 847, 13657);
    XorStep(54267, 1695, 27314);
    XorStep(108535, 3391, 54628);
    XorStep(217070, 6783, 109256);
    XorStep(434140, 13566, 218513);
    XorStep(868281, 27133, 437026);
    XorStep(1736563, 54267, 874052);
    XorStep(3473127, 108535, 1748104);
    XorStep(6946254, 217070, 3496208);
  }

  /** The multiply-by-2048 stage from 15887950. */
  lemma From15887950Times2048()
    ensures Xor(6992416, 14320467968) == 14327460384
  {
    hide Xor;
    XorWithZero(0, 1707);
    XorStep(1, 3414, 1707);
    XorStep(3, 6828, 3415);
    XorStep(6, 13657, 6831);
    XorStep(13, 27314, 13663);
    XorStep(26, 54628, 27327);
    XorStep(53, 109256, 54654);
    XorStep(106, 218513, 109309);
    XorStep(213, 437026, 218619);
    XorStep(426, 874052, 437239);
    XorStep(853, 1748104, 874478);
    XorStep(1707, 3496208, 1748957);
    XorStep(3414, 6992416, 3497915);
    XorStep(6828, 13984832, 6995830);
    XorStep(13657, 27969664, 13991660);
    XorStep(27314, 55939328, 27983321);
    XorStep(54628, 111878656, 55966642);
    XorStep(109256, 223757312, 111933284);
    XorStep(218513, 447514624, 223866568);
    XorStep(437026, 895029248, 447733137);
    XorStep(874052, 1790058496, 895466274);
    XorStep(1748104, 3580116992, 1790932548);
    XorStep(3496208, 7160233984, 3581865096);
    XorStep(6992416, 14320467968, 7163730192);
  }

  /** 15887950 is followed by 16495136. */
  lemma From15887950()
    ensures NextSecretOf(15887950) == 16495136
  {
    hide Xor;
    From15887950Times64();
    From15887950Over32();
    From15887950Times2048();
  }

  /** The multiply-by-64 stage from 16495136. */
  lemma From16495136Times64()
    ensures Xor(16495136, 1055688704) == 1041709600
  {
    hide Xor;
    XorWithZero(0, 62);
    XorStep(1, 125, 62);
    XorStep(3, 251, 124);
    XorStep(7, 503, 248);
    XorStep(15, 1006, 496);
    XorStep(31, 2013, 993);
    XorStep(62, 4027, 1986);
    XorStep(125, 8054, 3973);
    XorStep(251, 16108, 7947);
    XorStep(503, 32217, 15895);
    XorStep(1006, 64434, 31790);
    XorStep(2013, 128868, 63580);
    XorStep(4027, 257736, 127161);
    XorStep(8054, 515473, 254323);
    XorStep(16108, 1030946, 508647);
    XorStep(32217, 2061892, 1017294);
    XorStep(64434, 4123784, 2034589);
    XorStep(128868, 8247568, 4069178);
    XorStep(257736, 16495136, 8138356);
    XorStep(515473, 32990272, 16276712);
    XorStep(1030946, 65980544, 32553425);
    XorStep(2061892, 131961088, 65106850);
    XorStep(4123784, 263922176, 130213700);
    XorStep(8247568, 527844352, 260427400);
    XorStep(16495136, 1055688704, 520854800);
  }

  /** The divide-by-32 stage from 16495136. */
  lemma From16495136Over32()
    ensures Xor(1522208, 47569) == 1541105
  {
    hide Xor;
    XorWithZero(23, 0);
    XorStep(46, 1, 23);
    XorStep(92, 2, 47);
    XorStep(185, 5, 94);
    XorStep(371, 11, 188);
    XorStep(743, 23, 376);
    XorStep(1486, 46, 752);
    XorStep(2973, 92, 1504);
    XorStep(5946, 185, 3009);
    XorStep(11892, 371, 6019);
    XorStep(23784, 743, 12039);
    XorStep(47569, 1486, 24079);
    XorStep(95138, 2973, 48159);
    XorStep(190276, 5946, 96319);
    XorStep(380552, 11892, 192638);
    XorStep(761104, 23784, 385276);
    XorStep(1522208, 47569, 770552);
  }

  /** The multiply-by-2048 stage from 16495136. */
  lemma From16495136Times2048()
    ensures Xor(1541105, 3156183040) == 3154643953
  {
    hide Xor;
    XorWithZero(0, 1504);
    XorStep(1, 3009, 1504);
    XorStep(2, 6019, 3008);
    XorStep(5, 12039, 6017);
    XorStep(11, 24079, 12034);
    XorStep(23, 48159, 24068);
    XorStep(47, 96319, 48136);
    XorStep(94, 192638, 96272);
    XorStep(188, 385276, 192544);
    XorStep(376, 770552, 385088);
    XorStep(752, 1541105, 770176);
    XorStep(1504, 3082210, 1540353);
    XorStep(3009, 6164420, 3080706);
    XorStep(6019, 12328840, 6161413);
    XorStep(12039, 24657680, 12322827);
    XorStep(24079, 49315360, 24645655);
    XorStep(48159, 98630720, 49291311);
    XorStep(96319, 197261440, 98582623);
    XorStep(192638, 394522880, 197165247);
    XorStep(385276, 789045760, 394330494);
    XorStep(770552, 1578091520, 788660988);
    XorStep(1541105, 3156183040, 1577321976);
  }

  /** 16495136 is followed by 527345. */
  lemma From16495136()
    ensures NextSecretOf(16495136) == 527345
  {
    hide Xor;
    From16495136Times64();
    From16495136Over32();
    From16495136Times2048();
  }

  /** The multiply-by-64 stage from 527345. */
  lemma From527345Times64()
    ensures Xor(527345, 33750080) == 34273201
  {
    hide Xor;
    XorWithZero(0, 32);
    XorStep(1, 64, 32);
    XorStep(2, 128, 65);
    XorStep(4, 257, 130);
    XorStep(8, 514, 261);
    XorStep(16, 1029, 522);
    XorStep(32, 2059, 1045);
    XorStep(64, 4119, 2091);
    XorStep(128, 8239, 4183);
    XorStep(257, 16479, 8367);
    XorStep(514, 32959, 16734);
    XorStep(1029, 65918, 33469);
    XorStep(2059, 131836, 66939);
    XorStep(4119, 263672, 133879);
    XorStep(8239, 527345, 267759);
    XorStep(16479, 1054690, 535518);
    XorStep(32959, 2109380, 1071037);
    XorStep(65918, 4218760, 2142075);
    XorStep(131836, 8437520, 4284150);
    XorStep(263672, 16875040, 8568300);
    XorStep(527345, 33750080, 17136600);
  }

  /** The divide-by-32 stage from 527345. */
  lemma From527345Over32()
    ensures Xor(718769, 22461) == 696332
  {
    hide Xor;
    XorWithZero(21, 0);
    XorStep(43, 1, 21);
    XorStep(87, 2, 42);
    XorStep(175, 5, 85);
    XorStep(350, 10, 170);
    XorStep(701, 21, 340);
    XorStep(1403, 43, 680);
    XorStep(2807, 87, 1360);
    XorStep(5615, 175, 2720);
    XorStep(11230, 350, 5440);
    XorStep(22461, 701, 10880);
    XorStep(44923, 1403, 21760);
    XorStep(89846, 2807, 43520);
    XorStep(179692, 5615, 87041);
    XorStep(359384, 11230, 174083);
    XorStep(718769, 22461, 348166);
  }

  /** The multiply-by-2048 stage from 527345. */
  lemma From527345Times2048()
    ensures Xor(696332, 1426087936) == 1426767884
  {
    hide Xor;
    XorWithZero(0, 1360);
    XorStep(1, 2720, 1360);
    XorStep(2, 5440, 2721);
    XorStep(5, 10880, 5442);
    XorStep(10, 21760, 10885);
    XorStep(21, 43520, 21770);
    XorStep(42, 87041, 43541);
    XorStep(85, 174083, 87083);
    XorStep(170, 348166, 174166);
    XorStep(340, 696332, 348332);
    XorStep(680, 1392664, 696664);
    XorStep(1360, 2785328, 1393328);
    XorStep(2720, 5570656, 2786656);
    XorStep(5440, 11141312, 5573312);
    XorStep(10880, 22282624, 11146624);
    XorStep(21760, 44565248, 22293248);
    XorStep(43520, 89130496, 44586496);
    XorStep(87041, 178260992, 89172992);
    XorStep(174083, 356521984, 178345985);
    XorStep(348166, 713043968, 356691971);
    XorStep(696332, 1426087936, 713383942);
  }

  /** 527345 is followed by 704524. */
  lemma From527345()
    ensures NextSecretOf(527345) == 704524
  {
    hide Xor;
    From527345Times64();
    From527345Over32();
    From527345Times2048();
  }

  /** The multiply-by-64 stage from 704524. */
  lemma From704524Times64()
    ensures Xor(704524, 45089536) == 45794060
  {
    hide Xor;
    XorWithZero(0, 43);
    XorStep(1, 86, 43);
    XorStep(2, 172, 87);
    XorStep(5, 344, 174);
    XorStep(10, 688, 349);
    XorStep(21, 1376, 698);
    XorStep(43, 2752, 1397);
    XorStep(86, 5504, 2795);
    XorStep(172, 11008, 5590);
    XorStep(344, 22016, 11180);
    XorStep(688, 44032, 22360);
    XorStep(1376, 88065, 44720);
    XorStep(2752, 176131, 89441);
    XorStep(5504, 352262, 178883);
    XorStep(11008, 704524, 357766);
    XorStep(22016, 1409048, 715532);
    XorStep(44032, 2818096, 1431064);
    XorStep(88065, 5636192, 2862128);
    XorStep(176131, 11272384, 5724257);
    XorStep(352262, 22544768, 11448515);
    XorStep(704524, 45089536, 22897030);
  }

  /** The divide-by-32 stage from 704524. */
  lemma From704524Over32()
    ensures Xor(12239628, 382488) == 12522772
  {
    hide Xor;
    XorWithZero(23, 0);
    XorStep(46, 1, 23);
    XorStep(93, 2, 47);
    XorStep(186, 5, 95);
    XorStep(373, 11, 191);
    XorStep(747, 23, 382);
    XorStep(1494, 46, 764);
    XorStep(2988, 93, 1528);
    XorStep(5976, 186, 3057);
    XorStep(11952, 373, 6114);
    XorStep(23905, 747, 12229);
    XorStep(47811, 1494, 24458);
    XorStep(95622, 2988, 48917);
    XorStep(191244, 5976, 97834);
    XorStep(382488, 11952, 195668);
    XorStep(764976, 23905, 391336);
    XorStep(1529953, 47811, 782673);
    XorStep(3059907, 95622, 1565346);
    XorStep(6119814, 191244, 3130693);
    XorStep(12239628, 382488, 6261386);
  }

  /** The multiply-by-2048 stage from 704524. */
  lemma From704524Times2048()
    ensures Xor(12522772, 25646637056) == 25637139732
  {
    hide Xor;
    XorWithZero(0, 1528);
    XorStep(1, 3057, 1528);
    XorStep(2, 6114, 3056);
    XorStep(5, 12229, 6112);
    XorStep(11, 24458, 12224);
    XorStep(23, 48917, 24449);
    XorStep(47, 97834, 48898);
    XorStep(95, 195668, 97797);
    XorStep(191, 391336, 195595);
    XorStep(382, 782673, 391191);
    XorStep(764, 1565346, 782383);
    XorStep(1528, 3130693, 1564766);
    XorStep(3057, 6261386, 3129533);
    XorStep(6114, 12522772, 6259067);
    XorStep(12229, 25045544, 12518134);
    XorStep(24458, 50091088, 25036269);
    XorStep(48917, 100182176, 50072538);
    XorStep(97834, 200364352, 100145077);
    XorStep(195668, 400728704, 200290154);
    XorStep(391336, 801457408, 400580308);
    XorStep(782673, 1602914816, 801160616);
    XorStep(1565346, 3205829632, 1602321233);
    XorStep(3130693, 6411659264, 3204642466);
    XorStep(6261386, 12823318528, 6409284933);
    XorStep(12522772, 25646637056, 12818569866);
  }

  /** 704524 is followed by 1553684. */
  lemma From704524()
    ensures NextSecretOf(704524) == 1553684
  {
    hide Xor;
    From704524Times64();
    From704524Over32();
    From704524Times2048();
  }

  /** The multiply-by-64 stage from 1553684. */
  lemma From1553684Times64()
    ensures Xor(1553684, 99435776) == 100331540
  {
    hide Xor;
    XorWithZero(0, 47);
    XorStep(1, 94, 47);
    XorStep(2, 189, 95);
    XorStep(5, 379, 191);
    XorStep(11, 758, 382);
    XorStep(23, 1517, 765);
    XorStep(47, 3034, 1530);
    XorStep(94, 6069, 3061);
    XorStep(189, 12138, 6123);
    XorStep(379, 24276, 12247);
    XorStep(758, 48552, 24495);
    XorStep(1517, 97105, 48990);
    XorStep(3034, 194210, 97980);
    XorStep(6069, 388421, 195960);
    XorStep(12138, 776842, 391920);
    XorStep(24276, 1553684, 783840);
    XorStep(48552, 3107368, 1567680);
    XorStep(97105, 6214736, 3135360);
    XorStep(194210, 12429472, 6270721);
    XorStep(388421, 24858944, 12541442);
    XorStep(776842, 49717888, 25082885);
    XorStep(1553684, 99435776, 50165770);
  }

  /** The divide-by-32 stage from 1553684. */
  lemma From1553684Over32()
    ensures Xor(16445460, 513920) == 16590740
  {
    hide Xor;
    XorWithZero(31, 0);
    XorStep(62, 1, 31);
    XorStep(125, 3, 63);
    XorStep(250, 7, 126);
    XorStep(501, 15, 253);
    XorStep(1003, 31, 506);
    XorStep(2007, 62, 1012);
    XorStep(4015, 125, 2025);
    XorStep(8030, 250, 4050);
    XorStep(16060, 501, 8100);
    XorStep(32120, 1003, 16201);
    XorStep(64240, 2007, 32403);
    XorStep(128480, 4015, 64807);
    XorStep(256960, 8030, 129615);
    XorStep(513920, 16060, 259230);
    XorStep(1027841, 32120, 518460);
    XorStep(2055682, 64240, 1036921);
    XorStep(4111365, 128480, 2073842);
    XorStep(8222730, 256960, 4147685);
    XorStep(16445460, 513920, 8295370);
  }

  /** The multiply-by-2048 stage from 1553684. */
  lemma From1553684Times2048()
    ensures Xor(16590740, 33977835520) == 33986545556
  {
    hide Xor;
    XorWithZero(0, 2025);
    XorStep(1, 4050, 2025);
    XorStep(3, 8100, 4051);
    XorStep(7, 16201, 8103);
    XorStep(15, 32403, 16206);
    XorStep(31, 64807, 32412);
    XorStep(63, 129615, 64824);
    XorStep(126, 259230, 129648);
    XorStep(253, 518460, 259296);
    XorStep(506, 1036921, 518593);
    XorStep(1012, 2073842, 1037187);
    XorStep(2025, 4147685, 2074374);
    XorStep(4050, 8295370, 4148748);
    XorStep(8100, 16590740, 8297496);
    XorStep(16201, 33181480, 16594992);
    XorStep(32403, 66362960, 33189985);
    XorStep(64807, 132725920, 66379971);
    XorStep(129615, 265451840, 132759943);
    XorStep(259230, 530903680, 265519887);
    XorStep(518460, 1061807360, 531039774);
    XorStep(1036921, 2123614720, 1062079548);
    XorStep(2073842, 4247229440, 2124159097);
    XorStep(4147685, 8494458880, 4248318194);
    XorStep(8295370, 16988917760, 8496636389);
    XorStep(16590740, 33977835520, 16993272778);
  }

  /** 1553684 is followed by 12683156. */
  lemma From1553684()
    ensures NextSecretOf(1553684) == 12683156
  {
    hide Xor;
    From1553684Times64();
    From1553684Over32();
    From1553684Times2048();
  }

  /** The multiply-by-64 stage from 12683156. */
  lemma From12683156Times64()
    ensures Xor(12683156, 811721984) == 815817364
  {
    hide Xor;
    XorWithZero(0, 48);
    XorStep(1, 96, 48);
    XorStep(3, 193, 97);
    XorStep(6, 387, 194);
    XorStep(12, 774, 389);
    XorStep(24, 1548, 778);
    XorStep(48, 3096, 1556);
    XorStep(96, 6192, 3112);
    XorStep(193, 12385, 6224);
    XorStep(387, 24771, 12448);
    XorStep(774, 49543, 24896);
    XorStep(1548, 99087, 49793);
    XorStep(3096, 198174, 99587);
    XorStep(6192, 396348, 199174);
    XorStep(12385, 792697, 398348);
    XorStep(24771, 1585394, 796696);
    XorStep(49543, 3170789, 1593393);
    XorStep(99087, 6341578, 3186786);
    XorStep(198174, 12683156, 6373573);
    XorStep(396348, 25366312, 12747146);
    XorStep(792697, 50732624, 25494292);
    XorStep(1585394, 101465248, 50988585);
    XorStep(3170789, 202930496, 101977170);
    XorStep(6341578, 405860992, 203954341);
    XorStep(12683156, 811721984, 407908682);
  }

  /** The divide-by-32 stage from 12683156. */
  lemma From12683156Over32()
    ensures Xor(10510996, 328468) == 10838400
  {
    hide Xor;
    XorWithZero(20, 0);
    XorStep(40, 1, 20);
    XorStep(80, 2, 41);
    XorStep(160, 5, 82);
    XorStep(320, 10, 165);
    XorStep(641, 20, 330);
    XorStep(1283, 40, 661);
    XorStep(2566, 80, 1323);
    XorStep(5132, 160, 2646);
    XorStep(10264, 320, 5292);
    XorStep(20529, 641, 10584);
    XorStep(41058, 1283, 21168);
    XorStep(82117, 2566, 42337);
    XorStep(164234, 5132, 84675);
    XorStep(328468, 10264, 169350);
    XorStep(656937, 20529, 338700);
    XorStep(1313874, 41058, 677400);
    XorStep(2627749, 82117, 1354800);
    XorStep(5255498, 164234, 2709600);
    XorStep(10510996, 328468, 5419200);
  }

  /** The multiply-by-2048 stage from 12683156. */
  lemma From12683156Times2048()
    ensures Xor(10838400, 22197043200) == 22207357312
  {
    hide Xor;
    XorWithZero(0, 1323);
    XorStep(1, 2646, 1323);
    XorStep(2, 5292, 2647);
    XorStep(5, 10584, 5294);
    XorStep(10, 21168, 10589);
    XorStep(20, 42337, 21178);
    XorStep(41, 84675, 42357);
    XorStep(82, 169350, 84714);
    XorStep(165, 338700, 169428);
    XorStep(330, 677400, 338857);
    XorStep(661, 1354800, 677714);
    XorStep(1323, 2709600, 1355429);
    XorStep(2646, 5419200, 2710859);
    XorStep(5292, 10838400, 5421718);
    XorStep(10584, 21676800, 10843436);
    XorStep(21168, 43353600, 21686872);
    XorStep(42337, 86707200, 43373744);
    XorStep(84675, 173414400, 86747489);
    XorStep(169350, 346828800, 173494979);
    XorStep(338700, 693657600, 346989958);
    XorStep(677400, 1387315200, 693979916);
    XorStep(1354800, 2774630400, 1387959832);
    XorStep(2709600, 5549260800, 2775919664);
    XorStep(5419200, 11098521600, 5551839328);
    XorStep(10838400, 22197043200, 11103678656);
  }

  /** 12683156 is followed by 11100544. */
  lemma From12683156()
    ensures NextSecretOf(12683156) == 11100544
  {
    hide Xor;
    From12683156Times64();
    From12683156Over32();
    From12683156Times2048();
  }

  /** The multiply-by-64 stage from 11100544. */
  lemma From11100544Times64()
    ensures Xor(11100544, 710434816) == 720437632
  {
    hide Xor;
    XorWithZero(0, 42);
    XorStep(1, 84, 42);
    XorStep(2, 169, 85);
    XorStep(5, 338, 171);
    XorStep(10, 677, 343);
    XorStep(21, 1355, 687);
    XorStep(42, 2710, 1374);
    XorStep(84, 5420, 2748);
    XorStep(169, 10840, 5496);
    XorStep(338, 21680, 10993);
    XorStep(677, 43361, 21986);
    XorStep(1355, 86723, 43972);
    XorStep(2710, 173446, 87944);
    XorStep(5420, 346892, 175888);
    XorStep(10840, 693784, 351776);
    XorStep(21680, 1387568, 703552);
    XorStep(43361, 2775136, 1407104);
    XorStep(86723, 5550272, 2814209);
    XorStep(173446, 11100544, 5628419);
    XorStep(346892, 22201088, 11256838);
    XorStep(693784, 44402176, 22513676);
    XorStep(1387568, 88804352, 45027352);
    XorStep(2775136, 177608704, 90054704);
    XorStep(5550272, 355217408, 180109408);
    XorStep(11100544, 710434816, 360218816);
  }

  /** The divide-by-32 stage from 11100544. */
  lemma From11100544Over32()
    ensures Xor(15794560, 493580) == 16157068
  {
    hide Xor;
    XorWithZero(30, 0);
    XorStep(60, 1, 30);
    XorStep(120, 3, 61);
    XorStep(241, 7, 123);
    XorStep(482, 15, 246);
    XorStep(964, 30, 493);
    XorStep(1928, 60, 986);
    XorStep(3856, 120, 1972);
    XorStep(7712, 241, 3944);
    XorStep(15424, 482, 7889);
    XorStep(30848, 964, 15778);
    XorStep(61697, 1928, 31556);
    XorStep(123395, 3856, 63113);
    XorStep(246790, 7712, 126227);
    XorStep(493580, 15424, 252454);
    XorStep(987160, 30848, 504908);
    XorStep(1974320, 61697, 1009816);
    XorStep(3948640, 123395, 2019633);
    XorStep(7897280, 246790, 4039267);
    XorStep(15794560, 493580, 8078534);
  }

  /** The multiply-by-2048 stage from 11100544. */
  lemma From11100544Times2048()
    ensures Xor(16157068, 33089675264) == 33096919436
  {
    hide Xor;
    XorWithZero(0, 1972);
    XorStep(1, 3944, 1972);
    XorStep(3, 7889, 3945);
    XorStep(7, 15778, 7890);
    XorStep(15, 31556, 15781);
    XorStep(30, 63113, 31563);
    XorStep(61, 126227, 63127);
    XorStep(123, 252454, 126254);
    XorStep(246, 504908, 252509);
    XorStep(493, 1009816, 505018);
    XorStep(986, 2019633, 1010037);
    XorStep(1972, 4039267, 2020075);
    XorStep(3944, 8078534, 4040151);
    XorStep(7889, 16157068, 8080302);
    XorStep(15778, 32314136, 16160605);
    XorStep(31556, 64628272, 32321210);
    XorStep(63113, 129256544, 64642420);
    XorStep(126227, 258513088, 129284841);
    XorStep(252454, 517026176, 258569683);
    XorStep(504908, 1034052352, 517139366);
    XorStep(1009816, 2068104704, 1034278732);
    XorStep(2019633, 4136209408, 2068557464);
    XorStep(4039267, 8272418816, 4137114929);
    XorStep(8078534, 16544837632, 8274229859);
    XorStep(16157068, 33089675264, 16548459718);
  }

  /** 11100544 is followed by 12249484. */
  lemma From11100544()
    ensures NextSecretOf(11100544) == 12249484
  {
    hide Xor;
    From11100544Times64();
    From11100544Over32();
    From11100544Times2048();
  }

  /** The multiply-by-64 stage from 12249484. */
  lemma From12249484Times64()
    ensures Xor(12249484, 783966976) == 771787404
  {
    hide Xor;
    XorWithZero(0, 46);
    XorStep(1, 93, 46);
    XorStep(2, 186, 92);
    XorStep(5, 373, 184);
    XorStep(11, 747, 368);
    XorStep(23, 1495, 736);
    XorStep(46, 2990, 1472);
    XorStep(93, 5981, 2944);
    XorStep(186, 11962, 5888);
    XorStep(373, 23924, 11776);
    XorStep(747, 47849, 23553);
    XorStep(1495, 95699, 47106);
    XorStep(2990, 191398, 94212);
    XorStep(5981, 382796, 188424);
    XorStep(11962, 765592, 376849);
    XorStep(23924, 1531185, 753698);
    XorStep(47849, 3062371, 1507397);
    XorStep(95699, 6124742, 3014794);
    XorStep(191398, 12249484, 6029589);
    XorStep(382796, 24498968, 12059178);
    XorStep(765592, 48997936, 24118356);
    XorStep(1531185, 97995872, 48236712);
    XorStep(3062371, 195991744, 96473425);
    XorStep(6124742, 391983488, 192946851);
    XorStep(12249484, 783966976, 385893702);
  }

  /** The divide-by-32 stage from 12249484. */
  lemma From12249484Over32()
    ensures Xor(35468, 1108) == 36568
  {
    hide Xor;
    XorWithZero(17, 0);
    XorStep(34, 1, 17);
    XorStep(69, 2, 35);
    XorStep(138, 4, 71);
    XorStep(277, 8, 142);
    XorStep(554, 17, 285);
    XorStep(1108, 34, 571);
    XorStep(2216, 69, 1142);
    XorStep(4433, 138, 2285);
    XorStep(8867, 277, 4571);
    XorStep(17734, 554, 9142);
    XorStep(35468, 1108, 18284);
  }

  /** The multiply-by-2048 stage from 12249484. */
  lemma From12249484Times2048()
    ensures Xor(36568, 74891264) == 74862296
  {
    hide Xor;
    XorWithZero(0, 1142);
    XorStep(1, 2285, 1142);
    XorStep(2, 4571, 2284);
    XorStep(4, 9142, 4569);
    XorStep(8, 18284, 9138);
    XorStep(17, 36568, 18276);
    XorStep(35, 73136, 36553);
    XorStep(71, 146272, 73107);
    XorStep(142, 292544, 146215);
    XorStep(285, 585088, 292430);
    XorStep(571, 1170176, 584861);
    XorStep(1142, 2340352, 1169723);
    XorStep(2285, 4680704, 2339446);
    XorStep(4571, 9361408, 4678893);
    XorStep(9142, 18722816, 9357787);
    XorStep(18284, 37445632, 18715574);
    XorStep(36568, 74891264, 37431148);
  }

  /** 12249484 is followed by 7753432. */
  lemma From12249484()
    ensures NextSecretOf(12249484) == 7753432
  {
    hide Xor;
    From12249484Times64();
    From12249484Over32();
    From12249484Times2048();
  }

  /** The multiply-by-64 stage from 7753432. */
  lemma From7753432Times64()
    ensures Xor(7753432, 496219648) == 501610712
  {
    hide Xor;
    XorWithZero(0, 59);
    XorStep(1, 118, 59);
    XorStep(3, 236, 119);
    XorStep(7, 473, 239);
    XorStep(14, 946, 478);
    XorStep(29, 1892, 956);
    XorStep(59, 3785, 1913);
    XorStep(118, 7571, 3826);
    XorStep(236, 15143, 7653);
    XorStep(473, 30286, 15307);
    XorStep(946, 60573, 30615);
    XorStep(1892, 121147, 61231);
    XorStep(3785, 242294, 122463);
    XorStep(7571, 484589, 244927);
    XorStep(15143, 969179, 489854);
    XorStep(30286, 1938358, 979708);
    XorStep(60573, 3876716, 1959416);
    XorStep(121147, 7753432, 3918833);
    XorStep(242294, 15506864, 7837667);
    XorStep(484589, 31013728, 15675334);
    XorStep(969179, 62027456, 31350669);
    XorStep(1938358, 124054912, 62701339);
    XorStep(3876716, 248109824, 125402678);
    XorStep(7753432, 496219648, 250805356);
  }

  /** The divide-by-32 stage from 7753432. */
  lemma From7753432Over32()
    ensures Xor(15071448, 470982) == 14866206
  {
    hide Xor;
    XorWithZero(28, 0);
    XorStep(57, 1, 28);
    XorStep(114, 3, 56);
    XorStep(229, 7, 113);
    XorStep(459, 14, 226);
    XorStep(919, 28, 453);
    XorStep(1839, 57, 907);
    XorStep(3679, 114, 1814);
    XorStep(7359, 229, 3629);
    XorStep(14718, 459, 7258);
    XorStep(29436, 919, 14517);
    XorStep(58872, 1839, 29035);
    XorStep(117745, 3679, 58071);
    XorStep(235491, 7359, 116142);
    XorStep(470982, 14718, 232284);
    XorStep(941965, 29436, 464568);
    XorStep(1883931, 58872, 929137);
    XorStep(3767862, 117745, 1858275);
    XorStep(7535724, 235491, 3716551);
    XorStep(15071448, 470982, 7433103);
  }

  /** The multiply-by-2048 stage from 7753432. */
  lemma From7753432Times2048()
    ensures Xor(14866206, 30445989888) == 30439778078
  {
    hide Xor;
    XorWithZero(0, 1814);
    XorStep(1, 3629, 1814);
    XorStep(3, 7258, 3628);
    XorStep(7, 14517, 7257);
    XorStep(14, 29035, 14514);
    XorStep(28, 58071, 29029);
    XorStep(56, 116142, 58059);
    XorStep(113, 232284, 116118);
    XorStep(226, 464568, 232237);
    XorStep(453, 929137, 464474);
    XorStep(907, 1858275, 928948);
    XorStep(1814, 3716551, 1857896);
    XorStep(3629, 7433103, 3715793);
    XorStep(7258, 14866206, 7431586);
    XorStep(14517, 29732412, 14863172);
    XorStep(29035, 59464824, 29726345);
    XorStep(58071, 118929648, 59452691);
    XorStep(116142, 237859296, 118905383);
    XorStep(232284, 475718592, 237810766);
    XorStep(464568, 951437184, 475621532);
    XorStep(929137, 1902874368, 951243064);
    XorStep(1858275, 3805748736, 1902486129);
    XorStep(3716551, 7611497472, 3804972259);
    XorStep(7433103, 15222994944, 7609944519);
    XorStep(14866206, 30445989888, 15219889039);
  }

  /** 7753432 is followed by 5908254. */
  lemma From7753432()
    ensures NextSecretOf(7753432) == 5908254
  {
    hide Xor;
    From7753432Times64();
    From7753432Over32();
    From7753432Times2048();
  }

  /** The decimal text of a number below 2^64 reads back as that number. */
  lemma ReadsAs(n: nat, text: string)
    requires text == Show(n) && n < U64Limit
    ensures ParseU64(text) == Some(n)
  {
    ShowValue(n);
    assert text[0] != '+';
  }

  lemma ShowSeeds()
    ensures Show(1) == "1" && Show(10) == "10" && Show(100) == "100" && Show(2024) == "2024"
  {
    assert Show(2) == "2";
    assert Show(20) == "20";
    assert Show(202) == "202";
  }

  lemma SeedLines(rows: seq<string>)
    requires rows == ["1", "10", "100", "2024"]
    ensures JoinLines(rows) == "1\n10\n100\n2024\n"
  {
    assert rows[4..] == [];
    assert JoinLines(rows[3..]) == "2024\n";
    assert JoinLines(rows[2..]) == "100\n2024\n";
    assert JoinLines(rows[1..]) == "10\n100\n2024\n";
  }

  lemma SeedLinesPlain(rows: seq<string>)
    requires rows == ["1", "10", "100", "2024"]
    ensures forall i :: 0 <= i < |rows| ==> PlainLine(rows[i])
  {
  }

  /** The input "1", "10", "100", "2024", one per line, reads as those
      four seeds. */
  lemma ParseExample()
    ensures ParseInput("1\n10\n100\n2024\n") == Some([1, 10, 100, 2024])
  {
    hide Lines, JoinLines, Show, ParseU64, ParseNat, ParseDigits, DecimalValue;
    var rows := ["1", "10", "100", "2024"];
    SeedLines(rows);
    SeedLinesPlain(rows);
    LinesOfJoinLines(rows);
    ShowSeeds();
    ReadsAs(1, rows[0]);
    ReadsAs(10, rows[1]);
    ReadsAs(100, rows[2]);
    ReadsAs(2024, rows[3]);
    var r := ParseSeeds(rows);
    assert r.value == [1, 10, 100, 2024];
  }

  /** The ten secrets after 123. */
  lemma Secrets123()
    ensures Secret(123, 1) == 15887950
    ensures Secret(123, 2) == 16495136
    ensures Secret(123, 3) == 527345
    ensures Secret(123, 4) == 704524
    ensures Secret(123, 5) == 1553684
    ensures Secret(123, 6) == 12683156
    ensures Secret(123, 7) == 11100544
    ensures Secret(123, 8) == 12249484
    ensures Secret(123, 9) == 7753432
    ensures Secret(123, 10) == 5908254
  {
    hide NextSecretOf;
    From123();
    From15887950();
    From16495136();
    From527345();
    From704524();
    From1553684();
    From12683156();
    From11100544();
    From12249484();
    From7753432();
  }
}
