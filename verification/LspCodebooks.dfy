/** The codebooks of the line spectral frequency quantizer, in Q13 (codebooks.c). The entry types
    record the ranges that keep sums of entries far from the 16-bit limits. */
module LspCodebooks {
  type FirstEntry = x: int | 0 <= x <= 24000
  type SecondEntry = x: int | -1800 <= x <= 2400

  /** The ranges of the ten entries of a first-stage row, and their least distances. */
  predicate FirstShape(row: seq<int>) {
    && |row| == 10
    && 679 <= row[0] <= 4499 && 1411 <= row[1] <= 6604 && 2395 <= row[2] <= 9596 && 3322 <= row[3] <= 11742
    && 5640 <= row[4] <= 14413 && 7297 <= row[5] <= 16080 && 10597 <= row[6] <= 18330
    && 12161 <= row[7] <= 19856 && 16047 <= row[8] <= 21830 && 17514 <= row[9] <= 23533
    && row[1] - row[0] >= 549 && row[2] - row[1] >= 440 && row[3] - row[2] >= 628
    && row[4] - row[3] >= 816 && row[5] - row[4] >= 1058 && row[6] - row[5] >= 1193
    && row[7] - row[6] >= 627 && row[8] - row[7] >= 817 && row[9] - row[8] >= 511
  }

  /** The ranges of a second-stage row, and by how much an upper entry can exceed a later one. */
  predicate SecondShape(row: seq<int>) {
    && |row| == 10
    && -1596 <= row[0] <= 2197 && -1237 <= row[1] <= 2337 && -1280 <= row[2] <= 1568 && -1260 <= row[3] <= 1660
    && -1468 <= row[4] <= 1733 && -1182 <= row[5] <= 1549 && -1752 <= row[6] <= 1341
    && -1247 <= row[7] <= 1640 && -1633 <= row[8] <= 1517 && -1296 <= row[9] <= 2223
    && row[7] - row[8] <= 1749 && row[7] - row[9] <= 2250 && row[8] - row[9] <= 1021 && row[6] - row[8] <= 1995 && row[6] - row[9] <= 1910
  }

  /** A row of the first stage, with its shape checked entry by entry. */
  function FirstRow(a: int, b: int, c: int, d: int, e: int, f: int, g: int, h: int, i: int, j: int): (row: seq<FirstEntry>)
    requires 679 <= a <= 4499 && 1411 <= b <= 6604 && 2395 <= c <= 9596 && 3322 <= d <= 11742 && 5640 <= e <= 14413
    requires 7297 <= f <= 16080 && 10597 <= g <= 18330 && 12161 <= h <= 19856 && 16047 <= i <= 21830 && 17514 <= j <= 23533
    requires b - a >= 549 && c - b >= 440 && d - c >= 628 && e - d >= 816 && f - e >= 1058
    requires g - f >= 1193 && h - g >= 627 && i - h >= 817 && j - i >= 511
    ensures |row| == 10 && FirstShape(row)
  {
    [a, b, c, d, e, f, g, h, i, j]
  }

  /** A row of the second stage. */
  function SecondRow(a: int, b: int, c: int, d: int, e: int, f: int, g: int, h: int, i: int, j: int): (row: seq<SecondEntry>)
    requires -1596 <= a <= 2197 && -1237 <= b <= 2337 && -1280 <= c <= 1568 && -1260 <= d <= 1660 && -1468 <= e <= 1733
    requires -1182 <= f <= 1549 && -1752 <= g <= 1341 && -1247 <= h <= 1640 && -1633 <= i <= 1517 && -1296 <= j <= 2223
    requires h - i <= 1749 && h - j <= 2250 && i - j <= 1021 && g - i <= 1995 && g - j <= 1910
    ensures |row| == 10 && SecondShape(row)
  {
    [a, b, c, d, e, f, g, h, i, j]
  }

  /** Codebook L1. */
  function FirstStage(n: nat): (row: seq<FirstEntry>)
    requires n < 128
    ensures |row| == 10 && FirstShape(row)
  {
    if n < 32 then FirstStageA(n)
    else if n < 64 then FirstStageB(n - 32)
    else if n < 96 then FirstStageC(n - 64)
    else FirstStageD(n - 96)
  }

  function FirstStageA(n: nat): (row: seq<FirstEntry>)
    requires n < 32
    ensures |row| == 10 && FirstShape(row)
  {
    match n
    case 0 => FirstRow(1486, 2168, 3751, 9074, 12134, 13944, 17983, 19173, 21190, 21820)
    case 1 => FirstRow(1730, 2640, 3450, 4870, 6126, 7876, 15644, 17817, 20294, 21902)
    case 2 => FirstRow(1568, 2256, 3088, 4874, 11063, 13393, 18307, 19293, 21109, 21741)
    case 3 => FirstRow(1733, 2512, 3357, 4708, 6977, 10296, 17024, 17956, 19145, 20350)
    case 4 => FirstRow(1744, 2436, 3308, 8731, 10432, 12007, 15614, 16639, 21359, 21913)
    case 5 => FirstRow(1786, 2369, 3372, 4521, 6795, 12963, 17674, 18988, 20855, 21640)
    case 6 => FirstRow(1631, 2433, 3361, 6328, 10709, 12013, 13277, 13904, 19441, 21088)
    case 7 => FirstRow(1489, 2364, 3291, 6250, 9227, 10403, 13843, 15278, 17721, 21451)
    case 8 => FirstRow(1869, 2533, 3475, 4365, 9152, 14513, 15908, 17022, 20611, 21411)
    case 9 => FirstRow(2070, 3025, 4333, 5854, 7805, 9231, 10597, 16047, 20109, 21834)
    case 10 => FirstRow(1910, 2673, 3419, 4261, 11168, 15111, 16577, 17591, 19310, 20265)
    case 11 => FirstRow(1141, 1815, 2624, 4623, 6495, 9588, 13968, 16428, 19351, 21286)
    case 12 => FirstRow(2192, 3171, 4707, 5808, 10904, 12500, 14162, 15664, 21124, 21789)
    case 13 => FirstRow(1286, 1907, 2548, 3453, 9574, 11964, 15978, 17344, 19691, 22495)
    case 14 => FirstRow(1921, 2720, 4604, 6684, 11503, 12992, 14350, 15262, 16997, 20791)
    case 15 => FirstRow(2052, 2759, 3897, 5246, 6638, 10267, 15834, 16814, 18149, 21675)
    case 16 => FirstRow(1798, 2497, 5617, 11449, 13189, 14711, 17050, 18195, 20307, 21182)
    case 17 => FirstRow(1009, 1647, 2889, 5709, 9541, 12354, 15231, 18494, 20966, 22033)
    case 18 => FirstRow(3016, 3794, 5406, 7469, 12488, 13984, 15328, 16334, 19952, 20791)
    case 19 => FirstRow(2203, 3040, 3796, 5442, 11987, 13512, 14931, 16370, 17856, 18803)
    case 20 => FirstRow(2912, 4292, 7988, 9572, 11562, 13244, 14556, 16529, 20004, 21073)
    case 21 => FirstRow(2861, 3607, 5923, 7034, 9234, 12054, 13729, 18056, 20262, 20974)
    case 22 => FirstRow(3069, 4311, 5967, 7367, 11482, 12699, 14309, 16233, 18333, 19172)
    case 23 => FirstRow(2434, 3661, 4866, 5798, 10383, 11722, 13049, 15668, 18862, 19831)
    case 24 => FirstRow(2020, 2605, 3860, 9241, 13275, 14644, 16010, 17099, 19268, 20251)
    case 25 => FirstRow(1877, 2809, 3590, 4707, 11056, 12441, 15622, 17168, 18761, 19907)
    case 26 => FirstRow(2107, 2873, 3673, 5799, 13579, 14687, 15938, 17077, 18890, 19831)
    case 27 => FirstRow(1612, 2284, 2944, 3572, 8219, 13959, 15924, 17239, 18592, 20117)
    case 28 => FirstRow(2420, 3156, 6542, 10215, 12061, 13534, 15305, 16452, 18717, 19880)
    case 29 => FirstRow(1667, 2612, 3534, 5237, 10513, 11696, 12940, 16798, 18058, 19378)
    case 30 => FirstRow(2388, 3017, 4839, 9333, 11413, 12730, 15024, 16248, 17449, 18677)
    case _ => FirstRow(1875, 2786, 4231, 6320, 8694, 10149, 11785, 17013, 18608, 19960)
  }

  function FirstStageB(n: nat): (row: seq<FirstEntry>)
    requires n < 32
    ensures |row| == 10 && FirstShape(row)
  {
    match n
    case 0 => FirstRow(679, 1411, 4654, 8006, 11446, 13249, 15763, 18127, 20361, 21567)
    case 1 => FirstRow(1838, 2596, 3578, 4608, 5650, 11274, 14355, 15886, 20579, 21754)
    case 2 => FirstRow(1303, 1955, 2395, 3322, 12023, 13764, 15883, 18077, 20180, 21232)
    case 3 => FirstRow(1438, 2102, 2663, 3462, 8328, 10362, 13763, 17248, 19732, 22344)
    case 4 => FirstRow(860, 1904, 6098, 7775, 9815, 12007, 14821, 16709, 19787, 21132)
    case 5 => FirstRow(1673, 2723, 3704, 6125, 7668, 9447, 13683, 14443, 20538, 21731)
    case 6 => FirstRow(1246, 1849, 2902, 4508, 7221, 12710, 14835, 16314, 19335, 22720)
    case 7 => FirstRow(1525, 2260, 3862, 5659, 7342, 11748, 13370, 14442, 18044, 21334)
    case 8 => FirstRow(1196, 1846, 3104, 7063, 10972, 12905, 14814, 17037, 19922, 22636)
    case 9 => FirstRow(2147, 3106, 4475, 6511, 8227, 9765, 10984, 12161, 18971, 21300)
    case 10 => FirstRow(1585, 2405, 2994, 4036, 11481, 13177, 14519, 15431, 19967, 21275)
    case 11 => FirstRow(1778, 2688, 3614, 4680, 9465, 11064, 12473, 16320, 19742, 20800)
    case 12 => FirstRow(1862, 2586, 3492, 6719, 11708, 13012, 14364, 16128, 19610, 20425)
    case 13 => FirstRow(1395, 2156, 2669, 3386, 10607, 12125, 13614, 16705, 18976, 21367)
    case 14 => FirstRow(1444, 2117, 3286, 6233, 9423, 12981, 14998, 15853, 17188, 21857)
    case 15 => FirstRow(2004, 2895, 3783, 4897, 6168, 7297, 12609, 16445, 19297, 21465)
    case 16 => FirstRow(1495, 2863, 6360, 8100, 11399, 14271, 15902, 17711, 20479, 22061)
    case 17 => FirstRow(2484, 3114, 5718, 7097, 8400, 12616, 14073, 14847, 20535, 21396)
    case 18 => FirstRow(2424, 3277, 5296, 6284, 11290, 12903, 16022, 17508, 19333, 20283)
    case 19 => FirstRow(2565, 3778, 5360, 6989, 8782, 10428, 14390, 15742, 17770, 21734)
    case 20 => FirstRow(2727, 3384, 6613, 9254, 10542, 12236, 14651, 15687, 20074, 21102)
    case 21 => FirstRow(1916, 2953, 6274, 8088, 9710, 10925, 12392, 16434, 20010, 21183)
    case 22 => FirstRow(3384, 4366, 5349, 7667, 11180, 12605, 13921, 15324, 19901, 20754)
    case 23 => FirstRow(3075, 4283, 5951, 7619, 9604, 11010, 12384, 14006, 20658, 21497)
    case 24 => FirstRow(1751, 2455, 5147, 9966, 11621, 13176, 14739, 16470, 20788, 21756)
    case 25 => FirstRow(1442, 2188, 3330, 6813, 8929, 12135, 14476, 15306, 19635, 20544)
    case 26 => FirstRow(2294, 2895, 4070, 8035, 12233, 13416, 14762, 17367, 18952, 19688)
    case 27 => FirstRow(1937, 2659, 4602, 6697, 9071, 12863, 14197, 15230, 16047, 18877)
    case 28 => FirstRow(2071, 2663, 4216, 9445, 10887, 12292, 13949, 14909, 19236, 20341)
    case 29 => FirstRow(1740, 2491, 3488, 8138, 9656, 11153, 13206, 14688, 20896, 21907)
    case 30 => FirstRow(2199, 2881, 4675, 8527, 10051, 11408, 14435, 15463, 17190, 20597)
    case _ => FirstRow(1943, 2988, 4177, 6039, 7478, 8536, 14181, 15551, 17622, 21579)
  }

  function FirstStageC(n: nat): (row: seq<FirstEntry>)
    requires n < 32
    ensures |row| == 10 && FirstShape(row)
  {
    match n
    case 0 => FirstRow(1825, 3175, 7062, 9818, 12824, 15450, 18330, 19856, 21830, 22412)
    case 1 => FirstRow(2464, 3046, 4822, 5977, 7696, 15398, 16730, 17646, 20588, 21320)
    case 2 => FirstRow(2550, 3393, 5305, 6920, 10235, 14083, 18143, 19195, 20681, 21336)
    case 3 => FirstRow(3003, 3799, 5321, 6437, 7919, 11643, 15810, 16846, 18119, 18980)
    case 4 => FirstRow(3455, 4157, 6838, 8199, 9877, 12314, 15905, 16826, 19949, 20892)
    case 5 => FirstRow(3052, 3769, 4891, 5810, 6977, 10126, 14788, 15990, 19773, 20904)
    case 6 => FirstRow(3671, 4356, 5827, 6997, 8460, 12084, 14154, 14939, 19247, 20423)
    case 7 => FirstRow(2716, 3684, 5246, 6686, 8463, 10001, 12394, 14131, 16150, 19776)
    case 8 => FirstRow(1945, 2638, 4130, 7995, 14338, 15576, 17057, 18206, 20225, 20997)
    case 9 => FirstRow(2304, 2928, 4122, 4824, 5640, 13139, 15825, 16938, 20108, 21054)
    case 10 => FirstRow(1800, 2516, 3350, 5219, 13406, 15948, 17618, 18540, 20531, 21252)
    case 11 => FirstRow(1436, 2224, 2753, 4546, 9657, 11245, 15177, 16317, 17489, 19135)
    case 12 => FirstRow(2319, 2899, 4980, 6936, 8404, 13489, 15554, 16281, 20270, 20911)
    case 13 => FirstRow(2187, 2919, 4610, 5875, 7390, 12556, 14033, 16794, 20998, 21769)
    case 14 => FirstRow(2235, 2923, 5121, 6259, 8099, 13589, 15340, 16340, 17927, 20159)
    case 15 => FirstRow(1765, 2638, 3751, 5730, 7883, 10108, 13633, 15419, 16808, 18574)
    case 16 => FirstRow(3460, 5741, 9596, 11742, 14413, 16080, 18173, 19090, 20845, 21601)
    case 17 => FirstRow(3735, 4426, 6199, 7363, 9250, 14489, 16035, 17026, 19873, 20876)
    case 18 => FirstRow(3521, 4778, 6887, 8680, 12717, 14322, 15950, 18050, 20166, 21145)
    case 19 => FirstRow(2141, 2968, 6865, 8051, 10010, 13159, 14813, 15861, 17528, 18655)
    case 20 => FirstRow(4148, 6128, 9028, 10871, 12686, 14005, 15976, 17208, 19587, 20595)
    case 21 => FirstRow(4403, 5367, 6634, 8371, 10163, 11599, 14963, 16331, 17982, 18768)
    case 22 => FirstRow(4091, 5386, 6852, 8770, 11563, 13290, 15728, 16930, 19056, 20102)
    case 23 => FirstRow(2746, 3625, 5299, 7504, 10262, 11432, 13172, 15490, 16875, 17514)
    case 24 => FirstRow(2248, 3556, 8539, 10590, 12665, 14696, 16515, 17824, 20268, 21247)
    case 25 => FirstRow(1279, 1960, 3920, 7793, 10153, 14753, 16646, 18139, 20679, 21466)
    case 26 => FirstRow(2440, 3475, 6737, 8654, 12190, 14588, 17119, 17925, 19110, 19979)
    case 27 => FirstRow(1879, 2514, 4497, 7572, 10017, 14948, 16141, 16897, 18397, 19376)
    case 28 => FirstRow(2804, 3688, 7490, 10086, 11218, 12711, 16307, 17470, 20077, 21126)
    case 29 => FirstRow(2023, 2682, 3873, 8268, 10255, 11645, 15187, 17102, 18965, 19788)
    case 30 => FirstRow(2823, 3605, 5815, 8595, 10085, 11469, 16568, 17462, 18754, 19876)
    case _ => FirstRow(2851, 3681, 5280, 7648, 9173, 10338, 14961, 16148, 17559, 18474)
  }

  function FirstStageD(n: nat): (row: seq<FirstEntry>)
    requires n < 32
    ensures |row| == 10 && FirstShape(row)
  {
    match n
    case 0 => FirstRow(1348, 2645, 5826, 8785, 10620, 12831, 16255, 18319, 21133, 22586)
    case 1 => FirstRow(2141, 3036, 4293, 6082, 7593, 10629, 17158, 18033, 21466, 22084)
    case 2 => FirstRow(1608, 2375, 3384, 6878, 9970, 11227, 16928, 17650, 20185, 21120)
    case 3 => FirstRow(2774, 3616, 5014, 6557, 7788, 8959, 17068, 18302, 19537, 20542)
    case 4 => FirstRow(1934, 4813, 6204, 7212, 8979, 11665, 15989, 17811, 20426, 21703)
    case 5 => FirstRow(2288, 3507, 5037, 6841, 8278, 9638, 15066, 16481, 21653, 22214)
    case 6 => FirstRow(2951, 3771, 4878, 7578, 9016, 10298, 14490, 15242, 20223, 20990)
    case 7 => FirstRow(3256, 4791, 6601, 7521, 8644, 9707, 13398, 16078, 19102, 20249)
    case 8 => FirstRow(1827, 2614, 3486, 6039, 12149, 13823, 16191, 17282, 21423, 22041)
    case 9 => FirstRow(1000, 1704, 3002, 6335, 8471, 10500, 14878, 16979, 20026, 22427)
    case 10 => FirstRow(1646, 2286, 3109, 7245, 11493, 12791, 16824, 17667, 18981, 20222)
    case 11 => FirstRow(1708, 2501, 3315, 6737, 8729, 9924, 16089, 17097, 18374, 19917)
    case 12 => FirstRow(2623, 3510, 4478, 5645, 9862, 11115, 15219, 18067, 19583, 20382)
    case 13 => FirstRow(2518, 3434, 4728, 6388, 8082, 9285, 13162, 18383, 19819, 20552)
    case 14 => FirstRow(1726, 2383, 4090, 6303, 7805, 12845, 14612, 17608, 19269, 20181)
    case 15 => FirstRow(2860, 3735, 4838, 6044, 7254, 8402, 14031, 16381, 18037, 19410)
    case 16 => FirstRow(4247, 5993, 7952, 9792, 12342, 14653, 17527, 18774, 20831, 21699)
    case 17 => FirstRow(3502, 4051, 5680, 6805, 8146, 11945, 16649, 17444, 20390, 21564)
    case 18 => FirstRow(3151, 4893, 5899, 7198, 11418, 13073, 15124, 17673, 20520, 21861)
    case 19 => FirstRow(3960, 4848, 5926, 7259, 8811, 10529, 15661, 16560, 18196, 20183)
    case 20 => FirstRow(4499, 6604, 8036, 9251, 10804, 12627, 15880, 17512, 20020, 21046)
    case 21 => FirstRow(4251, 5541, 6654, 8318, 9900, 11686, 15100, 17093, 20572, 21687)
    case 22 => FirstRow(3769, 5327, 7865, 9360, 10684, 11818, 13660, 15366, 18733, 19882)
    case 23 => FirstRow(3083, 3969, 6248, 8121, 9798, 10994, 12393, 13686, 17888, 19105)
    case 24 => FirstRow(2731, 4670, 7063, 9201, 11346, 13735, 16875, 18797, 20787, 22360)
    case 25 => FirstRow(1187, 2227, 4737, 7214, 9622, 12633, 15404, 17968, 20262, 23533)
    case 26 => FirstRow(1911, 2477, 3915, 10098, 11616, 12955, 16223, 17138, 19270, 20729)
    case 27 => FirstRow(1764, 2519, 3887, 6944, 9150, 12590, 16258, 16984, 17924, 18435)
    case 28 => FirstRow(1400, 3674, 7131, 8718, 10688, 12508, 15708, 17711, 19720, 21068)
    case 29 => FirstRow(2322, 3073, 4287, 8108, 9407, 10628, 15862, 16693, 19714, 21474)
    case 30 => FirstRow(2630, 3339, 4758, 8360, 10274, 11333, 12880, 17374, 19221, 19936)
    case _ => FirstRow(1721, 2577, 5553, 7195, 8651, 10686, 15069, 16953, 18703, 19929)
  }

  /** Codebooks L2 and L3 side by side. */
  function SecondStage(n: nat): (row: seq<SecondEntry>)
    requires n < 32
    ensures |row| == 10 && SecondShape(row)
  {
    match n
    case 0 => SecondRow(-435, -815, -742, 1033, -518, 582, -1201, 829, 86, 385)
    case 1 => SecondRow(-833, -891, 463, -8, -1251, 1450, 72, -231, 864, 661)
    case 2 => SecondRow(-1021, 231, -306, 321, -220, -163, -526, -754, -1633, 267)
    case 3 => SecondRow(57, -198, -339, -33, -1468, 573, 796, -169, -631, 816)
    case 4 => SecondRow(171, -350, 294, 1660, 453, 519, 291, 159, -640, -1296)
    case 5 => SecondRow(-701, -842, -58, 950, 892, 1549, 715, 527, -714, -193)
    case 6 => SecondRow(584, 31, -289, 356, -333, -457, 612, -283, -1381, -741)
    case 7 => SecondRow(-109, -808, 231, 77, -87, -344, 1341, 1087, -654, -569)
    case 8 => SecondRow(-859, 1236, 550, 854, 714, -543, -1752, -195, -98, -276)
    case 9 => SecondRow(-877, -954, -1248, -299, 212, -235, -728, 949, 1517, 895)
    case 10 => SecondRow(-77, 344, -620, 763, 413, 502, -362, -960, -483, 1386)
    case 11 => SecondRow(-314, -307, -256, -1260, -429, 450, -466, -108, 1010, 2223)
    case 12 => SecondRow(711, 693, 521, 650, 1305, -28, -378, 744, -1005, 240)
    case 13 => SecondRow(-112, -271, -500, 946, 1733, 271, -15, 909, -259, 1688)
    case 14 => SecondRow(575, -10, -468, -199, 1101, -1011, 581, -53, -747, 878)
    case 15 => SecondRow(145, -285, -1280, -398, 36, -498, -1377, 18, -444, 1483)
    case 16 => SecondRow(-1133, -835, 1350, 1284, -95, 1015, -222, 443, 372, -354)
    case 17 => SecondRow(-1459, -1237, 416, -213, 466, 669, 659, 1640, 932, 534)
    case 18 => SecondRow(-15, 66, 468, 1019, -748, 1385, -182, -907, -721, -262)
    case 19 => SecondRow(-338, 148, 1445, 75, -760, 569, 1247, 337, 416, -121)
    case 20 => SecondRow(389, 239, 1568, 981, 113, 369, -1003, -507, -587, -904)
    case 21 => SecondRow(-312, -98, 949, 31, 1104, 72, -141, 1465, 63, -785)
    case 22 => SecondRow(1127, 584, 835, 277, -1159, 208, 301, -882, 117, -404)
    case 23 => SecondRow(539, -114, 856, -493, 223, -912, 623, -76, 276, -440)
    case 24 => SecondRow(2197, 2337, 1268, 670, 304, -267, -525, 140, 882, -139)
    case 25 => SecondRow(-1596, 550, 801, -456, -56, -697, 865, 1060, 413, 446)
    case 26 => SecondRow(1154, 593, -77, 1237, -31, 581, -1037, -895, 669, 297)
    case 27 => SecondRow(397, 558, 203, -797, -919, 3, 692, -292, 1050, 782)
    case 28 => SecondRow(334, 1475, 632, -80, 48, -1061, -484, 362, -597, -852)
    case 29 => SecondRow(-545, -330, -429, -680, 1133, -1182, -744, 1340, 262, 63)
    case 30 => SecondRow(1320, 827, -398, -576, 341, -774, -483, -1247, -70, 98)
    case _ => SecondRow(-163, 674, -11, -886, 531, -1125, -265, -242, 724, 934)
  }
}
