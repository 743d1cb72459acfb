/**
 * The constant tables of src/GetLocation.cpp built from tzdb 2021a: the
 * POSIX time-zone strings (`posix`, src/GetLocation.cpp:30-132) and the
 * zone index (`zones`, src/GetLocation.cpp:136-735) that maps the 21-bit
 * FNV-1a hash of an Olson name to a position in `posix`.  The zone index is
 * written in chunks of forty entries so that its well-formedness can be
 * checked chunk by chunk.
 */
module TzTable {

  /** One `zones` entry: a 24-bit `hash` bit-field and an 8-bit `posix` index. */
  datatype Zone = Zone(hash: int, posix: int)

  /** The number of POSIX strings. */
  const NumPosix := 101

  /** The lookup key mask applied to the 32-bit hash. */
  const Mask: bv32 := 0x1fffff

  /** `posix`, in three parts (entries 0-39, 40-79 and 80-100). */
  const Posix: seq<string> := Posix0 + Posix1 + Posix2

  const Posix0: seq<string> := [
    "GMT0",
    "EAT-3",
    "CET-1",
    "WAT-1",
    "CAT-2",
    "EET-2",
    "<+01>-1",
    "CET-1CEST,M3.5.0,M10.5.0/3",
    "SAST-2",
    "HST10HDT,M3.2.0,M11.1.0",
    "AKST9AKDT,M3.2.0,M11.1.0",
    "AST4",
    "<-03>3",
    "<-04>4<-03>,M10.1.0/0,M3.4.0/0",
    "EST5",
    "CST6CDT,M4.1.0,M10.5.0",
    "CST6",
    "<-04>4",
    "<-05>5",
    "MST7MDT,M3.2.0,M11.1.0",
    "CST6CDT,M3.2.0,M11.1.0",
    "MST7MDT,M4.1.0,M10.5.0",
    "MST7",
    "EST5EDT,M3.2.0,M11.1.0",
    "PST8PDT,M3.2.0,M11.1.0",
    "AST4ADT,M3.2.0,M11.1.0",
    "<-03>3<-02>,M3.5.0/-2,M10.5.0/-1",
    "CST5CDT,M3.2.0/0,M11.1.0/1",
    "<-03>3<-02>,M3.2.0,M11.1.0",
    "<-02>2",
    "<-04>4<-03>,M9.1.6/24,M4.1.6/24",
    "<-01>1<+00>,M3.5.0/0,M10.5.0/1",
    "NST3:30NDT,M3.2.0,M11.1.0",
    "<+11>-11",
    "<+07>-7",
    "<+10>-10",
    "AEST-10AEDT,M10.1.0,M4.1.0/3",
    "<+05>-5",
    "NZST-12NZDT,M9.5.0,M4.1.0/3",
    "<+03>-3"
  ]

  const Posix1: seq<string> := [
    "<+00>0<+02>-2,M3.5.0/1,M10.5.0/3",
    "<+06>-6",
    "EET-2EEST,M3.5.4/24,M10.5.5/1",
    "<+12>-12",
    "<+04>-4",
    "EET-2EEST,M3.5.0/0,M10.5.0/0",
    "<+08>-8",
    "IST-5:30",
    "<+09>-9",
    "CST-8",
    "<+0530>-5:30",
    "EET-2EEST,M3.5.5/0,M10.5.5/0",
    "EET-2EEST,M3.5.0/3,M10.5.0/4",
    "EET-2EEST,M3.4.4/48,M10.4.4/49",
    "HKT-8",
    "WIB-7",
    "WIT-9",
    "IST-2IDT,M3.4.4/26,M10.5.0",
    "<+0430>-4:30",
    "PKT-5",
    "<+0545>-5:45",
    "WITA-8",
    "PST-8",
    "KST-9",
    "<+0630>-6:30",
    "<+0330>-3:30<+0430>,J79/24,J263/24",
    "JST-9",
    "WET0WEST,M3.5.0/1,M10.5.0",
    "<-01>1",
    "ACST-9:30ACDT,M10.1.0,M4.1.0/3",
    "AEST-10",
    "ACST-9:30",
    "<+0845>-8:45",
    "<+1030>-10:30<+11>-11,M10.1.0,M4.1.0",
    "AWST-8",
    "<-06>6<-05>,M9.1.6/22,M4.1.6/22",
    "IST-1GMT0,M10.5.0,M3.5.0/1",
    "<-10>10",
    "<-11>11",
    "<-12>12"
  ]

  const Posix2: seq<string> := [
    "<-06>6",
    "<-07>7",
    "<-08>8",
    "<-09>9",
    "<+13>-13",
    "<+14>-14",
    "<+02>-2",
    "UTC0",
    "GMT0BST,M3.5.0/1,M10.5.0",
    "EET-2EEST,M3.5.0,M10.5.0/3",
    "MSK-3",
    "<-00>0",
    "HST10",
    "MET-1MEST,M3.5.0,M10.5.0/3",
    "<+1245>-12:45<+1345>,M9.5.0/2:45,M4.1.0/3:45",
    "<+13>-13<+14>,M9.5.0/3,M4.1.0/4",
    "<+12>-12<+13>,M11.2.0,M1.2.3/99",
    "ChST-10",
    "<-0930>9:30",
    "SST11",
    "<+11>-11<+12>,M10.1.0,M4.1.0/3"
  ]

  const Chunk0: seq<Zone> := [
    Zone(3052, 0),
    Zone(3177, 12),
    Zone(5424, 77),
    Zone(6596, 29),
    Zone(8404, 99),
    Zone(16206, 88),
    Zone(23764, 7),
    Zone(25742, 70),
    Zone(28550, 52),
    Zone(33699, 41),
    Zone(34704, 88),
    Zone(39895, 97),
    Zone(43289, 19),
    Zone(43535, 43),
    Zone(45558, 17),
    Zone(46140, 12),
    Zone(47414, 54),
    Zone(47637, 9),
    Zone(56581, 16),
    Zone(57398, 78),
    Zone(61482, 53),
    Zone(63824, 22),
    Zone(75452, 23),
    Zone(75610, 11),
    Zone(77251, 11),
    Zone(77667, 35),
    Zone(80762, 18),
    Zone(83533, 34),
    Zone(91050, 11),
    Zone(92809, 12),
    Zone(93028, 23),
    Zone(97827, 52),
    Zone(98146, 35),
    Zone(98189, 24),
    Zone(100383, 45),
    Zone(102841, 14),
    Zone(104536, 48),
    Zone(109229, 43),
    Zone(110344, 5),
    Zone(121092, 12)
  ]

  const Chunk1: seq<Zone> := [
    Zone(124286, 0),
    Zone(136540, 90),
    Zone(138335, 11),
    Zone(153557, 55),
    Zone(156843, 52),
    Zone(160344, 37),
    Zone(161461, 65),
    Zone(165199, 20),
    Zone(166924, 33),
    Zone(172026, 3),
    Zone(186333, 7),
    Zone(190474, 87),
    Zone(191305, 93),
    Zone(193306, 7),
    Zone(195711, 97),
    Zone(196047, 92),
    Zone(200499, 49),
    Zone(201322, 0),
    Zone(201945, 52),
    Zone(208700, 48),
    Zone(210977, 49),
    Zone(221293, 46),
    Zone(222990, 38),
    Zone(226052, 16),
    Zone(232294, 33),
    Zone(241713, 40),
    Zone(245936, 7),
    Zone(250998, 36),
    Zone(251033, 23),
    Zone(262983, 1),
    Zone(267738, 34),
    Zone(270075, 23),
    Zone(274113, 29),
    Zone(276475, 7),
    Zone(277285, 84),
    Zone(279399, 61),
    Zone(281938, 19),
    Zone(285314, 88),
    Zone(288178, 94),
    Zone(288555, 73)
  ]

  const Chunk2: seq<Zone> := [
    Zone(289636, 25),
    Zone(290785, 12),
    Zone(296680, 62),
    Zone(300125, 20),
    Zone(303007, 19),
    Zone(303455, 41),
    Zone(307480, 37),
    Zone(309993, 44),
    Zone(310155, 12),
    Zone(318936, 85),
    Zone(320548, 35),
    Zone(320951, 33),
    Zone(321354, 43),
    Zone(321757, 84),
    Zone(322216, 36),
    Zone(325064, 14),
    Zone(329953, 15),
    Zone(335595, 21),
    Zone(337525, 23),
    Zone(344612, 20),
    Zone(346512, 49),
    Zone(349954, 0),
    Zone(350456, 1),
    Zone(362265, 90),
    Zone(367282, 12),
    Zone(375886, 12),
    Zone(379069, 34),
    Zone(384126, 23),
    Zone(385136, 3),
    Zone(392475, 12),
    Zone(395160, 67),
    Zone(398176, 36),
    Zone(402710, 43),
    Zone(407955, 44),
    Zone(419965, 16),
    Zone(421329, 38),
    Zone(427478, 10),
    Zone(429402, 49),
    Zone(431351, 41),
    Zone(431659, 0)
  ]

  const Chunk3: seq<Zone> := [
    Zone(431737, 19),
    Zone(431765, 7),
    Zone(445829, 0),
    Zone(448725, 6),
    Zone(456379, 60),
    Zone(457803, 24),
    Zone(459497, 23),
    Zone(461661, 61),
    Zone(461663, 15),
    Zone(464955, 4),
    Zone(467586, 67),
    Zone(492113, 88),
    Zone(492850, 88),
    Zone(498759, 22),
    Zone(501621, 12),
    Zone(512398, 0),
    Zone(513033, 12),
    Zone(513738, 37),
    Zone(516616, 99),
    Zone(516962, 49),
    Zone(519199, 12),
    Zone(520109, 91),
    Zone(525358, 41),
    Zone(526318, 89),
    Zone(529695, 63),
    Zone(529783, 15),
    Zone(532919, 49),
    Zone(537346, 21),
    Zone(540603, 1),
    Zone(556011, 2),
    Zone(562127, 11),
    Zone(569631, 0),
    Zone(569859, 11),
    Zone(570340, 10),
    Zone(573129, 44),
    Zone(583325, 35),
    Zone(586628, 11),
    Zone(587591, 10),
    Zone(595614, 20),
    Zone(601710, 1)
  ]

  const Chunk4: seq<Zone> := [
    Zone(604958, 36),
    Zone(609925, 57),
    Zone(611845, 7),
    Zone(614930, 0),
    Zone(621209, 11),
    Zone(626509, 59),
    Zone(627717, 98),
    Zone(639134, 11),
    Zone(639738, 33),
    Zone(645690, 64),
    Zone(648563, 0),
    Zone(653866, 77),
    Zone(657702, 8),
    Zone(657734, 1),
    Zone(661560, 46),
    Zone(663785, 33),
    Zone(671411, 12),
    Zone(675419, 39),
    Zone(679096, 7),
    Zone(681504, 14),
    Zone(683109, 35),
    Zone(685444, 41),
    Zone(685809, 23),
    Zone(688338, 19),
    Zone(690567, 11),
    Zone(692618, 30),
    Zone(692891, 7),
    Zone(695903, 46),
    Zone(696273, 7),
    Zone(697408, 46),
    Zone(702292, 21),
    Zone(703920, 37),
    Zone(707873, 33),
    Zone(711703, 23),
    Zone(711788, 41),
    Zone(711799, 38),
    Zone(712423, 4),
    Zone(712988, 7),
    Zone(716645, 1),
    Zone(717463, 12)
  ]

  const Chunk5: seq<Zone> := [
    Zone(730803, 43),
    Zone(732255, 37),
    Zone(736937, 41),
    Zone(737384, 7),
    Zone(737794, 39),
    Zone(745820, 19),
    Zone(746366, 66),
    Zone(746788, 48),
    Zone(749066, 5),
    Zone(751039, 37),
    Zone(765182, 41),
    Zone(770053, 48),
    Zone(778195, 0),
    Zone(779608, 14),
    Zone(790313, 74),
    Zone(790984, 44),
    Zone(794645, 52),
    Zone(796867, 48),
    Zone(803253, 0),
    Zone(809639, 1),
    Zone(819359, 20),
    Zone(820461, 17),
    Zone(820802, 3),
    Zone(820968, 92),
    Zone(825000, 5),
    Zone(825021, 71),
    Zone(827251, 12),
    Zone(827271, 67),
    Zone(827378, 33),
    Zone(828715, 20),
    Zone(833473, 23),
    Zone(836835, 11),
    Zone(845698, 35),
    Zone(845934, 32),
    Zone(853628, 5),
    Zone(853804, 19),
    Zone(857365, 39),
    Zone(857780, 23),
    Zone(861210, 20),
    Zone(874038, 33)
  ]

  const Chunk6: seq<Zone> := [
    Zone(876028, 0),
    Zone(876382, 87),
    Zone(877492, 25),
    Zone(881218, 95),
    Zone(883583, 12),
    Zone(884797, 43),
    Zone(889468, 79),
    Zone(890274, 77),
    Zone(890677, 78),
    Zone(891082, 0),
    Zone(893463, 67),
    Zone(901474, 57),
    Zone(904171, 16),
    Zone(906508, 3),
    Zone(911377, 52),
    Zone(913956, 0),
    Zone(920547, 10),
    Zone(934775, 7),
    Zone(938682, 12),
    Zone(939645, 87),
    Zone(943222, 44),
    Zone(949217, 18),
    Zone(951063, 17),
    Zone(965414, 85),
    Zone(971533, 39),
    Zone(973205, 23),
    Zone(975038, 23),
    Zone(980806, 18),
    Zone(981204, 90),
    Zone(981929, 14),
    Zone(985401, 24),
    Zone(987190, 44),
    Zone(992722, 39),
    Zone(994235, 47),
    Zone(997374, 11),
    Zone(999887, 7),
    Zone(1000699, 66),
    Zone(1003911, 58),
    Zone(1005304, 63),
    Zone(1007821, 44)
  ]

  const Chunk7: seq<Zone> := [
    Zone(1014376, 10),
    Zone(1020394, 22),
    Zone(1021091, 67),
    Zone(1027658, 52),
    Zone(1028352, 16),
    Zone(1029516, 6),
    Zone(1039495, 36),
    Zone(1043921, 34),
    Zone(1046837, 33),
    Zone(1051310, 18),
    Zone(1052350, 70),
    Zone(1056374, 12),
    Zone(1060994, 11),
    Zone(1061054, 52),
    Zone(1062928, 11),
    Zone(1063980, 49),
    Zone(1064998, 37),
    Zone(1068205, 12),
    Zone(1072445, 4),
    Zone(1075218, 89),
    Zone(1084768, 3),
    Zone(1085336, 0),
    Zone(1086799, 69),
    Zone(1089024, 12),
    Zone(1089427, 29),
    Zone(1089830, 68),
    Zone(1090111, 4),
    Zone(1090233, 0),
    Zone(1090636, 81),
    Zone(1091039, 80),
    Zone(1091442, 18),
    Zone(1091845, 17),
    Zone(1093054, 83),
    Zone(1093457, 82),
    Zone(1094261, 0),
    Zone(1097463, 69),
    Zone(1104071, 14),
    Zone(1109219, 0),
    Zone(1109996, 88),
    Zone(1110416, 29)
  ]

  const Chunk8: seq<Zone> := [
    Zone(1112624, 44),
    Zone(1112853, 9),
    Zone(1114572, 23),
    Zone(1115282, 4),
    Zone(1118334, 42),
    Zone(1129135, 4),
    Zone(1130380, 7),
    Zone(1132822, 52),
    Zone(1138217, 7),
    Zone(1138914, 55),
    Zone(1147945, 12),
    Zone(1153584, 3),
    Zone(1153793, 37),
    Zone(1153929, 0),
    Zone(1162475, 52),
    Zone(1164709, 26),
    Zone(1166382, 41),
    Zone(1171420, 0),
    Zone(1173424, 24),
    Zone(1174363, 0),
    Zone(1175981, 12),
    Zone(1180279, 17),
    Zone(1181500, 23),
    Zone(1185412, 15),
    Zone(1186379, 7),
    Zone(1194669, 11),
    Zone(1196657, 36),
    Zone(1198798, 12),
    Zone(1199087, 39),
    Zone(1200829, 71),
    Zone(1203125, 52),
    Zone(1204987, 11),
    Zone(1208470, 54),
    Zone(1209491, 41),
    Zone(1210986, 72),
    Zone(1213061, 12),
    Zone(1215578, 17),
    Zone(1217188, 7),
    Zone(1217254, 25),
    Zone(1220402, 7)
  ]

  const Chunk9: seq<Zone> := [
    Zone(1221000, 24),
    Zone(1226645, 12),
    Zone(1228331, 27),
    Zone(1229346, 20),
    Zone(1229493, 96),
    Zone(1233986, 22),
    Zone(1235835, 39),
    Zone(1236962, 23),
    Zone(1238271, 92),
    Zone(1241695, 1),
    Zone(1241995, 4),
    Zone(1247746, 19),
    Zone(1248438, 23),
    Zone(1252962, 63),
    Zone(1254429, 0),
    Zone(1255107, 4),
    Zone(1256032, 52),
    Zone(1258171, 7),
    Zone(1263939, 7),
    Zone(1270740, 20),
    Zone(1271679, 19),
    Zone(1279015, 3),
    Zone(1283805, 20),
    Zone(1292061, 19),
    Zone(1296096, 25),
    Zone(1296855, 2),
    Zone(1303250, 37),
    Zone(1304112, 23),
    Zone(1306975, 43),
    Zone(1308115, 7),
    Zone(1316301, 3),
    Zone(1319533, 18),
    Zone(1337063, 87),
    Zone(1337990, 83),
    Zone(1338312, 1),
    Zone(1342523, 23),
    Zone(1344460, 12),
    Zone(1351228, 7),
    Zone(1361407, 34),
    Zone(1365325, 7)
  ]

  const Chunk10: seq<Zone> := [
    Zone(1368647, 19),
    Zone(1369907, 7),
    Zone(1371911, 69),
    Zone(1372423, 67),
    Zone(1377039, 12),
    Zone(1377848, 30),
    Zone(1379920, 68),
    Zone(1395088, 23),
    Zone(1405309, 12),
    Zone(1408594, 8),
    Zone(1411942, 100),
    Zone(1416215, 8),
    Zone(1417058, 15),
    Zone(1417591, 22),
    Zone(1419250, 36),
    Zone(1419657, 23),
    Zone(1425345, 99),
    Zone(1429596, 7),
    Zone(1429753, 82),
    Zone(1433103, 94),
    Zone(1436375, 20),
    Zone(1438897, 0),
    Zone(1446971, 35),
    Zone(1448104, 31),
    Zone(1453728, 4),
    Zone(1454891, 16),
    Zone(1456669, 56),
    Zone(1458268, 23),
    Zone(1459791, 34),
    Zone(1462267, 75),
    Zone(1475245, 11),
    Zone(1475507, 0),
    Zone(1485189, 20),
    Zone(1495084, 28),
    Zone(1504159, 22),
    Zone(1505373, 34),
    Zone(1510870, 92),
    Zone(1520618, 39),
    Zone(1525516, 37),
    Zone(1530094, 11)
  ]

  const Chunk11: seq<Zone> := [
    Zone(1532373, 11),
    Zone(1535924, 7),
    Zone(1540528, 12),
    Zone(1540992, 25),
    Zone(1544434, 13),
    Zone(1551375, 7),
    Zone(1556415, 22),
    Zone(1557856, 4),
    Zone(1559064, 31),
    Zone(1568759, 24),
    Zone(1570889, 9),
    Zone(1571112, 18),
    Zone(1578023, 41),
    Zone(1582037, 24),
    Zone(1598908, 80),
    Zone(1600593, 50),
    Zone(1601819, 60),
    Zone(1603047, 11),
    Zone(1604820, 24),
    Zone(1606619, 67),
    Zone(1607248, 33),
    Zone(1607370, 22),
    Zone(1608844, 27),
    Zone(1609737, 18),
    Zone(1610087, 17),
    Zone(1610980, 75),
    Zone(1612262, 3),
    Zone(1614075, 7),
    Zone(1617001, 25),
    Zone(1617113, 34),
    Zone(1618683, 87),
    Zone(1628048, 36),
    Zone(1628566, 84),
    Zone(1628682, 22),
    Zone(1632083, 7),
    Zone(1632914, 36),
    Zone(1651585, 49),
    Zone(1651622, 7),
    Zone(1654743, 39),
    Zone(1658833, 43)
  ]

  const Chunk12: seq<Zone> := [
    Zone(1660911, 46),
    Zone(1664872, 20),
    Zone(1672213, 74),
    Zone(1674610, 16),
    Zone(1675410, 84),
    Zone(1676415, 17),
    Zone(1685232, 34),
    Zone(1692325, 11),
    Zone(1694433, 12),
    Zone(1698695, 3),
    Zone(1701688, 12),
    Zone(1708083, 4),
    Zone(1710030, 20),
    Zone(1713796, 46),
    Zone(1716755, 23),
    Zone(1719069, 43),
    Zone(1721181, 44),
    Zone(1722440, 0),
    Zone(1722853, 20),
    Zone(1726451, 5),
    Zone(1733838, 23),
    Zone(1734054, 20),
    Zone(1736591, 7),
    Zone(1738905, 19),
    Zone(1741247, 0),
    Zone(1742182, 16),
    Zone(1746506, 0),
    Zone(1749527, 69),
    Zone(1749682, 46),
    Zone(1756562, 20),
    Zone(1769420, 70),
    Zone(1774546, 23),
    Zone(1776375, 52),
    Zone(1778258, 39),
    Zone(1781122, 44),
    Zone(1784482, 44),
    Zone(1786941, 39),
    Zone(1788281, 7),
    Zone(1798337, 46),
    Zone(1798422, 76)
  ]

  const Chunk13: seq<Zone> := [
    Zone(1802468, 24),
    Zone(1803694, 14),
    Zone(1832626, 12),
    Zone(1841914, 76),
    Zone(1847810, 37),
    Zone(1850225, 23),
    Zone(1853077, 43),
    Zone(1857751, 32),
    Zone(1861199, 34),
    Zone(1862715, 39),
    Zone(1863529, 34),
    Zone(1863787, 1),
    Zone(1871852, 87),
    Zone(1884018, 52),
    Zone(1884747, 17),
    Zone(1894052, 7),
    Zone(1894752, 35),
    Zone(1901000, 87),
    Zone(1902986, 34),
    Zone(1904373, 10),
    Zone(1905218, 23),
    Zone(1906241, 46),
    Zone(1917776, 49),
    Zone(1921672, 16),
    Zone(1938433, 11),
    Zone(1942188, 10),
    Zone(1946378, 12),
    Zone(1951927, 39),
    Zone(1958859, 11),
    Zone(1959517, 33),
    Zone(1961627, 25),
    Zone(1962619, 87),
    Zone(1967285, 37),
    Zone(1968744, 38),
    Zone(1968987, 7),
    Zone(1970831, 11),
    Zone(1981568, 22),
    Zone(1987977, 14),
    Zone(2000737, 34),
    Zone(2006054, 1)
  ]

  const Chunk14: seq<Zone> := [
    Zone(2006408, 99),
    Zone(2009827, 43),
    Zone(2013536, 17),
    Zone(2015747, 51),
    Zone(2016109, 26),
    Zone(2017028, 33),
    Zone(2019445, 12),
    Zone(2019448, 36),
    Zone(2023156, 88),
    Zone(2026282, 3),
    Zone(2028182, 52),
    Zone(2033048, 64),
    Zone(2062776, 7),
    Zone(2068042, 37),
    Zone(2070769, 12),
    Zone(2071245, 73),
    Zone(2071733, 12),
    Zone(2072709, 47),
    Zone(2074130, 65),
    Zone(2075568, 37),
    Zone(2075971, 44),
    Zone(2076374, 34),
    Zone(2076777, 41),
    Zone(2077180, 6),
    Zone(2077265, 53),
    Zone(2077583, 0),
    Zone(2077986, 39),
    Zone(2078389, 86),
    Zone(2080404, 48),
    Zone(2080807, 46),
    Zone(2087116, 64),
    Zone(2088323, 37),
    Zone(2089285, 44),
    Zone(2090334, 57),
    Zone(2094940, 41)
  ]

  /** `zones`, in source order. */
  const Zones: seq<Zone> := Chunk0 + Chunk1 + Chunk2 + Chunk3 + Chunk4 + Chunk5 + Chunk6 + Chunk7 + Chunk8 + Chunk9 + Chunk10 + Chunk11 + Chunk12 + Chunk13 + Chunk14

  /**
   * From position `i` on, every entry names an existing POSIX string, fits
   * the 21-bit key range, and has a smaller hash than the entry after it.
   */
  predicate WellFormedFrom(s: seq<Zone>, i: nat)
    decreases |s| - i
  {
    i >= |s| ||
    (0 <= s[i].posix < NumPosix && 0 <= s[i].hash < 0x20_0000 &&
     (i + 1 < |s| ==> s[i].hash < s[i + 1].hash) &&
     WellFormedFrom(s, i + 1))
  }

  lemma Chunk0WellFormed()
    ensures WellFormedFrom(Chunk0, 0)
  {
    assert WellFormedFrom(Chunk0, 39);
    assert WellFormedFrom(Chunk0, 38);
    assert WellFormedFrom(Chunk0, 37);
    assert WellFormedFrom(Chunk0, 36);
    assert WellFormedFrom(Chunk0, 35);
    assert WellFormedFrom(Chunk0, 34);
    assert WellFormedFrom(Chunk0, 33);
    assert WellFormedFrom(Chunk0, 32);
    assert WellFormedFrom(Chunk0, 31);
    assert WellFormedFrom(Chunk0, 30);
    assert WellFormedFrom(Chunk0, 29);
    assert WellFormedFrom(Chunk0, 28);
    assert WellFormedFrom(Chunk0, 27);
    assert WellFormedFrom(Chunk0, 26);
    assert WellFormedFrom(Chunk0, 25);
    assert WellFormedFrom(Chunk0, 24);
    assert WellFormedFrom(Chunk0, 23);
    assert WellFormedFrom(Chunk0, 22);
    assert WellFormedFrom(Chunk0, 21);
    assert WellFormedFrom(Chunk0, 20);
    assert WellFormedFrom(Chunk0, 19);
    assert WellFormedFrom(Chunk0, 18);
    assert WellFormedFrom(Chunk0, 17);
    assert WellFormedFrom(Chunk0, 16);
    assert WellFormedFrom(Chunk0, 15);
    assert WellFormedFrom(Chunk0, 14);
    assert WellFormedFrom(Chunk0, 13);
    assert WellFormedFrom(Chunk0, 12);
    assert WellFormedFrom(Chunk0, 11);
    assert WellFormedFrom(Chunk0, 10);
    assert WellFormedFrom(Chunk0, 9);
    assert WellFormedFrom(Chunk0, 8);
    assert WellFormedFrom(Chunk0, 7);
    assert WellFormedFrom(Chunk0, 6);
    assert WellFormedFrom(Chunk0, 5);
    assert WellFormedFrom(Chunk0, 4);
    assert WellFormedFrom(Chunk0, 3);
    assert WellFormedFrom(Chunk0, 2);
    assert WellFormedFrom(Chunk0, 1);
    assert WellFormedFrom(Chunk0, 0);
  }

  lemma Chunk1WellFormed()
    ensures WellFormedFrom(Chunk1, 0)
  {
    assert WellFormedFrom(Chunk1, 39);
    assert WellFormedFrom(Chunk1, 38);
    assert WellFormedFrom(Chunk1, 37);
    assert WellFormedFrom(Chunk1, 36);
    assert WellFormedFrom(Chunk1, 35);
    assert WellFormedFrom(Chunk1, 34);
    assert WellFormedFrom(Chunk1, 33);
    assert WellFormedFrom(Chunk1, 32);
    assert WellFormedFrom(Chunk1, 31);
    assert WellFormedFrom(Chunk1, 30);
    assert WellFormedFrom(Chunk1, 29);
    assert WellFormedFrom(Chunk1, 28);
    assert WellFormedFrom(Chunk1, 27);
    assert WellFormedFrom(Chunk1, 26);
    assert WellFormedFrom(Chunk1, 25);
    assert WellFormedFrom(Chunk1, 24);
    assert WellFormedFrom(Chunk1, 23);
    assert WellFormedFrom(Chunk1, 22);
    assert WellFormedFrom(Chunk1, 21);
    assert WellFormedFrom(Chunk1, 20);
    assert WellFormedFrom(Chunk1, 19);
    assert WellFormedFrom(Chunk1, 18);
    assert WellFormedFrom(Chunk1, 17);
    assert WellFormedFrom(Chunk1, 16);
    assert WellFormedFrom(Chunk1, 15);
    assert WellFormedFrom(Chunk1, 14);
    assert WellFormedFrom(Chunk1, 13);
    assert WellFormedFrom(Chunk1, 12);
    assert WellFormedFrom(Chunk1, 11);
    assert WellFormedFrom(Chunk1, 10);
    assert WellFormedFrom(Chunk1, 9);
    assert WellFormedFrom(Chunk1, 8);
    assert WellFormedFrom(Chunk1, 7);
    assert WellFormedFrom(Chunk1, 6);
    assert WellFormedFrom(Chunk1, 5);
    assert WellFormedFrom(Chunk1, 4);
    assert WellFormedFrom(Chunk1, 3);
    assert WellFormedFrom(Chunk1, 2);
    assert WellFormedFrom(Chunk1, 1);
    assert WellFormedFrom(Chunk1, 0);
  }

  lemma Chunk2WellFormed()
    ensures WellFormedFrom(Chunk2, 0)
  {
    assert WellFormedFrom(Chunk2, 39);
    assert WellFormedFrom(Chunk2, 38);
    assert WellFormedFrom(Chunk2, 37);
    assert WellFormedFrom(Chunk2, 36);
    assert WellFormedFrom(Chunk2, 35);
    assert WellFormedFrom(Chunk2, 34);
    assert WellFormedFrom(Chunk2, 33);
    assert WellFormedFrom(Chunk2, 32);
    assert WellFormedFrom(Chunk2, 31);
    assert WellFormedFrom(Chunk2, 30);
    assert WellFormedFrom(Chunk2, 29);
    assert WellFormedFrom(Chunk2, 28);
    assert WellFormedFrom(Chunk2, 27);
    assert WellFormedFrom(Chunk2, 26);
    assert WellFormedFrom(Chunk2, 25);
    assert WellFormedFrom(Chunk2, 24);
    assert WellFormedFrom(Chunk2, 23);
    assert WellFormedFrom(Chunk2, 22);
    assert WellFormedFrom(Chunk2, 21);
    assert WellFormedFrom(Chunk2, 20);
    assert WellFormedFrom(Chunk2, 19);
    assert WellFormedFrom(Chunk2, 18);
    assert WellFormedFrom(Chunk2, 17);
    assert WellFormedFrom(Chunk2, 16);
    assert WellFormedFrom(Chunk2, 15);
    assert WellFormedFrom(Chunk2, 14);
    assert WellFormedFrom(Chunk2, 13);
    assert WellFormedFrom(Chunk2, 12);
    assert WellFormedFrom(Chunk2, 11);
    assert WellFormedFrom(Chunk2, 10);
    assert WellFormedFrom(Chunk2, 9);
    assert WellFormedFrom(Chunk2, 8);
    assert WellFormedFrom(Chunk2, 7);
    assert WellFormedFrom(Chunk2, 6);
    assert WellFormedFrom(Chunk2, 5);
    assert WellFormedFrom(Chunk2, 4);
    assert WellFormedFrom(Chunk2, 3);
    assert WellFormedFrom(Chunk2, 2);
    assert WellFormedFrom(Chunk2, 1);
    assert WellFormedFrom(Chunk2, 0);
  }

  lemma Chunk3WellFormed()
    ensures WellFormedFrom(Chunk3, 0)
  {
    assert WellFormedFrom(Chunk3, 39);
    assert WellFormedFrom(Chunk3, 38);
    assert WellFormedFrom(Chunk3, 37);
    assert WellFormedFrom(Chunk3, 36);
    assert WellFormedFrom(Chunk3, 35);
    assert WellFormedFrom(Chunk3, 34);
    assert WellFormedFrom(Chunk3, 33);
    assert WellFormedFrom(Chunk3, 32);
    assert WellFormedFrom(Chunk3, 31);
    assert WellFormedFrom(Chunk3, 30);
    assert WellFormedFrom(Chunk3, 29);
    assert WellFormedFrom(Chunk3, 28);
    assert WellFormedFrom(Chunk3, 27);
    assert WellFormedFrom(Chunk3, 26);
    assert WellFormedFrom(Chunk3, 25);
    assert WellFormedFrom(Chunk3, 24);
    assert WellFormedFrom(Chunk3, 23);
    assert WellFormedFrom(Chunk3, 22);
    assert WellFormedFrom(Chunk3, 21);
    assert WellFormedFrom(Chunk3, 20);
    assert WellFormedFrom(Chunk3, 19);
    assert WellFormedFrom(Chunk3, 18);
    assert WellFormedFrom(Chunk3, 17);
    assert WellFormedFrom(Chunk3, 16);
    assert WellFormedFrom(Chunk3, 15);
    assert WellFormedFrom(Chunk3, 14);
    assert WellFormedFrom(Chunk3, 13);
    assert WellFormedFrom(Chunk3, 12);
    assert WellFormedFrom(Chunk3, 11);
    assert WellFormedFrom(Chunk3, 10);
    assert WellFormedFrom(Chunk3, 9);
    assert WellFormedFrom(Chunk3, 8);
    assert WellFormedFrom(Chunk3, 7);
    assert WellFormedFrom(Chunk3, 6);
    assert WellFormedFrom(Chunk3, 5);
    assert WellFormedFrom(Chunk3, 4);
    assert WellFormedFrom(Chunk3, 3);
    assert WellFormedFrom(Chunk3, 2);
    assert WellFormedFrom(Chunk3, 1);
    assert WellFormedFrom(Chunk3, 0);
  }

  lemma Chunk4WellFormed()
    ensures WellFormedFrom(Chunk4, 0)
  {
    assert WellFormedFrom(Chunk4, 39);
    assert WellFormedFrom(Chunk4, 38);
    assert WellFormedFrom(Chunk4, 37);
    assert WellFormedFrom(Chunk4, 36);
    assert WellFormedFrom(Chunk4, 35);
    assert WellFormedFrom(Chunk4, 34);
    assert WellFormedFrom(Chunk4, 33);
    assert WellFormedFrom(Chunk4, 32);
    assert WellFormedFrom(Chunk4, 31);
    assert WellFormedFrom(Chunk4, 30);
    assert WellFormedFrom(Chunk4, 29);
    assert WellFormedFrom(Chunk4, 28);
    assert WellFormedFrom(Chunk4, 27);
    assert WellFormedFrom(Chunk4, 26);
    assert WellFormedFrom(Chunk4, 25);
    assert WellFormedFrom(Chunk4, 24);
    assert WellFormedFrom(Chunk4, 23);
    assert WellFormedFrom(Chunk4, 22);
    assert WellFormedFrom(Chunk4, 21);
    assert WellFormedFrom(Chunk4, 20);
    assert WellFormedFrom(Chunk4, 19);
    assert WellFormedFrom(Chunk4, 18);
    assert WellFormedFrom(Chunk4, 17);
    assert WellFormedFrom(Chunk4, 16);
    assert WellFormedFrom(Chunk4, 15);
    assert WellFormedFrom(Chunk4, 14);
    assert WellFormedFrom(Chunk4, 13);
    assert WellFormedFrom(Chunk4, 12);
    assert WellFormedFrom(Chunk4, 11);
    assert WellFormedFrom(Chunk4, 10);
    assert WellFormedFrom(Chunk4, 9);
    assert WellFormedFrom(Chunk4, 8);
    assert WellFormedFrom(Chunk4, 7);
    assert WellFormedFrom(Chunk4, 6);
    assert WellFormedFrom(Chunk4, 5);
    assert WellFormedFrom(Chunk4, 4);
    assert WellFormedFrom(Chunk4, 3);
    assert WellFormedFrom(Chunk4, 2);
    assert WellFormedFrom(Chunk4, 1);
    assert WellFormedFrom(Chunk4, 0);
  }

  lemma Chunk5WellFormed()
    ensures WellFormedFrom(Chunk5, 0)
  {
    assert WellFormedFrom(Chunk5, 39);
    assert WellFormedFrom(Chunk5, 38);
    assert WellFormedFrom(Chunk5, 37);
    assert WellFormedFrom(Chunk5, 36);
    assert WellFormedFrom(Chunk5, 35);
    assert WellFormedFrom(Chunk5, 34);
    assert WellFormedFrom(Chunk5, 33);
    assert WellFormedFrom(Chunk5, 32);
    assert WellFormedFrom(Chunk5, 31);
    assert WellFormedFrom(Chunk5, 30);
    assert WellFormedFrom(Chunk5, 29);
    assert WellFormedFrom(Chunk5, 28);
    assert WellFormedFrom(Chunk5, 27);
    assert WellFormedFrom(Chunk5, 26);
    assert WellFormedFrom(Chunk5, 25);
    assert WellFormedFrom(Chunk5, 24);
    assert WellFormedFrom(Chunk5, 23);
    assert WellFormedFrom(Chunk5, 22);
    assert WellFormedFrom(Chunk5, 21);
    assert WellFormedFrom(Chunk5, 20);
    assert WellFormedFrom(Chunk5, 19);
    assert WellFormedFrom(Chunk5, 18);
    assert WellFormedFrom(Chunk5, 17);
    assert WellFormedFrom(Chunk5, 16);
    assert WellFormedFrom(Chunk5, 15);
    assert WellFormedFrom(Chunk5, 14);
    assert WellFormedFrom(Chunk5, 13);
    assert WellFormedFrom(Chunk5, 12);
    assert WellFormedFrom(Chunk5, 11);
    assert WellFormedFrom(Chunk5, 10);
    assert WellFormedFrom(Chunk5, 9);
    assert WellFormedFrom(Chunk5, 8);
    assert WellFormedFrom(Chunk5, 7);
    assert WellFormedFrom(Chunk5, 6);
    assert WellFormedFrom(Chunk5, 5);
    assert WellFormedFrom(Chunk5, 4);
    assert WellFormedFrom(Chunk5, 3);
    assert WellFormedFrom(Chunk5, 2);
    assert WellFormedFrom(Chunk5, 1);
    assert WellFormedFrom(Chunk5, 0);
  }

  lemma Chunk6WellFormed()
    ensures WellFormedFrom(Chunk6, 0)
  {
    assert WellFormedFrom(Chunk6, 39);
    assert WellFormedFrom(Chunk6, 38);
    assert WellFormedFrom(Chunk6, 37);
    assert WellFormedFrom(Chunk6, 36);
    assert WellFormedFrom(Chunk6, 35);
    assert WellFormedFrom(Chunk6, 34);
    assert WellFormedFrom(Chunk6, 33);
    assert WellFormedFrom(Chunk6, 32);
    assert WellFormedFrom(Chunk6, 31);
    assert WellFormedFrom(Chunk6, 30);
    assert WellFormedFrom(Chunk6, 29);
    assert WellFormedFrom(Chunk6, 28);
    assert WellFormedFrom(Chunk6, 27);
    assert WellFormedFrom(Chunk6, 26);
    assert WellFormedFrom(Chunk6, 25);
    assert WellFormedFrom(Chunk6, 24);
    assert WellFormedFrom(Chunk6, 23);
    assert WellFormedFrom(Chunk6, 22);
    assert WellFormedFrom(Chunk6, 21);
    assert WellFormedFrom(Chunk6, 20);
    assert WellFormedFrom(Chunk6, 19);
    assert WellFormedFrom(Chunk6, 18);
    assert WellFormedFrom(Chunk6, 17);
    assert WellFormedFrom(Chunk6, 16);
    assert WellFormedFrom(Chunk6, 15);
    assert WellFormedFrom(Chunk6, 14);
    assert WellFormedFrom(Chunk6, 13);
    assert WellFormedFrom(Chunk6, 12);
    assert WellFormedFrom(Chunk6, 11);
    assert WellFormedFrom(Chunk6, 10);
    assert WellFormedFrom(Chunk6, 9);
    assert WellFormedFrom(Chunk6, 8);
    assert WellFormedFrom(Chunk6, 7);
    assert WellFormedFrom(Chunk6, 6);
    assert WellFormedFrom(Chunk6, 5);
    assert WellFormedFrom(Chunk6, 4);
    assert WellFormedFrom(Chunk6, 3);
    assert WellFormedFrom(Chunk6, 2);
    assert WellFormedFrom(Chunk6, 1);
    assert WellFormedFrom(Chunk6, 0);
  }

  lemma Chunk7WellFormed()
    ensures WellFormedFrom(Chunk7, 0)
  {
    assert WellFormedFrom(Chunk7, 39);
    assert WellFormedFrom(Chunk7, 38);
    assert WellFormedFrom(Chunk7, 37);
    assert WellFormedFrom(Chunk7, 36);
    assert WellFormedFrom(Chunk7, 35);
    assert WellFormedFrom(Chunk7, 34);
    assert WellFormedFrom(Chunk7, 33);
    assert WellFormedFrom(Chunk7, 32);
    assert WellFormedFrom(Chunk7, 31);
    assert WellFormedFrom(Chunk7, 30);
    assert WellFormedFrom(Chunk7, 29);
    assert WellFormedFrom(Chunk7, 28);
    assert WellFormedFrom(Chunk7, 27);
    assert WellFormedFrom(Chunk7, 26);
    assert WellFormedFrom(Chunk7, 25);
    assert WellFormedFrom(Chunk7, 24);
    assert WellFormedFrom(Chunk7, 23);
    assert WellFormedFrom(Chunk7, 22);
    assert WellFormedFrom(Chunk7, 21);
    assert WellFormedFrom(Chunk7, 20);
    assert WellFormedFrom(Chunk7, 19);
    assert WellFormedFrom(Chunk7, 18);
    assert WellFormedFrom(Chunk7, 17);
    assert WellFormedFrom(Chunk7, 16);
    assert WellFormedFrom(Chunk7, 15);
    assert WellFormedFrom(Chunk7, 14);
    assert WellFormedFrom(Chunk7, 13);
    assert WellFormedFrom(Chunk7, 12);
    assert WellFormedFrom(Chunk7, 11);
    assert WellFormedFrom(Chunk7, 10);
    assert WellFormedFrom(Chunk7, 9);
    assert WellFormedFrom(Chunk7, 8);
    assert WellFormedFrom(Chunk7, 7);
    assert WellFormedFrom(Chunk7, 6);
    assert WellFormedFrom(Chunk7, 5);
    assert WellFormedFrom(Chunk7, 4);
    assert WellFormedFrom(Chunk7, 3);
    assert WellFormedFrom(Chunk7, 2);
    assert WellFormedFrom(Chunk7, 1);
    assert WellFormedFrom(Chunk7, 0);
  }

  lemma Chunk8WellFormed()
    ensures WellFormedFrom(Chunk8, 0)
  {
    assert WellFormedFrom(Chunk8, 39);
    assert WellFormedFrom(Chunk8, 38);
    assert WellFormedFrom(Chunk8, 37);
    assert WellFormedFrom(Chunk8, 36);
    assert WellFormedFrom(Chunk8, 35);
    assert WellFormedFrom(Chunk8, 34);
    assert WellFormedFrom(Chunk8, 33);
    assert WellFormedFrom(Chunk8, 32);
    assert WellFormedFrom(Chunk8, 31);
    assert WellFormedFrom(Chunk8, 30);
    assert WellFormedFrom(Chunk8, 29);
    assert WellFormedFrom(Chunk8, 28);
    assert WellFormedFrom(Chunk8, 27);
    assert WellFormedFrom(Chunk8, 26);
    assert WellFormedFrom(Chunk8, 25);
    assert WellFormedFrom(Chunk8, 24);
    assert WellFormedFrom(Chunk8, 23);
    assert WellFormedFrom(Chunk8, 22);
    assert WellFormedFrom(Chunk8, 21);
    assert WellFormedFrom(Chunk8, 20);
    assert WellFormedFrom(Chunk8, 19);
    assert WellFormedFrom(Chunk8, 18);
    assert WellFormedFrom(Chunk8, 17);
    assert WellFormedFrom(Chunk8, 16);
    assert WellFormedFrom(Chunk8, 15);
    assert WellFormedFrom(Chunk8, 14);
    assert WellFormedFrom(Chunk8, 13);
    assert WellFormedFrom(Chunk8, 12);
    assert WellFormedFrom(Chunk8, 11);
    assert WellFormedFrom(Chunk8, 10);
    assert WellFormedFrom(Chunk8, 9);
    assert WellFormedFrom(Chunk8, 8);
    assert WellFormedFrom(Chunk8, 7);
    assert WellFormedFrom(Chunk8, 6);
    assert WellFormedFrom(Chunk8, 5);
    assert WellFormedFrom(Chunk8, 4);
    assert WellFormedFrom(Chunk8, 3);
    assert WellFormedFrom(Chunk8, 2);
    assert WellFormedFrom(Chunk8, 1);
    assert WellFormedFrom(Chunk8, 0);
  }

  lemma Chunk9WellFormed()
    ensures WellFormedFrom(Chunk9, 0)
  {
    assert WellFormedFrom(Chunk9, 39);
    assert WellFormedFrom(Chunk9, 38);
    assert WellFormedFrom(Chunk9, 37);
    assert WellFormedFrom(Chunk9, 36);
    assert WellFormedFrom(Chunk9, 35);
    assert WellFormedFrom(Chunk9, 34);
    assert WellFormedFrom(Chunk9, 33);
    assert WellFormedFrom(Chunk9, 32);
    assert WellFormedFrom(Chunk9, 31);
    assert WellFormedFrom(Chunk9, 30);
    assert WellFormedFrom(Chunk9, 29);
    assert WellFormedFrom(Chunk9, 28);
    assert WellFormedFrom(Chunk9, 27);
    assert WellFormedFrom(Chunk9, 26);
    assert WellFormedFrom(Chunk9, 25);
    assert WellFormedFrom(Chunk9, 24);
    assert WellFormedFrom(Chunk9, 23);
    assert WellFormedFrom(Chunk9, 22);
    assert WellFormedFrom(Chunk9, 21);
    assert WellFormedFrom(Chunk9, 20);
    assert WellFormedFrom(Chunk9, 19);
    assert WellFormedFrom(Chunk9, 18);
    assert WellFormedFrom(Chunk9, 17);
    assert WellFormedFrom(Chunk9, 16);
    assert WellFormedFrom(Chunk9, 15);
    assert WellFormedFrom(Chunk9, 14);
    assert WellFormedFrom(Chunk9, 13);
    assert WellFormedFrom(Chunk9, 12);
    assert WellFormedFrom(Chunk9, 11);
    assert WellFormedFrom(Chunk9, 10);
    assert WellFormedFrom(Chunk9, 9);
    assert WellFormedFrom(Chunk9, 8);
    assert WellFormedFrom(Chunk9, 7);
    assert WellFormedFrom(Chunk9, 6);
    assert WellFormedFrom(Chunk9, 5);
    assert WellFormedFrom(Chunk9, 4);
    assert WellFormedFrom(Chunk9, 3);
    assert WellFormedFrom(Chunk9, 2);
    assert WellFormedFrom(Chunk9, 1);
    assert WellFormedFrom(Chunk9, 0);
  }

  lemma Chunk10WellFormed()
    ensures WellFormedFrom(Chunk10, 0)
  {
    assert WellFormedFrom(Chunk10, 39);
    assert WellFormedFrom(Chunk10, 38);
    assert WellFormedFrom(Chunk10, 37);
    assert WellFormedFrom(Chunk10, 36);
    assert WellFormedFrom(Chunk10, 35);
    assert WellFormedFrom(Chunk10, 34);
    assert WellFormedFrom(Chunk10, 33);
    assert WellFormedFrom(Chunk10, 32);
    assert WellFormedFrom(Chunk10, 31);
    assert WellFormedFrom(Chunk10, 30);
    assert WellFormedFrom(Chunk10, 29);
    assert WellFormedFrom(Chunk10, 28);
    assert WellFormedFrom(Chunk10, 27);
    assert WellFormedFrom(Chunk10, 26);
    assert WellFormedFrom(Chunk10, 25);
    assert WellFormedFrom(Chunk10, 24);
    assert WellFormedFrom(Chunk10, 23);
    assert WellFormedFrom(Chunk10, 22);
    assert WellFormedFrom(Chunk10, 21);
    assert WellFormedFrom(Chunk10, 20);
    assert WellFormedFrom(Chunk10, 19);
    assert WellFormedFrom(Chunk10, 18);
    assert WellFormedFrom(Chunk10, 17);
    assert WellFormedFrom(Chunk10, 16);
    assert WellFormedFrom(Chunk10, 15);
    assert WellFormedFrom(Chunk10, 14);
    assert WellFormedFrom(Chunk10, 13);
    assert WellFormedFrom(Chunk10, 12);
    assert WellFormedFrom(Chunk10, 11);
    assert WellFormedFrom(Chunk10, 10);
    assert WellFormedFrom(Chunk10, 9);
    assert WellFormedFrom(Chunk10, 8);
    assert WellFormedFrom(Chunk10, 7);
    assert WellFormedFrom(Chunk10, 6);
    assert WellFormedFrom(Chunk10, 5);
    assert WellFormedFrom(Chunk10, 4);
    assert WellFormedFrom(Chunk10, 3);
    assert WellFormedFrom(Chunk10, 2);
    assert WellFormedFrom(Chunk10, 1);
    assert WellFormedFrom(Chunk10, 0);
  }

  lemma Chunk11WellFormed()
    ensures WellFormedFrom(Chunk11, 0)
  {
    assert WellFormedFrom(Chunk11, 39);
    assert WellFormedFrom(Chunk11, 38);
    assert WellFormedFrom(Chunk11, 37);
    assert WellFormedFrom(Chunk11, 36);
    assert WellFormedFrom(Chunk11, 35);
    assert WellFormedFrom(Chunk11, 34);
    assert WellFormedFrom(Chunk11, 33);
    assert WellFormedFrom(Chunk11, 32);
    assert WellFormedFrom(Chunk11, 31);
    assert WellFormedFrom(Chunk11, 30);
    assert WellFormedFrom(Chunk11, 29);
    assert WellFormedFrom(Chunk11, 28);
    assert WellFormedFrom(Chunk11, 27);
    assert WellFormedFrom(Chunk11, 26);
    assert WellFormedFrom(Chunk11, 25);
    assert WellFormedFrom(Chunk11, 24);
    assert WellFormedFrom(Chunk11, 23);
    assert WellFormedFrom(Chunk11, 22);
    assert WellFormedFrom(Chunk11, 21);
    assert WellFormedFrom(Chunk11, 20);
    assert WellFormedFrom(Chunk11, 19);
    assert WellFormedFrom(Chunk11, 18);
    assert WellFormedFrom(Chunk11, 17);
    assert WellFormedFrom(Chunk11, 16);
    assert WellFormedFrom(Chunk11, 15);
    assert WellFormedFrom(Chunk11, 14);
    assert WellFormedFrom(Chunk11, 13);
    assert WellFormedFrom(Chunk11, 12);
    assert WellFormedFrom(Chunk11, 11);
    assert WellFormedFrom(Chunk11, 10);
    assert WellFormedFrom(Chunk11, 9);
    assert WellFormedFrom(Chunk11, 8);
    assert WellFormedFrom(Chunk11, 7);
    assert WellFormedFrom(Chunk11, 6);
    assert WellFormedFrom(Chunk11, 5);
    assert WellFormedFrom(Chunk11, 4);
    assert WellFormedFrom(Chunk11, 3);
    assert WellFormedFrom(Chunk11, 2);
    assert WellFormedFrom(Chunk11, 1);
    assert WellFormedFrom(Chunk11, 0);
  }

  lemma Chunk12WellFormed()
    ensures WellFormedFrom(Chunk12, 0)
  {
    assert WellFormedFrom(Chunk12, 39);
    assert WellFormedFrom(Chunk12, 38);
    assert WellFormedFrom(Chunk12, 37);
    assert WellFormedFrom(Chunk12, 36);
    assert WellFormedFrom(Chunk12, 35);
    assert WellFormedFrom(Chunk12, 34);
    assert WellFormedFrom(Chunk12, 33);
    assert WellFormedFrom(Chunk12, 32);
    assert WellFormedFrom(Chunk12, 31);
    assert WellFormedFrom(Chunk12, 30);
    assert WellFormedFrom(Chunk12, 29);
    assert WellFormedFrom(Chunk12, 28);
    assert WellFormedFrom(Chunk12, 27);
    assert WellFormedFrom(Chunk12, 26);
    assert WellFormedFrom(Chunk12, 25);
    assert WellFormedFrom(Chunk12, 24);
    assert WellFormedFrom(Chunk12, 23);
    assert WellFormedFrom(Chunk12, 22);
    assert WellFormedFrom(Chunk12, 21);
    assert WellFormedFrom(Chunk12, 20);
    assert WellFormedFrom(Chunk12, 19);
    assert WellFormedFrom(Chunk12, 18);
    assert WellFormedFrom(Chunk12, 17);
    assert WellFormedFrom(Chunk12, 16);
    assert WellFormedFrom(Chunk12, 15);
    assert WellFormedFrom(Chunk12, 14);
    assert WellFormedFrom(Chunk12, 13);
    assert WellFormedFrom(Chunk12, 12);
    assert WellFormedFrom(Chunk12, 11);
    assert WellFormedFrom(Chunk12, 10);
    assert WellFormedFrom(Chunk12, 9);
    assert WellFormedFrom(Chunk12, 8);
    assert WellFormedFrom(Chunk12, 7);
    assert WellFormedFrom(Chunk12, 6);
    assert WellFormedFrom(Chunk12, 5);
    assert WellFormedFrom(Chunk12, 4);
    assert WellFormedFrom(Chunk12, 3);
    assert WellFormedFrom(Chunk12, 2);
    assert WellFormedFrom(Chunk12, 1);
    assert WellFormedFrom(Chunk12, 0);
  }

  lemma Chunk13WellFormed()
    ensures WellFormedFrom(Chunk13, 0)
  {
    assert WellFormedFrom(Chunk13, 39);
    assert WellFormedFrom(Chunk13, 38);
    assert WellFormedFrom(Chunk13, 37);
    assert WellFormedFrom(Chunk13, 36);
    assert WellFormedFrom(Chunk13, 35);
    assert WellFormedFrom(Chunk13, 34);
    assert WellFormedFrom(Chunk13, 33);
    assert WellFormedFrom(Chunk13, 32);
    assert WellFormedFrom(Chunk13, 31);
    assert WellFormedFrom(Chunk13, 30);
    assert WellFormedFrom(Chunk13, 29);
    assert WellFormedFrom(Chunk13, 28);
    assert WellFormedFrom(Chunk13, 27);
    assert WellFormedFrom(Chunk13, 26);
    assert WellFormedFrom(Chunk13, 25);
    assert WellFormedFrom(Chunk13, 24);
    assert WellFormedFrom(Chunk13, 23);
    assert WellFormedFrom(Chunk13, 22);
    assert WellFormedFrom(Chunk13, 21);
    assert WellFormedFrom(Chunk13, 20);
    assert WellFormedFrom(Chunk13, 19);
    assert WellFormedFrom(Chunk13, 18);
    assert WellFormedFrom(Chunk13, 17);
    assert WellFormedFrom(Chunk13, 16);
    assert WellFormedFrom(Chunk13, 15);
    assert WellFormedFrom(Chunk13, 14);
    assert WellFormedFrom(Chunk13, 13);
    assert WellFormedFrom(Chunk13, 12);
    assert WellFormedFrom(Chunk13, 11);
    assert WellFormedFrom(Chunk13, 10);
    assert WellFormedFrom(Chunk13, 9);
    assert WellFormedFrom(Chunk13, 8);
    assert WellFormedFrom(Chunk13, 7);
    assert WellFormedFrom(Chunk13, 6);
    assert WellFormedFrom(Chunk13, 5);
    assert WellFormedFrom(Chunk13, 4);
    assert WellFormedFrom(Chunk13, 3);
    assert WellFormedFrom(Chunk13, 2);
    assert WellFormedFrom(Chunk13, 1);
    assert WellFormedFrom(Chunk13, 0);
  }

  lemma Chunk14WellFormed()
    ensures WellFormedFrom(Chunk14, 0)
  {
    assert WellFormedFrom(Chunk14, 34);
    assert WellFormedFrom(Chunk14, 33);
    assert WellFormedFrom(Chunk14, 32);
    assert WellFormedFrom(Chunk14, 31);
    assert WellFormedFrom(Chunk14, 30);
    assert WellFormedFrom(Chunk14, 29);
    assert WellFormedFrom(Chunk14, 28);
    assert WellFormedFrom(Chunk14, 27);
    assert WellFormedFrom(Chunk14, 26);
    assert WellFormedFrom(Chunk14, 25);
    assert WellFormedFrom(Chunk14, 24);
    assert WellFormedFrom(Chunk14, 23);
    assert WellFormedFrom(Chunk14, 22);
    assert WellFormedFrom(Chunk14, 21);
    assert WellFormedFrom(Chunk14, 20);
    assert WellFormedFrom(Chunk14, 19);
    assert WellFormedFrom(Chunk14, 18);
    assert WellFormedFrom(Chunk14, 17);
    assert WellFormedFrom(Chunk14, 16);
    assert WellFormedFrom(Chunk14, 15);
    assert WellFormedFrom(Chunk14, 14);
    assert WellFormedFrom(Chunk14, 13);
    assert WellFormedFrom(Chunk14, 12);
    assert WellFormedFrom(Chunk14, 11);
    assert WellFormedFrom(Chunk14, 10);
    assert WellFormedFrom(Chunk14, 9);
    assert WellFormedFrom(Chunk14, 8);
    assert WellFormedFrom(Chunk14, 7);
    assert WellFormedFrom(Chunk14, 6);
    assert WellFormedFrom(Chunk14, 5);
    assert WellFormedFrom(Chunk14, 4);
    assert WellFormedFrom(Chunk14, 3);
    assert WellFormedFrom(Chunk14, 2);
    assert WellFormedFrom(Chunk14, 1);
    assert WellFormedFrom(Chunk14, 0);
  }


  /** The zone index is strictly ascending by hash. */
  predicate Ascending(s: seq<Zone>)
  {
    forall j, k :: 0 <= j < k < |s| ==> s[j].hash < s[k].hash
  }

  /** Every entry's hash is a 21-bit key and its index names an existing POSIX string. */
  predicate Indexed(s: seq<Zone>)
  {
    forall j :: 0 <= j < |s| ==> 0 <= s[j].posix < NumPosix && 0 <= s[j].hash < 0x20_0000
  }

  /**
   * The tables agree: `zones` has 595 entries, strictly ascending by hash
   * (which the binary search relies on), and each of them indexes one of the
   * 101 POSIX strings.
   */
  lemma ZonesWellFormed()
    ensures |Posix| == NumPosix && |Zones| == 595
    ensures Ascending(Zones) && Indexed(Zones)
  {
    Prefix14WellFormed();
    WellFormedSorted(Zones, 0);
  }

  lemma Prefix1WellFormed()
    ensures WellFormedFrom(Chunk0 + Chunk1, 0)
  {
    Chunk0WellFormed();
    Chunk1WellFormed();
    AppendWellFormed(Chunk0, Chunk1, 0);
  }

  lemma Prefix2WellFormed()
    ensures WellFormedFrom(Chunk0 + Chunk1 + Chunk2, 0)
  {
    Prefix1WellFormed();
    Chunk2WellFormed();
    AppendWellFormed(Chunk0 + Chunk1, Chunk2, 0);
  }

  lemma Prefix3WellFormed()
    ensures WellFormedFrom(Chunk0 + Chunk1 + Chunk2 + Chunk3, 0)
  {
    Prefix2WellFormed();
    Chunk3WellFormed();
    AppendWellFormed(Chunk0 + Chunk1 + Chunk2, Chunk3, 0);
  }

  lemma Prefix4WellFormed()
    ensures WellFormedFrom(Chunk0 + Chunk1 + Chunk2 + Chunk3 + Chunk4, 0)
  {
    Prefix3WellFormed();
    Chunk4WellFormed();
    AppendWellFormed(Chunk0 + Chunk1 + Chunk2 + Chunk3, Chunk4, 0);
  }

  lemma Prefix5WellFormed()
    ensures WellFormedFrom(Chunk0 + Chunk1 + Chunk2 + Chunk3 + Chunk4 + Chunk5, 0)
  {
    Prefix4WellFormed();
    Chunk5WellFormed();
    AppendWellFormed(Chunk0 + Chunk1 + Chunk2 + Chunk3 + Chunk4, Chunk5, 0);
  }

  lemma Prefix6WellFormed()
    ensures WellFormedFrom(Chunk0 + Chunk1 + Chunk2 + Chunk3 + Chunk4 + Chunk5 + Chunk6, 0)
  {
    Prefix5WellFormed();
    Chunk6WellFormed();
    AppendWellFormed(Chunk0 + Chunk1 + Chunk2 + Chunk3 + Chunk4 + Chunk5, Chunk6, 0);
  }

  lemma Prefix7WellFormed()
    ensures WellFormedFrom(Chunk0 + Chunk1 + Chunk2 + Chunk3 + Chunk4 + Chunk5 + Chunk6 + Chunk7, 0)
  {
    Prefix6WellFormed();
    Chunk7WellFormed();
    AppendWellFormed(Chunk0 + Chunk1 + Chunk2 + Chunk3 + Chunk4 + Chunk5 + Chunk6, Chunk7, 0);
  }

  lemma Prefix8WellFormed()
    ensures WellFormedFrom(Chunk0 + Chunk1 + Chunk2 + Chunk3 + Chunk4 + Chunk5 + Chunk6 + Chunk7 + Chunk8, 0)
  {
    Prefix7WellFormed();
    Chunk8WellFormed();
    AppendWellFormed(Chunk0 + Chunk1 + Chunk2 + Chunk3 + Chunk4 + Chunk5 + Chunk6 + Chunk7, Chunk8, 0);
  }

  lemma Prefix9WellFormed()
    ensures WellFormedFrom(Chunk0 + Chunk1 + Chunk2 + Chunk3 + Chunk4 + Chunk5 + Chunk6 + Chunk7 + Chunk8 + Chunk9, 0)
  {
    Prefix8WellFormed();
    Chunk9WellFormed();
    AppendWellFormed(Chunk0 + Chunk1 + Chunk2 + Chunk3 + Chunk4 + Chunk5 + Chunk6 + Chunk7 + Chunk8, Chunk9, 0);
  }

  lemma Prefix10WellFormed()
    ensures WellFormedFrom(Chunk0 + Chunk1 + Chunk2 + Chunk3 + Chunk4 + Chunk5 + Chunk6 + Chunk7 + Chunk8 + Chunk9 + Chunk10, 0)
  {
    Prefix9WellFormed();
    Chunk10WellFormed();
    AppendWellFormed(Chunk0 + Chunk1 + Chunk2 + Chunk3 + Chunk4 + Chunk5 + Chunk6 + Chunk7 + Chunk8 + Chunk9, Chunk10, 0);
  }

  lemma Prefix11WellFormed()
    ensures WellFormedFrom(Chunk0 + Chunk1 + Chunk2 + Chunk3 + Chunk4 + Chunk5 + Chunk6 + Chunk7 + Chunk8 + Chunk9 + Chunk10 + Chunk11, 0)
  {
    Prefix10WellFormed();
    Chunk11WellFormed();
    AppendWellFormed(Chunk0 + Chunk1 + Chunk2 + Chunk3 + Chunk4 + Chunk5 + Chunk6 + Chunk7 + Chunk8 + Chunk9 + Chunk10, Chunk11, 0);
  }

  lemma Prefix12WellFormed()
    ensures WellFormedFrom(Chunk0 + Chunk1 + Chunk2 + Chunk3 + Chunk4 + Chunk5 + Chunk6 + Chunk7 + Chunk8 + Chunk9 + Chunk10 + Chunk11 + Chunk12, 0)
  {
    Prefix11WellFormed();
    Chunk12WellFormed();
    AppendWellFormed(Chunk0 + Chunk1 + Chunk2 + Chunk3 + Chunk4 + Chunk5 + Chunk6 + Chunk7 + Chunk8 + Chunk9 + Chunk10 + Chunk11, Chunk12, 0);
  }

  lemma Prefix13WellFormed()
    ensures WellFormedFrom(Chunk0 + Chunk1 + Chunk2 + Chunk3 + Chunk4 + Chunk5 + Chunk6 + Chunk7 + Chunk8 + Chunk9 + Chunk10 + Chunk11 + Chunk12 + Chunk13, 0)
  {
    Prefix12WellFormed();
    Chunk13WellFormed();
    AppendWellFormed(Chunk0 + Chunk1 + Chunk2 + Chunk3 + Chunk4 + Chunk5 + Chunk6 + Chunk7 + Chunk8 + Chunk9 + Chunk10 + Chunk11 + Chunk12, Chunk13, 0);
  }

  lemma Prefix14WellFormed()
    ensures WellFormedFrom(Chunk0 + Chunk1 + Chunk2 + Chunk3 + Chunk4 + Chunk5 + Chunk6 + Chunk7 + Chunk8 + Chunk9 + Chunk10 + Chunk11 + Chunk12 + Chunk13 + Chunk14, 0)
  {
    Prefix13WellFormed();
    Chunk14WellFormed();
    AppendWellFormed(Chunk0 + Chunk1 + Chunk2 + Chunk3 + Chunk4 + Chunk5 + Chunk6 + Chunk7 + Chunk8 + Chunk9 + Chunk10 + Chunk11 + Chunk12 + Chunk13, Chunk14, 0);
  }

  /** A suffix that is shifted behind any prefix keeps its property. */
  lemma {:induction false} ShiftWellFormed(a: seq<Zone>, b: seq<Zone>, j: nat)
    requires j <= |b| && WellFormedFrom(b, j)
    ensures WellFormedFrom(a + b, |a| + j)
    decreases |b| - j
  {
    if j < |b| {
      ShiftWellFormed(a, b, j + 1);
      assert (a + b)[|a| + j] == b[j];
      if j + 1 < |b| {
        assert (a + b)[|a| + j + 1] == b[j + 1];
      }
    }
  }

  /** Two well-formed tables joined at an ascending seam form a well-formed table. */
  lemma {:induction false} AppendWellFormed(a: seq<Zone>, b: seq<Zone>, i: nat)
    requires i <= |a| && WellFormedFrom(a, i) && WellFormedFrom(b, 0)
    requires |a| > 0 && |b| > 0 ==> a[|a| - 1].hash < b[0].hash
    ensures WellFormedFrom(a + b, i)
    decreases |a| - i
  {
    if i == |a| {
      ShiftWellFormed(a, b, 0);
    } else {
      AppendWellFormed(a, b, i + 1);
      assert (a + b)[i] == a[i];
      if i + 1 < |a| {
        assert (a + b)[i + 1] == a[i + 1];
      } else if |b| > 0 {
        assert (a + b)[i + 1] == b[0];
      }
    }
  }

  /** Adjacent ascending entries give a table that is ascending throughout. */
  lemma {:induction false} WellFormedSorted(s: seq<Zone>, i: nat)
    requires WellFormedFrom(s, i)
    ensures forall j :: i <= j < |s| ==> 0 <= s[j].posix < NumPosix && 0 <= s[j].hash < 0x20_0000
    ensures forall j, k :: i <= j < k < |s| ==> s[j].hash < s[k].hash
    decreases |s| - i
  {
    if i < |s| {
      WellFormedSorted(s, i + 1);
      forall j, k | i <= j < k < |s|
        ensures s[j].hash < s[k].hash
      {
        if j == i && k > i + 1 {
          assert s[i + 1].hash < s[k].hash;
        }
      }
    }
  }
}
