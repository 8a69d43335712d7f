/** The writer's own code tables, and the table segments it puts at the head of the file. */
module JpegTables {
  import opened JpegCoding
  import opened JpegHeader

  // ----------------------------------------------------- luminance, DC

  function YDcCode(symbol: nat): Code {
    match symbol
    case 0 => Code(0, 2) case 1 => Code(2, 3) case 2 => Code(3, 3) case 3 => Code(4, 3) case 4 => Code(5, 3)
    case 5 => Code(6, 3) case 6 => Code(14, 4) case 7 => Code(30, 5) case 8 => Code(62, 6) case 9 => Code(126, 7)
    case 10 => Code(254, 8) case 11 => Code(510, 9) case _ => NONE
  }

  function YDcTable(): (t: Table)
    ensures forall s: nat | s < 256 :: t[s] == YDcCode(s)
  {
    seq(256, s requires 0 <= s < 256 => YDcCode(s))
  }

  function YDcCount(size: nat): nat {
    match size
    case 2 => 1 case 3 => 5 case 4 => 1 case 5 => 1 case 6 => 1 case 7 => 1 case 8 => 1 case 9 => 1 case _ => 0
  }

  /** Both DC segments list the categories in order. */
  function DcSymbol(i: nat): nat { i }

  function YDcHead(): Segment { Segment(YDcCount, DcSymbol, 12) }

  // --------------------------------------------------- chrominance, DC

  function UvDcCode(symbol: nat): Code {
    match symbol
    case 0 => Code(0, 2) case 1 => Code(1, 2) case 2 => Code(2, 2) case 3 => Code(6, 3) case 4 => Code(14, 4)
    case 5 => Code(30, 5) case 6 => Code(62, 6) case 7 => Code(126, 7) case 8 => Code(254, 8) case 9 => Code(510, 9)
    case 10 => Code(1022, 10) case 11 => Code(2046, 11) case _ => NONE
  }

  function UvDcTable(): (t: Table)
    ensures forall s: nat | s < 256 :: t[s] == UvDcCode(s)
  {
    seq(256, s requires 0 <= s < 256 => UvDcCode(s))
  }

  function UvDcCount(size: nat): nat {
    match size
    case 2 => 3 case 3 => 1 case 4 => 1 case 5 => 1 case 6 => 1 case 7 => 1 case 8 => 1 case 9 => 1 case 10 => 1
    case 11 => 1 case _ => 0
  }

  function UvDcHead(): Segment { Segment(UvDcCount, DcSymbol, 12) }

  // ----------------------------------------------------- luminance, AC

  function YAcCode(symbol: nat): Code {
    match symbol / 16
    case 0 =>
      (match symbol % 16
       case 0 => Code(10, 4) case 1 => Code(0, 2) case 2 => Code(1, 2) case 3 => Code(4, 3) case 4 => Code(11, 4)
       case 5 => Code(26, 5) case 6 => Code(120, 7) case 7 => Code(248, 8) case 8 => Code(1014, 10)
       case 9 => Code(65410, 16) case 10 => Code(65411, 16) case _ => NONE)
    case 1 =>
      (match symbol % 16
       case 1 => Code(12, 4) case 2 => Code(27, 5) case 3 => Code(121, 7) case 4 => Code(502, 9)
       case 5 => Code(2038, 11) case 6 => Code(65412, 16) case 7 => Code(65413, 16) case 8 => Code(65414, 16)
       case 9 => Code(65415, 16) case 10 => Code(65416, 16) case _ => NONE)
    case 2 =>
      (match symbol % 16
       case 1 => Code(28, 5) case 2 => Code(249, 8) case 3 => Code(1015, 10) case 4 => Code(4084, 12)
       case 5 => Code(65417, 16) case 6 => Code(65418, 16) case 7 => Code(65419, 16) case 8 => Code(65420, 16)
       case 9 => Code(65421, 16) case 10 => Code(65422, 16) case _ => NONE)
    case 3 =>
      (match symbol % 16
       case 1 => Code(58, 6) case 2 => Code(503, 9) case 3 => Code(4085, 12) case 4 => Code(65423, 16)
       case 5 => Code(65424, 16) case 6 => Code(65425, 16) case 7 => Code(65426, 16) case 8 => Code(65427, 16)
       case 9 => Code(65428, 16) case 10 => Code(65429, 16) case _ => NONE)
    case 4 =>
      (match symbol % 16
       case 1 => Code(59, 6) case 2 => Code(1016, 10) case 3 => Code(65430, 16) case 4 => Code(65431, 16)
       case 5 => Code(65432, 16) case 6 => Code(65433, 16) case 7 => Code(65434, 16) case 8 => Code(65435, 16)
       case 9 => Code(65436, 16) case 10 => Code(65437, 16) case _ => NONE)
    case 5 =>
      (match symbol % 16
       case 1 => Code(122, 7) case 2 => Code(2039, 11) case 3 => Code(65438, 16) case 4 => Code(65439, 16)
       case 5 => Code(65440, 16) case 6 => Code(65441, 16) case 7 => Code(65442, 16) case 8 => Code(65443, 16)
       case 9 => Code(65444, 16) case 10 => Code(65445, 16) case _ => NONE)
    case 6 =>
      (match symbol % 16
       case 1 => Code(123, 7) case 2 => Code(4086, 12) case 3 => Code(65446, 16) case 4 => Code(65447, 16)
       case 5 => Code(65448, 16) case 6 => Code(65449, 16) case 7 => Code(65450, 16) case 8 => Code(65451, 16)
       case 9 => Code(65452, 16) case 10 => Code(65453, 16) case _ => NONE)
    case 7 =>
      (match symbol % 16
       case 1 => Code(250, 8) case 2 => Code(4087, 12) case 3 => Code(65454, 16) case 4 => Code(65455, 16)
       case 5 => Code(65456, 16) case 6 => Code(65457, 16) case 7 => Code(65458, 16) case 8 => Code(65459, 16)
       case 9 => Code(65460, 16) case 10 => Code(65461, 16) case _ => NONE)
    case 8 =>
      (match symbol % 16
       case 1 => Code(504, 9) case 2 => Code(32704, 15) case 3 => Code(65462, 16) case 4 => Code(65463, 16)
       case 5 => Code(65464, 16) case 6 => Code(65465, 16) case 7 => Code(65466, 16) case 8 => Code(65467, 16)
       case 9 => Code(65468, 16) case 10 => Code(65469, 16) case _ => NONE)
    case 9 =>
      (match symbol % 16
       case 1 => Code(505, 9) case 2 => Code(65470, 16) case 3 => Code(65471, 16) case 4 => Code(65472, 16)
       case 5 => Code(65473, 16) case 6 => Code(65474, 16) case 7 => Code(65475, 16) case 8 => Code(65476, 16)
       case 9 => Code(65477, 16) case 10 => Code(65478, 16) case _ => NONE)
    case 10 =>
      (match symbol % 16
       case 1 => Code(506, 9) case 2 => Code(65479, 16) case 3 => Code(65480, 16) case 4 => Code(65481, 16)
       case 5 => Code(65482, 16) case 6 => Code(65483, 16) case 7 => Code(65484, 16) case 8 => Code(65485, 16)
       case 9 => Code(65486, 16) case 10 => Code(65487, 16) case _ => NONE)
    case 11 =>
      (match symbol % 16
       case 1 => Code(1017, 10) case 2 => Code(65488, 16) case 3 => Code(65489, 16) case 4 => Code(65490, 16)
       case 5 => Code(65491, 16) case 6 => Code(65492, 16) case 7 => Code(65493, 16) case 8 => Code(65494, 16)
       case 9 => Code(65495, 16) case 10 => Code(65496, 16) case _ => NONE)
    case 12 =>
      (match symbol % 16
       case 1 => Code(1018, 10) case 2 => Code(65497, 16) case 3 => Code(65498, 16) case 4 => Code(65499, 16)
       case 5 => Code(65500, 16) case 6 => Code(65501, 16) case 7 => Code(65502, 16) case 8 => Code(65503, 16)
       case 9 => Code(65504, 16) case 10 => Code(65505, 16) case _ => NONE)
    case 13 =>
      (match symbol % 16
       case 1 => Code(2040, 11) case 2 => Code(65506, 16) case 3 => Code(65507, 16) case 4 => Code(65508, 16)
       case 5 => Code(65509, 16) case 6 => Code(65510, 16) case 7 => Code(65511, 16) case 8 => Code(65512, 16)
       case 9 => Code(65513, 16) case 10 => Code(65514, 16) case _ => NONE)
    case 14 =>
      (match symbol % 16
       case 1 => Code(65515, 16) case 2 => Code(65516, 16) case 3 => Code(65517, 16) case 4 => Code(65518, 16)
       case 5 => Code(65519, 16) case 6 => Code(65520, 16) case 7 => Code(65521, 16) case 8 => Code(65522, 16)
       case 9 => Code(65523, 16) case 10 => Code(65524, 16) case _ => NONE)
    case 15 =>
      (match symbol % 16
       case 0 => Code(2041, 11) case 1 => Code(65525, 16) case 2 => Code(65526, 16) case 3 => Code(65527, 16)
       case 4 => Code(65528, 16) case 5 => Code(65529, 16) case 6 => Code(65530, 16) case 7 => Code(65531, 16)
       case 8 => Code(65532, 16) case 9 => Code(65533, 16) case 10 => Code(65534, 16) case _ => NONE)
    case _ => NONE
  }

  function YAcTable(): (t: Table)
    ensures forall s: nat | s < 256 :: t[s] == YAcCode(s)
  {
    seq(256, s requires 0 <= s < 256 => YAcCode(s))
  }

  function YAcCount(size: nat): nat {
    match size
    case 2 => 2 case 3 => 1 case 4 => 3 case 5 => 3 case 6 => 2 case 7 => 4 case 8 => 3 case 9 => 5 case 10 => 5
    case 11 => 4 case 12 => 4 case 15 => 1 case 16 => 125 case _ => 0
  }

  function YAcSymbol(i: nat): nat {
    match i / 16
    case 0 =>
      (match i % 16
       case 0 => 0x01 case 1 => 0x02 case 2 => 0x03 case 3 => 0x00 case 4 => 0x04 case 5 => 0x11 case 6 => 0x05
       case 7 => 0x12 case 8 => 0x21 case 9 => 0x31 case 10 => 0x41 case 11 => 0x06 case 12 => 0x13 case 13 => 0x51
       case 14 => 0x61 case 15 => 0x07 case _ => 0)
    case 1 =>
      (match i % 16
       case 0 => 0x22 case 1 => 0x71 case 2 => 0x14 case 3 => 0x32 case 4 => 0x81 case 5 => 0x91 case 6 => 0xa1
       case 7 => 0x08 case 8 => 0x23 case 9 => 0x42 case 10 => 0xb1 case 11 => 0xc1 case 12 => 0x15 case 13 => 0x52
       case 14 => 0xd1 case 15 => 0xf0 case _ => 0)
    case 2 =>
      (match i % 16
       case 0 => 0x24 case 1 => 0x33 case 2 => 0x62 case 3 => 0x72 case 4 => 0x82 case 5 => 0x09 case 6 => 0x0a
       case 7 => 0x16 case 8 => 0x17 case 9 => 0x18 case 10 => 0x19 case 11 => 0x1a case 12 => 0x25 case 13 => 0x26
       case 14 => 0x27 case 15 => 0x28 case _ => 0)
    case 3 =>
      (match i % 16
       case 0 => 0x29 case 1 => 0x2a case 2 => 0x34 case 3 => 0x35 case 4 => 0x36 case 5 => 0x37 case 6 => 0x38
       case 7 => 0x39 case 8 => 0x3a case 9 => 0x43 case 10 => 0x44 case 11 => 0x45 case 12 => 0x46 case 13 => 0x47
       case 14 => 0x48 case 15 => 0x49 case _ => 0)
    case 4 =>
      (match i % 16
       case 0 => 0x4a case 1 => 0x53 case 2 => 0x54 case 3 => 0x55 case 4 => 0x56 case 5 => 0x57 case 6 => 0x58
       case 7 => 0x59 case 8 => 0x5a case 9 => 0x63 case 10 => 0x64 case 11 => 0x65 case 12 => 0x66 case 13 => 0x67
       case 14 => 0x68 case 15 => 0x69 case _ => 0)
    case 5 =>
      (match i % 16
       case 0 => 0x6a case 1 => 0x73 case 2 => 0x74 case 3 => 0x75 case 4 => 0x76 case 5 => 0x77 case 6 => 0x78
       case 7 => 0x79 case 8 => 0x7a case 9 => 0x83 case 10 => 0x84 case 11 => 0x85 case 12 => 0x86 case 13 => 0x87
       case 14 => 0x88 case 15 => 0x89 case _ => 0)
    case 6 =>
      (match i % 16
       case 0 => 0x8a case 1 => 0x92 case 2 => 0x93 case 3 => 0x94 case 4 => 0x95 case 5 => 0x96 case 6 => 0x97
       case 7 => 0x98 case 8 => 0x99 case 9 => 0x9a case 10 => 0xa2 case 11 => 0xa3 case 12 => 0xa4 case 13 => 0xa5
       case 14 => 0xa6 case 15 => 0xa7 case _ => 0)
    case 7 =>
      (match i % 16
       case 0 => 0xa8 case 1 => 0xa9 case 2 => 0xaa case 3 => 0xb2 case 4 => 0xb3 case 5 => 0xb4 case 6 => 0xb5
       case 7 => 0xb6 case 8 => 0xb7 case 9 => 0xb8 case 10 => 0xb9 case 11 => 0xba case 12 => 0xc2 case 13 => 0xc3
       case 14 => 0xc4 case 15 => 0xc5 case _ => 0)
    case 8 =>
      (match i % 16
       case 0 => 0xc6 case 1 => 0xc7 case 2 => 0xc8 case 3 => 0xc9 case 4 => 0xca case 5 => 0xd2 case 6 => 0xd3
       case 7 => 0xd4 case 8 => 0xd5 case 9 => 0xd6 case 10 => 0xd7 case 11 => 0xd8 case 12 => 0xd9 case 13 => 0xda
       case 14 => 0xe1 case 15 => 0xe2 case _ => 0)
    case 9 =>
      (match i % 16
       case 0 => 0xe3 case 1 => 0xe4 case 2 => 0xe5 case 3 => 0xe6 case 4 => 0xe7 case 5 => 0xe8 case 6 => 0xe9
       case 7 => 0xea case 8 => 0xf1 case 9 => 0xf2 case 10 => 0xf3 case 11 => 0xf4 case 12 => 0xf5 case 13 => 0xf6
       case 14 => 0xf7 case 15 => 0xf8 case _ => 0)
    case 10 =>
      (match i % 16
       case 0 => 0xf9 case 1 => 0xfa case _ => 0)
    case _ => 0
  }

  function YAcHead(): Segment { Segment(YAcCount, YAcSymbol, 162) }

  // --------------------------------------------------- chrominance, AC

  function UvAcCode(symbol: nat): Code {
    match symbol / 16
    case 0 =>
      (match symbol % 16
       case 0 => Code(0, 2) case 1 => Code(1, 2) case 2 => Code(4, 3) case 3 => Code(10, 4) case 4 => Code(24, 5)
       case 5 => Code(25, 5) case 6 => Code(56, 6) case 7 => Code(120, 7) case 8 => Code(500, 9)
       case 9 => Code(1014, 10) case 10 => Code(4084, 12) case _ => NONE)
    case 1 =>
      (match symbol % 16
       case 1 => Code(11, 4) case 2 => Code(57, 6) case 3 => Code(246, 8) case 4 => Code(501, 9)
       case 5 => Code(2038, 11) case 6 => Code(4085, 12) case 7 => Code(65416, 16) case 8 => Code(65417, 16)
       case 9 => Code(65418, 16) case 10 => Code(65419, 16) case _ => NONE)
    case 2 =>
      (match symbol % 16
       case 1 => Code(26, 5) case 2 => Code(247, 8) case 3 => Code(1015, 10) case 4 => Code(4086, 12)
       case 5 => Code(32706, 15) case 6 => Code(65420, 16) case 7 => Code(65421, 16) case 8 => Code(65422, 16)
       case 9 => Code(65423, 16) case 10 => Code(65424, 16) case _ => NONE)
    case 3 =>
      (match symbol % 16
       case 1 => Code(27, 5) case 2 => Code(248, 8) case 3 => Code(1016, 10) case 4 => Code(4087, 12)
       case 5 => Code(65425, 16) case 6 => Code(65426, 16) case 7 => Code(65427, 16) case 8 => Code(65428, 16)
       case 9 => Code(65429, 16) case 10 => Code(65430, 16) case _ => NONE)
    case 4 =>
      (match symbol % 16
       case 1 => Code(58, 6) case 2 => Code(502, 9) case 3 => Code(65431, 16) case 4 => Code(65432, 16)
       case 5 => Code(65433, 16) case 6 => Code(65434, 16) case 7 => Code(65435, 16) case 8 => Code(65436, 16)
       case 9 => Code(65437, 16) case 10 => Code(65438, 16) case _ => NONE)
    case 5 =>
      (match symbol % 16
       case 1 => Code(59, 6) case 2 => Code(1017, 10) case 3 => Code(65439, 16) case 4 => Code(65440, 16)
       case 5 => Code(65441, 16) case 6 => Code(65442, 16) case 7 => Code(65443, 16) case 8 => Code(65444, 16)
       case 9 => Code(65445, 16) case 10 => Code(65446, 16) case _ => NONE)
    case 6 =>
      (match symbol % 16
       case 1 => Code(121, 7) case 2 => Code(2039, 11) case 3 => Code(65447, 16) case 4 => Code(65448, 16)
       case 5 => Code(65449, 16) case 6 => Code(65450, 16) case 7 => Code(65451, 16) case 8 => Code(65452, 16)
       case 9 => Code(65453, 16) case 10 => Code(65454, 16) case _ => NONE)
    case 7 =>
      (match symbol % 16
       case 1 => Code(122, 7) case 2 => Code(2040, 11) case 3 => Code(65455, 16) case 4 => Code(65456, 16)
       case 5 => Code(65457, 16) case 6 => Code(65458, 16) case 7 => Code(65459, 16) case 8 => Code(65460, 16)
       case 9 => Code(65461, 16) case 10 => Code(65462, 16) case _ => NONE)
    case 8 =>
      (match symbol % 16
       case 1 => Code(249, 8) case 2 => Code(65463, 16) case 3 => Code(65464, 16) case 4 => Code(65465, 16)
       case 5 => Code(65466, 16) case 6 => Code(65467, 16) case 7 => Code(65468, 16) case 8 => Code(65469, 16)
       case 9 => Code(65470, 16) case 10 => Code(65471, 16) case _ => NONE)
    case 9 =>
      (match symbol % 16
       case 1 => Code(503, 9) case 2 => Code(65472, 16) case 3 => Code(65473, 16) case 4 => Code(65474, 16)
       case 5 => Code(65475, 16) case 6 => Code(65476, 16) case 7 => Code(65477, 16) case 8 => Code(65478, 16)
       case 9 => Code(65479, 16) case 10 => Code(65480, 16) case _ => NONE)
    case 10 =>
      (match symbol % 16
       case 1 => Code(504, 9) case 2 => Code(65481, 16) case 3 => Code(65482, 16) case 4 => Code(65483, 16)
       case 5 => Code(65484, 16) case 6 => Code(65485, 16) case 7 => Code(65486, 16) case 8 => Code(65487, 16)
       case 9 => Code(65488, 16) case 10 => Code(65489, 16) case _ => NONE)
    case 11 =>
      (match symbol % 16
       case 1 => Code(505, 9) case 2 => Code(65490, 16) case 3 => Code(65491, 16) case 4 => Code(65492, 16)
       case 5 => Code(65493, 16) case 6 => Code(65494, 16) case 7 => Code(65495, 16) case 8 => Code(65496, 16)
       case 9 => Code(65497, 16) case 10 => Code(65498, 16) case _ => NONE)
    case 12 =>
      (match symbol % 16
       case 1 => Code(506, 9) case 2 => Code(65499, 16) case 3 => Code(65500, 16) case 4 => Code(65501, 16)
       case 5 => Code(65502, 16) case 6 => Code(65503, 16) case 7 => Code(65504, 16) case 8 => Code(65505, 16)
       case 9 => Code(65506, 16) case 10 => Code(65507, 16) case _ => NONE)
    case 13 =>
      (match symbol % 16
       case 1 => Code(2041, 11) case 2 => Code(65508, 16) case 3 => Code(65509, 16) case 4 => Code(65510, 16)
       case 5 => Code(65511, 16) case 6 => Code(65512, 16) case 7 => Code(65513, 16) case 8 => Code(65514, 16)
       case 9 => Code(65515, 16) case 10 => Code(65516, 16) case _ => NONE)
    case 14 =>
      (match symbol % 16
       case 1 => Code(16352, 14) case 2 => Code(65517, 16) case 3 => Code(65518, 16) case 4 => Code(65519, 16)
       case 5 => Code(65520, 16) case 6 => Code(65521, 16) case 7 => Code(65522, 16) case 8 => Code(65523, 16)
       case 9 => Code(65524, 16) case 10 => Code(65525, 16) case _ => NONE)
    case 15 =>
      (match symbol % 16
       case 0 => Code(1018, 10) case 1 => Code(32707, 15) case 2 => Code(65526, 16) case 3 => Code(65527, 16)
       case 4 => Code(65528, 16) case 5 => Code(65529, 16) case 6 => Code(65530, 16) case 7 => Code(65531, 16)
       case 8 => Code(65532, 16) case 9 => Code(65533, 16) case 10 => Code(65534, 16) case _ => NONE)
    case _ => NONE
  }

  function UvAcTable(): (t: Table)
    ensures forall s: nat | s < 256 :: t[s] == UvAcCode(s)
  {
    seq(256, s requires 0 <= s < 256 => UvAcCode(s))
  }

  function UvAcCount(size: nat): nat {
    match size
    case 2 => 2 case 3 => 1 case 4 => 2 case 5 => 4 case 6 => 4 case 7 => 3 case 8 => 4 case 9 => 7 case 10 => 5
    case 11 => 4 case 12 => 4 case 14 => 1 case 15 => 2 case 16 => 119 case _ => 0
  }

  function UvAcSymbol(i: nat): nat {
    match i / 16
    case 0 =>
      (match i % 16
       case 0 => 0x00 case 1 => 0x01 case 2 => 0x02 case 3 => 0x03 case 4 => 0x11 case 5 => 0x04 case 6 => 0x05
       case 7 => 0x21 case 8 => 0x31 case 9 => 0x06 case 10 => 0x12 case 11 => 0x41 case 12 => 0x51 case 13 => 0x07
       case 14 => 0x61 case 15 => 0x71 case _ => 0)
    case 1 =>
      (match i % 16
       case 0 => 0x13 case 1 => 0x22 case 2 => 0x32 case 3 => 0x81 case 4 => 0x08 case 5 => 0x14 case 6 => 0x42
       case 7 => 0x91 case 8 => 0xa1 case 9 => 0xb1 case 10 => 0xc1 case 11 => 0x09 case 12 => 0x23 case 13 => 0x33
       case 14 => 0x52 case 15 => 0xf0 case _ => 0)
    case 2 =>
      (match i % 16
       case 0 => 0x15 case 1 => 0x62 case 2 => 0x72 case 3 => 0xd1 case 4 => 0x0a case 5 => 0x16 case 6 => 0x24
       case 7 => 0x34 case 8 => 0xe1 case 9 => 0x25 case 10 => 0xf1 case 11 => 0x17 case 12 => 0x18 case 13 => 0x19
       case 14 => 0x1a case 15 => 0x26 case _ => 0)
    case 3 =>
      (match i % 16
       case 0 => 0x27 case 1 => 0x28 case 2 => 0x29 case 3 => 0x2a case 4 => 0x35 case 5 => 0x36 case 6 => 0x37
       case 7 => 0x38 case 8 => 0x39 case 9 => 0x3a case 10 => 0x43 case 11 => 0x44 case 12 => 0x45 case 13 => 0x46
       case 14 => 0x47 case 15 => 0x48 case _ => 0)
    case 4 =>
      (match i % 16
       case 0 => 0x49 case 1 => 0x4a case 2 => 0x53 case 3 => 0x54 case 4 => 0x55 case 5 => 0x56 case 6 => 0x57
       case 7 => 0x58 case 8 => 0x59 case 9 => 0x5a case 10 => 0x63 case 11 => 0x64 case 12 => 0x65 case 13 => 0x66
       case 14 => 0x67 case 15 => 0x68 case _ => 0)
    case 5 =>
      (match i % 16
       case 0 => 0x69 case 1 => 0x6a case 2 => 0x73 case 3 => 0x74 case 4 => 0x75 case 5 => 0x76 case 6 => 0x77
       case 7 => 0x78 case 8 => 0x79 case 9 => 0x7a case 10 => 0x82 case 11 => 0x83 case 12 => 0x84 case 13 => 0x85
       case 14 => 0x86 case 15 => 0x87 case _ => 0)
    case 6 =>
      (match i % 16
       case 0 => 0x88 case 1 => 0x89 case 2 => 0x8a case 3 => 0x92 case 4 => 0x93 case 5 => 0x94 case 6 => 0x95
       case 7 => 0x96 case 8 => 0x97 case 9 => 0x98 case 10 => 0x99 case 11 => 0x9a case 12 => 0xa2 case 13 => 0xa3
       case 14 => 0xa4 case 15 => 0xa5 case _ => 0)
    case 7 =>
      (match i % 16
       case 0 => 0xa6 case 1 => 0xa7 case 2 => 0xa8 case 3 => 0xa9 case 4 => 0xaa case 5 => 0xb2 case 6 => 0xb3
       case 7 => 0xb4 case 8 => 0xb5 case 9 => 0xb6 case 10 => 0xb7 case 11 => 0xb8 case 12 => 0xb9 case 13 => 0xba
       case 14 => 0xc2 case 15 => 0xc3 case _ => 0)
    case 8 =>
      (match i % 16
       case 0 => 0xc4 case 1 => 0xc5 case 2 => 0xc6 case 3 => 0xc7 case 4 => 0xc8 case 5 => 0xc9 case 6 => 0xca
       case 7 => 0xd2 case 8 => 0xd3 case 9 => 0xd4 case 10 => 0xd5 case 11 => 0xd6 case 12 => 0xd7 case 13 => 0xd8
       case 14 => 0xd9 case 15 => 0xda case _ => 0)
    case 9 =>
      (match i % 16
       case 0 => 0xe2 case 1 => 0xe3 case 2 => 0xe4 case 3 => 0xe5 case 4 => 0xe6 case 5 => 0xe7 case 6 => 0xe8
       case 7 => 0xe9 case 8 => 0xea case 9 => 0xf2 case 10 => 0xf3 case 11 => 0xf4 case 12 => 0xf5 case 13 => 0xf6
       case 14 => 0xf7 case 15 => 0xf8 case _ => 0)
    case 10 =>
      (match i % 16
       case 0 => 0xf9 case 1 => 0xfa case _ => 0)
    case _ => 0
  }

  function UvAcHead(): Segment { Segment(UvAcCount, UvAcSymbol, 162) }
}
