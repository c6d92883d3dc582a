/**
 The lookup table of gpt-utils/sparse_crc32.cpp and the fact that its entry for x is
 what eight clocks of the bare shift register make of x.
 */
module Crc32Table {

  type Word = bv32

  const POLY: Word := 0xedb88320

  function TableRow(r: nat): (row: seq<Word>)
    requires r < 32
    ensures |row| == 8
  {
    match r
    case 0 => [0x00000000, 0x77073096, 0xee0e612c, 0x990951ba, 0x076dc419, 0x706af48f, 0xe963a535, 0x9e6495a3]
    case 1 => [0x0edb8832, 0x79dcb8a4, 0xe0d5e91e, 0x97d2d988, 0x09b64c2b, 0x7eb17cbd, 0xe7b82d07, 0x90bf1d91]
    case 2 => [0x1db71064, 0x6ab020f2, 0xf3b97148, 0x84be41de, 0x1adad47d, 0x6ddde4eb, 0xf4d4b551, 0x83d385c7]
    case 3 => [0x136c9856, 0x646ba8c0, 0xfd62f97a, 0x8a65c9ec, 0x14015c4f, 0x63066cd9, 0xfa0f3d63, 0x8d080df5]
    case 4 => [0x3b6e20c8, 0x4c69105e, 0xd56041e4, 0xa2677172, 0x3c03e4d1, 0x4b04d447, 0xd20d85fd, 0xa50ab56b]
    case 5 => [0x35b5a8fa, 0x42b2986c, 0xdbbbc9d6, 0xacbcf940, 0x32d86ce3, 0x45df5c75, 0xdcd60dcf, 0xabd13d59]
    case 6 => [0x26d930ac, 0x51de003a, 0xc8d75180, 0xbfd06116, 0x21b4f4b5, 0x56b3c423, 0xcfba9599, 0xb8bda50f]
    case 7 => [0x2802b89e, 0x5f058808, 0xc60cd9b2, 0xb10be924, 0x2f6f7c87, 0x58684c11, 0xc1611dab, 0xb6662d3d]
    case 8 => [0x76dc4190, 0x01db7106, 0x98d220bc, 0xefd5102a, 0x71b18589, 0x06b6b51f, 0x9fbfe4a5, 0xe8b8d433]
    case 9 => [0x7807c9a2, 0x0f00f934, 0x9609a88e, 0xe10e9818, 0x7f6a0dbb, 0x086d3d2d, 0x91646c97, 0xe6635c01]
    case 10 => [0x6b6b51f4, 0x1c6c6162, 0x856530d8, 0xf262004e, 0x6c0695ed, 0x1b01a57b, 0x8208f4c1, 0xf50fc457]
    case 11 => [0x65b0d9c6, 0x12b7e950, 0x8bbeb8ea, 0xfcb9887c, 0x62dd1ddf, 0x15da2d49, 0x8cd37cf3, 0xfbd44c65]
    case 12 => [0x4db26158, 0x3ab551ce, 0xa3bc0074, 0xd4bb30e2, 0x4adfa541, 0x3dd895d7, 0xa4d1c46d, 0xd3d6f4fb]
    case 13 => [0x4369e96a, 0x346ed9fc, 0xad678846, 0xda60b8d0, 0x44042d73, 0x33031de5, 0xaa0a4c5f, 0xdd0d7cc9]
    case 14 => [0x5005713c, 0x270241aa, 0xbe0b1010, 0xc90c2086, 0x5768b525, 0x206f85b3, 0xb966d409, 0xce61e49f]
    case 15 => [0x5edef90e, 0x29d9c998, 0xb0d09822, 0xc7d7a8b4, 0x59b33d17, 0x2eb40d81, 0xb7bd5c3b, 0xc0ba6cad]
    case 16 => [0xedb88320, 0x9abfb3b6, 0x03b6e20c, 0x74b1d29a, 0xead54739, 0x9dd277af, 0x04db2615, 0x73dc1683]
    case 17 => [0xe3630b12, 0x94643b84, 0x0d6d6a3e, 0x7a6a5aa8, 0xe40ecf0b, 0x9309ff9d, 0x0a00ae27, 0x7d079eb1]
    case 18 => [0xf00f9344, 0x8708a3d2, 0x1e01f268, 0x6906c2fe, 0xf762575d, 0x806567cb, 0x196c3671, 0x6e6b06e7]
    case 19 => [0xfed41b76, 0x89d32be0, 0x10da7a5a, 0x67dd4acc, 0xf9b9df6f, 0x8ebeeff9, 0x17b7be43, 0x60b08ed5]
    case 20 => [0xd6d6a3e8, 0xa1d1937e, 0x38d8c2c4, 0x4fdff252, 0xd1bb67f1, 0xa6bc5767, 0x3fb506dd, 0x48b2364b]
    case 21 => [0xd80d2bda, 0xaf0a1b4c, 0x36034af6, 0x41047a60, 0xdf60efc3, 0xa867df55, 0x316e8eef, 0x4669be79]
    case 22 => [0xcb61b38c, 0xbc66831a, 0x256fd2a0, 0x5268e236, 0xcc0c7795, 0xbb0b4703, 0x220216b9, 0x5505262f]
    case 23 => [0xc5ba3bbe, 0xb2bd0b28, 0x2bb45a92, 0x5cb36a04, 0xc2d7ffa7, 0xb5d0cf31, 0x2cd99e8b, 0x5bdeae1d]
    case 24 => [0x9b64c2b0, 0xec63f226, 0x756aa39c, 0x026d930a, 0x9c0906a9, 0xeb0e363f, 0x72076785, 0x05005713]
    case 25 => [0x95bf4a82, 0xe2b87a14, 0x7bb12bae, 0x0cb61b38, 0x92d28e9b, 0xe5d5be0d, 0x7cdcefb7, 0x0bdbdf21]
    case 26 => [0x86d3d2d4, 0xf1d4e242, 0x68ddb3f8, 0x1fda836e, 0x81be16cd, 0xf6b9265b, 0x6fb077e1, 0x18b74777]
    case 27 => [0x88085ae6, 0xff0f6a70, 0x66063bca, 0x11010b5c, 0x8f659eff, 0xf862ae69, 0x616bffd3, 0x166ccf45]
    case 28 => [0xa00ae278, 0xd70dd2ee, 0x4e048354, 0x3903b3c2, 0xa7672661, 0xd06016f7, 0x4969474d, 0x3e6e77db]
    case 29 => [0xaed16a4a, 0xd9d65adc, 0x40df0b66, 0x37d83bf0, 0xa9bcae53, 0xdebb9ec5, 0x47b2cf7f, 0x30b5ffe9]
    case 30 => [0xbdbdf21c, 0xcabac28a, 0x53b39330, 0x24b4a3a6, 0xbad03605, 0xcdd70693, 0x54de5729, 0x23d967bf]
    case _ => [0xb3667a2e, 0xc4614ab8, 0x5d681b02, 0x2a6f2b94, 0xb40bbe37, 0xc30c8ea1, 0x5a05df1b, 0x2d02ef8d]
  }

  // crc32_tab[x], laid out eight to a row as in the source.
  function Table(x: Word): Word
    requires x < 256
  {
    TableRow((x >> 3) as nat)[(x & 7) as nat]
  }

  /* The table holds eight clocks of every byte. */

  function Shift(r: Word): Word {
    if r & 1 == 1 then (r >> 1) ^ POLY else r >> 1
  }

  function Shift8(r: Word): Word {
    Shift(Shift(Shift(Shift(Shift(Shift(Shift(Shift(r))))))))
  }

  function ShiftRow(b: Word): seq<Word> {
    [Shift8(b), Shift8(b | 1), Shift8(b | 2), Shift8(b | 3), Shift8(b | 4), Shift8(b | 5), Shift8(b | 6), Shift8(b | 7)]
  }

  lemma TableRows0(b: Word)
    requires b == 0 || b == 8 || b == 16 || b == 24
    ensures TableRow((b >> 3) as nat) == ShiftRow(b)
  {
    if b == 0 {} else if b == 8 {} else if b == 16 {} else {}
  }

  lemma TableRows1(b: Word)
    requires b == 32 || b == 40 || b == 48 || b == 56
    ensures TableRow((b >> 3) as nat) == ShiftRow(b)
  {
    if b == 32 {} else if b == 40 {} else if b == 48 {} else {}
  }

  lemma TableRows2(b: Word)
    requires b == 64 || b == 72 || b == 80 || b == 88
    ensures TableRow((b >> 3) as nat) == ShiftRow(b)
  {
    if b == 64 {} else if b == 72 {} else if b == 80 {} else {}
  }

  lemma TableRows3(b: Word)
    requires b == 96 || b == 104 || b == 112 || b == 120
    ensures TableRow((b >> 3) as nat) == ShiftRow(b)
  {
    if b == 96 {} else if b == 104 {} else if b == 112 {} else {}
  }

  lemma TableRows4(b: Word)
    requires b == 128 || b == 136 || b == 144 || b == 152
    ensures TableRow((b >> 3) as nat) == ShiftRow(b)
  {
    if b == 128 {} else if b == 136 {} else if b == 144 {} else {}
  }

  lemma TableRows5(b: Word)
    requires b == 160 || b == 168 || b == 176 || b == 184
    ensures TableRow((b >> 3) as nat) == ShiftRow(b)
  {
    if b == 160 {} else if b == 168 {} else if b == 176 {} else {}
  }

  lemma TableRows6(b: Word)
    requires b == 192 || b == 200 || b == 208 || b == 216
    ensures TableRow((b >> 3) as nat) == ShiftRow(b)
  {
    if b == 192 {} else if b == 200 {} else if b == 208 {} else {}
  }

  lemma TableRows7(b: Word)
    requires b == 224 || b == 232
    ensures TableRow((b >> 3) as nat) == ShiftRow(b)
  {
    if b == 224 {} else {}
  }

  lemma TableRows8(b: Word)
    requires b == 240 || b == 248
    ensures TableRow((b >> 3) as nat) == ShiftRow(b)
  {
    if b == 240 {} else {}
  }

  lemma TableRows(b: Word)
    requires b & 7 == 0 && b < 256
    ensures TableRow((b >> 3) as nat) == ShiftRow(b)
  {
    if b < 32 { TableRows0(b); } else if b < 64 { TableRows1(b); }
    else if b < 96 { TableRows2(b); } else if b < 128 { TableRows3(b); }
    else if b < 160 { TableRows4(b); } else if b < 192 { TableRows5(b); }
    else if b < 224 { TableRows6(b); } else if b < 240 { TableRows7(b); }
    else { TableRows8(b); }
  }

  lemma SplitIndex(x: Word)
    requires x < 256
    ensures (x & 0xf8) >> 3 == x >> 3
    ensures (x & 0xf8) | (x & 7) == x
    ensures (x & 0xf8) & 7 == 0 && x & 0xf8 < 256
  {}

  function Row(f: Word -> Word, b: Word): seq<Word> {
    [f(b), f(b | 1), f(b | 2), f(b | 3), f(b | 4), f(b | 5), f(b | 6), f(b | 7)]
  }

  lemma RowIndex(f: Word -> Word, b: Word, k: Word)
    requires k < 8
    ensures k as nat < 8 && Row(f, b)[k as nat] == f(b | k)
  {
    assert b | 0 == b;
    if k == 0 {} else if k == 1 {} else if k == 2 {} else if k == 3 {}
    else if k == 4 {} else if k == 5 {} else if k == 6 {} else {}
  }

  lemma TableIsShift8(x: Word)
    requires x < 256
    ensures Table(x) == Shift8(x)
  {
    SplitIndex(x);
    TableRows(x & 0xf8);
    assert ShiftRow(x & 0xf8) == Row(Shift8, x & 0xf8);
    RowIndex(Shift8, x & 0xf8, x & 7);
  }
}
