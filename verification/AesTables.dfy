/** The byte tables of AES: the C tables, the concatenations the hardware indexes, and
    what FIPS 197 says their entries are. */
module AesTables {
  import opened AesField

  /** One sixteen-entry table row, selected by a column number below sixteen. */
  function Row(c: bv8,
               v0: bv8, v1: bv8, v2: bv8, v3: bv8, v4: bv8, v5: bv8, v6: bv8, v7: bv8,
               v8: bv8, v9: bv8, v10: bv8, v11: bv8, v12: bv8, v13: bv8, v14: bv8, v15: bv8): bv8
  {
    if c & 8 == 0 then
      if c & 4 == 0 then
        if c & 2 == 0 then (if c & 1 == 0 then v0 else v1) else (if c & 1 == 0 then v2 else v3)
      else
        if c & 2 == 0 then (if c & 1 == 0 then v4 else v5) else (if c & 1 == 0 then v6 else v7)
    else
      if c & 4 == 0 then
        if c & 2 == 0 then (if c & 1 == 0 then v8 else v9) else (if c & 1 == 0 then v10 else v11)
      else
        if c & 2 == 0 then (if c & 1 == 0 then v12 else v13) else (if c & 1 == 0 then v14 else v15)
  }

  /** The table `sbox` of the C code, rows in index order. */
  function Sbox(x: bv8): bv8 {
    var c := x & 15;
    Row(x >> 4,
        Row(c, 0x63, 0x7c, 0x77, 0x7b, 0xf2, 0x6b, 0x6f, 0xc5, 0x30, 0x01, 0x67, 0x2b, 0xfe, 0xd7, 0xab, 0x76),
        Row(c, 0xca, 0x82, 0xc9, 0x7d, 0xfa, 0x59, 0x47, 0xf0, 0xad, 0xd4, 0xa2, 0xaf, 0x9c, 0xa4, 0x72, 0xc0),
        Row(c, 0xb7, 0xfd, 0x93, 0x26, 0x36, 0x3f, 0xf7, 0xcc, 0x34, 0xa5, 0xe5, 0xf1, 0x71, 0xd8, 0x31, 0x15),
        Row(c, 0x04, 0xc7, 0x23, 0xc3, 0x18, 0x96, 0x05, 0x9a, 0x07, 0x12, 0x80, 0xe2, 0xeb, 0x27, 0xb2, 0x75),
        Row(c, 0x09, 0x83, 0x2c, 0x1a, 0x1b, 0x6e, 0x5a, 0xa0, 0x52, 0x3b, 0xd6, 0xb3, 0x29, 0xe3, 0x2f, 0x84),
        Row(c, 0x53, 0xd1, 0x00, 0xed, 0x20, 0xfc, 0xb1, 0x5b, 0x6a, 0xcb, 0xbe, 0x39, 0x4a, 0x4c, 0x58, 0xcf),
        Row(c, 0xd0, 0xef, 0xaa, 0xfb, 0x43, 0x4d, 0x33, 0x85, 0x45, 0xf9, 0x02, 0x7f, 0x50, 0x3c, 0x9f, 0xa8),
        Row(c, 0x51, 0xa3, 0x40, 0x8f, 0x92, 0x9d, 0x38, 0xf5, 0xbc, 0xb6, 0xda, 0x21, 0x10, 0xff, 0xf3, 0xd2),
        Row(c, 0xcd, 0x0c, 0x13, 0xec, 0x5f, 0x97, 0x44, 0x17, 0xc4, 0xa7, 0x7e, 0x3d, 0x64, 0x5d, 0x19, 0x73),
        Row(c, 0x60, 0x81, 0x4f, 0xdc, 0x22, 0x2a, 0x90, 0x88, 0x46, 0xee, 0xb8, 0x14, 0xde, 0x5e, 0x0b, 0xdb),
        Row(c, 0xe0, 0x32, 0x3a, 0x0a, 0x49, 0x06, 0x24, 0x5c, 0xc2, 0xd3, 0xac, 0x62, 0x91, 0x95, 0xe4, 0x79),
        Row(c, 0xe7, 0xc8, 0x37, 0x6d, 0x8d, 0xd5, 0x4e, 0xa9, 0x6c, 0x56, 0xf4, 0xea, 0x65, 0x7a, 0xae, 0x08),
        Row(c, 0xba, 0x78, 0x25, 0x2e, 0x1c, 0xa6, 0xb4, 0xc6, 0xe8, 0xdd, 0x74, 0x1f, 0x4b, 0xbd, 0x8b, 0x8a),
        Row(c, 0x70, 0x3e, 0xb5, 0x66, 0x48, 0x03, 0xf6, 0x0e, 0x61, 0x35, 0x57, 0xb9, 0x86, 0xc1, 0x1d, 0x9e),
        Row(c, 0xe1, 0xf8, 0x98, 0x11, 0x69, 0xd9, 0x8e, 0x94, 0x9b, 0x1e, 0x87, 0xe9, 0xce, 0x55, 0x28, 0xdf),
        Row(c, 0x8c, 0xa1, 0x89, 0x0d, 0xbf, 0xe6, 0x42, 0x68, 0x41, 0x99, 0x2d, 0x0f, 0xb0, 0x54, 0xbb, 0x16))
  }

  /** The table `rsbox` of the C code, rows in index order. */
  function InvSbox(x: bv8): bv8 {
    var c := x & 15;
    Row(x >> 4,
        Row(c, 0x52, 0x09, 0x6a, 0xd5, 0x30, 0x36, 0xa5, 0x38, 0xbf, 0x40, 0xa3, 0x9e, 0x81, 0xf3, 0xd7, 0xfb),
        Row(c, 0x7c, 0xe3, 0x39, 0x82, 0x9b, 0x2f, 0xff, 0x87, 0x34, 0x8e, 0x43, 0x44, 0xc4, 0xde, 0xe9, 0xcb),
        Row(c, 0x54, 0x7b, 0x94, 0x32, 0xa6, 0xc2, 0x23, 0x3d, 0xee, 0x4c, 0x95, 0x0b, 0x42, 0xfa, 0xc3, 0x4e),
        Row(c, 0x08, 0x2e, 0xa1, 0x66, 0x28, 0xd9, 0x24, 0xb2, 0x76, 0x5b, 0xa2, 0x49, 0x6d, 0x8b, 0xd1, 0x25),
        Row(c, 0x72, 0xf8, 0xf6, 0x64, 0x86, 0x68, 0x98, 0x16, 0xd4, 0xa4, 0x5c, 0xcc, 0x5d, 0x65, 0xb6, 0x92),
        Row(c, 0x6c, 0x70, 0x48, 0x50, 0xfd, 0xed, 0xb9, 0xda, 0x5e, 0x15, 0x46, 0x57, 0xa7, 0x8d, 0x9d, 0x84),
        Row(c, 0x90, 0xd8, 0xab, 0x00, 0x8c, 0xbc, 0xd3, 0x0a, 0xf7, 0xe4, 0x58, 0x05, 0xb8, 0xb3, 0x45, 0x06),
        Row(c, 0xd0, 0x2c, 0x1e, 0x8f, 0xca, 0x3f, 0x0f, 0x02, 0xc1, 0xaf, 0xbd, 0x03, 0x01, 0x13, 0x8a, 0x6b),
        Row(c, 0x3a, 0x91, 0x11, 0x41, 0x4f, 0x67, 0xdc, 0xea, 0x97, 0xf2, 0xcf, 0xce, 0xf0, 0xb4, 0xe6, 0x73),
        Row(c, 0x96, 0xac, 0x74, 0x22, 0xe7, 0xad, 0x35, 0x85, 0xe2, 0xf9, 0x37, 0xe8, 0x1c, 0x75, 0xdf, 0x6e),
        Row(c, 0x47, 0xf1, 0x1a, 0x71, 0x1d, 0x29, 0xc5, 0x89, 0x6f, 0xb7, 0x62, 0x0e, 0xaa, 0x18, 0xbe, 0x1b),
        Row(c, 0xfc, 0x56, 0x3e, 0x4b, 0xc6, 0xd2, 0x79, 0x20, 0x9a, 0xdb, 0xc0, 0xfe, 0x78, 0xcd, 0x5a, 0xf4),
        Row(c, 0x1f, 0xdd, 0xa8, 0x33, 0x88, 0x07, 0xc7, 0x31, 0xb1, 0x12, 0x10, 0x59, 0x27, 0x80, 0xec, 0x5f),
        Row(c, 0x60, 0x51, 0x7f, 0xa9, 0x19, 0xb5, 0x4a, 0x0d, 0x2d, 0xe5, 0x7a, 0x9f, 0x93, 0xc9, 0x9c, 0xef),
        Row(c, 0xa0, 0xe0, 0x3b, 0x4d, 0xae, 0x2a, 0xf5, 0xb0, 0xc8, 0xeb, 0xbb, 0x3c, 0x83, 0x53, 0x99, 0x61),
        Row(c, 0x17, 0x2b, 0x04, 0x7e, 0xba, 0x77, 0xd6, 0x26, 0xe1, 0x69, 0x14, 0x63, 0x55, 0x21, 0x0c, 0x7d))
  }

  /** `get_sbox` of the hardware: the concatenation is listed from entry 255 down and
      indexed from its least significant byte. */
  function HdlSbox(x: bv8): bv8 {
    var c := x & 15;
    Row(15 - (x >> 4),
        Row(15 - c, 0x16, 0xBB, 0x54, 0xB0, 0x0F, 0x2D, 0x99, 0x41, 0x68, 0x42, 0xE6, 0xBF, 0x0D, 0x89, 0xA1, 0x8C),
        Row(15 - c, 0xDF, 0x28, 0x55, 0xCE, 0xE9, 0x87, 0x1E, 0x9B, 0x94, 0x8E, 0xD9, 0x69, 0x11, 0x98, 0xF8, 0xE1),
        Row(15 - c, 0x9E, 0x1D, 0xC1, 0x86, 0xB9, 0x57, 0x35, 0x61, 0x0E, 0xF6, 0x03, 0x48, 0x66, 0xB5, 0x3E, 0x70),
        Row(15 - c, 0x8A, 0x8B, 0xBD, 0x4B, 0x1F, 0x74, 0xDD, 0xE8, 0xC6, 0xB4, 0xA6, 0x1C, 0x2E, 0x25, 0x78, 0xBA),
        Row(15 - c, 0x08, 0xAE, 0x7A, 0x65, 0xEA, 0xF4, 0x56, 0x6C, 0xA9, 0x4E, 0xD5, 0x8D, 0x6D, 0x37, 0xC8, 0xE7),
        Row(15 - c, 0x79, 0xE4, 0x95, 0x91, 0x62, 0xAC, 0xD3, 0xC2, 0x5C, 0x24, 0x06, 0x49, 0x0A, 0x3A, 0x32, 0xE0),
        Row(15 - c, 0xDB, 0x0B, 0x5E, 0xDE, 0x14, 0xB8, 0xEE, 0x46, 0x88, 0x90, 0x2A, 0x22, 0xDC, 0x4F, 0x81, 0x60),
        Row(15 - c, 0x73, 0x19, 0x5D, 0x64, 0x3D, 0x7E, 0xA7, 0xC4, 0x17, 0x44, 0x97, 0x5F, 0xEC, 0x13, 0x0C, 0xCD),
        Row(15 - c, 0xD2, 0xF3, 0xFF, 0x10, 0x21, 0xDA, 0xB6, 0xBC, 0xF5, 0x38, 0x9D, 0x92, 0x8F, 0x40, 0xA3, 0x51),
        Row(15 - c, 0xA8, 0x9F, 0x3C, 0x50, 0x7F, 0x02, 0xF9, 0x45, 0x85, 0x33, 0x4D, 0x43, 0xFB, 0xAA, 0xEF, 0xD0),
        Row(15 - c, 0xCF, 0x58, 0x4C, 0x4A, 0x39, 0xBE, 0xCB, 0x6A, 0x5B, 0xB1, 0xFC, 0x20, 0xED, 0x00, 0xD1, 0x53),
        Row(15 - c, 0x84, 0x2F, 0xE3, 0x29, 0xB3, 0xD6, 0x3B, 0x52, 0xA0, 0x5A, 0x6E, 0x1B, 0x1A, 0x2C, 0x83, 0x09),
        Row(15 - c, 0x75, 0xB2, 0x27, 0xEB, 0xE2, 0x80, 0x12, 0x07, 0x9A, 0x05, 0x96, 0x18, 0xC3, 0x23, 0xC7, 0x04),
        Row(15 - c, 0x15, 0x31, 0xD8, 0x71, 0xF1, 0xE5, 0xA5, 0x34, 0xCC, 0xF7, 0x3F, 0x36, 0x26, 0x93, 0xFD, 0xB7),
        Row(15 - c, 0xC0, 0x72, 0xA4, 0x9C, 0xAF, 0xA2, 0xD4, 0xAD, 0xF0, 0x47, 0x59, 0xFA, 0x7D, 0xC9, 0x82, 0xCA),
        Row(15 - c, 0x76, 0xAB, 0xD7, 0xFE, 0x2B, 0x67, 0x01, 0x30, 0xC5, 0x6F, 0x6B, 0xF2, 0x7B, 0x77, 0x7C, 0x63))
  }

  /** `get_rsbox` of the hardware, listed and indexed the same way. */
  function HdlInvSbox(x: bv8): bv8 {
    var c := x & 15;
    Row(15 - (x >> 4),
        Row(15 - c, 0x7D, 0x0C, 0x21, 0x55, 0x63, 0x14, 0x69, 0xE1, 0x26, 0xD6, 0x77, 0xBA, 0x7E, 0x04, 0x2B, 0x17),
        Row(15 - c, 0x61, 0x99, 0x53, 0x83, 0x3C, 0xBB, 0xEB, 0xC8, 0xB0, 0xF5, 0x2A, 0xAE, 0x4D, 0x3B, 0xE0, 0xA0),
        Row(15 - c, 0xEF, 0x9C, 0xC9, 0x93, 0x9F, 0x7A, 0xE5, 0x2D, 0x0D, 0x4A, 0xB5, 0x19, 0xA9, 0x7F, 0x51, 0x60),
        Row(15 - c, 0x5F, 0xEC, 0x80, 0x27, 0x59, 0x10, 0x12, 0xB1, 0x31, 0xC7, 0x07, 0x88, 0x33, 0xA8, 0xDD, 0x1F),
        Row(15 - c, 0xF4, 0x5A, 0xCD, 0x78, 0xFE, 0xC0, 0xDB, 0x9A, 0x20, 0x79, 0xD2, 0xC6, 0x4B, 0x3E, 0x56, 0xFC),
        Row(15 - c, 0x1B, 0xBE, 0x18, 0xAA, 0x0E, 0x62, 0xB7, 0x6F, 0x89, 0xC5, 0x29, 0x1D, 0x71, 0x1A, 0xF1, 0x47),
        Row(15 - c, 0x6E, 0xDF, 0x75, 0x1C, 0xE8, 0x37, 0xF9, 0xE2, 0x85, 0x35, 0xAD, 0xE7, 0x22, 0x74, 0xAC, 0x96),
        Row(15 - c, 0x73, 0xE6, 0xB4, 0xF0, 0xCE, 0xCF, 0xF2, 0x97, 0xEA, 0xDC, 0x67, 0x4F, 0x41, 0x11, 0x91, 0x3A),
        Row(15 - c, 0x6B, 0x8A, 0x13, 0x01, 0x03, 0xBD, 0xAF, 0xC1, 0x02, 0x0F, 0x3F, 0xCA, 0x8F, 0x1E, 0x2C, 0xD0),
        Row(15 - c, 0x06, 0x45, 0xB3, 0xB8, 0x05, 0x58, 0xE4, 0xF7, 0x0A, 0xD3, 0xBC, 0x8C, 0x00, 0xAB, 0xD8, 0x90),
        Row(15 - c, 0x84, 0x9D, 0x8D, 0xA7, 0x57, 0x46, 0x15, 0x5E, 0xDA, 0xB9, 0xED, 0xFD, 0x50, 0x48, 0x70, 0x6C),
        Row(15 - c, 0x92, 0xB6, 0x65, 0x5D, 0xCC, 0x5C, 0xA4, 0xD4, 0x16, 0x98, 0x68, 0x86, 0x64, 0xF6, 0xF8, 0x72),
        Row(15 - c, 0x25, 0xD1, 0x8B, 0x6D, 0x49, 0xA2, 0x5B, 0x76, 0xB2, 0x24, 0xD9, 0x28, 0x66, 0xA1, 0x2E, 0x08),
        Row(15 - c, 0x4E, 0xC3, 0xFA, 0x42, 0x0B, 0x95, 0x4C, 0xEE, 0x3D, 0x23, 0xC2, 0xA6, 0x32, 0x94, 0x7B, 0x54),
        Row(15 - c, 0xCB, 0xE9, 0xDE, 0xC4, 0x44, 0x43, 0x8E, 0x34, 0x87, 0xFF, 0x2F, 0x9B, 0x82, 0x39, 0xE3, 0x7C),
        Row(15 - c, 0xFB, 0xD7, 0xF3, 0x81, 0x9E, 0xA3, 0x40, 0xBF, 0x38, 0xA5, 0x36, 0x30, 0xD5, 0x6A, 0x09, 0x52))
  }

  /** Both hardware concatenations hold the C tables. */
  lemma HdlTablesAgree(x: bv8)
    ensures HdlSbox(x) == Sbox(x)
    ensures HdlInvSbox(x) == InvSbox(x)
  {
    HdlSboxAgrees(x);
    HdlInvSboxAgrees(x);
  }

  /** A row listed the other way and indexed from its end is the same row. */
  lemma RowReversed(c: bv8,
                    v0: bv8, v1: bv8, v2: bv8, v3: bv8, v4: bv8, v5: bv8, v6: bv8, v7: bv8,
                    v8: bv8, v9: bv8, v10: bv8, v11: bv8, v12: bv8, v13: bv8, v14: bv8, v15: bv8)
    requires c < 16
    ensures Row(15 - c, v15, v14, v13, v12, v11, v10, v9, v8, v7, v6, v5, v4, v3, v2, v1, v0)
         == Row(c, v0, v1, v2, v3, v4, v5, v6, v7, v8, v9, v10, v11, v12, v13, v14, v15)
  {
  }

  lemma RowsReversed(c: bv8)
    requires c < 16
    ensures forall v0: bv8, v1: bv8, v2: bv8, v3: bv8, v4: bv8, v5: bv8, v6: bv8, v7: bv8,
                   v8: bv8, v9: bv8, v10: bv8, v11: bv8, v12: bv8, v13: bv8, v14: bv8, v15: bv8 ::
              Row(15 - c, v15, v14, v13, v12, v11, v10, v9, v8, v7, v6, v5, v4, v3, v2, v1, v0)
              == Row(c, v0, v1, v2, v3, v4, v5, v6, v7, v8, v9, v10, v11, v12, v13, v14, v15)
  {
    forall v0: bv8, v1: bv8, v2: bv8, v3: bv8, v4: bv8, v5: bv8, v6: bv8, v7: bv8,
           v8: bv8, v9: bv8, v10: bv8, v11: bv8, v12: bv8, v13: bv8, v14: bv8, v15: bv8
      ensures Row(15 - c, v15, v14, v13, v12, v11, v10, v9, v8, v7, v6, v5, v4, v3, v2, v1, v0)
           == Row(c, v0, v1, v2, v3, v4, v5, v6, v7, v8, v9, v10, v11, v12, v13, v14, v15)
    {
      RowReversed(c, v0, v1, v2, v3, v4, v5, v6, v7, v8, v9, v10, v11, v12, v13, v14, v15);
    }
  }

  lemma Nibbles(x: bv8)
    ensures x & 15 < 16 && x >> 4 < 16
  {
  }

  lemma HdlSboxAgrees(x: bv8)
    ensures HdlSbox(x) == Sbox(x)
  {
    hide Row;
    Nibbles(x);
    RowsReversed(x & 15);
    RowsReversed(x >> 4);
  }

  lemma HdlInvSboxAgrees(x: bv8)
    ensures HdlInvSbox(x) == InvSbox(x)
  {
    hide Row;
    Nibbles(x);
    RowsReversed(x & 15);
    RowsReversed(x >> 4);
  }

  /** The two tables undo each other on every byte. */
  lemma SboxInverse(x: bv8)
    ensures InvSbox(Sbox(x)) == x
    ensures Sbox(InvSbox(x)) == x
  {
    if x < 0x80 {
      InvSboxAfterSboxLow(x);
      SboxAfterInvSboxLow(x);
    } else {
      InvSboxAfterSboxHigh(x);
      SboxAfterInvSboxHigh(x);
    }
  }

  lemma InvSboxAfterSboxLow(x: bv8)
    requires x < 0x80
    ensures InvSbox(Sbox(x)) == x
  {
  }

  lemma InvSboxAfterSboxHigh(x: bv8)
    requires x >= 0x80
    ensures InvSbox(Sbox(x)) == x
  {
  }

  lemma SboxAfterInvSboxLow(x: bv8)
    requires x < 0x80
    ensures Sbox(InvSbox(x)) == x
  {
  }

  lemma SboxAfterInvSboxHigh(x: bv8)
    requires x >= 0x80
    ensures Sbox(InvSbox(x)) == x
  {
  }

  /** The bit-wise affine map of FIPS 197 section 5.1.1. */
  function Affine(b: bv8): bv8 {
    b ^ b.RotateLeft(1) ^ b.RotateLeft(2) ^ b.RotateLeft(3) ^ b.RotateLeft(4) ^ 0x63
  }

  /** The inverse of the affine map. */
  function InvAffine(b: bv8): bv8 {
    b.RotateLeft(1) ^ b.RotateLeft(3) ^ b.RotateLeft(6) ^ 0x05
  }

  lemma AffineInverse(b: bv8)
    ensures InvAffine(Affine(b)) == b
    ensures Affine(InvAffine(b)) == b
  {
  }

  /** Freed of the affine map, entry `x` of the table is the inverse of `x`. */
  predicate Inverts(x: bv8) { Product(x, InvAffine(Sbox(x))) == 1 }

  /** The table is the one FIPS 197 section 5.1.1 derives: the affine map of the inverse in
      GF(2^8), with zero standing for its own inverse. */
  lemma SboxIsFips(x: bv8)
    ensures Sbox(x) == Affine(InvAffine(Sbox(x)))
    ensures x == 0 ==> InvAffine(Sbox(x)) == 0
    ensures x != 0 ==> Product(x, InvAffine(Sbox(x))) == 1
  {
    hide Sbox, Product, InvAffine, Affine;
    AffineInverse(Sbox(x));
    if x == 0 {
      ZeroEntry();
    } else {
      EntryInverts(x);
    }
  }

  lemma ZeroEntry()
    ensures InvAffine(Sbox(0)) == 0
  {
  }

  lemma EntryInverts(x: bv8)
    requires x != 0
    ensures Inverts(x)
  {
    hide Inverts;
    if x < 0x10 {
      Row0Inverts(x);
    } else if x < 0x20 {
      Row1Inverts(x);
    } else if x < 0x30 {
      Row2Inverts(x);
    } else if x < 0x40 {
      Row3Inverts(x);
    } else if x < 0x50 {
      Row4Inverts(x);
    } else if x < 0x60 {
      Row5Inverts(x);
    } else if x < 0x70 {
      Row6Inverts(x);
    } else if x < 0x80 {
      Row7Inverts(x);
    } else if x < 0x90 {
      Row8Inverts(x);
    } else if x < 0xa0 {
      Row9Inverts(x);
    } else if x < 0xb0 {
      RowAInverts(x);
    } else if x < 0xc0 {
      RowBInverts(x);
    } else if x < 0xd0 {
      RowCInverts(x);
    } else if x < 0xe0 {
      RowDInverts(x);
    } else if x < 0xf0 {
      RowEInverts(x);
    } else {
      RowFInverts(x);
    }
  }

  lemma Row0Inverts(x: bv8)
    requires 0 < x < 0x10
    ensures Inverts(x)
  {
    match x
    case 0x01 | 0x02 | 0x03 | 0x04 | 0x05 | 0x06 | 0x07 | 0x08
       | 0x09 | 0x0a | 0x0b | 0x0c | 0x0d | 0x0e | 0x0f =>
    case _ =>
  }

  lemma Row1Inverts(x: bv8)
    requires 0x10 <= x < 0x20
    ensures Inverts(x)
  {
    match x
    case 0x10 | 0x11 | 0x12 | 0x13 | 0x14 | 0x15 | 0x16 | 0x17
       | 0x18 | 0x19 | 0x1a | 0x1b | 0x1c | 0x1d | 0x1e | 0x1f =>
    case _ =>
  }

  lemma Row2Inverts(x: bv8)
    requires 0x20 <= x < 0x30
    ensures Inverts(x)
  {
    match x
    case 0x20 | 0x21 | 0x22 | 0x23 | 0x24 | 0x25 | 0x26 | 0x27
       | 0x28 | 0x29 | 0x2a | 0x2b | 0x2c | 0x2d | 0x2e | 0x2f =>
    case _ =>
  }

  lemma Row3Inverts(x: bv8)
    requires 0x30 <= x < 0x40
    ensures Inverts(x)
  {
    match x
    case 0x30 | 0x31 | 0x32 | 0x33 | 0x34 | 0x35 | 0x36 | 0x37
       | 0x38 | 0x39 | 0x3a | 0x3b | 0x3c | 0x3d | 0x3e | 0x3f =>
    case _ =>
  }

  lemma Row4Inverts(x: bv8)
    requires 0x40 <= x < 0x50
    ensures Inverts(x)
  {
    match x
    case 0x40 | 0x41 | 0x42 | 0x43 | 0x44 | 0x45 | 0x46 | 0x47
       | 0x48 | 0x49 | 0x4a | 0x4b | 0x4c | 0x4d | 0x4e | 0x4f =>
    case _ =>
  }

  lemma Row5Inverts(x: bv8)
    requires 0x50 <= x < 0x60
    ensures Inverts(x)
  {
    match x
    case 0x50 | 0x51 | 0x52 | 0x53 | 0x54 | 0x55 | 0x56 | 0x57
       | 0x58 | 0x59 | 0x5a | 0x5b | 0x5c | 0x5d | 0x5e | 0x5f =>
    case _ =>
  }

  lemma Row6Inverts(x: bv8)
    requires 0x60 <= x < 0x70
    ensures Inverts(x)
  {
    match x
    case 0x60 | 0x61 | 0x62 | 0x63 | 0x64 | 0x65 | 0x66 | 0x67
       | 0x68 | 0x69 | 0x6a | 0x6b | 0x6c | 0x6d | 0x6e | 0x6f =>
    case _ =>
  }

  lemma Row7Inverts(x: bv8)
    requires 0x70 <= x < 0x80
    ensures Inverts(x)
  {
    match x
    case 0x70 | 0x71 | 0x72 | 0x73 | 0x74 | 0x75 | 0x76 | 0x77
       | 0x78 | 0x79 | 0x7a | 0x7b | 0x7c | 0x7d | 0x7e | 0x7f =>
    case _ =>
  }

  lemma Row8Inverts(x: bv8)
    requires 0x80 <= x < 0x90
    ensures Inverts(x)
  {
    match x
    case 0x80 | 0x81 | 0x82 | 0x83 | 0x84 | 0x85 | 0x86 | 0x87
       | 0x88 | 0x89 | 0x8a | 0x8b | 0x8c | 0x8d | 0x8e | 0x8f =>
    case _ =>
  }

  lemma Row9Inverts(x: bv8)
    requires 0x90 <= x < 0xa0
    ensures Inverts(x)
  {
    match x
    case 0x90 | 0x91 | 0x92 | 0x93 | 0x94 | 0x95 | 0x96 | 0x97
       | 0x98 | 0x99 | 0x9a | 0x9b | 0x9c | 0x9d | 0x9e | 0x9f =>
    case _ =>
  }

  lemma RowAInverts(x: bv8)
    requires 0xa0 <= x < 0xb0
    ensures Inverts(x)
  {
    match x
    case 0xa0 | 0xa1 | 0xa2 | 0xa3 | 0xa4 | 0xa5 | 0xa6 | 0xa7
       | 0xa8 | 0xa9 | 0xaa | 0xab | 0xac | 0xad | 0xae | 0xaf =>
    case _ =>
  }

  lemma RowBInverts(x: bv8)
    requires 0xb0 <= x < 0xc0
    ensures Inverts(x)
  {
    match x
    case 0xb0 | 0xb1 | 0xb2 | 0xb3 | 0xb4 | 0xb5 | 0xb6 | 0xb7
       | 0xb8 | 0xb9 | 0xba | 0xbb | 0xbc | 0xbd | 0xbe | 0xbf =>
    case _ =>
  }

  lemma RowCInverts(x: bv8)
    requires 0xc0 <= x < 0xd0
    ensures Inverts(x)
  {
    match x
    case 0xc0 | 0xc1 | 0xc2 | 0xc3 | 0xc4 | 0xc5 | 0xc6 | 0xc7
       | 0xc8 | 0xc9 | 0xca | 0xcb | 0xcc | 0xcd | 0xce | 0xcf =>
    case _ =>
  }

  lemma RowDInverts(x: bv8)
    requires 0xd0 <= x < 0xe0
    ensures Inverts(x)
  {
    match x
    case 0xd0 | 0xd1 | 0xd2 | 0xd3 | 0xd4 | 0xd5 | 0xd6 | 0xd7
       | 0xd8 | 0xd9 | 0xda | 0xdb | 0xdc | 0xdd | 0xde | 0xdf =>
    case _ =>
  }

  lemma RowEInverts(x: bv8)
    requires 0xe0 <= x < 0xf0
    ensures Inverts(x)
  {
    match x
    case 0xe0 | 0xe1 | 0xe2 | 0xe3 | 0xe4 | 0xe5 | 0xe6 | 0xe7
       | 0xe8 | 0xe9 | 0xea | 0xeb | 0xec | 0xed | 0xee | 0xef =>
    case _ =>
  }

  lemma RowFInverts(x: bv8)
    requires 0xf0 <= x
    ensures Inverts(x)
  {
    match x
    case 0xf0 | 0xf1 | 0xf2 | 0xf3 | 0xf4 | 0xf5 | 0xf6 | 0xf7
       | 0xf8 | 0xf9 | 0xfa | 0xfb | 0xfc | 0xfd | 0xfe | 0xff =>
    case _ =>
  }

  /** The C array `Rcon`. */
  const RCON: seq<bv8> := [0x8d, 0x01, 0x02, 0x04, 0x08, 0x10, 0x20, 0x40, 0x80, 0x1b, 0x36]

  /** The hardware's `rcon`, listed from entry 10 down. */
  const HDL_RCON: seq<bv8> := [0x36, 0x1b, 0x80, 0x40, 0x20, 0x10, 0x08, 0x04, 0x02, 0x01, 0x8d]

  /** Entry i is the power x^(i-1) of FIPS 197 section 5.2, in both listings. */
  lemma RconIsFips(i: nat)
    requires 1 <= i <= 10
    ensures RCON[i] == if i == 1 then 1 else Xtime(RCON[i - 1])
    ensures HDL_RCON[10 - i] == RCON[i]
  {
  }
}
