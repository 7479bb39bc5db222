/** The constant tables of aes.c. The bytes are those of Te4 and Td4, sixteen to a row; the other tables
    follow from them by the formula that aes.c gives for each. */
module AesTables {
  import opened AesField

  function S0(x: bv8): bv8 {
    match x
    case 0x00 => 0x63 case 0x01 => 0x7c case 0x02 => 0x77 case 0x03 => 0x7b
    case 0x04 => 0xf2 case 0x05 => 0x6b case 0x06 => 0x6f case 0x07 => 0xc5
    case 0x08 => 0x30 case 0x09 => 0x01 case 0x0a => 0x67 case 0x0b => 0x2b
    case 0x0c => 0xfe case 0x0d => 0xd7 case 0x0e => 0xab case _ => 0x76
  }

  function S1(x: bv8): bv8 {
    match x
    case 0x10 => 0xca case 0x11 => 0x82 case 0x12 => 0xc9 case 0x13 => 0x7d
    case 0x14 => 0xfa case 0x15 => 0x59 case 0x16 => 0x47 case 0x17 => 0xf0
    case 0x18 => 0xad case 0x19 => 0xd4 case 0x1a => 0xa2 case 0x1b => 0xaf
    case 0x1c => 0x9c case 0x1d => 0xa4 case 0x1e => 0x72 case _ => 0xc0
  }

  function S2(x: bv8): bv8 {
    match x
    case 0x20 => 0xb7 case 0x21 => 0xfd case 0x22 => 0x93 case 0x23 => 0x26
    case 0x24 => 0x36 case 0x25 => 0x3f case 0x26 => 0xf7 case 0x27 => 0xcc
    case 0x28 => 0x34 case 0x29 => 0xa5 case 0x2a => 0xe5 case 0x2b => 0xf1
    case 0x2c => 0x71 case 0x2d => 0xd8 case 0x2e => 0x31 case _ => 0x15
  }

  function S3(x: bv8): bv8 {
    match x
    case 0x30 => 0x04 case 0x31 => 0xc7 case 0x32 => 0x23 case 0x33 => 0xc3
    case 0x34 => 0x18 case 0x35 => 0x96 case 0x36 => 0x05 case 0x37 => 0x9a
    case 0x38 => 0x07 case 0x39 => 0x12 case 0x3a => 0x80 case 0x3b => 0xe2
    case 0x3c => 0xeb case 0x3d => 0x27 case 0x3e => 0xb2 case _ => 0x75
  }

  function S4(x: bv8): bv8 {
    match x
    case 0x40 => 0x09 case 0x41 => 0x83 case 0x42 => 0x2c case 0x43 => 0x1a
    case 0x44 => 0x1b case 0x45 => 0x6e case 0x46 => 0x5a case 0x47 => 0xa0
    case 0x48 => 0x52 case 0x49 => 0x3b case 0x4a => 0xd6 case 0x4b => 0xb3
    case 0x4c => 0x29 case 0x4d => 0xe3 case 0x4e => 0x2f case _ => 0x84
  }

  function S5(x: bv8): bv8 {
    match x
    case 0x50 => 0x53 case 0x51 => 0xd1 case 0x52 => 0x00 case 0x53 => 0xed
    case 0x54 => 0x20 case 0x55 => 0xfc case 0x56 => 0xb1 case 0x57 => 0x5b
    case 0x58 => 0x6a case 0x59 => 0xcb case 0x5a => 0xbe case 0x5b => 0x39
    case 0x5c => 0x4a case 0x5d => 0x4c case 0x5e => 0x58 case _ => 0xcf
  }

  function S6(x: bv8): bv8 {
    match x
    case 0x60 => 0xd0 case 0x61 => 0xef case 0x62 => 0xaa case 0x63 => 0xfb
    case 0x64 => 0x43 case 0x65 => 0x4d case 0x66 => 0x33 case 0x67 => 0x85
    case 0x68 => 0x45 case 0x69 => 0xf9 case 0x6a => 0x02 case 0x6b => 0x7f
    case 0x6c => 0x50 case 0x6d => 0x3c case 0x6e => 0x9f case _ => 0xa8
  }

  function S7(x: bv8): bv8 {
    match x
    case 0x70 => 0x51 case 0x71 => 0xa3 case 0x72 => 0x40 case 0x73 => 0x8f
    case 0x74 => 0x92 case 0x75 => 0x9d case 0x76 => 0x38 case 0x77 => 0xf5
    case 0x78 => 0xbc case 0x79 => 0xb6 case 0x7a => 0xda case 0x7b => 0x21
    case 0x7c => 0x10 case 0x7d => 0xff case 0x7e => 0xf3 case _ => 0xd2
  }

  function S8(x: bv8): bv8 {
    match x
    case 0x80 => 0xcd case 0x81 => 0x0c case 0x82 => 0x13 case 0x83 => 0xec
    case 0x84 => 0x5f case 0x85 => 0x97 case 0x86 => 0x44 case 0x87 => 0x17
    case 0x88 => 0xc4 case 0x89 => 0xa7 case 0x8a => 0x7e case 0x8b => 0x3d
    case 0x8c => 0x64 case 0x8d => 0x5d case 0x8e => 0x19 case _ => 0x73
  }

  function S9(x: bv8): bv8 {
    match x
    case 0x90 => 0x60 case 0x91 => 0x81 case 0x92 => 0x4f case 0x93 => 0xdc
    case 0x94 => 0x22 case 0x95 => 0x2a case 0x96 => 0x90 case 0x97 => 0x88
    case 0x98 => 0x46 case 0x99 => 0xee case 0x9a => 0xb8 case 0x9b => 0x14
    case 0x9c => 0xde case 0x9d => 0x5e case 0x9e => 0x0b case _ => 0xdb
  }

  function Sa(x: bv8): bv8 {
    match x
    case 0xa0 => 0xe0 case 0xa1 => 0x32 case 0xa2 => 0x3a case 0xa3 => 0x0a
    case 0xa4 => 0x49 case 0xa5 => 0x06 case 0xa6 => 0x24 case 0xa7 => 0x5c
    case 0xa8 => 0xc2 case 0xa9 => 0xd3 case 0xaa => 0xac case 0xab => 0x62
    case 0xac => 0x91 case 0xad => 0x95 case 0xae => 0xe4 case _ => 0x79
  }

  function Sb(x: bv8): bv8 {
    match x
    case 0xb0 => 0xe7 case 0xb1 => 0xc8 case 0xb2 => 0x37 case 0xb3 => 0x6d
    case 0xb4 => 0x8d case 0xb5 => 0xd5 case 0xb6 => 0x4e case 0xb7 => 0xa9
    case 0xb8 => 0x6c case 0xb9 => 0x56 case 0xba => 0xf4 case 0xbb => 0xea
    case 0xbc => 0x65 case 0xbd => 0x7a case 0xbe => 0xae case _ => 0x08
  }

  function Sc(x: bv8): bv8 {
    match x
    case 0xc0 => 0xba case 0xc1 => 0x78 case 0xc2 => 0x25 case 0xc3 => 0x2e
    case 0xc4 => 0x1c case 0xc5 => 0xa6 case 0xc6 => 0xb4 case 0xc7 => 0xc6
    case 0xc8 => 0xe8 case 0xc9 => 0xdd case 0xca => 0x74 case 0xcb => 0x1f
    case 0xcc => 0x4b case 0xcd => 0xbd case 0xce => 0x8b case _ => 0x8a
  }

  function Sd(x: bv8): bv8 {
    match x
    case 0xd0 => 0x70 case 0xd1 => 0x3e case 0xd2 => 0xb5 case 0xd3 => 0x66
    case 0xd4 => 0x48 case 0xd5 => 0x03 case 0xd6 => 0xf6 case 0xd7 => 0x0e
    case 0xd8 => 0x61 case 0xd9 => 0x35 case 0xda => 0x57 case 0xdb => 0xb9
    case 0xdc => 0x86 case 0xdd => 0xc1 case 0xde => 0x1d case _ => 0x9e
  }

  function Se(x: bv8): bv8 {
    match x
    case 0xe0 => 0xe1 case 0xe1 => 0xf8 case 0xe2 => 0x98 case 0xe3 => 0x11
    case 0xe4 => 0x69 case 0xe5 => 0xd9 case 0xe6 => 0x8e case 0xe7 => 0x94
    case 0xe8 => 0x9b case 0xe9 => 0x1e case 0xea => 0x87 case 0xeb => 0xe9
    case 0xec => 0xce case 0xed => 0x55 case 0xee => 0x28 case _ => 0xdf
  }

  function Sf(x: bv8): bv8 {
    match x
    case 0xf0 => 0x8c case 0xf1 => 0xa1 case 0xf2 => 0x89 case 0xf3 => 0x0d
    case 0xf4 => 0xbf case 0xf5 => 0xe6 case 0xf6 => 0x42 case 0xf7 => 0x68
    case 0xf8 => 0x41 case 0xf9 => 0x99 case 0xfa => 0x2d case 0xfb => 0x0f
    case 0xfc => 0xb0 case 0xfd => 0x54 case 0xfe => 0xbb case _ => 0x16
  }

  /** The S-box: any byte of Te4[x]. */
  function S(x: bv8): bv8 {
    if x < 0x80 then (
      if x < 0x40 then (
        if x < 0x20 then (
          if x < 0x10 then S0(x) else S1(x)
        ) else (
          if x < 0x30 then S2(x) else S3(x)
        )
      ) else (
        if x < 0x60 then (
          if x < 0x50 then S4(x) else S5(x)
        ) else (
          if x < 0x70 then S6(x) else S7(x)
        )
      )
    ) else (
      if x < 0xc0 then (
        if x < 0xa0 then (
          if x < 0x90 then S8(x) else S9(x)
        ) else (
          if x < 0xb0 then Sa(x) else Sb(x)
        )
      ) else (
        if x < 0xe0 then (
          if x < 0xd0 then Sc(x) else Sd(x)
        ) else (
          if x < 0xf0 then Se(x) else Sf(x)
        )
      )
    )
  }

  function Si0(x: bv8): bv8 {
    match x
    case 0x00 => 0x52 case 0x01 => 0x09 case 0x02 => 0x6a case 0x03 => 0xd5
    case 0x04 => 0x30 case 0x05 => 0x36 case 0x06 => 0xa5 case 0x07 => 0x38
    case 0x08 => 0xbf case 0x09 => 0x40 case 0x0a => 0xa3 case 0x0b => 0x9e
    case 0x0c => 0x81 case 0x0d => 0xf3 case 0x0e => 0xd7 case _ => 0xfb
  }

  function Si1(x: bv8): bv8 {
    match x
    case 0x10 => 0x7c case 0x11 => 0xe3 case 0x12 => 0x39 case 0x13 => 0x82
    case 0x14 => 0x9b case 0x15 => 0x2f case 0x16 => 0xff case 0x17 => 0x87
    case 0x18 => 0x34 case 0x19 => 0x8e case 0x1a => 0x43 case 0x1b => 0x44
    case 0x1c => 0xc4 case 0x1d => 0xde case 0x1e => 0xe9 case _ => 0xcb
  }

  function Si2(x: bv8): bv8 {
    match x
    case 0x20 => 0x54 case 0x21 => 0x7b case 0x22 => 0x94 case 0x23 => 0x32
    case 0x24 => 0xa6 case 0x25 => 0xc2 case 0x26 => 0x23 case 0x27 => 0x3d
    case 0x28 => 0xee case 0x29 => 0x4c case 0x2a => 0x95 case 0x2b => 0x0b
    case 0x2c => 0x42 case 0x2d => 0xfa case 0x2e => 0xc3 case _ => 0x4e
  }

  function Si3(x: bv8): bv8 {
    match x
    case 0x30 => 0x08 case 0x31 => 0x2e case 0x32 => 0xa1 case 0x33 => 0x66
    case 0x34 => 0x28 case 0x35 => 0xd9 case 0x36 => 0x24 case 0x37 => 0xb2
    case 0x38 => 0x76 case 0x39 => 0x5b case 0x3a => 0xa2 case 0x3b => 0x49
    case 0x3c => 0x6d case 0x3d => 0x8b case 0x3e => 0xd1 case _ => 0x25
  }

  function Si4(x: bv8): bv8 {
    match x
    case 0x40 => 0x72 case 0x41 => 0xf8 case 0x42 => 0xf6 case 0x43 => 0x64
    case 0x44 => 0x86 case 0x45 => 0x68 case 0x46 => 0x98 case 0x47 => 0x16
    case 0x48 => 0xd4 case 0x49 => 0xa4 case 0x4a => 0x5c case 0x4b => 0xcc
    case 0x4c => 0x5d case 0x4d => 0x65 case 0x4e => 0xb6 case _ => 0x92
  }

  function Si5(x: bv8): bv8 {
    match x
    case 0x50 => 0x6c case 0x51 => 0x70 case 0x52 => 0x48 case 0x53 => 0x50
    case 0x54 => 0xfd case 0x55 => 0xed case 0x56 => 0xb9 case 0x57 => 0xda
    case 0x58 => 0x5e case 0x59 => 0x15 case 0x5a => 0x46 case 0x5b => 0x57
    case 0x5c => 0xa7 case 0x5d => 0x8d case 0x5e => 0x9d case _ => 0x84
  }

  function Si6(x: bv8): bv8 {
    match x
    case 0x60 => 0x90 case 0x61 => 0xd8 case 0x62 => 0xab case 0x63 => 0x00
    case 0x64 => 0x8c case 0x65 => 0xbc case 0x66 => 0xd3 case 0x67 => 0x0a
    case 0x68 => 0xf7 case 0x69 => 0xe4 case 0x6a => 0x58 case 0x6b => 0x05
    case 0x6c => 0xb8 case 0x6d => 0xb3 case 0x6e => 0x45 case _ => 0x06
  }

  function Si7(x: bv8): bv8 {
    match x
    case 0x70 => 0xd0 case 0x71 => 0x2c case 0x72 => 0x1e case 0x73 => 0x8f
    case 0x74 => 0xca case 0x75 => 0x3f case 0x76 => 0x0f case 0x77 => 0x02
    case 0x78 => 0xc1 case 0x79 => 0xaf case 0x7a => 0xbd case 0x7b => 0x03
    case 0x7c => 0x01 case 0x7d => 0x13 case 0x7e => 0x8a case _ => 0x6b
  }

  function Si8(x: bv8): bv8 {
    match x
    case 0x80 => 0x3a case 0x81 => 0x91 case 0x82 => 0x11 case 0x83 => 0x41
    case 0x84 => 0x4f case 0x85 => 0x67 case 0x86 => 0xdc case 0x87 => 0xea
    case 0x88 => 0x97 case 0x89 => 0xf2 case 0x8a => 0xcf case 0x8b => 0xce
    case 0x8c => 0xf0 case 0x8d => 0xb4 case 0x8e => 0xe6 case _ => 0x73
  }

  function Si9(x: bv8): bv8 {
    match x
    case 0x90 => 0x96 case 0x91 => 0xac case 0x92 => 0x74 case 0x93 => 0x22
    case 0x94 => 0xe7 case 0x95 => 0xad case 0x96 => 0x35 case 0x97 => 0x85
    case 0x98 => 0xe2 case 0x99 => 0xf9 case 0x9a => 0x37 case 0x9b => 0xe8
    case 0x9c => 0x1c case 0x9d => 0x75 case 0x9e => 0xdf case _ => 0x6e
  }

  function Sia(x: bv8): bv8 {
    match x
    case 0xa0 => 0x47 case 0xa1 => 0xf1 case 0xa2 => 0x1a case 0xa3 => 0x71
    case 0xa4 => 0x1d case 0xa5 => 0x29 case 0xa6 => 0xc5 case 0xa7 => 0x89
    case 0xa8 => 0x6f case 0xa9 => 0xb7 case 0xaa => 0x62 case 0xab => 0x0e
    case 0xac => 0xaa case 0xad => 0x18 case 0xae => 0xbe case _ => 0x1b
  }

  function Sib(x: bv8): bv8 {
    match x
    case 0xb0 => 0xfc case 0xb1 => 0x56 case 0xb2 => 0x3e case 0xb3 => 0x4b
    case 0xb4 => 0xc6 case 0xb5 => 0xd2 case 0xb6 => 0x79 case 0xb7 => 0x20
    case 0xb8 => 0x9a case 0xb9 => 0xdb case 0xba => 0xc0 case 0xbb => 0xfe
    case 0xbc => 0x78 case 0xbd => 0xcd case 0xbe => 0x5a case _ => 0xf4
  }

  function Sic(x: bv8): bv8 {
    match x
    case 0xc0 => 0x1f case 0xc1 => 0xdd case 0xc2 => 0xa8 case 0xc3 => 0x33
    case 0xc4 => 0x88 case 0xc5 => 0x07 case 0xc6 => 0xc7 case 0xc7 => 0x31
    case 0xc8 => 0xb1 case 0xc9 => 0x12 case 0xca => 0x10 case 0xcb => 0x59
    case 0xcc => 0x27 case 0xcd => 0x80 case 0xce => 0xec case _ => 0x5f
  }

  function Sid(x: bv8): bv8 {
    match x
    case 0xd0 => 0x60 case 0xd1 => 0x51 case 0xd2 => 0x7f case 0xd3 => 0xa9
    case 0xd4 => 0x19 case 0xd5 => 0xb5 case 0xd6 => 0x4a case 0xd7 => 0x0d
    case 0xd8 => 0x2d case 0xd9 => 0xe5 case 0xda => 0x7a case 0xdb => 0x9f
    case 0xdc => 0x93 case 0xdd => 0xc9 case 0xde => 0x9c case _ => 0xef
  }

  function Sie(x: bv8): bv8 {
    match x
    case 0xe0 => 0xa0 case 0xe1 => 0xe0 case 0xe2 => 0x3b case 0xe3 => 0x4d
    case 0xe4 => 0xae case 0xe5 => 0x2a case 0xe6 => 0xf5 case 0xe7 => 0xb0
    case 0xe8 => 0xc8 case 0xe9 => 0xeb case 0xea => 0xbb case 0xeb => 0x3c
    case 0xec => 0x83 case 0xed => 0x53 case 0xee => 0x99 case _ => 0x61
  }

  function Sif(x: bv8): bv8 {
    match x
    case 0xf0 => 0x17 case 0xf1 => 0x2b case 0xf2 => 0x04 case 0xf3 => 0x7e
    case 0xf4 => 0xba case 0xf5 => 0x77 case 0xf6 => 0xd6 case 0xf7 => 0x26
    case 0xf8 => 0xe1 case 0xf9 => 0x69 case 0xfa => 0x14 case 0xfb => 0x63
    case 0xfc => 0x55 case 0xfd => 0x21 case 0xfe => 0x0c case _ => 0x7d
  }

  /** The inverse S-box: any byte of Td4[x]. */
  function Si(x: bv8): bv8 {
    if x < 0x80 then (
      if x < 0x40 then (
        if x < 0x20 then (
          if x < 0x10 then Si0(x) else Si1(x)
        ) else (
          if x < 0x30 then Si2(x) else Si3(x)
        )
      ) else (
        if x < 0x60 then (
          if x < 0x50 then Si4(x) else Si5(x)
        ) else (
          if x < 0x70 then Si6(x) else Si7(x)
        )
      )
    ) else (
      if x < 0xc0 then (
        if x < 0xa0 then (
          if x < 0x90 then Si8(x) else Si9(x)
        ) else (
          if x < 0xb0 then Sia(x) else Sib(x)
        )
      ) else (
        if x < 0xe0 then (
          if x < 0xd0 then Sic(x) else Sid(x)
        ) else (
          if x < 0xf0 then Sie(x) else Sif(x)
        )
      )
    )
  }

  /** Multiplication by x modulo x^8 + x^4 + x^3 + x + 1 (FIPS 197, section 4.2.1). */
  function XTime(x: bv8): bv8 { Xor(Double(x), Carry(x)) }

  function Double(x: bv8): bv8 { x << 1 }

  function Carry(x: bv8): bv8 { if x & 0x80 != 0 then 0x1b else 0 }

  /** The array rcon. */
  function RconTable(i: nat): bv32 {
    match i
    case 0 => 0x01000000 case 1 => 0x02000000 case 2 => 0x04000000 case 3 => 0x08000000 case 4 => 0x10000000
    case 5 => 0x20000000 case 6 => 0x40000000 case 7 => 0x80000000 case 8 => 0x1B000000 case _ => 0x36000000
  }

  const AES := Tables(S, Si, XTime, RconTable)

  // ---------------------------------------------------------------- the tables obey the laws

  lemma RowUndone0(x: bv8)
    requires 0x00 <= x < 0x10
    ensures Si(S0(x)) == x
  {
  }

  lemma RowUndone1(x: bv8)
    requires 0x10 <= x < 0x20
    ensures Si(S1(x)) == x
  {
  }

  lemma RowUndone2(x: bv8)
    requires 0x20 <= x < 0x30
    ensures Si(S2(x)) == x
  {
  }

  lemma RowUndone3(x: bv8)
    requires 0x30 <= x < 0x40
    ensures Si(S3(x)) == x
  {
  }

  lemma RowUndone4(x: bv8)
    requires 0x40 <= x < 0x50
    ensures Si(S4(x)) == x
  {
  }

  lemma RowUndone5(x: bv8)
    requires 0x50 <= x < 0x60
    ensures Si(S5(x)) == x
  {
  }

  lemma RowUndone6(x: bv8)
    requires 0x60 <= x < 0x70
    ensures Si(S6(x)) == x
  {
  }

  lemma RowUndone7(x: bv8)
    requires 0x70 <= x < 0x80
    ensures Si(S7(x)) == x
  {
  }

  lemma RowUndone8(x: bv8)
    requires 0x80 <= x < 0x90
    ensures Si(S8(x)) == x
  {
  }

  lemma RowUndone9(x: bv8)
    requires 0x90 <= x < 0xa0
    ensures Si(S9(x)) == x
  {
  }

  lemma RowUndonea(x: bv8)
    requires 0xa0 <= x < 0xb0
    ensures Si(Sa(x)) == x
  {
  }

  lemma RowUndoneb(x: bv8)
    requires 0xb0 <= x < 0xc0
    ensures Si(Sb(x)) == x
  {
  }

  lemma RowUndonec(x: bv8)
    requires 0xc0 <= x < 0xd0
    ensures Si(Sc(x)) == x
  {
  }

  lemma RowUndoned(x: bv8)
    requires 0xd0 <= x < 0xe0
    ensures Si(Sd(x)) == x
  {
  }

  lemma RowUndonee(x: bv8)
    requires 0xe0 <= x < 0xf0
    ensures Si(Se(x)) == x
  {
  }

  lemma RowUndonef(x: bv8)
    requires 0xf0 <= x
    ensures Si(Sf(x)) == x
  {
  }

  lemma SboxLowUndone(x: bv8)
    requires x < 0x80
    ensures Si(S(x)) == x
  {
    if x < 0x40 {
      if x < 0x20 {
        if x < 0x10 { RowUndone0(x); } else { RowUndone1(x); }
      } else {
        if x < 0x30 { RowUndone2(x); } else { RowUndone3(x); }
      }
    } else {
      if x < 0x60 {
        if x < 0x50 { RowUndone4(x); } else { RowUndone5(x); }
      } else {
        if x < 0x70 { RowUndone6(x); } else { RowUndone7(x); }
      }
    }
  }

  lemma SboxHighUndone(x: bv8)
    requires 0x80 <= x
    ensures Si(S(x)) == x
  {
    if x < 0xc0 {
      if x < 0xa0 {
        if x < 0x90 { RowUndone8(x); } else { RowUndone9(x); }
      } else {
        if x < 0xb0 { RowUndonea(x); } else { RowUndoneb(x); }
      }
    } else {
      if x < 0xe0 {
        if x < 0xd0 { RowUndonec(x); } else { RowUndoned(x); }
      } else {
        if x < 0xf0 { RowUndonee(x); } else { RowUndonef(x); }
      }
    }
  }

  lemma XTimeLinear(x: bv8, y: bv8)
    ensures XTime(Xor(x, y)) == Xor(XTime(x), XTime(y))
  {
    DoubleLinear(x, y);
    CarryLinear(x, y);
    Pair(Double(x), Double(y), Carry(x), Carry(y));
  }

  lemma DoubleLinear(x: bv8, y: bv8)
    ensures Double(Xor(x, y)) == Xor(Double(x), Double(y))
  {
  }

  lemma CarryLinear(x: bv8, y: bv8)
    ensures Carry(Xor(x, y)) == Xor(Carry(x), Carry(y))
  {
    Same(0x1b);
    Zero(0x1b);
    Same(0);
    HighBit(x, y);
  }

  lemma HighBit(x: bv8, y: bv8)
    ensures (x ^ y) & 0x80 == (x & 0x80) ^ (y & 0x80)
  {
  }

  /** rcon[i] is x^i in the top byte. */
  lemma RconIsPower(i: nat)
    requires i < 10
    ensures RconTable(i) == Pack(Power(AES, i + 1), 0, 0, 0)
  {
    assert Power(AES, 2) == 0x02;
    assert Power(AES, 3) == 0x04;
    assert Power(AES, 4) == 0x08;
    assert Power(AES, 5) == 0x10;
    assert Power(AES, 6) == 0x20;
    assert Power(AES, 7) == 0x40;
    assert Power(AES, 8) == 0x80;
    assert Power(AES, 9) == 0x1b;
    assert Power(AES, 10) == 0x36;
  }

  lemma AesSboxLaw()
    ensures SboxLaw(AES)
  {
    forall x ensures AES.si(AES.s(x)) == x {
      if x < 0x80 { SboxLowUndone(x); } else { SboxHighUndone(x); }
    }
  }

  lemma AesLinearLaw()
    ensures LinearLaw(AES)
  {
    forall x, y ensures AES.xt(Xor(x, y)) == Xor(AES.xt(x), AES.xt(y)) { XTimeLinear(x, y); }
  }

  lemma AesRconLaw()
    ensures RconLaw(AES)
  {
    forall i: nat | i < 10 ensures AES.rcon(i) == Pack(Power(AES, i + 1), 0, 0, 0) { RconIsPower(i); }
  }

  lemma AesLaws()
    ensures Laws(AES)
  {
    AesSboxLaw();
    AesLinearLaw();
    AesRconLaw();
  }
}
