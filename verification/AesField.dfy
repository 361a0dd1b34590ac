/** Bytes as elements of GF(2^8), and the substitution tables (sections 4 and 5.1.1 of FIPS 197). */
module AesField {

  /** Addition in the field (section 4.1). */
  function Plus(x: bv8, y: bv8): (r: bv8) { x ^ y }

  /** Multiplication by x, reduced by the polynomial 0x11B (section 4.2.1). */
  function Double(x: bv8): (r: bv8) { (x << 1) ^ (if x & 0x80 != 0 then 0x1B else 0) }

  function IfBit(y: bv8, bit: bv8, x: bv8): (r: bv8) { if y & bit != 0 then x else 0 }

  /** Multiplication in the field: the powers of x picked by the bits of `y` (section 4.2). */
  function Mul(x: bv8, y: bv8): (r: bv8) {
    var x1 := Double(x);
    var x2 := Double(x1);
    var x3 := Double(x2);
    var x4 := Double(x3);
    var x5 := Double(x4);
    var x6 := Double(x5);
    var x7 := Double(x6);
    IfBit(y, 0x1, x) ^ IfBit(y, 0x2, x1) ^ IfBit(y, 0x4, x2) ^ IfBit(y, 0x8, x3)
    ^ IfBit(y, 0x10, x4) ^ IfBit(y, 0x20, x5) ^ IfBit(y, 0x40, x6) ^ IfBit(y, 0x80, x7)
  }

  /** The affine map of the S-box (section 5.1.1). */
  function Affine(y: bv8): (s: bv8) {
    y ^ ((y << 1) | (y >> 7)) ^ ((y << 2) | (y >> 6)) ^ ((y << 3) | (y >> 5)) ^ ((y << 4) | (y >> 4)) ^ 0x63
  }

  function InvAffine(s: bv8): (y: bv8) {
    ((s << 1) | (s >> 7)) ^ ((s << 3) | (s >> 5)) ^ ((s << 6) | (s >> 2)) ^ 0x05
  }

  // ----- The S-box and its inverse, sixteen entries a row -----

  function SboxRow0(l: bv8): (s: bv8) {
    if l == 0 then 0x63 else if l == 1 then 0x7C else if l == 2 then 0x77 else if l == 3 then 0x7B else
    if l == 4 then 0xF2 else if l == 5 then 0x6B else if l == 6 then 0x6F else if l == 7 then 0xC5 else
    if l == 8 then 0x30 else if l == 9 then 0x01 else if l == 10 then 0x67 else if l == 11 then 0x2B else
    if l == 12 then 0xFE else if l == 13 then 0xD7 else if l == 14 then 0xAB else 0x76
  }

  function SboxRow1(l: bv8): (s: bv8) {
    if l == 0 then 0xCA else if l == 1 then 0x82 else if l == 2 then 0xC9 else if l == 3 then 0x7D else
    if l == 4 then 0xFA else if l == 5 then 0x59 else if l == 6 then 0x47 else if l == 7 then 0xF0 else
    if l == 8 then 0xAD else if l == 9 then 0xD4 else if l == 10 then 0xA2 else if l == 11 then 0xAF else
    if l == 12 then 0x9C else if l == 13 then 0xA4 else if l == 14 then 0x72 else 0xC0
  }

  function SboxRow2(l: bv8): (s: bv8) {
    if l == 0 then 0xB7 else if l == 1 then 0xFD else if l == 2 then 0x93 else if l == 3 then 0x26 else
    if l == 4 then 0x36 else if l == 5 then 0x3F else if l == 6 then 0xF7 else if l == 7 then 0xCC else
    if l == 8 then 0x34 else if l == 9 then 0xA5 else if l == 10 then 0xE5 else if l == 11 then 0xF1 else
    if l == 12 then 0x71 else if l == 13 then 0xD8 else if l == 14 then 0x31 else 0x15
  }

  function SboxRow3(l: bv8): (s: bv8) {
    if l == 0 then 0x04 else if l == 1 then 0xC7 else if l == 2 then 0x23 else if l == 3 then 0xC3 else
    if l == 4 then 0x18 else if l == 5 then 0x96 else if l == 6 then 0x05 else if l == 7 then 0x9A else
    if l == 8 then 0x07 else if l == 9 then 0x12 else if l == 10 then 0x80 else if l == 11 then 0xE2 else
    if l == 12 then 0xEB else if l == 13 then 0x27 else if l == 14 then 0xB2 else 0x75
  }

  function SboxRow4(l: bv8): (s: bv8) {
    if l == 0 then 0x09 else if l == 1 then 0x83 else if l == 2 then 0x2C else if l == 3 then 0x1A else
    if l == 4 then 0x1B else if l == 5 then 0x6E else if l == 6 then 0x5A else if l == 7 then 0xA0 else
    if l == 8 then 0x52 else if l == 9 then 0x3B else if l == 10 then 0xD6 else if l == 11 then 0xB3 else
    if l == 12 then 0x29 else if l == 13 then 0xE3 else if l == 14 then 0x2F else 0x84
  }

  function SboxRow5(l: bv8): (s: bv8) {
    if l == 0 then 0x53 else if l == 1 then 0xD1 else if l == 2 then 0x00 else if l == 3 then 0xED else
    if l == 4 then 0x20 else if l == 5 then 0xFC else if l == 6 then 0xB1 else if l == 7 then 0x5B else
    if l == 8 then 0x6A else if l == 9 then 0xCB else if l == 10 then 0xBE else if l == 11 then 0x39 else
    if l == 12 then 0x4A else if l == 13 then 0x4C else if l == 14 then 0x58 else 0xCF
  }

  function SboxRow6(l: bv8): (s: bv8) {
    if l == 0 then 0xD0 else if l == 1 then 0xEF else if l == 2 then 0xAA else if l == 3 then 0xFB else
    if l == 4 then 0x43 else if l == 5 then 0x4D else if l == 6 then 0x33 else if l == 7 then 0x85 else
    if l == 8 then 0x45 else if l == 9 then 0xF9 else if l == 10 then 0x02 else if l == 11 then 0x7F else
    if l == 12 then 0x50 else if l == 13 then 0x3C else if l == 14 then 0x9F else 0xA8
  }

  function SboxRow7(l: bv8): (s: bv8) {
    if l == 0 then 0x51 else if l == 1 then 0xA3 else if l == 2 then 0x40 else if l == 3 then 0x8F else
    if l == 4 then 0x92 else if l == 5 then 0x9D else if l == 6 then 0x38 else if l == 7 then 0xF5 else
    if l == 8 then 0xBC else if l == 9 then 0xB6 else if l == 10 then 0xDA else if l == 11 then 0x21 else
    if l == 12 then 0x10 else if l == 13 then 0xFF else if l == 14 then 0xF3 else 0xD2
  }

  function SboxRow8(l: bv8): (s: bv8) {
    if l == 0 then 0xCD else if l == 1 then 0x0C else if l == 2 then 0x13 else if l == 3 then 0xEC else
    if l == 4 then 0x5F else if l == 5 then 0x97 else if l == 6 then 0x44 else if l == 7 then 0x17 else
    if l == 8 then 0xC4 else if l == 9 then 0xA7 else if l == 10 then 0x7E else if l == 11 then 0x3D else
    if l == 12 then 0x64 else if l == 13 then 0x5D else if l == 14 then 0x19 else 0x73
  }

  function SboxRow9(l: bv8): (s: bv8) {
    if l == 0 then 0x60 else if l == 1 then 0x81 else if l == 2 then 0x4F else if l == 3 then 0xDC else
    if l == 4 then 0x22 else if l == 5 then 0x2A else if l == 6 then 0x90 else if l == 7 then 0x88 else
    if l == 8 then 0x46 else if l == 9 then 0xEE else if l == 10 then 0xB8 else if l == 11 then 0x14 else
    if l == 12 then 0xDE else if l == 13 then 0x5E else if l == 14 then 0x0B else 0xDB
  }

  function SboxRow10(l: bv8): (s: bv8) {
    if l == 0 then 0xE0 else if l == 1 then 0x32 else if l == 2 then 0x3A else if l == 3 then 0x0A else
    if l == 4 then 0x49 else if l == 5 then 0x06 else if l == 6 then 0x24 else if l == 7 then 0x5C else
    if l == 8 then 0xC2 else if l == 9 then 0xD3 else if l == 10 then 0xAC else if l == 11 then 0x62 else
    if l == 12 then 0x91 else if l == 13 then 0x95 else if l == 14 then 0xE4 else 0x79
  }

  function SboxRow11(l: bv8): (s: bv8) {
    if l == 0 then 0xE7 else if l == 1 then 0xC8 else if l == 2 then 0x37 else if l == 3 then 0x6D else
    if l == 4 then 0x8D else if l == 5 then 0xD5 else if l == 6 then 0x4E else if l == 7 then 0xA9 else
    if l == 8 then 0x6C else if l == 9 then 0x56 else if l == 10 then 0xF4 else if l == 11 then 0xEA else
    if l == 12 then 0x65 else if l == 13 then 0x7A else if l == 14 then 0xAE else 0x08
  }

  function SboxRow12(l: bv8): (s: bv8) {
    if l == 0 then 0xBA else if l == 1 then 0x78 else if l == 2 then 0x25 else if l == 3 then 0x2E else
    if l == 4 then 0x1C else if l == 5 then 0xA6 else if l == 6 then 0xB4 else if l == 7 then 0xC6 else
    if l == 8 then 0xE8 else if l == 9 then 0xDD else if l == 10 then 0x74 else if l == 11 then 0x1F else
    if l == 12 then 0x4B else if l == 13 then 0xBD else if l == 14 then 0x8B else 0x8A
  }

  function SboxRow13(l: bv8): (s: bv8) {
    if l == 0 then 0x70 else if l == 1 then 0x3E else if l == 2 then 0xB5 else if l == 3 then 0x66 else
    if l == 4 then 0x48 else if l == 5 then 0x03 else if l == 6 then 0xF6 else if l == 7 then 0x0E else
    if l == 8 then 0x61 else if l == 9 then 0x35 else if l == 10 then 0x57 else if l == 11 then 0xB9 else
    if l == 12 then 0x86 else if l == 13 then 0xC1 else if l == 14 then 0x1D else 0x9E
  }

  function SboxRow14(l: bv8): (s: bv8) {
    if l == 0 then 0xE1 else if l == 1 then 0xF8 else if l == 2 then 0x98 else if l == 3 then 0x11 else
    if l == 4 then 0x69 else if l == 5 then 0xD9 else if l == 6 then 0x8E else if l == 7 then 0x94 else
    if l == 8 then 0x9B else if l == 9 then 0x1E else if l == 10 then 0x87 else if l == 11 then 0xE9 else
    if l == 12 then 0xCE else if l == 13 then 0x55 else if l == 14 then 0x28 else 0xDF
  }

  function SboxRow15(l: bv8): (s: bv8) {
    if l == 0 then 0x8C else if l == 1 then 0xA1 else if l == 2 then 0x89 else if l == 3 then 0x0D else
    if l == 4 then 0xBF else if l == 5 then 0xE6 else if l == 6 then 0x42 else if l == 7 then 0x68 else
    if l == 8 then 0x41 else if l == 9 then 0x99 else if l == 10 then 0x2D else if l == 11 then 0x0F else
    if l == 12 then 0xB0 else if l == 13 then 0x54 else if l == 14 then 0xBB else 0x16
  }

  function Sbox(x: bv8): (s: bv8) {
    var h, l := x >> 4, x & 0xF;
    if h == 0 then SboxRow0(l) else if h == 1 then SboxRow1(l) else if h == 2 then SboxRow2(l) else
    if h == 3 then SboxRow3(l) else if h == 4 then SboxRow4(l) else if h == 5 then SboxRow5(l) else
    if h == 6 then SboxRow6(l) else if h == 7 then SboxRow7(l) else if h == 8 then SboxRow8(l) else
    if h == 9 then SboxRow9(l) else if h == 10 then SboxRow10(l) else if h == 11 then SboxRow11(l) else
    if h == 12 then SboxRow12(l) else if h == 13 then SboxRow13(l) else if h == 14 then SboxRow14(l) else
    SboxRow15(l)
  }

  function InvSboxRow0(l: bv8): (s: bv8) {
    if l == 0 then 0x52 else if l == 1 then 0x09 else if l == 2 then 0x6A else if l == 3 then 0xD5 else
    if l == 4 then 0x30 else if l == 5 then 0x36 else if l == 6 then 0xA5 else if l == 7 then 0x38 else
    if l == 8 then 0xBF else if l == 9 then 0x40 else if l == 10 then 0xA3 else if l == 11 then 0x9E else
    if l == 12 then 0x81 else if l == 13 then 0xF3 else if l == 14 then 0xD7 else 0xFB
  }

  function InvSboxRow1(l: bv8): (s: bv8) {
    if l == 0 then 0x7C else if l == 1 then 0xE3 else if l == 2 then 0x39 else if l == 3 then 0x82 else
    if l == 4 then 0x9B else if l == 5 then 0x2F else if l == 6 then 0xFF else if l == 7 then 0x87 else
    if l == 8 then 0x34 else if l == 9 then 0x8E else if l == 10 then 0x43 else if l == 11 then 0x44 else
    if l == 12 then 0xC4 else if l == 13 then 0xDE else if l == 14 then 0xE9 else 0xCB
  }

  function InvSboxRow2(l: bv8): (s: bv8) {
    if l == 0 then 0x54 else if l == 1 then 0x7B else if l == 2 then 0x94 else if l == 3 then 0x32 else
    if l == 4 then 0xA6 else if l == 5 then 0xC2 else if l == 6 then 0x23 else if l == 7 then 0x3D else
    if l == 8 then 0xEE else if l == 9 then 0x4C else if l == 10 then 0x95 else if l == 11 then 0x0B else
    if l == 12 then 0x42 else if l == 13 then 0xFA else if l == 14 then 0xC3 else 0x4E
  }

  function InvSboxRow3(l: bv8): (s: bv8) {
    if l == 0 then 0x08 else if l == 1 then 0x2E else if l == 2 then 0xA1 else if l == 3 then 0x66 else
    if l == 4 then 0x28 else if l == 5 then 0xD9 else if l == 6 then 0x24 else if l == 7 then 0xB2 else
    if l == 8 then 0x76 else if l == 9 then 0x5B else if l == 10 then 0xA2 else if l == 11 then 0x49 else
    if l == 12 then 0x6D else if l == 13 then 0x8B else if l == 14 then 0xD1 else 0x25
  }

  function InvSboxRow4(l: bv8): (s: bv8) {
    if l == 0 then 0x72 else if l == 1 then 0xF8 else if l == 2 then 0xF6 else if l == 3 then 0x64 else
    if l == 4 then 0x86 else if l == 5 then 0x68 else if l == 6 then 0x98 else if l == 7 then 0x16 else
    if l == 8 then 0xD4 else if l == 9 then 0xA4 else if l == 10 then 0x5C else if l == 11 then 0xCC else
    if l == 12 then 0x5D else if l == 13 then 0x65 else if l == 14 then 0xB6 else 0x92
  }

  function InvSboxRow5(l: bv8): (s: bv8) {
    if l == 0 then 0x6C else if l == 1 then 0x70 else if l == 2 then 0x48 else if l == 3 then 0x50 else
    if l == 4 then 0xFD else if l == 5 then 0xED else if l == 6 then 0xB9 else if l == 7 then 0xDA else
    if l == 8 then 0x5E else if l == 9 then 0x15 else if l == 10 then 0x46 else if l == 11 then 0x57 else
    if l == 12 then 0xA7 else if l == 13 then 0x8D else if l == 14 then 0x9D else 0x84
  }

  function InvSboxRow6(l: bv8): (s: bv8) {
    if l == 0 then 0x90 else if l == 1 then 0xD8 else if l == 2 then 0xAB else if l == 3 then 0x00 else
    if l == 4 then 0x8C else if l == 5 then 0xBC else if l == 6 then 0xD3 else if l == 7 then 0x0A else
    if l == 8 then 0xF7 else if l == 9 then 0xE4 else if l == 10 then 0x58 else if l == 11 then 0x05 else
    if l == 12 then 0xB8 else if l == 13 then 0xB3 else if l == 14 then 0x45 else 0x06
  }

  function InvSboxRow7(l: bv8): (s: bv8) {
    if l == 0 then 0xD0 else if l == 1 then 0x2C else if l == 2 then 0x1E else if l == 3 then 0x8F else
    if l == 4 then 0xCA else if l == 5 then 0x3F else if l == 6 then 0x0F else if l == 7 then 0x02 else
    if l == 8 then 0xC1 else if l == 9 then 0xAF else if l == 10 then 0xBD else if l == 11 then 0x03 else
    if l == 12 then 0x01 else if l == 13 then 0x13 else if l == 14 then 0x8A else 0x6B
  }

  function InvSboxRow8(l: bv8): (s: bv8) {
    if l == 0 then 0x3A else if l == 1 then 0x91 else if l == 2 then 0x11 else if l == 3 then 0x41 else
    if l == 4 then 0x4F else if l == 5 then 0x67 else if l == 6 then 0xDC else if l == 7 then 0xEA else
    if l == 8 then 0x97 else if l == 9 then 0xF2 else if l == 10 then 0xCF else if l == 11 then 0xCE else
    if l == 12 then 0xF0 else if l == 13 then 0xB4 else if l == 14 then 0xE6 else 0x73
  }

  function InvSboxRow9(l: bv8): (s: bv8) {
    if l == 0 then 0x96 else if l == 1 then 0xAC else if l == 2 then 0x74 else if l == 3 then 0x22 else
    if l == 4 then 0xE7 else if l == 5 then 0xAD else if l == 6 then 0x35 else if l == 7 then 0x85 else
    if l == 8 then 0xE2 else if l == 9 then 0xF9 else if l == 10 then 0x37 else if l == 11 then 0xE8 else
    if l == 12 then 0x1C else if l == 13 then 0x75 else if l == 14 then 0xDF else 0x6E
  }

  function InvSboxRow10(l: bv8): (s: bv8) {
    if l == 0 then 0x47 else if l == 1 then 0xF1 else if l == 2 then 0x1A else if l == 3 then 0x71 else
    if l == 4 then 0x1D else if l == 5 then 0x29 else if l == 6 then 0xC5 else if l == 7 then 0x89 else
    if l == 8 then 0x6F else if l == 9 then 0xB7 else if l == 10 then 0x62 else if l == 11 then 0x0E else
    if l == 12 then 0xAA else if l == 13 then 0x18 else if l == 14 then 0xBE else 0x1B
  }

  function InvSboxRow11(l: bv8): (s: bv8) {
    if l == 0 then 0xFC else if l == 1 then 0x56 else if l == 2 then 0x3E else if l == 3 then 0x4B else
    if l == 4 then 0xC6 else if l == 5 then 0xD2 else if l == 6 then 0x79 else if l == 7 then 0x20 else
    if l == 8 then 0x9A else if l == 9 then 0xDB else if l == 10 then 0xC0 else if l == 11 then 0xFE else
    if l == 12 then 0x78 else if l == 13 then 0xCD else if l == 14 then 0x5A else 0xF4
  }

  function InvSboxRow12(l: bv8): (s: bv8) {
    if l == 0 then 0x1F else if l == 1 then 0xDD else if l == 2 then 0xA8 else if l == 3 then 0x33 else
    if l == 4 then 0x88 else if l == 5 then 0x07 else if l == 6 then 0xC7 else if l == 7 then 0x31 else
    if l == 8 then 0xB1 else if l == 9 then 0x12 else if l == 10 then 0x10 else if l == 11 then 0x59 else
    if l == 12 then 0x27 else if l == 13 then 0x80 else if l == 14 then 0xEC else 0x5F
  }

  function InvSboxRow13(l: bv8): (s: bv8) {
    if l == 0 then 0x60 else if l == 1 then 0x51 else if l == 2 then 0x7F else if l == 3 then 0xA9 else
    if l == 4 then 0x19 else if l == 5 then 0xB5 else if l == 6 then 0x4A else if l == 7 then 0x0D else
    if l == 8 then 0x2D else if l == 9 then 0xE5 else if l == 10 then 0x7A else if l == 11 then 0x9F else
    if l == 12 then 0x93 else if l == 13 then 0xC9 else if l == 14 then 0x9C else 0xEF
  }

  function InvSboxRow14(l: bv8): (s: bv8) {
    if l == 0 then 0xA0 else if l == 1 then 0xE0 else if l == 2 then 0x3B else if l == 3 then 0x4D else
    if l == 4 then 0xAE else if l == 5 then 0x2A else if l == 6 then 0xF5 else if l == 7 then 0xB0 else
    if l == 8 then 0xC8 else if l == 9 then 0xEB else if l == 10 then 0xBB else if l == 11 then 0x3C else
    if l == 12 then 0x83 else if l == 13 then 0x53 else if l == 14 then 0x99 else 0x61
  }

  function InvSboxRow15(l: bv8): (s: bv8) {
    if l == 0 then 0x17 else if l == 1 then 0x2B else if l == 2 then 0x04 else if l == 3 then 0x7E else
    if l == 4 then 0xBA else if l == 5 then 0x77 else if l == 6 then 0xD6 else if l == 7 then 0x26 else
    if l == 8 then 0xE1 else if l == 9 then 0x69 else if l == 10 then 0x14 else if l == 11 then 0x63 else
    if l == 12 then 0x55 else if l == 13 then 0x21 else if l == 14 then 0x0C else 0x7D
  }

  function InvSbox(x: bv8): (s: bv8) {
    var h, l := x >> 4, x & 0xF;
    if h == 0 then InvSboxRow0(l) else if h == 1 then InvSboxRow1(l) else if h == 2 then InvSboxRow2(l) else
    if h == 3 then InvSboxRow3(l) else if h == 4 then InvSboxRow4(l) else if h == 5 then InvSboxRow5(l) else
    if h == 6 then InvSboxRow6(l) else if h == 7 then InvSboxRow7(l) else if h == 8 then InvSboxRow8(l) else
    if h == 9 then InvSboxRow9(l) else if h == 10 then InvSboxRow10(l) else if h == 11 then InvSboxRow11(l) else
    if h == 12 then InvSboxRow12(l) else if h == 13 then InvSboxRow13(l) else if h == 14 then InvSboxRow14(l) else
    InvSboxRow15(l)
  }

  lemma AffineInverse(s: bv8)
    ensures Affine(InvAffine(s)) == s
  {}

  lemma LowHalf(x: bv8)
    requires x != 0 && x & 0x80 == 0
    ensures Mul(x, InvAffine(Sbox(x))) == 1
  {}

  lemma HighHalf(x: bv8)
    requires x & 0x80 == 0x80
    ensures Mul(x, InvAffine(Sbox(x))) == 1
  {}

  lemma TopBit(x: bv8)
    ensures x & 0x80 == 0 || x & 0x80 == 0x80
  {}

  /** The table is the one the standard defines: the affine map of the multiplicative inverse, and of 0 for 0. */
  lemma SboxIsAffineOfInverse(x: bv8) returns (y: bv8)
    ensures Sbox(x) == Affine(y) && (if x == 0 then y == 0 else Mul(x, y) == 1)
  {
    y := InvAffine(Sbox(x));
    AffineInverse(Sbox(x));
    hide Affine, InvAffine, Sbox, Mul;
    if x == 0 {
      SboxOfZero();
    } else if x & 0x80 == 0 {
      LowHalf(x);
    } else {
      TopBit(x);
      HighHalf(x);
    }
  }

  lemma SboxOfZero()
    ensures InvAffine(Sbox(0)) == 0
  {}

  lemma SboxInverse(x: bv8)
    ensures InvSbox(Sbox(x)) == x
  {}

  lemma InvSboxInverse(x: bv8)
    ensures Sbox(InvSbox(x)) == x
  {}

  lemma DoubleXor(x: bv8, y: bv8)
    ensures Double(x ^ y) == Double(x) ^ Double(y)
  {
    if x & 0x80 != 0 {
      if y & 0x80 != 0 {} else {}
    } else {
      if y & 0x80 != 0 {} else {}
    }
  }

  lemma SmallMul(x: bv8)
    ensures Mul(x, 0x2) == Double(x)
    ensures Mul(x, 0x3) == Double(x) ^ x
  {
    hide Double;
  }

  lemma MulBy9(x: bv8)
    ensures Mul(x, 0x9) == Double(Double(Double(x))) ^ x
  {
    hide Double;
  }

  lemma MulBy11(x: bv8)
    ensures Mul(x, 0xB) == Double(Double(Double(x))) ^ Double(x) ^ x
  {
    hide Double;
  }

  lemma MulBy13(x: bv8)
    ensures Mul(x, 0xD) == Double(Double(Double(x))) ^ Double(Double(x)) ^ x
  {
    hide Double;
  }

  lemma MulBy14(x: bv8)
    ensures Mul(x, 0xE) == Double(Double(Double(x))) ^ Double(Double(x)) ^ Double(x)
  {
    hide Double;
  }
}
