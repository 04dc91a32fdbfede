/** The table-driven CRC-32, and what it stands for: division by the polynomial, one bit at a time. */
module Crc {

  /** One shift of the register, with the bit shifted out fed back. */
  function Shift(v: bv32): bv32 {
    if v & 1 == 1 then (v >> 1) ^ 0xedb88320 else v >> 1
  }

  /** Polynomials over the field of two elements are added bit by bit. */
  function Plus(v: bv32, w: bv32): bv32 {
    v ^ w
  }

  function Wide(b: bv8): bv32 {
    b as bv32
  }

  function Shift8(v: bv32): bv32 {
    Shift(Shift(Shift(Shift(Shift(Shift(Shift(Shift(v))))))))
  }

  /** The register after a message, bit by bit. */
  function Bitwise(v: bv32, s: seq<bv8>): bv32
    decreases |s|
  {
    if s == [] then v else Bitwise(Shift8(Plus(v, Wide(s[0]))), s[1..])
  }

  /** crc32_table */
  function Table(i: bv8): bv32 {
    match i & 0xf0
    case 0x00 =>
      (match i & 0x0f
       case 0x0 => 0x00000000 case 0x1 => 0x77073096 case 0x2 => 0xee0e612c case 0x3 => 0x990951ba
       case 0x4 => 0x076dc419 case 0x5 => 0x706af48f case 0x6 => 0xe963a535 case 0x7 => 0x9e6495a3
       case 0x8 => 0x0edb8832 case 0x9 => 0x79dcb8a4 case 0xa => 0xe0d5e91e case 0xb => 0x97d2d988
       case 0xc => 0x09b64c2b case 0xd => 0x7eb17cbd case 0xe => 0xe7b82d07 case _ => 0x90bf1d91)
    case 0x10 =>
      (match i & 0x0f
       case 0x0 => 0x1db71064 case 0x1 => 0x6ab020f2 case 0x2 => 0xf3b97148 case 0x3 => 0x84be41de
       case 0x4 => 0x1adad47d case 0x5 => 0x6ddde4eb case 0x6 => 0xf4d4b551 case 0x7 => 0x83d385c7
       case 0x8 => 0x136c9856 case 0x9 => 0x646ba8c0 case 0xa => 0xfd62f97a case 0xb => 0x8a65c9ec
       case 0xc => 0x14015c4f case 0xd => 0x63066cd9 case 0xe => 0xfa0f3d63 case _ => 0x8d080df5)
    case 0x20 =>
      (match i & 0x0f
       case 0x0 => 0x3b6e20c8 case 0x1 => 0x4c69105e case 0x2 => 0xd56041e4 case 0x3 => 0xa2677172
       case 0x4 => 0x3c03e4d1 case 0x5 => 0x4b04d447 case 0x6 => 0xd20d85fd case 0x7 => 0xa50ab56b
       case 0x8 => 0x35b5a8fa case 0x9 => 0x42b2986c case 0xa => 0xdbbbc9d6 case 0xb => 0xacbcf940
       case 0xc => 0x32d86ce3 case 0xd => 0x45df5c75 case 0xe => 0xdcd60dcf case _ => 0xabd13d59)
    case 0x30 =>
      (match i & 0x0f
       case 0x0 => 0x26d930ac case 0x1 => 0x51de003a case 0x2 => 0xc8d75180 case 0x3 => 0xbfd06116
       case 0x4 => 0x21b4f4b5 case 0x5 => 0x56b3c423 case 0x6 => 0xcfba9599 case 0x7 => 0xb8bda50f
       case 0x8 => 0x2802b89e case 0x9 => 0x5f058808 case 0xa => 0xc60cd9b2 case 0xb => 0xb10be924
       case 0xc => 0x2f6f7c87 case 0xd => 0x58684c11 case 0xe => 0xc1611dab case _ => 0xb6662d3d)
    case 0x40 =>
      (match i & 0x0f
       case 0x0 => 0x76dc4190 case 0x1 => 0x01db7106 case 0x2 => 0x98d220bc case 0x3 => 0xefd5102a
       case 0x4 => 0x71b18589 case 0x5 => 0x06b6b51f case 0x6 => 0x9fbfe4a5 case 0x7 => 0xe8b8d433
       case 0x8 => 0x7807c9a2 case 0x9 => 0x0f00f934 case 0xa => 0x9609a88e case 0xb => 0xe10e9818
       case 0xc => 0x7f6a0dbb case 0xd => 0x086d3d2d case 0xe => 0x91646c97 case _ => 0xe6635c01)
    case 0x50 =>
      (match i & 0x0f
       case 0x0 => 0x6b6b51f4 case 0x1 => 0x1c6c6162 case 0x2 => 0x856530d8 case 0x3 => 0xf262004e
       case 0x4 => 0x6c0695ed case 0x5 => 0x1b01a57b case 0x6 => 0x8208f4c1 case 0x7 => 0xf50fc457
       case 0x8 => 0x65b0d9c6 case 0x9 => 0x12b7e950 case 0xa => 0x8bbeb8ea case 0xb => 0xfcb9887c
       case 0xc => 0x62dd1ddf case 0xd => 0x15da2d49 case 0xe => 0x8cd37cf3 case _ => 0xfbd44c65)
    case 0x60 =>
      (match i & 0x0f
       case 0x0 => 0x4db26158 case 0x1 => 0x3ab551ce case 0x2 => 0xa3bc0074 case 0x3 => 0xd4bb30e2
       case 0x4 => 0x4adfa541 case 0x5 => 0x3dd895d7 case 0x6 => 0xa4d1c46d case 0x7 => 0xd3d6f4fb
       case 0x8 => 0x4369e96a case 0x9 => 0x346ed9fc case 0xa => 0xad678846 case 0xb => 0xda60b8d0
       case 0xc => 0x44042d73 case 0xd => 0x33031de5 case 0xe => 0xaa0a4c5f case _ => 0xdd0d7cc9)
    case 0x70 =>
      (match i & 0x0f
       case 0x0 => 0x5005713c case 0x1 => 0x270241aa case 0x2 => 0xbe0b1010 case 0x3 => 0xc90c2086
       case 0x4 => 0x5768b525 case 0x5 => 0x206f85b3 case 0x6 => 0xb966d409 case 0x7 => 0xce61e49f
       case 0x8 => 0x5edef90e case 0x9 => 0x29d9c998 case 0xa => 0xb0d09822 case 0xb => 0xc7d7a8b4
       case 0xc => 0x59b33d17 case 0xd => 0x2eb40d81 case 0xe => 0xb7bd5c3b case _ => 0xc0ba6cad)
    case 0x80 =>
      (match i & 0x0f
       case 0x0 => 0xedb88320 case 0x1 => 0x9abfb3b6 case 0x2 => 0x03b6e20c case 0x3 => 0x74b1d29a
       case 0x4 => 0xead54739 case 0x5 => 0x9dd277af case 0x6 => 0x04db2615 case 0x7 => 0x73dc1683
       case 0x8 => 0xe3630b12 case 0x9 => 0x94643b84 case 0xa => 0x0d6d6a3e case 0xb => 0x7a6a5aa8
       case 0xc => 0xe40ecf0b case 0xd => 0x9309ff9d case 0xe => 0x0a00ae27 case _ => 0x7d079eb1)
    case 0x90 =>
      (match i & 0x0f
       case 0x0 => 0xf00f9344 case 0x1 => 0x8708a3d2 case 0x2 => 0x1e01f268 case 0x3 => 0x6906c2fe
       case 0x4 => 0xf762575d case 0x5 => 0x806567cb case 0x6 => 0x196c3671 case 0x7 => 0x6e6b06e7
       case 0x8 => 0xfed41b76 case 0x9 => 0x89d32be0 case 0xa => 0x10da7a5a case 0xb => 0x67dd4acc
       case 0xc => 0xf9b9df6f case 0xd => 0x8ebeeff9 case 0xe => 0x17b7be43 case _ => 0x60b08ed5)
    case 0xa0 =>
      (match i & 0x0f
       case 0x0 => 0xd6d6a3e8 case 0x1 => 0xa1d1937e case 0x2 => 0x38d8c2c4 case 0x3 => 0x4fdff252
       case 0x4 => 0xd1bb67f1 case 0x5 => 0xa6bc5767 case 0x6 => 0x3fb506dd case 0x7 => 0x48b2364b
       case 0x8 => 0xd80d2bda case 0x9 => 0xaf0a1b4c case 0xa => 0x36034af6 case 0xb => 0x41047a60
       case 0xc => 0xdf60efc3 case 0xd => 0xa867df55 case 0xe => 0x316e8eef case _ => 0x4669be79)
    case 0xb0 =>
      (match i & 0x0f
       case 0x0 => 0xcb61b38c case 0x1 => 0xbc66831a case 0x2 => 0x256fd2a0 case 0x3 => 0x5268e236
       case 0x4 => 0xcc0c7795 case 0x5 => 0xbb0b4703 case 0x6 => 0x220216b9 case 0x7 => 0x5505262f
       case 0x8 => 0xc5ba3bbe case 0x9 => 0xb2bd0b28 case 0xa => 0x2bb45a92 case 0xb => 0x5cb36a04
       case 0xc => 0xc2d7ffa7 case 0xd => 0xb5d0cf31 case 0xe => 0x2cd99e8b case _ => 0x5bdeae1d)
    case 0xc0 =>
      (match i & 0x0f
       case 0x0 => 0x9b64c2b0 case 0x1 => 0xec63f226 case 0x2 => 0x756aa39c case 0x3 => 0x026d930a
       case 0x4 => 0x9c0906a9 case 0x5 => 0xeb0e363f case 0x6 => 0x72076785 case 0x7 => 0x05005713
       case 0x8 => 0x95bf4a82 case 0x9 => 0xe2b87a14 case 0xa => 0x7bb12bae case 0xb => 0x0cb61b38
       case 0xc => 0x92d28e9b case 0xd => 0xe5d5be0d case 0xe => 0x7cdcefb7 case _ => 0x0bdbdf21)
    case 0xd0 =>
      (match i & 0x0f
       case 0x0 => 0x86d3d2d4 case 0x1 => 0xf1d4e242 case 0x2 => 0x68ddb3f8 case 0x3 => 0x1fda836e
       case 0x4 => 0x81be16cd case 0x5 => 0xf6b9265b case 0x6 => 0x6fb077e1 case 0x7 => 0x18b74777
       case 0x8 => 0x88085ae6 case 0x9 => 0xff0f6a70 case 0xa => 0x66063bca case 0xb => 0x11010b5c
       case 0xc => 0x8f659eff case 0xd => 0xf862ae69 case 0xe => 0x616bffd3 case _ => 0x166ccf45)
    case 0xe0 =>
      (match i & 0x0f
       case 0x0 => 0xa00ae278 case 0x1 => 0xd70dd2ee case 0x2 => 0x4e048354 case 0x3 => 0x3903b3c2
       case 0x4 => 0xa7672661 case 0x5 => 0xd06016f7 case 0x6 => 0x4969474d case 0x7 => 0x3e6e77db
       case 0x8 => 0xaed16a4a case 0x9 => 0xd9d65adc case 0xa => 0x40df0b66 case 0xb => 0x37d83bf0
       case 0xc => 0xa9bcae53 case 0xd => 0xdebb9ec5 case 0xe => 0x47b2cf7f case _ => 0x30b5ffe9)
    case _ =>
      (match i & 0x0f
       case 0x0 => 0xbdbdf21c case 0x1 => 0xcabac28a case 0x2 => 0x53b39330 case 0x3 => 0x24b4a3a6
       case 0x4 => 0xbad03605 case 0x5 => 0xcdd70693 case 0x6 => 0x54de5729 case 0x7 => 0x23d967bf
       case 0x8 => 0xb3667a2e case 0x9 => 0xc4614ab8 case 0xa => 0x5d681b02 case 0xb => 0x2a6f2b94
       case 0xc => 0xb40bbe37 case 0xd => 0xc30c8ea1 case 0xe => 0x5a05df1b case _ => 0x2d02ef8d)
  }

  lemma TableLow(i: bv8)
    requires i & 0x80 == 0x00
    ensures Table(i) == Shift8(Wide(i))
  {
    match i & 0x0f
    case 0x0 => case 0x1 => case 0x2 => case 0x3 => case 0x4 => case 0x5 => case 0x6 => case 0x7 =>
    case 0x8 => case 0x9 => case 0xa => case 0xb => case 0xc => case 0xd => case 0xe => case _ =>
  }

  lemma TableHigh(i: bv8)
    requires i & 0x80 == 0x80
    ensures Table(i) == Shift8(Wide(i))
  {
    match i & 0x0f
    case 0x0 => case 0x1 => case 0x2 => case 0x3 => case 0x4 => case 0x5 => case 0x6 => case 0x7 =>
    case 0x8 => case 0x9 => case 0xa => case 0xb => case 0xc => case 0xd => case 0xe => case _ =>
  }

  /** Every entry of the table is eight shifts of its index. */
  lemma TableRight(i: bv8)
    ensures Table(i) == Shift8(Wide(i))
  {
    hide Table, Shift8, Wide;
    assert i & 0x80 == 0x00 || i & 0x80 == 0x80;
    if i & 0x80 == 0x00 {
      TableLow(i);
    } else {
      TableHigh(i);
    }
  }

  // ----- sums -----

  lemma PlusSwap(v: bv32, w: bv32)
    ensures Plus(v, w) == Plus(w, v)
  {
  }

  lemma PlusAssoc(u: bv32, v: bv32, w: bv32)
    ensures Plus(Plus(u, v), w) == Plus(u, Plus(v, w))
  {
  }

  lemma PlusZero(v: bv32)
    ensures Plus(v, 0) == v
  {
  }

  lemma PlusCancel(u: bv32, v: bv32, w: bv32)
    ensures Plus(u, v) == Plus(u, w) <==> v == w
  {
    if u ^ v == u ^ w {
      assert u ^ (u ^ v) == v && u ^ (u ^ w) == w;
    }
  }

  lemma PlusFour(v: bv32, w: bv32, x: bv8, y: bv8)
    ensures Plus(Plus(v, w), Wide(x ^ y)) == Plus(Plus(v, Wide(x)), Plus(w, Wide(y)))
  {
  }

  // ----- shifting is linear and loses nothing -----

  lemma ShiftPlus(v: bv32, w: bv32)
    ensures Shift(Plus(v, w)) == Plus(Shift(v), Shift(w))
  {
    hide Shift, Plus;
    assert v & 1 == 0 || v & 1 == 1;
    assert w & 1 == 0 || w & 1 == 1;
    if v & 1 == 1 && w & 1 == 1 {
      ShiftOddOdd(v, w);
    } else if v & 1 == 1 {
      ShiftOddEven(v, w);
    } else if w & 1 == 1 {
      ShiftOddEven(w, v);
      PlusSwap(w, v);
      PlusSwap(Shift(w), Shift(v));
    } else {
      ShiftEvenEven(v, w);
    }
  }

  lemma ShiftOddOdd(v: bv32, w: bv32)
    requires v & 1 == 1 && w & 1 == 1
    ensures Shift(Plus(v, w)) == Plus(Shift(v), Shift(w))
  {
  }

  lemma ShiftOddEven(v: bv32, w: bv32)
    requires v & 1 == 1 && w & 1 == 0
    ensures Shift(Plus(v, w)) == Plus(Shift(v), Shift(w))
  {
  }

  lemma ShiftEvenEven(v: bv32, w: bv32)
    requires v & 1 == 0 && w & 1 == 0
    ensures Shift(Plus(v, w)) == Plus(Shift(v), Shift(w))
  {
  }

  lemma ShiftInjective(v: bv32, w: bv32)
    requires Shift(v) == Shift(w)
    ensures v == w
  {
  }

  lemma Shift8Plus(v: bv32, w: bv32)
    ensures Shift8(Plus(v, w)) == Plus(Shift8(v), Shift8(w))
  {
    hide Shift, Plus;
    var v1, w1 := Shift(v), Shift(w);
    var v2, w2 := Shift(v1), Shift(w1);
    var v3, w3 := Shift(v2), Shift(w2);
    var v4, w4 := Shift(v3), Shift(w3);
    var v5, w5 := Shift(v4), Shift(w4);
    var v6, w6 := Shift(v5), Shift(w5);
    var v7, w7 := Shift(v6), Shift(w6);
    ShiftPlus(v, w);
    ShiftPlus(v1, w1);
    ShiftPlus(v2, w2);
    ShiftPlus(v3, w3);
    ShiftPlus(v4, w4);
    ShiftPlus(v5, w5);
    ShiftPlus(v6, w6);
    ShiftPlus(v7, w7);
  }

  lemma Shift8Injective(v: bv32, w: bv32)
    requires Shift8(v) == Shift8(w)
    ensures v == w
  {
    hide Shift;
    var v1, w1 := Shift(v), Shift(w);
    var v2, w2 := Shift(v1), Shift(w1);
    var v3, w3 := Shift(v2), Shift(w2);
    var v4, w4 := Shift(v3), Shift(w3);
    var v5, w5 := Shift(v4), Shift(w4);
    var v6, w6 := Shift(v5), Shift(w5);
    var v7, w7 := Shift(v6), Shift(w6);
    ShiftInjective(v7, w7);
    ShiftInjective(v6, w6);
    ShiftInjective(v5, w5);
    ShiftInjective(v4, w4);
    ShiftInjective(v3, w3);
    ShiftInjective(v2, w2);
    ShiftInjective(v1, w1);
    ShiftInjective(v, w);
  }

  /** With the low byte clear, nothing is fed back. */
  lemma Shift8Clear(v: bv32)
    requires v & 0xff == 0
    ensures Shift8(v) == Down(v)
  {
  }

  /** Where the loop of crc32 looks in the table. */
  function Index(v: bv32, b: bv8): bv8 {
    ((v ^ (b as bv32)) & 0xff) as bv8
  }

  function Down(v: bv32): bv32 {
    v >> 8
  }

  /** The register after one more byte, as the loop of crc32 computes it. */
  function Update(v: bv32, b: bv8): bv32 {
    Plus(Table(Index(v, b)), Down(v))
  }

  /** A look-up does eight shifts at once. */
  lemma LookUp(v: bv32, b: bv8)
    ensures Update(v, b) == Shift8(Plus(v, Wide(b)))
  {
    hide Table, Shift8, Plus, Wide, Index, Down;
    var high := High(v);
    TableRight(Index(v, b));
    Halves(v, b);
    Shift8Plus(Wide(Index(v, b)), high);
    HighDown(v);
    Shift8Clear(high);
  }

  function High(v: bv32): bv32 {
    v & 0xffff_ff00
  }

  lemma HighDown(v: bv32)
    ensures High(v) & 0xff == 0 && Down(High(v)) == Down(v)
  {
  }

  lemma Halves(v: bv32, b: bv8)
    ensures Plus(v, Wide(b)) == Plus(Wide(Index(v, b)), High(v))
  {
    hide Plus, High;
    var x := Plus(v, Wide(b));
    IndexWide(v, b);
    TwoHalves(x);
    HighPlus(v, b);
  }

  lemma IndexWide(v: bv32, b: bv8)
    ensures Wide(Index(v, b)) == Plus(v, Wide(b)) & 0xff
  {
  }

  lemma TwoHalves(x: bv32)
    ensures x == Plus(x & 0xff, High(x))
  {
  }

  lemma HighPlus(v: bv32, b: bv8)
    ensures High(Plus(v, Wide(b))) == High(v)
  {
  }

  // ----- the checksum object -----

  class Crc32 {
    var curValue: bv32

    constructor ()
      ensures curValue == 0
    {
      curValue := 0;
    }

    /** dsk_checksum_crc32_feed, with the loop of crc32: the length is a C int. */
    method Feed(data: seq<bv8>)
      requires |data| < 0x8000_0000
      modifies this
      ensures curValue == Bitwise(old(curValue), data)
    {
      hide Update, Shift8, Plus, Wide;
      var i := 0;
      assert data[0..] == data;
      while i < |data|
        invariant 0 <= i <= |data| && Bitwise(curValue, data[i..]) == Bitwise(old(curValue), data)
      {
        assert data[i..][1..] == data[i + 1..];
        LookUp(curValue, data[i]);
        curValue := Update(curValue, data[i]);
        i := i + 1;
      }
    }

    /** dsk_checksum_crc32_done_swap: the bytes in reverse order. */
    method DoneSwap()
      modifies this
      ensures BytesOf(curValue) == [BytesOf(old(curValue))[3], BytesOf(old(curValue))[2], BytesOf(old(curValue))[1],
        BytesOf(old(curValue))[0]]
    {
      var v := curValue;
      SwapReverses(v);
      curValue := (v << 24) | (v >> 24) | ((v >> 8) & 0xff00) | ((v << 8) & 0xff0000);
    }
  }

  function BytesOf(v: bv32): (s: seq<bv32>)
    ensures |s| == 4
  {
    [v & 0xff, (v >> 8) & 0xff, (v >> 16) & 0xff, v >> 24]
  }

  lemma SwapReverses(v: bv32)
    ensures var w := (v << 24) | (v >> 24) | ((v >> 8) & 0xff00) | ((v << 8) & 0xff0000);
            w & 0xff == v >> 24 && (w >> 8) & 0xff == (v >> 16) & 0xff && (w >> 16) & 0xff == (v >> 8) & 0xff
            && w >> 24 == v & 0xff
  {
  }

  /** A message may be fed in two parts, and so in any number. */
  lemma {:induction false} BitwiseAppend(v: bv32, s: seq<bv8>, t: seq<bv8>)
    ensures Bitwise(v, s + t) == Bitwise(Bitwise(v, s), t)
    decreases |s|
  {
    hide Shift8, Plus, Wide;
    if s == [] {
      assert s + t == t;
    } else {
      assert (s + t)[1..] == s[1..] + t;
      BitwiseAppend(Shift8(Plus(v, Wide(s[0]))), s[1..], t);
    }
  }

  function Xor(s: seq<bv8>, t: seq<bv8>): (r: seq<bv8>)
    requires |s| == |t|
    ensures |r| == |s|
  {
    if s == [] then [] else [s[0] ^ t[0]] + Xor(s[1..], t[1..])
  }

  /** The checksum is linear. */
  lemma {:induction false} BitwisePlus(v: bv32, w: bv32, s: seq<bv8>, t: seq<bv8>)
    requires |s| == |t|
    ensures Bitwise(Plus(v, w), Xor(s, t)) == Plus(Bitwise(v, s), Bitwise(w, t))
    decreases |s|
  {
    hide Shift8, Plus, Wide;
    if s != [] {
      var a, b := Plus(v, Wide(s[0])), Plus(w, Wide(t[0]));
      var x := s[0] ^ t[0];
      PlusFour(v, w, s[0], t[0]);
      Shift8Plus(a, b);
      assert Xor(s, t) == [x] + Xor(s[1..], t[1..]);
      BitwisePlus(Shift8(a), Shift8(b), s[1..], t[1..]);
    }
  }

  // ----- what the checksum is for -----

  /** Four bytes at most, as one word, first byte lowest. */
  function Word(s: seq<bv8>): bv32 {
    if s == [] then 0 else Plus(Wide(s[0]), Up(Word(s[1..])))
  }

  function Up(v: bv32): bv32 {
    v << 8
  }

  function Rounds(n: nat, v: bv32): bv32 {
    if n == 0 then v else Rounds(n - 1, Shift8(v))
  }

  lemma {:induction false} RoundsInjective(n: nat, v: bv32, w: bv32)
    requires Rounds(n, v) == Rounds(n, w)
    ensures v == w
  {
    hide Shift8;
    if n > 0 {
      RoundsInjective(n - 1, Shift8(v), Shift8(w));
      Shift8Injective(v, w);
    }
  }

  /** Bytes from the n-th on are clear. */
  predicate Below(v: bv32, n: nat) {
    if n == 0 then v == 0
    else if n == 1 then v & 0xffff_ff00 == 0
    else if n == 2 then v & 0xffff_0000 == 0
    else if n == 3 then v & 0xff00_0000 == 0
    else true
  }

  lemma BelowUp(b: bv8, v: bv32, n: nat)
    requires Below(v, n)
    ensures Below(Plus(Wide(b), Up(v)), n + 1)
  {
  }

  lemma BelowLess(v: bv32, n: nat)
    requires Below(v, n) && n <= 3
    ensures v & 0xff00_0000 == 0
  {
    if n == 1 {
      NarrowOne(v);
    } else if n == 2 {
      NarrowTwo(v);
    }
  }

  lemma NarrowOne(v: bv32)
    requires v & 0xffff_ff00 == 0
    ensures v & 0xff00_0000 == 0
  {
  }

  lemma NarrowTwo(v: bv32)
    requires v & 0xffff_0000 == 0
    ensures v & 0xff00_0000 == 0
  {
  }

  lemma {:induction false} WordBelow(s: seq<bv8>)
    ensures Below(Word(s), |s|)
  {
    hide Below, Plus, Wide, Up;
    if s == [] {
      assert Below(0, 0) by { ZeroBelow(); }
    } else {
      WordBelow(s[1..]);
      BelowUp(s[0], Word(s[1..]), |s[1..]|);
    }
  }

  lemma ZeroBelow()
    ensures Below(0, 0)
  {
  }

  lemma {:induction false} WordInjective(s: seq<bv8>, t: seq<bv8>)
    requires |s| == |t| <= 4 && Word(s) == Word(t)
    ensures s == t
  {
    hide Below, Plus, Wide, Up;
    if s != [] {
      var a, b := Word(s[1..]), Word(t[1..]);
      WordBelow(s[1..]);
      WordBelow(t[1..]);
      BelowLess(a, |s[1..]|);
      BelowLess(b, |t[1..]|);
      SplitLow(s[0], t[0], a, b);
      WordInjective(s[1..], t[1..]);
      assert s == [s[0]] + s[1..] && t == [t[0]] + t[1..];
    }
  }

  lemma SplitLow(x: bv8, y: bv8, a: bv32, b: bv32)
    requires a & 0xff00_0000 == 0 && b & 0xff00_0000 == 0 && Plus(Wide(x), Up(a)) == Plus(Wide(y), Up(b))
    ensures x == y && a == b
  {
  }

  /** A few bytes act on the register as one word. */
  lemma {:induction false} BitwiseWord(v: bv32, s: seq<bv8>)
    requires |s| <= 4
    ensures Bitwise(v, s) == Rounds(|s|, Plus(v, Word(s)))
    decreases |s|
  {
    hide Shift8, Plus, Wide, Up, Below;
    if s == [] {
      PlusZero(v);
    } else {
      var x, w := Plus(v, Wide(s[0])), Word(s[1..]);
      WordBelow(s[1..]);
      BelowLess(w, |s[1..]|);
      Shift8Up(w);
      Shift8Plus(x, Up(w));
      PlusAssoc(v, Wide(s[0]), Up(w));
      BitwiseWord(Shift8(x), s[1..]);
    }
  }

  lemma Shift8Up(w: bv32)
    requires w & 0xff00_0000 == 0
    ensures Shift8(Up(w)) == w
  {
    hide Shift8, Up, Down;
    UpAndDown(w);
    Shift8Clear(Up(w));
  }

  lemma UpAndDown(w: bv32)
    requires w & 0xff00_0000 == 0
    ensures Up(w) & 0xff == 0 && Down(Up(w)) == w
  {
  }

  lemma {:induction false} BitwiseInjective(v: bv32, w: bv32, s: seq<bv8>)
    requires Bitwise(v, s) == Bitwise(w, s)
    ensures v == w
    decreases |s|
  {
    hide Shift8, Plus, Wide;
    if s != [] {
      var b := Wide(s[0]);
      BitwiseInjective(Shift8(Plus(v, b)), Shift8(Plus(w, b)), s[1..]);
      Shift8Injective(Plus(v, b), Plus(w, b));
      PlusSwap(v, b);
      PlusSwap(w, b);
      PlusCancel(b, v, w);
    }
  }

  /** Damage within four bytes in a row never goes unnoticed. */
  lemma {:induction false} BurstDetected(v: bv32, before: seq<bv8>, s: seq<bv8>, t: seq<bv8>, after: seq<bv8>)
    requires |s| == |t| <= 4 && s != t
    ensures Bitwise(v, before + s + after) != Bitwise(v, before + t + after)
  {
    hide Bitwise, Word, Plus, Rounds;
    var r := Bitwise(v, before);
    BitwiseAppend(v, before + s, after);
    BitwiseAppend(v, before + t, after);
    BitwiseAppend(v, before, s);
    BitwiseAppend(v, before, t);
    if Bitwise(v, before + s + after) == Bitwise(v, before + t + after) {
      BitwiseInjective(Bitwise(r, s), Bitwise(r, t), after);
      BitwiseWord(r, s);
      BitwiseWord(r, t);
      RoundsInjective(|s|, Plus(r, Word(s)), Plus(r, Word(t)));
      PlusCancel(r, Word(s), Word(t));
      WordInjective(s, t);
    }
  }
}
