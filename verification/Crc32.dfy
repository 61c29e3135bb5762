/**
 The checksum of AWS event-stream frames (the CRC of section 8 of RFC 1952), bit by
 bit as the decoder computes it, and why no change confined to four consecutive
 bytes can go unnoticed.
 */
module Crc32 {

  const POLYNOMIAL: bv32 := 0xedb8_8320
  const ONES: bv32 := 0xffff_ffff

  function Xor(a: bv32, b: bv32): bv32 {
    a ^ b
  }

  function Wide(b: bv8): bv32 {
    b as bv32
  }

  function Up(x: bv32): bv32 {
    x << 8
  }

  function Step(c: bv32): bv32 {
    (c >> 1) ^ (0xedb8_8320 & (0 - (c & 1)))
  }

  function Steps(c: bv32, n: nat): bv32
    decreases n
  {
    if n == 0 then c else Steps(Step(c), n - 1)
  }

  function AddByte(c: bv32, b: bv8): bv32 {
    Steps(Xor(c, Wide(b)), 8)
  }

  function Register(bytes: seq<bv8>, c: bv32): bv32
    decreases |bytes|
  {
    if bytes == [] then c else Register(bytes[1..], AddByte(c, bytes[0]))
  }

  function Crc(bytes: seq<bv8>): bv32 {
    Xor(Register(bytes, ONES), ONES)
  }

  method ComputeCrc(bytes: seq<bv8>) returns (crc: bv32)
    ensures crc == Crc(bytes)
  {
    crc := ONES;
    for i := 0 to |bytes|
      invariant Register(bytes, ONES) == Register(bytes[i..], crc)
    {
      ghost var before := crc;
      crc := crc ^ (bytes[i] as bv32);
      for bit := 0 to 8
        invariant AddByte(before, bytes[i]) == Steps(crc, 8 - bit)
      {
        crc := (crc >> 1) ^ (POLYNOMIAL & (0 - (crc & 1)));
      }
      assert bytes[i..][1..] == bytes[i + 1..];
    }
    crc := crc ^ ONES;
  }

  // ---- Single words -----------------------------------------------------------------------

  /** Different registers stay different: the polynomial's top bit records the bit shifted out. */
  lemma StepInjective(a: bv32, b: bv32)
    requires Step(a) == Step(b)
    ensures a == b
  {}

  lemma StepEven(c: bv32)
    requires c & 1 == 0
    ensures Step(c) == c >> 1
  {}

  lemma StepOdd(c: bv32)
    requires c & 1 == 1
    ensures Step(c) == (c >> 1) ^ 0xedb8_8320
  {}

  lemma XorFacts(a: bv32, b: bv32, p: bv32)
    ensures ((a ^ b) >> 1) == (a >> 1) ^ (b >> 1)
    ensures ((a ^ p) ^ b) == (a ^ b) ^ p && (a ^ (b ^ p)) == (a ^ b) ^ p && ((a ^ p) ^ (b ^ p)) == a ^ b
    ensures (a & 1 == 0 || a & 1 == 1) && (b & 1 == 0 || b & 1 == 1) && ((a ^ b) & 1) == (a & 1) ^ (b & 1)
  {}

  lemma StepOfXor(a: bv32, b: bv32)
    ensures Step(a ^ b) == Step(a) ^ Step(b)
  {
    hide Step;
    XorFacts(a, b, 0);
    XorFacts(a >> 1, b >> 1, 0xedb8_8320);
    if a & 1 == 0 { StepEven(a); } else { StepOdd(a); }
    if b & 1 == 0 { StepEven(b); } else { StepOdd(b); }
    if (a ^ b) & 1 == 0 { StepEven(a ^ b); } else { StepOdd(a ^ b); }
  }

  /** The step distributes over exclusive or. */
  lemma StepLinear(a: bv32, b: bv32)
    ensures Step(Xor(a, b)) == Xor(Step(a), Step(b))
  {
    hide Step;
    StepOfXor(a, b);
  }

  lemma XorAssociates(a: bv32, b: bv32, c: bv32)
    ensures Xor(a, Xor(b, c)) == Xor(Xor(a, b), c)
  {}

  lemma XorZero(a: bv32)
    ensures Xor(a, 0) == a
  {}

  lemma XorInjective(a: bv32, b: bv32, x: bv32)
    ensures Xor(a, x) == Xor(b, x) ==> a == b
    ensures Xor(x, a) == Xor(x, b) ==> a == b
  {}

  // ---- Many steps ----------------------------------------------------------------------------

  lemma {:induction false} StepsLinear(a: bv32, b: bv32, n: nat)
    ensures Steps(Xor(a, b), n) == Xor(Steps(a, n), Steps(b, n))
    decreases n
  {
    hide Step, Xor;
    if n > 0 {
      StepLinear(a, b);
      StepsLinear(Step(a), Step(b), n - 1);
    }
  }

  lemma {:induction false} StepsInjective(a: bv32, b: bv32, n: nat)
    requires Steps(a, n) == Steps(b, n)
    ensures a == b
    decreases n
  {
    hide Step;
    if n > 0 {
      StepsInjective(Step(a), Step(b), n - 1);
      StepInjective(a, b);
    }
  }

  lemma {:induction false} StepsAdd(c: bv32, m: nat, n: nat)
    ensures Steps(c, m + n) == Steps(Steps(c, m), n)
    decreases m
  {
    hide Step;
    if m > 0 {
      StepsAdd(Step(c), m - 1, n);
    }
  }

  // ---- Bytes ------------------------------------------------------------------------------------

  lemma {:induction false} RegisterConcat(a: seq<bv8>, b: seq<bv8>, c: bv32)
    ensures Register(a + b, c) == Register(b, Register(a, c))
    decreases |a|
  {
    hide AddByte;
    if a == [] {
      assert a + b == b;
    } else {
      assert (a + b)[1..] == a[1..] + b;
      RegisterConcat(a[1..], b, AddByte(c, a[0]));
    }
  }

  lemma AddByteInjective(x: bv8, a: bv32, b: bv32)
    requires AddByte(a, x) == AddByte(b, x)
    ensures a == b
  {
    hide Steps, Xor, Wide;
    StepsInjective(Xor(a, Wide(x)), Xor(b, Wide(x)), 8);
    XorInjective(a, b, Wide(x));
  }

  /** The same bytes keep different registers different. */
  lemma {:induction false} RegisterInjective(bytes: seq<bv8>, a: bv32, b: bv32)
    requires Register(bytes, a) == Register(bytes, b)
    ensures a == b
    decreases |bytes|
  {
    hide AddByte;
    if bytes != [] {
      RegisterInjective(bytes[1..], AddByte(a, bytes[0]), AddByte(b, bytes[0]));
      AddByteInjective(bytes[0], a, b);
    }
  }

  // ---- Up to four bytes as one word ------------------------------------------------------------

  /** The first byte is the lowest. */
  function Word(w: seq<bv8>): bv32 {
    if w == [] then 0 else Xor(Wide(w[0]), Up(Word(w[1..])))
  }

  /** The bits that a word of that many bytes leaves clear. */
  function Above(bytes: nat): bv32 {
    match bytes
    case 0 => 0xffff_ffff
    case 1 => 0xffff_ff00
    case 2 => 0xffff_0000
    case 3 => 0xff00_0000
    case _ => 0
  }

  predicate Fits(x: bv32, bytes: nat) {
    x & Above(bytes) == 0
  }

  lemma ShiftFits(b: bv8, x: bv32, n: nat)
    requires n < 4 && Fits(x, n)
    ensures Fits(Xor(Wide(b), Up(x)), n + 1)
  {}

  lemma FitsGrows(x: bv32, n: nat)
    requires n <= 3 && Fits(x, n)
    ensures Fits(x, 3)
  {}

  lemma {:induction false} WordFits(w: seq<bv8>)
    requires |w| <= 4
    ensures Fits(Word(w), |w|)
  {
    hide Fits, Xor, Wide, Up;
    if w == [] {
      ZeroFits();
    } else {
      WordFits(w[1..]);
      ShiftFits(w[0], Word(w[1..]), |w| - 1);
    }
  }

  lemma ZeroFits()
    ensures Fits(0, 0)
  {}

  lemma SplitWord(a: bv8, b: bv8, x: bv32, y: bv32)
    requires Fits(x, 3) && Fits(y, 3)
    requires Xor(Wide(a), Up(x)) == Xor(Wide(b), Up(y))
    ensures a == b && x == y
  {}

  lemma {:induction false} WordInjective(v: seq<bv8>, w: seq<bv8>)
    requires |v| == |w| <= 4 && Word(v) == Word(w)
    ensures v == w
  {
    hide Fits, Xor, Wide, Up;
    if v != [] {
      WordFits(v[1..]);
      WordFits(w[1..]);
      FitsGrows(Word(v[1..]), |v| - 1);
      FitsGrows(Word(w[1..]), |w| - 1);
      SplitWord(v[0], w[0], Word(v[1..]), Word(w[1..]));
      WordInjective(v[1..], w[1..]);
      assert v == [v[0]] + v[1..] && w == [w[0]] + w[1..];
    }
  }

  function Double(z: bv32): bv32 {
    z << 1
  }

  predicate TopClear(z: bv32) {
    z & 0x8000_0000 == 0
  }

  lemma ShiftDown(z: bv32)
    requires TopClear(z)
    ensures Step(Double(z)) == z
  {}

  /** A word of three bytes can be doubled eight times, which is moving it up by a byte. */
  lemma DoubleFacts(z: bv32) returns (z1: bv32, z2: bv32, z3: bv32, z4: bv32, z5: bv32, z6: bv32, z7: bv32)
    requires Fits(z, 3)
    ensures z1 == Double(z) && z2 == Double(z1) && z3 == Double(z2) && z4 == Double(z3)
    ensures z5 == Double(z4) && z6 == Double(z5) && z7 == Double(z6) && Up(z) == Double(z7)
    ensures TopClear(z) && TopClear(z1) && TopClear(z2) && TopClear(z3)
    ensures TopClear(z4) && TopClear(z5) && TopClear(z6) && TopClear(z7)
  {
    z1, z2, z3, z4, z5, z6, z7 := z << 1, z << 2, z << 3, z << 4, z << 5, z << 6, z << 7;
  }

  /** Eight steps move a word that has a zero byte below it down by that byte. */
  lemma ShiftSteps(z: bv32)
    requires Fits(z, 3)
    ensures Steps(Up(z), 8) == z
  {
    hide Step, Fits, Up, Double, TopClear, Steps;
    var z1, z2, z3, z4, z5, z6, z7 := DoubleFacts(z);
    ShiftDown(z7);
    ShiftDown(z6);
    ShiftDown(z5);
    ShiftDown(z4);
    ShiftDown(z3);
    ShiftDown(z2);
    ShiftDown(z1);
    ShiftDown(z);
    EightSteps(Up(z), z7, z6, z5, z4, z3, z2, z1, z);
  }

  lemma EightSteps(a: bv32, b: bv32, c: bv32, d: bv32, e: bv32, f: bv32, g: bv32, h: bv32, i: bv32)
    requires Step(a) == b && Step(b) == c && Step(c) == d && Step(d) == e
    requires Step(e) == f && Step(f) == g && Step(g) == h && Step(h) == i
    ensures Steps(a, 8) == i
  {
    hide Step;
    assert Steps(a, 8) == Steps(b, 7) == Steps(c, 6) == Steps(d, 5) == Steps(e, 4);
    assert Steps(e, 4) == Steps(f, 3) == Steps(g, 2) == Steps(h, 1) == Steps(i, 0);
  }

  lemma ByteThenWord(c: bv32, b: bv8, rest: bv32)
    requires Fits(rest, 3)
    ensures Steps(Xor(c, Xor(Wide(b), Up(rest))), 8) == Xor(AddByte(c, b), rest)
  {
    hide Fits, Xor, Wide, Up, Steps;
    XorAssociates(c, Wide(b), Up(rest));
    StepsLinear(Xor(c, Wide(b)), Up(rest), 8);
    ShiftSteps(rest);
  }

  /** Feeding up to four bytes is one exclusive or followed by shifting. */
  lemma {:induction false} RegisterOfWord(w: seq<bv8>, c: bv32)
    requires |w| <= 4
    ensures Register(w, c) == Steps(Xor(c, Word(w)), 8 * |w|)
    decreases |w|
  {
    hide Fits, Xor, Wide, Up, AddByte, Step;
    if w == [] {
      XorZero(c);
    } else {
      WordFits(w[1..]);
      FitsGrows(Word(w[1..]), |w| - 1);
      RegisterOfWord(w[1..], AddByte(c, w[0]));
      ByteThenWord(c, w[0], Word(w[1..]));
      StepsAdd(Xor(c, Word(w)), 8, 8 * (|w| - 1));
    }
  }

  lemma RegisterSplits(prefix: seq<bv8>, w: seq<bv8>, suffix: seq<bv8>)
    ensures Register(prefix + w + suffix, ONES) == Register(suffix, Register(w, Register(prefix, ONES)))
  {
    hide Register;
    RegisterConcat(prefix, w, ONES);
    RegisterConcat(prefix + w, suffix, ONES);
  }

  /** Two byte strings that differ only inside a window of at most four bytes have different checksums. */
  lemma BurstChangesCrc(prefix: seq<bv8>, v: seq<bv8>, w: seq<bv8>, suffix: seq<bv8>)
    requires |v| == |w| <= 4 && v != w
    ensures Crc(prefix + v + suffix) != Crc(prefix + w + suffix)
  {
    hide Register, Steps, Word, Xor;
    var c := Register(prefix, ONES);
    RegisterSplits(prefix, v, suffix);
    RegisterSplits(prefix, w, suffix);
    if Crc(prefix + v + suffix) == Crc(prefix + w + suffix) {
      XorInjective(Register(prefix + v + suffix, ONES), Register(prefix + w + suffix, ONES), ONES);
      RegisterInjective(suffix, Register(v, c), Register(w, c));
      RegisterOfWord(v, c);
      RegisterOfWord(w, c);
      StepsInjective(Xor(c, Word(v)), Xor(c, Word(w)), 8 * |v|);
      XorInjective(Word(v), Word(w), c);
      WordInjective(v, w);
    }
  }

  // ---- The checksum's constants -------------------------------------------------------------------

  /** The four bytes of a word, the lowest first. */
  function LowestFirst(x: bv32): seq<bv8> {
    [(x & 0xff) as bv8, ((x >> 8) & 0xff) as bv8, ((x >> 16) & 0xff) as bv8, ((x >> 24) & 0xff) as bv8]
  }

  lemma WordParts(x: bv32)
    ensures Xor(Wide((x & 0xff) as bv8), Up(Xor(Wide(((x >> 8) & 0xff) as bv8),
              Up(Xor(Wide(((x >> 16) & 0xff) as bv8), Up(Xor(Wide(((x >> 24) & 0xff) as bv8), Up(0)))))))) == x
  {}

  lemma WordOfBytes(x: bv32)
    ensures Word(LowestFirst(x)) == x
  {
    hide Xor, Wide, Up;
    var w := LowestFirst(x);
    assert Word(w) == Xor(Wide(w[0]), Up(Word(w[1..]))) && Word(w[1..]) == Xor(Wide(w[1]), Up(Word(w[2..]))) by {
      assert w[1..][1..] == w[2..];
    }
    assert Word(w[2..]) == Xor(Wide(w[2]), Up(Word(w[3..]))) by { assert w[2..][1..] == w[3..]; }
    assert Word(w[3..]) == Xor(Wide(w[3]), Up(0)) by { assert w[3..][1..] == []; }
    WordParts(x);
  }

  lemma XorTwice(a: bv32, b: bv32)
    ensures Xor(a, Xor(a, b)) == b
  {}

  /** Thirty-two steps from a register of ones. */
  lemma StepsOfOnes()
    ensures Steps(0xffff_ffff, 32) == 0xdebb_20e3
  {
    hide Steps, Xor;
    EightStepsOf(0xffff_ffff, 0x9247_7cdf, 0xa49b_3d4f, 0xbff5_1d87, 0xb242_0de3, 0xb499_85d1, 0xb7f4_41c8, 0x5bfa_20e4, 0x2dfd_1072);
    EightStepsOf(0x2dfd_1072, 0x16fe_8839, 0xe6c7_c73c, 0x7363_e39e, 0x39b1_f1cf, 0xf160_7bc7, 0x9508_bec3, 0xa73c_dc41, 0xbe26_ed00);
    EightStepsOf(0xbe26_ed00, 0x5f13_7680, 0x2f89_bb40, 0x17c4_dda0, 0x0be2_6ed0, 0x05f1_3768, 0x02f8_9bb4, 0x017c_4dda, 0x00be_26ed);
    EightStepsOf(0x00be_26ed, 0xede7_9056, 0x76f3_c82b, 0xd6c1_6735, 0x86d8_30ba, 0x436c_185d, 0xcc0e_8f0e, 0x6607_4787, 0xdebb_20e3);
    StepsAdd(0xffff_ffff, 8, 24);
    StepsAdd(0x2dfd_1072, 8, 16);
    StepsAdd(0xbe26_ed00, 8, 8);
  }

  lemma EightStepsOf(a: bv32, b: bv32, c: bv32, d: bv32, e: bv32, f: bv32, g: bv32, h: bv32, i: bv32)
    requires Step(a) == b && Step(b) == c && Step(c) == d && Step(d) == e
    requires Step(e) == f && Step(f) == g && Step(g) == h && Step(h) == i
    ensures Steps(a, 8) == i
  {
    EightSteps(a, b, c, d, e, f, g, h, i);
  }

  /**
   The residue law: a register of ones that has taken in any bytes and then their checksum,
   lowest byte first, holds the same number.
   */
  lemma Residue(bytes: seq<bv8>)
    ensures Register(bytes + LowestFirst(Crc(bytes)), 0xffff_ffff) == 0xdebb_20e3
  {
    hide Steps, Xor, Word, Register;
    var w, c := LowestFirst(Crc(bytes)), Register(bytes, 0xffff_ffff);
    RegisterConcat(bytes, w, 0xffff_ffff);
    RegisterOfWord(w, c);
    WordOfBytes(Crc(bytes));
    XorTwice(c, 0xffff_ffff);
    StepsOfOnes();
  }

  /** The checksum of a zero byte. */
  lemma ChecksumOfZero()
    ensures Crc([0]) == 0xd202_ef8d
  {
    EightStepsOf(0xffff_ffff, 0x9247_7cdf, 0xa49b_3d4f, 0xbff5_1d87, 0xb242_0de3, 0xb499_85d1, 0xb7f4_41c8, 0x5bfa_20e4, 0x2dfd_1072);
    assert Xor(0xffff_ffff, Wide(0)) == 0xffff_ffff;
    assert Register([0], 0xffff_ffff) == Register([0][1..], AddByte(0xffff_ffff, 0)) == 0x2dfd_1072;
  }
}
