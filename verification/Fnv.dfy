/** YCSB key names: FNV-1a over the octets of a key number, folded to a non-negative
    number and written into a padded name. */
module Fnv {
  import Decimal

  const TWO64 := 0x1_0000_0000_0000_0000
  const TWO63 := 0x8000_0000_0000_0000
  const FNV_OFFSET_BASIS_64 := 0xCBF29CE484222325
  const FNV_PRIME_64 := 1099511628211

  /** The prime is odd, so it has an inverse modulo 2^64. */
  const FNV_PRIME_INVERSE := 0xce965057aff6957b

  type U64 = n: nat | n < TWO64
  type Octet = n: nat | n < 256

  // ------------------------------------------------------- exclusive or

  function Pow2(n: nat): (r: nat)
    ensures r > 0
  {
    if n == 0 then 1 else 2 * Pow2(n - 1)
  }

  /** Bitwise exclusive or of the low `n` bits. */
  function Xor(a: nat, b: nat, n: nat): (r: nat)
    ensures r < Pow2(n)
  {
    if n == 0 then 0 else (a % 2 + b % 2) % 2 + 2 * Xor(a / 2, b / 2, n - 1)
  }

  lemma XorHalves(a: nat, b: nat, n: nat)
    requires n > 0
    ensures Xor(a, b, n) % 2 == (a % 2 + b % 2) % 2
    ensures Xor(a, b, n) / 2 == Xor(a / 2, b / 2, n - 1)
  {
    Halves((a % 2 + b % 2) % 2, Xor(a / 2, b / 2, n - 1));
  }

  lemma Halves(bit: nat, rest: nat)
    requires bit < 2
    ensures (bit + 2 * rest) % 2 == bit && (bit + 2 * rest) / 2 == rest
  {
  }

  lemma Parity(p: nat, q: nat)
    requires p < 2 && q < 2
    ensures ((p + q) % 2 + q) % 2 == p
  {
  }

  lemma SameHalves(s: nat, a: nat)
    requires s % 2 == a % 2 && s / 2 == a / 2
    ensures s == a
  {
  }

  lemma {:induction false} XorTwice(a: nat, b: nat, n: nat)
    requires a < Pow2(n)
    ensures Xor(Xor(a, b, n), b, n) == a
  {
    if n == 0 {
    } else {
      var r, s := Xor(a, b, n), Xor(Xor(a, b, n), b, n);
      XorHalves(a, b, n);
      XorHalves(r, b, n);
      Parity(a % 2, b % 2);
      XorTwice(a / 2, b / 2, n - 1);
      SameHalves(s, a);
    }
  }

  lemma {:induction false} XorSwap(a: nat, b: nat, n: nat)
    ensures Xor(a, b, n) == Xor(b, a, n)
  {
    if n == 0 {
    } else {
      XorSwap(a / 2, b / 2, n - 1);
    }
  }

  const WORD_BITS: nat := 64

  lemma SixtyFourBits()
    ensures Pow2(WORD_BITS) == TWO64
  {
    assert Pow2(4) == 16;
    Doubling(4, 16);
    Doubling(8, 0x100);
    Doubling(16, 0x1_0000);
    Doubling(32, 0x1_0000_0000);
  }

  lemma Doubling(n: nat, v: nat)
    requires Pow2(n) == v
    ensures Pow2(2 * n) == v * v
  {
    Pow2Add(n, n);
  }

  lemma {:induction false} Pow2Add(m: nat, n: nat)
    ensures Pow2(m + n) == Pow2(m) * Pow2(n)
  {
    if m == 0 {
    } else {
      Pow2Add(m - 1, n);
    }
  }

  function Xor64(a: U64, b: U64): U64 {
    SixtyFourBits();
    Xor(a, b, WORD_BITS)
  }

  // ------------------------------------------------------- one round

  /** One FNV-1a round. */
  function Round(h: U64, octet: Octet): U64 {
    Xor64(h, octet) * FNV_PRIME_64 % TWO64
  }

  function Unround(h: U64, octet: Octet): U64 {
    Xor64(h * FNV_PRIME_INVERSE % TWO64, octet)
  }

  lemma PrimeInverse(x: U64)
    ensures (x * FNV_PRIME_64 % TWO64) * FNV_PRIME_INVERSE % TWO64 == x
    ensures (x * FNV_PRIME_INVERSE % TWO64) * FNV_PRIME_64 % TWO64 == x
  {
    var c := (FNV_PRIME_64 * FNV_PRIME_INVERSE - 1) / TWO64;
    assert FNV_PRIME_64 * FNV_PRIME_INVERSE == 1 + c * TWO64;
    var k := x * FNV_PRIME_64 / TWO64;
    Residue(x, x * c - k * FNV_PRIME_INVERSE);
    var l := x * FNV_PRIME_INVERSE / TWO64;
    Residue(x, x * c - l * FNV_PRIME_64);
  }

  lemma Residue(x: U64, t: int)
    ensures (x + t * TWO64) % TWO64 == x
  {
  }

  /** Each round is a bijection on 64-bit states. */
  lemma RoundBijective(h: U64, octet: Octet)
    ensures Unround(Round(h, octet), octet) == h
    ensures Round(Unround(h, octet), octet) == h
  {
    SixtyFourBits();
    PrimeInverse(Xor64(h, octet));
    XorTwice(h, octet, WORD_BITS);
    PrimeInverse(h);
    XorTwice(h * FNV_PRIME_INVERSE % TWO64, octet, WORD_BITS);
  }

  /** Different octets take one state to different states. */
  lemma RoundTellsOctets(h: U64, a: Octet, b: Octet)
    requires Round(h, a) == Round(h, b)
    ensures a == b
  {
    SixtyFourBits();
    PrimeInverse(Xor64(h, a));
    PrimeInverse(Xor64(h, b));
    XorSwap(h, a, WORD_BITS);
    XorSwap(h, b, WORD_BITS);
    XorTwice(a, h, WORD_BITS);
    XorTwice(b, h, WORD_BITS);
  }

  // ------------------------------------------------------- the hash

  /** FNV-1a over octets, in order. */
  function Fnv1a(octets: seq<Octet>): U64 {
    if octets == [] then FNV_OFFSET_BASIS_64 else Round(Fnv1a(octets[..|octets| - 1]), octets[|octets| - 1])
  }

  function Pow256(n: nat): (r: nat)
    ensures r > 0
  {
    if n == 0 then 1 else 256 * Pow256(n - 1)
  }

  /** The low `n` octets of a number, least significant first. */
  function Octets(v: nat, n: nat): (r: seq<Octet>)
    ensures |r| == n
  {
    if n == 0 then [] else [v % 256] + Octets(v / 256, n - 1)
  }

  function FromOctets(octets: seq<Octet>): nat {
    if octets == [] then 0 else octets[0] + 256 * FromOctets(octets[1..])
  }

  /** The octets determine the number. */
  lemma {:induction false} OctetsRoundTrip(v: nat, n: nat)
    requires v < Pow256(n)
    ensures FromOctets(Octets(v, n)) == v
  {
    if n == 0 {
    } else {
      OctetsRoundTrip(v / 256, n - 1);
      assert Octets(v, n)[1..] == Octets(v / 256, n - 1);
    }
  }

  /** Python's `& (2^64 - 1)` on any integer. */
  function Low64(n: int): U64 {
    n % TWO64
  }

  function ToSigned64(v: U64): int {
    if v >= TWO63 then v - TWO64 else v
  }

  function Fold(h: U64): int {
    var signed := ToSigned64(h);
    if signed == -TWO63 then signed else if signed < 0 then -signed else signed
  }

  const KEY_OCTETS: nat := 8

  /** The hash of a key number before the sign is folded away. */
  function RawHash(keynum: int): U64 {
    Fnv1a(Octets(Low64(keynum), KEY_OCTETS))
  }

  /** The loop: take the lowest octet, shift, mix. */
  method HashOctets(start: U64, rounds: nat) returns (hashval: U64)
    ensures hashval == Fnv1a(Octets(start, rounds))
  {
    hashval := FNV_OFFSET_BASIS_64;
    var value := start;
    ghost var octets := Octets(value, rounds);
    for i := 0 to rounds
      invariant Octets(value, rounds - i) == octets[i..]
      invariant hashval == Fnv1a(octets[..i])
    {
      var octet: Octet := value % 256;
      value := value / 256;
      assert octets[i..][0] == octet && octets[i..][1..] == octets[i + 1..];
      Fnv1aNext(octets, i);
      hashval := Mix(hashval, octet);
    }
    assert octets[..rounds] == octets;
  }

  method Mix(h: U64, octet: Octet) returns (hashval: U64)
    ensures hashval == Round(h, octet)
  {
    hashval := Xor64(h, octet);
    hashval := hashval * FNV_PRIME_64 % TWO64;
  }

  lemma Fnv1aNext(octets: seq<Octet>, i: nat)
    requires i < |octets|
    ensures Fnv1a(octets[..i + 1]) == Round(Fnv1a(octets[..i]), octets[i])
  {
    assert octets[..i + 1][..i] == octets[..i];
  }

  /** `n` rounds from state `h`, taking the octets off a number from its low end. */
  function Rounds(h: U64, v: nat, n: nat): U64
    decreases n
  {
    if n == 0 then h else Rounds(Round(h, v % 256), v / 256, n - 1)
  }

  lemma {:induction false} RoundsFrom(octets: seq<Octet>, i: nat, v: nat, n: nat)
    requires |octets| == i + n && octets[i..] == Octets(v, n)
    ensures Fnv1a(octets) == Rounds(Fnv1a(octets[..i]), v, n)
    decreases n
  {
    if n == 0 {
      assert octets[..i] == octets;
    } else {
      assert octets[i..][0] == v % 256 && octets[i..][1..] == octets[i + 1..];
      Fnv1aNext(octets, i);
      RoundsFrom(octets, i + 1, v / 256, n - 1);
    }
  }

  lemma HashIsRounds(keynum: int, v: U64, n: nat)
    requires n == KEY_OCTETS && v == Low64(keynum)
    ensures RawHash(keynum) == Rounds(FNV_OFFSET_BASIS_64, v, n)
  {
    var octets := Octets(v, n);
    assert octets[0..] == octets && octets[..0] == [];
    RoundsFrom(octets, 0, v, n);
  }

  /** A key's hash is eight rounds from the offset basis over its low 64 bits. */
  lemma HashIsEightRounds(keynum: int)
    ensures RawHash(keynum) == Rounds(0xCBF29CE484222325, keynum % 0x1_0000_0000_0000_0000, 8)
  {
    HashIsRounds(keynum, Low64(keynum), 8);
  }

  lemma {:induction false} XorZero(a: nat, n: nat)
    requires a < Pow2(n)
    ensures Xor(a, 0, n) == a
  {
    if n > 0 {
      XorZero(a / 2, n - 1);
    }
  }

  /** `n` multiplications by the prime. */
  function Scaled(h: U64, n: nat): U64 {
    if n == 0 then h else Scaled(h, n - 1) * 0x100_0000_01B3 % 0x1_0000_0000_0000_0000
  }

  lemma {:induction false} ZeroRounds(h: U64, n: nat)
    ensures Rounds(h, 0, n) == Scaled(h, n)
    decreases n
  {
    if n > 0 {
      SixtyFourBits();
      XorZero(h, WORD_BITS);
      ZeroRounds(Round(h, 0), n - 1);
      ScaledFirst(h, n - 1);
    }
  }

  lemma {:induction false} ScaledFirst(h: U64, n: nat)
    ensures Scaled(Scaled(h, 1), n) == Scaled(h, n + 1)
  {
    if n > 0 {
      ScaledFirst(h, n - 1);
    }
  }

  /** Exclusive or with the lowest bit. */
  lemma XorOne(a: nat, n: nat)
    requires a < Pow2(n) && n > 0
    ensures Xor(a, 1, n) == if a % 2 == 0 then a + 1 else a - 1
  {
    XorZero(a / 2, n - 1);
  }

  lemma BitRound(h: U64, bit: Octet)
    requires h % 2 == 1 && bit < 2
    ensures Round(h, bit) == Scaled(h - bit, 1)
  {
    SixtyFourBits();
    XorZero(h, WORD_BITS);
    XorOne(h, WORD_BITS);
    assert Scaled(h - bit, 0) == h - bit;
  }

  lemma BitRounds(h: U64, bit: Octet, n: nat)
    requires h % 2 == 1 && bit < 2 && n > 0
    ensures Rounds(h, bit, n) == Scaled(h - bit, n)
  {
    assert bit % 256 == bit && bit / 256 == 0;
    BitRound(h, bit);
    ZeroRounds(Round(h, bit), n - 1);
    ScaledFirst(h - bit, n - 1);
  }

  lemma BitHash(h: U64, bit: Octet, n: nat)
    requires h == FNV_OFFSET_BASIS_64 && bit < 2 && n == KEY_OCTETS
    ensures RawHash(bit) == Scaled(h - bit, n)
  {
    LowBit(bit);
    HashIsRounds(bit, bit, n);
    BitRounds(h, bit, n);
  }

  lemma LowBit(bit: nat)
    requires bit < 2
    ensures Low64(bit) == bit
  {
  }

  lemma FirstHash(h: U64, n: nat)
    requires h == FNV_OFFSET_BASIS_64 && n == KEY_OCTETS
    ensures RawHash(0) == 0xA8C7_F832_281A_39C5
  {
    BitHash(h, 0, n);
    ScaledFromBasis(h);
  }

  lemma SecondHash(h: U64, n: nat)
    requires h == FNV_OFFSET_BASIS_64 && n == KEY_OCTETS
    ensures RawHash(1) == 0x89CD_3129_1D2A_EFA4
  {
    BitHash(h, 1, n);
    ScaledFromBelow(h - 1);
  }

  /** The hashes of the first two key numbers, as YCSB names them. */
  lemma FirstHashes()
    ensures Fold(RawHash(0)) == 6284781860667377211 && Fold(RawHash(1)) == 8517097267634966620
  {
    FirstHash(FNV_OFFSET_BASIS_64, 8);
    SecondHash(FNV_OFFSET_BASIS_64, 8);
  }

  lemma ScaledNext(h: U64, n: nat, a: U64, b: U64)
    requires Scaled(h, n) == a && a * 0x100_0000_01B3 % 0x1_0000_0000_0000_0000 == b
    ensures Scaled(h, n + 1) == b
  {
  }

  lemma ScaledFromBasis(h: U64)
    requires h == 0xCBF2_9CE4_8422_2325
    ensures Scaled(h, 8) == 0xA8C7_F832_281A_39C5
  {
    ScaledNext(h, 0, 0xCBF2_9CE4_8422_2325, 0xAF63_BD4C_8601_B7DF);
    ScaledNext(h, 1, 0xAF63_BD4C_8601_B7DF, 0x0832_8807_B4EB_6FED);
    ScaledNext(h, 2, 0x0832_8807_B4EB_6FED, 0xD94D_1218_6C0F_2FB7);
    ScaledNext(h, 3, 0xD94D_1218_6C0F_2FB7, 0x4D25_767F_9DCE_13F5);
    ScaledNext(h, 4, 0x4D25_767F_9DCE_13F5, 0xE4BC_4FD9_252B_E94F);
    ScaledNext(h, 5, 0xE4BC_4FD9_252B_E94F, 0xD7E4_FCFA_299D_713D);
    ScaledNext(h, 6, 0xD7E4_FCFA_299D_713D, 0x778B_1A14_B687_6AA7);
    ScaledNext(h, 7, 0x778B_1A14_B687_6AA7, 0xA8C7_F832_281A_39C5);
  }

  lemma ScaledFromBelow(h: U64)
    requires h == 0xCBF2_9CE4_8422_2324
    ensures Scaled(h, 8) == 0x89CD_3129_1D2A_EFA4
  {
    ScaledNext(h, 0, 0xCBF2_9CE4_8422_2324, 0xAF63_BC4C_8601_B62C);
    ScaledNext(h, 1, 0xAF63_BC4C_8601_B62C, 0x082F_2207_B4E8_8CC4);
    ScaledNext(h, 2, 0x082F_2207_B4E8_8CC4, 0xD0A3_9718_6727_310C);
    ScaledNext(h, 3, 0xD0A3_9718_6727_310C, 0xAD2A_CA77_4798_5764);
    ScaledNext(h, 4, 0xAD2A_CA77_4798_5764, 0xD80D_6CAE_A7DC_7EEC);
    ScaledNext(h, 5, 0xD80D_6CAE_A7DC_7EEC, 0xFB4E_98C7_3BAB_AB04);
    ScaledNext(h, 6, 0xFB4E_98C7_3BAB_AB04, 0xB238_9E8A_64B3_97CC);
    ScaledNext(h, 7, 0xB238_9E8A_64B3_97CC, 0x89CD_3129_1D2A_EFA4);
  }

  method YcsbHashKeynum(keynum: int) returns (r: int)
    ensures r == Fold(RawHash(keynum))
  {
    var hashval := HashOctets(Low64(keynum), KEY_OCTETS);
    var signedHash := ToSigned64(hashval);
    if signedHash == -TWO63 {
      return signedHash;
    }
    return if signedHash < 0 then -signedHash else signedHash;
  }

  /** Octet strings that differ in exactly one place hash differently. */
  lemma {:induction false} OneOctetApart(a: seq<Octet>, b: seq<Octet>, i: nat)
    requires |a| == |b| && i < |a| && a[i] != b[i]
    requires forall j :: 0 <= j < |a| && j != i ==> a[j] == b[j]
    ensures Fnv1a(a) != Fnv1a(b)
  {
    var n := |a| - 1;
    if i == n {
      assert a[..n] == b[..n];
      if Fnv1a(a) == Fnv1a(b) {
        RoundTellsOctets(Fnv1a(a[..n]), a[n], b[n]);
      }
    } else {
      OneOctetApart(a[..n], b[..n], i);
      RoundBijective(Fnv1a(a[..n]), a[n]);
      RoundBijective(Fnv1a(b[..n]), b[n]);
    }
  }

  /** Key numbers that differ in exactly one octet differ before the sign fold. */
  lemma KeyNumbersOneOctetApart(m: int, n: int, i: nat)
    requires i < KEY_OCTETS && Octets(Low64(m), KEY_OCTETS)[i] != Octets(Low64(n), KEY_OCTETS)[i]
    requires forall j :: 0 <= j < KEY_OCTETS && j != i ==>
                           Octets(Low64(m), KEY_OCTETS)[j] == Octets(Low64(n), KEY_OCTETS)[j]
    ensures RawHash(m) != RawHash(n)
  {
    OneOctetApart(Octets(Low64(m), KEY_OCTETS), Octets(Low64(n), KEY_OCTETS), i);
  }

  /** The folded hash is the absolute value of the signed one, but for -2^63, which has none;
      two hashes fold together exactly when they are equal or each other's negation. */
  lemma FoldRange(g: U64, h: U64)
    ensures Fold(h) == if h < 0x8000_0000_0000_0000 then h
                       else if h == 0x8000_0000_0000_0000 then -0x8000_0000_0000_0000
                       else 0x1_0000_0000_0000_0000 - h
    ensures Fold(g) == Fold(h) <==> g == h || g + h == TWO64
  {
  }

  // ------------------------------------------------------- key names

  function IntToString(n: int): string {
    if n < 0 then "-" + Decimal.ToString(-n) else Decimal.ToString(n)
  }

  function Zeros(n: nat): (s: string)
    ensures |s| == n && forall i :: 0 <= i < n ==> s[i] == '0'
  {
    seq(n, _ => '0')
  }

  function KeyName(value: int, zeroPadding: nat): string {
    var digits := IntToString(value);
    "user" + Zeros(if zeroPadding > |digits| then zeroPadding - |digits| else 0) + digits
  }

  /** The name of a key: the number itself, or its folded hash. */
  function NameOf(keynum: int, ordered: bool, zeroPadding: nat): string {
    KeyName(if ordered then keynum else Fold(RawHash(keynum)), zeroPadding)
  }

  method BuildYcsbKeyName(keynum: int, ordered: bool, zeroPadding: nat) returns (name: string)
    ensures name == NameOf(keynum, ordered, zeroPadding)
  {
    var num := keynum;
    if !ordered {
      num := YcsbHashKeynum(keynum);
    }
    var value := IntToString(num);
    var fill := if zeroPadding > |value| then zeroPadding - |value| else 0;
    name := "user" + Zeros(fill) + value;
  }

  /** The names of the first `n` key numbers. */
  function Names(n: nat, ordered: bool, zeroPadding: nat): (r: seq<string>)
    ensures |r| == n
  {
    if n == 0 then [] else Names(n - 1, ordered, zeroPadding) + [NameOf(n - 1, ordered, zeroPadding)]
  }

  /** As many keys as asked for, but no more than there are records. */
  function Cohort(count: int, recordCount: int): (n: nat)
    ensures n > 0 ==> n <= count && n <= recordCount && (n == count || n == recordCount)
    ensures n == 0 ==> count <= 0 || recordCount <= 0
  {
    if count <= 0 || recordCount <= 0 then 0 else if count < recordCount then count else recordCount
  }

  method VaptrKeyNames(count: int, recordCount: int, ordered: bool, zeroPadding: nat) returns (names: seq<string>)
    ensures names == Names(Cohort(count, recordCount), ordered, zeroPadding)
  {
    names := [];
    if count <= 0 {
      return;
    }
    var maxKeys := if count < recordCount then count else recordCount;
    if maxKeys > 0 {
      names := FirstNames(maxKeys, ordered, zeroPadding);
    }
  }

  method FirstNames(n: nat, ordered: bool, zeroPadding: nat) returns (names: seq<string>)
    ensures names == Names(n, ordered, zeroPadding)
  {
    names := [];
    for k := 0 to n
      invariant names == Names(k, ordered, zeroPadding)
    {
      var name := BuildYcsbKeyName(k, ordered, zeroPadding);
      names := names + [name];
    }
  }

  lemma {:induction false} LeadingZeros(n: nat, s: string)
    requires Decimal.AllDigits(s)
    ensures Decimal.AllDigits(Zeros(n) + s) && Decimal.ToNat(Zeros(n) + s) == Decimal.ToNat(s)
    decreases |s|
  {
    var whole := Zeros(n) + s;
    if |s| == 1 {
      assert whole[..|whole| - 1] == Zeros(n) && s[..0] == "";
      ZerosAreZero(n);
    } else {
      LeadingZeros(n, s[..|s| - 1]);
      assert whole[..|whole| - 1] == Zeros(n) + s[..|s| - 1];
    }
  }

  lemma {:induction false} ZerosAreZero(n: nat)
    ensures Decimal.ToNat(Zeros(n)) == 0
  {
    if n == 0 {
    } else {
      ZerosAreZero(n - 1);
      assert Zeros(n)[..n - 1] == Zeros(n - 1);
    }
  }

  /** The number can be read back from the padded name, whose length is that asked for or
      more. */
  lemma NameReadsBack(n: nat, zeroPadding: nat)
    ensures var name, digits := KeyName(n, zeroPadding), |Decimal.ToString(n)|;
            && name[..4] == "user" && Decimal.AllDigits(name[4..]) && Decimal.ToNat(name[4..]) == n
            && |name| == 4 + if digits > zeroPadding then digits else zeroPadding
  {
    var digits := Decimal.ToString(n);
    var fill := if zeroPadding > |digits| then zeroPadding - |digits| else 0;
    assert KeyName(n, zeroPadding) == "user" + (Zeros(fill) + digits);
    assert ("user" + (Zeros(fill) + digits))[4..] == Zeros(fill) + digits;
    LeadingZeros(fill, digits);
    Decimal.RoundTrip(n);
  }

  /** The names of the first keys are, in order, those of numbers 0, 1, 2 and so on: the
      number itself when inserted in order, else its folded hash. */
  lemma {:induction false} NamesAre(n: nat, ordered: bool, zeroPadding: nat, k: nat)
    requires k < n && (ordered || Fold(RawHash(k)) >= 0)
    ensures var name := Names(n, ordered, zeroPadding)[k];
            && |name| >= 4 && name[..4] == "user" && Decimal.AllDigits(name[4..])
            && Decimal.ToNat(name[4..]) == if ordered then k else Fold(RawHash(k))
  {
    if k == n - 1 {
      NameReadsBack(if ordered then k else Fold(RawHash(k)), zeroPadding);
    } else {
      NamesAre(n - 1, ordered, zeroPadding, k);
    }
  }

  /** Padding keeps key names apart: distinct numbers get distinct names. */
  lemma KeyNamesDistinct(m: nat, n: nat, zeroPadding: nat)
    requires KeyName(m, zeroPadding) == KeyName(n, zeroPadding)
    ensures m == n
  {
    NameReadsBack(m, zeroPadding);
    NameReadsBack(n, zeroPadding);
  }
}
