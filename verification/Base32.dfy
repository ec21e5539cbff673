/** The base32 encoder of legacy/v1/src/auth/crypto/totp-generator.ts, against section 6 of RFC 4648
    without padding. Its accumulator is a 32-bit integer that wraps around. */
module Base32 {
  const ALPHABET: string := "ABCDEFGHIJKLMNOPQRSTUVWXYZ234567"

  type Byte = b: int | 0 <= b < 256

  // ----- the standard: groups of five bits, most significant first -----

  /** The low `width` bits of `n`; of its two's complement, if `n` is negative. */
  function Bits(n: int, width: nat): (bits: seq<bool>)
    ensures |bits| == width
    decreases width, n
  {
    if width == 0 then [] else Bits(n / 2, width - 1) + [n % 2 == 1]
  }

  function Val(bits: seq<bool>): nat {
    if bits == [] then 0
    else 2 * Val(bits[..|bits| - 1]) + if bits[|bits| - 1] then 1 else 0
  }

  function BitString(bytes: seq<Byte>): (bits: seq<bool>)
    ensures |bits| == 8 * |bytes|
  {
    if bytes == [] then [] else BitString(bytes[..|bytes| - 1]) + Bits(bytes[|bytes| - 1], 8)
  }

  /** The last group is completed with zero bits on the right. */
  function Groups(bits: seq<bool>): seq<nat> {
    if bits == [] then []
    else if |bits| <= 5 then [Val(bits + Zeros(5 - |bits|))]
    else [Val(bits[..5])] + Groups(bits[5..])
  }

  function Zeros(n: nat): (z: seq<bool>)
    ensures |z| == n
  {
    seq(n, _ => false)
  }

  /** `A` to `Z`, then `2` to `7`. */
  function Symbol(n: nat): char {
    if n < 26 then 'A' + n as char else if n < 32 then '2' + (n - 26) as char else '='
  }

  /** The table of the source is that of the standard. */
  lemma SymbolIsTable(n: nat)
    requires n < 32
    ensures ALPHABET[n] == Symbol(n)
  {
  }

  function Symbols(groups: seq<nat>): (s: string)
    ensures |s| == |groups|
  {
    seq(|groups|, i requires 0 <= i < |groups| => Symbol(groups[i]))
  }

  function EncodedBits(bits: seq<bool>): string {
    Symbols(Groups(bits))
  }

  function Encoded(bytes: seq<Byte>): string {
    EncodedBits(BitString(bytes))
  }

  // ----- numbers and bits -----

  function Pow2(n: nat): (p: nat)
    ensures p > 0
  {
    if n == 0 then 1 else 2 * Pow2(n - 1)
  }

  lemma {:induction false} ValBound(bits: seq<bool>)
    ensures Val(bits) < Pow2(|bits|)
  {
    if bits != [] { ValBound(bits[..|bits| - 1]); }
  }

  lemma {:induction false} ValOfBits(n: nat, width: nat)
    requires n < Pow2(width)
    ensures Val(Bits(n, width)) == n
  {
    if width > 0 {
      ValOfBits(n / 2, width - 1);
      assert Bits(n, width)[..width - 1] == Bits(n / 2, width - 1);
    }
  }

  lemma {:induction false} BitsOfVal(bits: seq<bool>)
    ensures Bits(Val(bits), |bits|) == bits
  {
    if bits != [] {
      BitsOfVal(bits[..|bits| - 1]);
      assert Val(bits) / 2 == Val(bits[..|bits| - 1]);
    }
  }

  lemma Powers()
    ensures Pow2(0) == 1 && Pow2(5) == 32 && Pow2(8) == 256
  {
    assert Pow2(4) == 16;
    assert Pow2(7) == 128;
  }

  // ----- the 32-bit operators of the source -----

  /** Truncation to a signed 32-bit integer. */
  function Int32(n: int): int {
    var m := n % 0x1_0000_0000;
    if m < 0x8000_0000 then m else m - 0x1_0000_0000
  }

  function Doubled(n: int, k: nat): int
    decreases k, n
  {
    if k == 0 then n else Doubled(2 * n, k - 1)
  }

  function ShiftLeft(n: int, k: nat): int {
    Int32(Doubled(n, k))
  }

  /** The arithmetic shift, which rounds towards minus infinity. */
  function ShiftRight(n: int, k: nat): int
    decreases k, n
  {
    if k == 0 then n else ShiftRight(n / 2, k - 1)
  }

  /** `n | b`, for a two's complement `n` and a `b` of at most `k` bits. */
  function Or(n: int, b: nat, k: nat): int
    decreases k, n
  {
    if k == 0 then n else 2 * Or(n / 2, b / 2, k - 1) + if n % 2 == 1 || b % 2 == 1 then 1 else 0
  }

  /** `n & 31`, for a two's complement `n`. */
  function Low5(n: int): nat {
    n % 32
  }

  lemma {:induction false} HighBitsAreIgnored(n: int, w: int, j: nat, k: nat)
    requires k <= j
    ensures Bits(n + w * Pow2(j), k) == Bits(n, k)
    decreases k
  {
    if k > 0 {
      assert w * Pow2(j) == 2 * (w * Pow2(j - 1));
      assert (n + w * Pow2(j)) / 2 == n / 2 + w * Pow2(j - 1);
      HighBitsAreIgnored(n / 2, w, j - 1, k - 1);
    }
  }

  /** The wrap-around does not reach the bits that are still needed. */
  lemma Int32KeepsLowBits(n: int, k: nat)
    requires k <= 32
    ensures Bits(Int32(n), k) == Bits(n, k)
  {
    assert Pow2(32) == 0x1_0000_0000 by {
      Powers();
      assert Pow2(12) == 4096 && Pow2(16) == 65536 && Pow2(20) == 1048576 && Pow2(24) == 16777216;
      assert Pow2(28) == 268435456;
    }
    var w := if n % 0x1_0000_0000 < 0x8000_0000 then n / 0x1_0000_0000 else n / 0x1_0000_0000 + 1;
    assert n == Int32(n) + w * 0x1_0000_0000;
    HighBitsAreIgnored(Int32(n), w, 32, k);
  }

  lemma {:induction false} BitsOfDoubled(n: int, k: nat, width: nat)
    ensures Bits(Doubled(n, k), width + k) == Bits(n, width) + Zeros(k)
    decreases k
  {
    if k > 0 {
      BitsOfDoubled(2 * n, k - 1, width + 1);
      assert Bits(2 * n, width + 1) == Bits(n, width) + [false];
      assert Bits(n, width) + [false] + Zeros(k - 1) == Bits(n, width) + Zeros(k);
    } else {
      assert Bits(n, width) + Zeros(0) == Bits(n, width);
    }
  }

  /** Adding a number of `k` bits to one that ends in `k` zeros. */
  lemma {:induction false} BitsOfSum(n: int, b: nat, k: nat, width: nat)
    requires b < Pow2(k) && Bits(n, k) == Zeros(k)
    ensures Bits(n + b, width + k) == Bits(ShiftRight(n, k), width) + Bits(b, k)
    decreases k
  {
    if k > 0 {
      assert n % 2 == 0 by { assert Bits(n, k)[k - 1] == Zeros(k)[k - 1]; }
      assert Bits(n / 2, k - 1) == Zeros(k - 1) by { assert Bits(n, k)[..k - 1] == Zeros(k)[..k - 1]; }
      assert (n + b) / 2 == n / 2 + b / 2;
      BitsOfSum(n / 2, b / 2, k - 1, width);
      assert Bits(ShiftRight(n, k), width) + (Bits(b / 2, k - 1) + [b % 2 == 1])
          == Bits(ShiftRight(n, k), width) + Bits(b / 2, k - 1) + [b % 2 == 1];
    } else {
      assert Bits(n, width) + [] == Bits(n, width);
    }
  }

  /** Where the bits of `n` are zero, the bitwise or is the sum. */
  lemma {:induction false} OrIsSum(n: int, b: nat, k: nat)
    requires b < Pow2(k) && Bits(n, k) == Zeros(k)
    ensures Or(n, b, k) == n + b
    decreases k
  {
    if k > 0 {
      assert n % 2 == 0 by { assert Bits(n, k)[k - 1] == Zeros(k)[k - 1]; }
      assert Bits(n / 2, k - 1) == Zeros(k - 1) by { assert Bits(n, k)[..k - 1] == Zeros(k)[..k - 1]; }
      OrIsSum(n / 2, b / 2, k - 1);
    }
  }

  /** The top bits are those of the shifted number. */
  lemma {:induction false} BitsSplit(n: int, k: nat, width: nat)
    ensures Bits(n, width + k) == Bits(ShiftRight(n, k), width) + Bits(n, k)
    decreases k
  {
    if k > 0 {
      BitsSplit(n / 2, k - 1, width);
      assert Bits(ShiftRight(n, k), width) + (Bits(n / 2, k - 1) + [n % 2 == 1])
          == Bits(ShiftRight(n, k), width) + Bits(n / 2, k - 1) + [n % 2 == 1];
    } else {
      assert Bits(n, width) + [] == Bits(n, width);
    }
  }

  lemma LowIsVal(low: nat, high: int, k: nat)
    requires low < Pow2(k)
    ensures Val(Bits(low + high * Pow2(k), k)) == low
  {
    HighBitsAreIgnored(low, high, k, k);
    ValOfBits(low, k);
  }

  lemma Low5IsVal(n: int)
    ensures Low5(n) == Val(Bits(n, 5))
  {
    Powers();
    LowIsVal(n % 32, n / 32, 5);
  }

  // ----- the encoder -----

  lemma GroupsStep(bits: seq<bool>)
    requires |bits| >= 5
    ensures Groups(bits) == [Val(bits[..5])] + Groups(bits[5..])
  {
    if |bits| == 5 { assert bits + Zeros(0) == bits == bits[..5] && bits[5..] == []; }
  }

  lemma {:induction false} GroupsExtend(bits: seq<bool>, g: nat, more: seq<bool>)
    requires |bits| == 5 * g
    ensures Groups(bits + more) == Groups(bits) + Groups(more)
    decreases g
  {
    if g == 0 {
      assert bits + more == more;
    } else {
      assert (bits + more)[..5] == bits[..5];
      assert (bits + more)[5..] == bits[5..] + more;
      GroupsExtend(bits[5..], g - 1, more);
      GroupsStep(bits);
      GroupsStep(bits + more);
    }
  }

  /** What the accumulator stands for: its low bits are the bits `at` to `end`, not yet encoded. */
  predicate Holds(all: seq<bool>, buffer: int, at: nat, end: nat)
    requires at <= end <= |all|
    decreases end - at
  {
    at == end || ((buffer % 2 == 1) == all[end - 1] && Holds(all, buffer / 2, at, end - 1))
  }

  lemma {:induction false} HoldsIsBits(all: seq<bool>, buffer: int, at: nat, end: nat)
    requires at <= end <= |all|
    ensures Holds(all, buffer, at, end) <==> Bits(buffer, end - at) == all[at..end]
    decreases end - at
  {
    if at < end {
      HoldsIsBits(all, buffer / 2, at, end - 1);
      assert Bits(buffer, end - at) == Bits(buffer / 2, end - 1 - at) + [buffer % 2 == 1];
      assert all[at..end] == all[at..end - 1] + [all[end - 1]];
      assert Bits(buffer, end - at)[..end - 1 - at] == Bits(buffer / 2, end - 1 - at);
      assert all[at..end][..end - 1 - at] == all[at..end - 1];
    }
  }

  lemma BitsAfterShift(n: int, w: nat)
    requires w <= 4
    ensures Bits(ShiftLeft(n, 8), w + 8) == Bits(n, w) + Zeros(8)
    ensures Bits(ShiftLeft(n, 8), 8) == Zeros(8)
  {
    Int32KeepsLowBits(Doubled(n, 8), w + 8);
    Int32KeepsLowBits(Doubled(n, 8), 8);
    BitsOfDoubled(n, 8, w);
    BitsOfDoubled(n, 8, 0);
    assert Bits(n, 0) + Zeros(8) == Zeros(8);
  }

  lemma SameHalves(a: seq<bool>, b: seq<bool>, c: seq<bool>, d: seq<bool>)
    requires a + b == c + d && |a| == |c|
    ensures a == c && b == d
  {
    assert (a + b)[..|a|] == a && (c + d)[..|a|] == c;
    assert (a + b)[|a|..] == b && (c + d)[|a|..] == d;
  }

  lemma HighBits(m: int, n: int, k: nat, w: nat)
    requires Bits(m, w + k) == Bits(n, w) + Zeros(k)
    ensures Bits(ShiftRight(m, k), w) == Bits(n, w) && Bits(m, k) == Zeros(k)
  {
    BitsSplit(m, k, w);
    SameHalves(Bits(n, w), Zeros(k), Bits(ShiftRight(m, k), w), Bits(m, k));
  }

  lemma BitsAfterByte(n: int, w: nat, b: Byte)
    requires w <= 4
    ensures Bits(Or(ShiftLeft(n, 8), b, 8), w + 8) == Bits(n, w) + Bits(b, 8)
  {
    Powers();
    var m := ShiftLeft(n, 8);
    BitsAfterShift(n, w);
    HighBits(m, n, 8, w);
    BitsOfSum(m, b, 8, w);
    OrIsSum(m, b, 8);
  }

  lemma SymbolsAppend(groups: seq<nat>, more: seq<nat>)
    ensures Symbols(groups + more) == Symbols(groups) + Symbols(more)
  {
  }

  lemma OneGroup(five: seq<bool>)
    requires |five| == 5
    ensures Groups(five) == [Val(five)]
  {
    assert five + Zeros(0) == five;
  }

  lemma OneMore(done: seq<bool>, g: nat, five: seq<bool>)
    requires |done| == 5 * g && |five| == 5
    ensures EncodedBits(done + five) == EncodedBits(done) + [Symbol(Val(five))]
  {
    GroupsExtend(done, g, five);
    OneGroup(five);
    SymbolsAppend(Groups(done), [Val(five)]);
  }

  /** The symbols of the first `g` whole groups, built from the left. */
  function Prefix(all: seq<bool>, g: nat): string
    requires 5 * g <= |all|
    decreases g
  {
    if g == 0 then "" else Prefix(all, g - 1) + [Symbol(Val(all[5 * g - 5..5 * g]))]
  }

  lemma {:induction false} PrefixIsEncoded(all: seq<bool>, g: nat)
    requires 5 * g <= |all|
    ensures Prefix(all, g) == EncodedBits(all[..5 * g])
    decreases g
  {
    if g > 0 {
      var at := 5 * g - 5;
      PrefixIsEncoded(all, g - 1);
      OneMore(all[..at], g - 1, all[at..5 * g]);
      assert all[..5 * g] == all[..at] + all[at..5 * g];
    } else {
      assert all[..0] == [];
    }
  }

  /** One turn of the inner loop: `g` groups are encoded, the bits after them up to `end` are held. */
  lemma GroupMoves(all: seq<bool>, buffer: int, g: nat, left: nat, end: nat)
    requires left >= 5 && 5 * g + left == end <= |all| && Holds(all, buffer, 5 * g, end)
    ensures Prefix(all, g + 1) == Prefix(all, g) + [Symbol(Low5(ShiftRight(buffer, left - 5)))]
    ensures Holds(all, buffer, 5 * g + 5, end)
  {
    var at := 5 * g;
    var k := left - 5;
    HoldsIsBits(all, buffer, at, end);
    HoldsIsBits(all, buffer, at + 5, end);
    BitsSplit(buffer, k, 5);
    SliceSplit(all, at, at + 5, end, Bits(ShiftRight(buffer, k), 5), Bits(buffer, k));
    Low5IsVal(ShiftRight(buffer, k));
  }

  lemma SliceSplit(all: seq<bool>, i: nat, j: nat, k: nat, a: seq<bool>, b: seq<bool>)
    requires i <= j <= k <= |all| && |a| == j - i && all[i..k] == a + b
    ensures all[i..j] == a && all[j..k] == b
  {
    assert all[i..j] == all[i..k][..j - i] && all[j..k] == all[i..k][j - i..];
  }

  lemma {:induction false} ByteAt(bytes: seq<Byte>, i: nat)
    requires i < |bytes|
    ensures BitString(bytes)[8 * i..8 * i + 8] == Bits(bytes[i], 8)
    decreases |bytes|
  {
    var n := |bytes| - 1;
    var before := BitString(bytes[..n]);
    assert BitString(bytes) == before + Bits(bytes[n], 8);
    if i < n {
      ByteAt(bytes[..n], i);
      assert BitString(bytes)[8 * i..8 * i + 8] == before[8 * i..8 * i + 8];
    } else {
      assert (before + Bits(bytes[n], 8))[|before|..|before| + 8] == Bits(bytes[n], 8);
    }
  }

  lemma HoldsMore(all: seq<bool>, buffer: int, next: int, at: nat, mid: nat, end: nat)
    requires at <= mid <= end <= |all| && Holds(all, buffer, at, mid)
    requires Bits(next, end - at) == Bits(buffer, mid - at) + all[mid..end]
    ensures Holds(all, next, at, end)
  {
    HoldsIsBits(all, buffer, at, mid);
    assert all[at..end] == all[at..mid] + all[mid..end];
    HoldsIsBits(all, next, at, end);
  }

  /** One turn of the outer loop, before groups are taken. */
  lemma ByteArrives(bytes: seq<Byte>, i: nat, buffer: int, at: nat)
    requires i < |bytes| && at <= 8 * i <= at + 4
    requires Holds(BitString(bytes), buffer, at, 8 * i)
    ensures Holds(BitString(bytes), Or(ShiftLeft(buffer, 8), bytes[i], 8), at, 8 * i + 8)
  {
    ByteAt(bytes, i);
    BitsAfterByte(buffer, 8 * i - at, bytes[i]);
    HoldsMore(BitString(bytes), buffer, Or(ShiftLeft(buffer, 8), bytes[i], 8), at, 8 * i, 8 * i + 8);
  }

  /** The last symbol: the bits that are left, moved up to the top of a group of five. */
  lemma LastValue(all: seq<bool>, buffer: int, at: nat, left: nat)
    requires 0 < left <= 4 && at + left == |all| && Holds(all, buffer, at, |all|)
    ensures Low5(ShiftLeft(buffer, 5 - left)) == Val(all[at..|all|] + Zeros(5 - left))
  {
    var k := 5 - left;
    HoldsIsBits(all, buffer, at, |all|);
    BitsOfDoubled(buffer, k, left);
    Int32KeepsLowBits(Doubled(buffer, k), 5);
    Low5IsVal(ShiftLeft(buffer, k));
  }

  lemma ShortGroup(done: seq<bool>, g: nat, rest: seq<bool>)
    requires |done| == 5 * g && 0 < |rest| <= 4
    ensures EncodedBits(done + rest) == EncodedBits(done) + [Symbol(Val(rest + Zeros(5 - |rest|)))]
  {
    GroupsExtend(done, g, rest);
    SymbolsAppend(Groups(done), Groups(rest));
  }

  lemma LastGroup(all: seq<bool>, buffer: int, g: nat, left: nat)
    requires 0 < left <= 4 && 5 * g + left == |all| && Holds(all, buffer, 5 * g, |all|)
    ensures EncodedBits(all) == Prefix(all, g) + [Symbol(Low5(ShiftLeft(buffer, 5 - left)))]
  {
    LastValue(all, buffer, 5 * g, left);
    PrefixIsEncoded(all, g);
    ShortGroup(all[..5 * g], g, all[5 * g..|all|]);
    assert all == all[..5 * g] + all[5 * g..|all|];
  }

  lemma NoLastGroup(all: seq<bool>, g: nat)
    requires 5 * g == |all|
    ensures EncodedBits(all) == Prefix(all, g)
  {
    PrefixIsEncoded(all, g);
    assert all[..|all|] == all;
  }

  /** The inner loop: whole groups leave from the top of the held bits. */
  method TakeGroups(ghost all: seq<bool>, ghost g: nat, ghost end: nat, buffer: int, bits: nat, done: string)
    returns (result: string, bitsLeft: nat, ghost h: nat)
    requires 5 * g + bits == end <= |all| && done == Prefix(all, g) && Holds(all, buffer, 5 * g, end)
    ensures 5 * h + bitsLeft == end && bitsLeft <= 4
    ensures result == Prefix(all, h) && Holds(all, buffer, 5 * h, end)
  {
    result, bitsLeft, h := done, bits, g;
    while bitsLeft >= 5
      invariant 5 * h + bitsLeft == end
      invariant result == Prefix(all, h) && Holds(all, buffer, 5 * h, end)
      decreases bitsLeft
    {
      GroupMoves(all, buffer, h, bitsLeft, end);
      result := result + [Symbol(Low5(ShiftRight(buffer, bitsLeft - 5)))];
      bitsLeft := bitsLeft - 5;
      h := h + 1;
    }
  }

  /** Whatever the length of the input, and although `buffer` wraps around at 32 bits, the result is
      the base32 form of the standard. */
  method BytesToBase32(bytes: seq<Byte>) returns (result: string)
    ensures result == Encoded(bytes)
  {
    result := "";
    var buffer: int := 0;
    var bitsLeft: nat := 0;
    ghost var all, g: nat := BitString(bytes), 0;
    for i := 0 to |bytes|
      invariant 5 * g + bitsLeft == 8 * i && bitsLeft <= 4
      invariant result == Prefix(all, g)
      invariant Holds(all, buffer, 5 * g, 8 * i)
    {
      ByteArrives(bytes, i, buffer, 5 * g);
      buffer := Or(ShiftLeft(buffer, 8), bytes[i], 8);
      bitsLeft := bitsLeft + 8;
      result, bitsLeft, g := TakeGroups(all, g, 8 * i + 8, buffer, bitsLeft, result);
    }
    if bitsLeft > 0 {
      LastGroup(all, buffer, g, bitsLeft);
      result := result + [Symbol(Low5(ShiftLeft(buffer, 5 - bitsLeft)))];
    } else {
      NoLastGroup(all, g);
    }
  }

  // ----- decoding -----

  function IndexOf(c: char): nat {
    if 'A' <= c <= 'Z' then (c - 'A') as nat
    else if '2' <= c <= '7' then 26 + (c - '2') as nat
    else 32
  }

  /** The bits of all symbols in order. */
  function SymbolBits(s: string): (bits: seq<bool>)
    ensures |bits| == 5 * |s|
  {
    if s == "" then [] else Bits(IndexOf(s[0]), 5) + SymbolBits(s[1..])
  }

  /** Whole bytes only: the bits that complete the last group are dropped. */
  function Decoded(s: string): seq<Byte> {
    BytesOf(SymbolBits(s)[..5 * |s| / 8 * 8])
  }

  function BytesOf(bits: seq<bool>): seq<Byte>
    requires |bits| % 8 == 0
    decreases |bits|
  {
    if bits == [] then []
    else
      ValBound(bits[|bits| - 8..]);
      Powers();
      BytesOf(bits[..|bits| - 8]) + [Val(bits[|bits| - 8..])]
  }

  lemma IndexOfSymbol(n: nat)
    requires n < 32
    ensures IndexOf(Symbol(n)) == n
  {
  }

  lemma GroupBits(bits: seq<bool>)
    requires |bits| == 5
    ensures Val(bits) < 32 && Bits(IndexOf(Symbol(Val(bits))), 5) == bits
  {
    ValBound(bits);
    Powers();
    IndexOfSymbol(Val(bits));
    BitsOfVal(bits);
  }

  /** The symbols of a bit string stand for it, completed to a multiple of five bits. */
  lemma {:induction false} SymbolsStandForBits(bits: seq<bool>) returns (pad: nat)
    ensures SymbolBits(Symbols(Groups(bits))) == bits + Zeros(pad)
    ensures pad < 5 && 5 * |Groups(bits)| == |bits| + pad
    decreases |bits|
  {
    if bits == [] {
      pad := 0;
    } else if |bits| <= 5 {
      pad := 5 - |bits|;
      GroupBits(bits + Zeros(pad));
      var s := Symbols(Groups(bits));
      assert SymbolBits(s[1..]) == [];
    } else {
      pad := SymbolsStandForBits(bits[5..]);
      GroupBits(bits[..5]);
      var s := Symbols(Groups(bits));
      assert s[1..] == Symbols(Groups(bits[5..]));
      assert bits[..5] + (bits[5..] + Zeros(pad)) == bits + Zeros(pad);
    }
  }

  lemma BytesOfStep(bits: seq<bool>, last: seq<bool>, b: Byte)
    requires |bits| % 8 == 0 && |last| == 8 && Val(last) == b
    ensures BytesOf(bits + last) == BytesOf(bits) + [b]
  {
    assert (bits + last)[..|bits|] == bits && (bits + last)[|bits|..] == last;
  }

  lemma BytesOfMore(bits: seq<bool>, b: Byte)
    requires |bits| % 8 == 0
    ensures BytesOf(bits + Bits(b, 8)) == BytesOf(bits) + [b]
  {
    Powers();
    ValOfBits(b, 8);
    BytesOfStep(bits, Bits(b, 8), b);
  }

  lemma BytesOfLast(bytes: seq<Byte>, rest: seq<Byte>, b: Byte)
    requires bytes == rest + [b] && BytesOf(BitString(rest)) == rest
    ensures BytesOf(BitString(bytes)) == bytes
  {
    assert bytes[..|bytes| - 1] == rest;
    BytesOfMore(BitString(rest), b);
  }

  lemma {:induction false} BytesOfBitString(bytes: seq<Byte>)
    ensures BytesOf(BitString(bytes)) == bytes
    decreases |bytes|
  {
    if bytes == [] {
      assert BitString(bytes) == [] && BytesOf([]) == [];
    } else {
      var rest, b := bytes[..|bytes| - 1], bytes[|bytes| - 1];
      assert bytes == rest + [b];
      BytesOfBitString(rest);
      BytesOfLast(bytes, rest, b);
    }
  }

  /** Decoding gives the bytes back, and the length is the number of groups: ceil(8n / 5). */
  lemma DecodeInverts(bytes: seq<Byte>)
    ensures Decoded(Encoded(bytes)) == bytes
    ensures |Encoded(bytes)| == (8 * |bytes| + 4) / 5
  {
    var bits := BitString(bytes);
    var pad := SymbolsStandForBits(bits);
    WholeBytes(|bytes|, pad);
    TakePadded(bits, pad);
    BytesOfBitString(bytes);
  }

  lemma WholeBytes(n: nat, pad: nat)
    requires pad < 5
    ensures (8 * n + pad) / 8 * 8 == 8 * n
    ensures (8 * n + pad) % 5 == 0 ==> (8 * n + pad) / 5 == (8 * n + 4) / 5
  {
  }

  lemma TakePadded(bits: seq<bool>, pad: nat)
    ensures (bits + Zeros(pad))[..|bits|] == bits
  {
  }

  /** Different inputs have different encodings. */
  lemma EncodedIsInjective(a: seq<Byte>, b: seq<Byte>)
    ensures Encoded(a) == Encoded(b) ==> a == b
  {
    DecodeInverts(a);
    DecodeInverts(b);
  }

  // ----- the encoding as a number -----

  /** The bytes as the digits of a number in base 256. */
  function Number(bytes: seq<Byte>): nat {
    if bytes == [] then 0 else 256 * Number(bytes[..|bytes| - 1]) + bytes[|bytes| - 1]
  }

  /** The symbols as the digits of a number in base 32. */
  function Value(s: string): nat {
    if s == "" then 0 else 32 * Value(s[..|s| - 1]) + IndexOf(s[|s| - 1])
  }

  predicate InAlphabet(s: string) {
    forall i | 0 <= i < |s| :: IndexOf(s[i]) < 32 && ALPHABET[IndexOf(s[i])] == s[i]
  }

  lemma {:induction false} ValOfSum(a: seq<bool>, b: seq<bool>)
    ensures Val(a + b) == Val(a) * Pow2(|b|) + Val(b)
    decreases |b|
  {
    if b == [] {
      assert a + b == a;
    } else {
      var rest := b[..|b| - 1];
      ValOfSum(a, rest);
      assert (a + b)[..|a + b| - 1] == a + rest;
      assert Val(a) * Pow2(|b|) == 2 * (Val(a) * Pow2(|rest|));
    }
  }

  lemma {:induction false} ValOfZeros(n: nat)
    ensures Val(Zeros(n)) == 0
  {
    if n > 0 {
      ValOfZeros(n - 1);
      assert Zeros(n)[..n - 1] == Zeros(n - 1);
    }
  }

  /** One more digit. */
  lemma ValOfDigit(a: seq<bool>, n: nat, k: nat)
    requires n < Pow2(k)
    ensures Val(a + Bits(n, k)) == Val(a) * Pow2(k) + n
  {
    ValOfBits(n, k);
    ValOfSum(a, Bits(n, k));
  }

  lemma ValOfByte(a: seq<bool>, b: Byte)
    ensures Val(a + Bits(b, 8)) == 256 * Val(a) + b
  {
    Powers();
    ValOfDigit(a, b, 8);
  }

  lemma {:induction false} NumberIsVal(bytes: seq<Byte>)
    ensures Val(BitString(bytes)) == Number(bytes)
  {
    if bytes != [] {
      var n := |bytes| - 1;
      NumberIsVal(bytes[..n]);
      ValOfByte(BitString(bytes[..n]), bytes[n]);
    }
  }

  lemma SymbolBitsStep(s: string, rest: string)
    requires s != "" && s == [s[0]] + rest
    ensures SymbolBits(s) == Bits(IndexOf(s[0]), 5) + SymbolBits(rest)
  {
    assert s[1..] == rest;
  }

  lemma {:induction false} SymbolBitsAppend(s: string, c: char)
    ensures SymbolBits(s + [c]) == SymbolBits(s) + Bits(IndexOf(c), 5)
  {
    if s == "" {
      assert [c][1..] == "" && Bits(IndexOf(c), 5) + [] == Bits(IndexOf(c), 5);
    } else {
      SymbolBitsAppend(s[1..], c);
      SymbolBitsStep(s + [c], s[1..] + [c]);
      assert SymbolBits(s + [c]) == Bits(IndexOf(s[0]), 5) + SymbolBits(s[1..]) + Bits(IndexOf(c), 5);
    }
  }

  lemma {:induction false} ValueIsVal(s: string)
    requires InAlphabet(s)
    ensures Val(SymbolBits(s)) == Value(s)
    decreases |s|
  {
    if s != "" {
      var rest, c := s[..|s| - 1], s[|s| - 1];
      ValueIsVal(rest);
      SymbolBitsAppend(rest, c);
      assert s == rest + [c];
      Powers();
      ValOfDigit(SymbolBits(rest), IndexOf(c), 5);
    }
  }

  lemma {:induction false} GroupsAreSmall(bits: seq<bool>)
    ensures forall g | g in Groups(bits) :: g < 32
    decreases |bits|
  {
    Powers();
    if 0 < |bits| <= 5 {
      ValBound(bits + Zeros(5 - |bits|));
    } else if |bits| > 5 {
      ValBound(bits[..5]);
      GroupsAreSmall(bits[5..]);
    }
  }

  lemma EncodedIsInAlphabet(bytes: seq<Byte>)
    ensures InAlphabet(Encoded(bytes))
  {
    var groups := Groups(BitString(bytes));
    GroupsAreSmall(BitString(bytes));
    forall i | 0 <= i < |groups|
      ensures IndexOf(Encoded(bytes)[i]) < 32 && ALPHABET[IndexOf(Encoded(bytes)[i])] == Encoded(bytes)[i]
    {
      assert groups[i] in groups;
      IndexOfSymbol(groups[i]);
      SymbolIsTable(groups[i]);
    }
  }

  lemma PaddedValue(bytes: seq<Byte>, s: string, pad: nat)
    requires InAlphabet(s) && SymbolBits(s) == BitString(bytes) + Zeros(pad)
    ensures Value(s) == Number(bytes) * Pow2(pad)
  {
    ValueIsVal(s);
    NumberIsVal(bytes);
    ValOfSum(BitString(bytes), Zeros(pad));
    ValOfZeros(pad);
  }

  /** The bytes, read as one number and multiplied by the power of two that makes the length a multiple
      of five bits, written in base 32 with the symbols of the alphabet: by the length and the value
      the encoding is determined. */
  lemma EncodedIsTheNumber(bytes: seq<Byte>)
    ensures InAlphabet(Encoded(bytes)) && |Encoded(bytes)| == (8 * |bytes| + 4) / 5
    ensures Value(Encoded(bytes)) == Number(bytes) * Pow2(5 * |Encoded(bytes)| - 8 * |bytes|)
  {
    var pad := SymbolsStandForBits(BitString(bytes));
    assert pad == 5 * |Encoded(bytes)| - 8 * |bytes|;
    DecodeInverts(bytes);
    EncodedIsInAlphabet(bytes);
    PaddedValue(bytes, Encoded(bytes), pad);
  }

  lemma DigitsAreUnique(a: nat, b: nat, c: nat, d: nat)
    requires 32 * a + c == 32 * b + d && c < 32 && d < 32
    ensures a == b && c == d
  {
  }

  /** A string of the alphabet is determined by its length and its value. */
  lemma {:induction false} ValueIsUnique(a: string, b: string)
    requires InAlphabet(a) && InAlphabet(b) && |a| == |b| && Value(a) == Value(b)
    ensures a == b
    decreases |a|
  {
    if a != "" {
      var n := |a| - 1;
      DigitsAreUnique(Value(a[..n]), Value(b[..n]), IndexOf(a[n]), IndexOf(b[n]));
      ValueIsUnique(a[..n], b[..n]);
      assert a == a[..n] + [a[n]] && b == b[..n] + [b[n]];
    }
  }
}
