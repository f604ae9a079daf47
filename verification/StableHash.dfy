/**
 * The FNV-1a hash behind the emitted slice names
 * (statum-macros/src/machine/introspection.rs, statum-macros/src/transition/emit.rs).
 */
module StableHash {
  import opened Common
  import opened Text

  const TWO_64: int := 0x1_0000_0000_0000_0000

  /** An unsigned 64-bit number. */
  type U64 = n: int | 0 <= n < 0x1_0000_0000_0000_0000

  type Byte = n: int | 0 <= n < 256

  const OFFSET_BASIS: U64 := 0xcbf29ce484222325
  const PRIME: U64 := 0x100000001b3
  /** The inverse of the prime modulo 2^64; it exists because the prime is odd. */
  const PRIME_INVERSE: U64 := 0xce965057aff6957b

  function Power2(bits: nat): nat {
    if bits == 0 then 1 else 2 * Power2(bits - 1)
  }

  /** Bitwise exclusive or. */
  function Xor(a: nat, b: nat): nat
    decreases a + b
  {
    if a == 0 then b
    else if b == 0 then a
    else 2 * Xor(a / 2, b / 2) + if a % 2 == b % 2 then 0 else 1
  }

  lemma {:induction false} XorFits(a: nat, b: nat, bits: nat)
    requires a < Power2(bits) && b < Power2(bits)
    ensures Xor(a, b) < Power2(bits)
  {
    if a == 0 || b == 0 {
    } else {
      XorFits(a / 2, b / 2, bits - 1);
    }
  }

  lemma EightBitsMore(bits: nat)
    ensures Power2(bits + 8) == 256 * Power2(bits)
  {
    assert Power2(bits + 4) == 2 * Power2(bits + 3) && Power2(bits + 8) == 2 * Power2(bits + 7);
    assert Power2(bits + 3) == 2 * Power2(bits + 2) && Power2(bits + 7) == 2 * Power2(bits + 6);
    assert Power2(bits + 2) == 2 * Power2(bits + 1) && Power2(bits + 6) == 2 * Power2(bits + 5);
    assert Power2(bits + 5) == 2 * Power2(bits + 4);
  }

  lemma SixtyFourBits()
    ensures Power2(64) == TWO_64
  {
    EightBitsMore(0);
    EightBitsMore(8);
    EightBitsMore(16);
    EightBitsMore(24);
    EightBitsMore(32);
    EightBitsMore(40);
    EightBitsMore(48);
    EightBitsMore(56);
  }

  function XorU64(a: U64, b: U64): U64 {
    SixtyFourBits();
    XorFits(a, b, 64);
    Xor(a, b)
  }

  function WrappingMul(a: U64, b: U64): U64 {
    a * b % TWO_64
  }

  /** One round: the byte goes into the low bits, then a wrapping multiplication by the prime. */
  function Step(hash: U64, byte: Byte): U64 {
    WrappingMul(XorU64(hash, byte), PRIME)
  }

  /** The state that one round with `byte` takes to `hash`. */
  function Unstep(hash: U64, byte: Byte): U64 {
    XorU64(WrappingMul(hash, PRIME_INVERSE), byte)
  }

  /** Rounds over the bytes from the first to the last. */
  function Fold<H>(round: (H, Byte) -> H, state: H, bytes: seq<Byte>): H {
    if bytes == [] then state else round(Fold(round, state, bytes[..|bytes| - 1]), bytes[|bytes| - 1])
  }

  /** Rounds over the bytes from the last to the first. */
  function FoldBack<H>(round: (H, Byte) -> H, state: H, bytes: seq<Byte>): H {
    if bytes == [] then state else FoldBack(round, round(state, bytes[|bytes| - 1]), bytes[..|bytes| - 1])
  }

  const ROUND: (U64, Byte) -> U64 := (hash: U64, byte: Byte) => Step(hash, byte)

  const BACK_ROUND: (U64, Byte) -> U64 := (hash: U64, byte: Byte) => Unstep(hash, byte)

  function HashFrom(hash: U64, bytes: seq<Byte>): U64 {
    Fold(ROUND, hash, bytes)
  }

  function Unhash(hash: U64, bytes: seq<Byte>): U64 {
    FoldBack(BACK_ROUND, hash, bytes)
  }

  function Hash(bytes: seq<Byte>): U64 {
    HashFrom(OFFSET_BASIS, bytes)
  }

  /** The byte loop. */
  method ComputeHash(input: seq<Byte>) returns (hash: U64)
    ensures hash == Hash(input)
  {
    hash := OFFSET_BASIS;
    for i := 0 to |input|
      invariant hash == HashFrom(OFFSET_BASIS, input[..i])
    {
      assert input[..i + 1][..i] == input[..i];
      hash := XorU64(hash, input[i]);
      hash := WrappingMul(hash, PRIME);
    }
    assert input[..|input|] == input;
  }

  // ---- The published FNV-1a values ----

  /** Binary digit `i` of the number, from the lowest one. */
  function Bit(n: nat, i: nat): nat {
    if i == 0 then n % 2 else Bit(n / 2, i - 1)
  }

  /** A bit is set exactly where the two numbers differ. */
  lemma {:induction false} XorBits(a: nat, b: nat, i: nat)
    ensures Bit(Xor(a, b), i) == if Bit(a, i) == Bit(b, i) then 0 else 1
    decreases i
  {
    if a == 0 || b == 0 {
      BitIsBinary(0, i);
      BitIsBinary(a, i);
      BitIsBinary(b, i);
    } else if i > 0 {
      XorBits(a / 2, b / 2, i - 1);
      assert Xor(a, b) / 2 == Xor(a / 2, b / 2);
    }
  }

  lemma {:induction false} BitIsBinary(n: nat, i: nat)
    ensures Bit(n, i) <= 1 && Bit(0, i) == 0
    decreases i
  {
    if i > 0 {
      BitIsBinary(n / 2, i - 1);
    }
  }

  lemma HashOneMore(bytes: seq<Byte>, byte: Byte)
    ensures Hash(bytes + [byte]) == Step(Hash(bytes), byte)
  {
    assert (bytes + [byte])[..|bytes|] == bytes;
  }

  /** A number without its lowest bits is left alone by what fits into them. */
  lemma {:induction false} XorLow(high: nat, a: nat, b: nat, bits: nat)
    requires a < Power2(bits) && b < Power2(bits)
    ensures Xor(Power2(bits) * high + a, b) == Power2(bits) * high + Xor(a, b)
    decreases bits
  {
    if bits == 0 || b == 0 {
    } else {
      var half := Power2(bits - 1) * high;
      assert Power2(bits) * high == 2 * half;
      XorLow(high, a / 2, b / 2, bits - 1);
      assert (2 * half + a) / 2 == half + a / 2 && (2 * half + a) % 2 == a % 2;
    }
  }

  lemma MixesLow(high: nat, low: Byte, byte: Byte)
    ensures Xor(256 * high + low, byte) == 256 * high + Xor(low, byte)
  {
    EightBitsMore(0);
    XorLow(high, low, byte, 8);
  }

  /** One round, given the number without its low byte, both low bytes and how often the product wraps around. */
  lemma StepIs(hash: U64, byte: Byte, high: nat, low: Byte, mixed: Byte, turns: nat, next: U64)
    requires hash == 256 * high + low && Xor(low, byte) == mixed
    requires (256 * high + mixed) * 0x100000001b3 == turns * 0x1_0000_0000_0000_0000 + next
    ensures Step(hash, byte) == next
  {
    MixesLow(high, low, byte);
    RemainderIs(next, turns);
  }

  lemma LowBytes()
    ensures Xor(37, 97) == 68 && Xor(37, 102) == 67 && Xor(217, 111) == 182
  {
    assert Xor(1, 3) == 2 && Xor(2, 6) == 4 && Xor(4, 12) == 8 && Xor(9, 24) == 17;
    assert Xor(18, 48) == 34 && Xor(37, 97) == 68;
    assert Xor(1, 3) == 2 && Xor(2, 6) == 4 && Xor(4, 12) == 8 && Xor(9, 25) == 16;
    assert Xor(18, 51) == 33 && Xor(37, 102) == 67;
    assert Xor(3, 1) == 2 && Xor(6, 3) == 5 && Xor(13, 6) == 11 && Xor(27, 13) == 22;
    assert Xor(54, 27) == 45 && Xor(108, 55) == 91 && Xor(217, 111) == 182;
  }

  lemma RoundOfA()
    ensures Step(0xcbf29ce484222325, 97) == 0xaf63dc4c8601ec8c
  {
    LowBytes();
    StepIs(0xcbf29ce484222325, 97, 0xcbf29ce4842223, 37, 68, 0xcbf29ce5de, 0xaf63dc4c8601ec8c);
  }

  lemma RoundOfF()
    ensures Step(0xcbf29ce484222325, 102) == 0xaf63db4c8601ead9
  {
    LowBytes();
    StepIs(0xcbf29ce484222325, 102, 0xcbf29ce4842223, 37, 67, 0xcbf29ce5de, 0xaf63db4c8601ead9);
  }

  lemma RoundOfO()
    ensures Step(0xaf63db4c8601ead9, 111) == 0x08985907b541d342
  {
    LowBytes();
    StepIs(0xaf63db4c8601ead9, 111, 0xaf63db4c8601ea, 217, 182, 0xaf63db4db0, 0x08985907b541d342);
  }

  /** The published values for the empty text, "a", "f" and "fo". */
  lemma PublishedValues()
    ensures Hash([]) == 0xcbf29ce484222325
    ensures Hash([97]) == 0xaf63dc4c8601ec8c
    ensures Hash([102]) == 0xaf63db4c8601ead9
    ensures Hash([102, 111]) == 0x08985907b541d342
  {
    HashOneMore([], 97);
    assert [] + [97 as Byte] == [97];
    HashOneMore([], 102);
    assert [] + [102 as Byte] == [102];
    HashOneMore([102], 111);
    assert [102] + [111 as Byte] == [102, 111];
    RoundOfA();
    RoundOfF();
    RoundOfO();
  }

  // ---- Each round is a bijection on the 64-bit states ----

  lemma RemainderIs(x: U64, turns: int)
    ensures (x + turns * TWO_64) % TWO_64 == x
  {
  }

  lemma TimesInverse(x: U64)
    ensures WrappingMul(WrappingMul(x, PRIME), PRIME_INVERSE) == x
    ensures WrappingMul(WrappingMul(x, PRIME_INVERSE), PRIME) == x
  {
    var excess := (PRIME * PRIME_INVERSE - 1) / TWO_64;
    assert PRIME * PRIME_INVERSE == 1 + excess * TWO_64;
    Undo(x, PRIME, PRIME_INVERSE, excess);
    Undo(x, PRIME_INVERSE, PRIME, excess);
  }

  lemma Undo(x: U64, factor: U64, inverse: U64, excess: int)
    requires factor * inverse == 1 + excess * TWO_64
    ensures WrappingMul(WrappingMul(x, factor), inverse) == x
  {
    var turns := x * factor / TWO_64;
    var product := WrappingMul(x, factor);
    assert product == x * factor - turns * TWO_64;
    calc {
      product * inverse;
      (x * factor - turns * TWO_64) * inverse;
      x * (factor * inverse) - turns * inverse * TWO_64;
      x * (1 + excess * TWO_64) - turns * inverse * TWO_64;
      x + (x * excess - turns * inverse) * TWO_64;
    }
    RemainderIs(x, x * excess - turns * inverse);
  }

  lemma {:induction false} XorHalves(a: nat, b: nat)
    ensures Xor(a, b) / 2 == Xor(a / 2, b / 2) && (Xor(a, b) % 2 == 0 <==> a % 2 == b % 2)
  {
    if a == 0 || b == 0 {
      assert a / 2 == 0 || b / 2 == 0;
    }
  }

  lemma {:induction false} XorTwice(a: nat, b: nat)
    ensures Xor(Xor(a, b), b) == a
    decreases a + b
  {
    if b == 0 {
    } else if a == 0 {
      XorSelf(b);
    } else {
      XorHalves(a, b);
      XorHalves(Xor(a, b), b);
      XorTwice(a / 2, b / 2);
    }
  }

  lemma {:induction false} XorSelf(a: nat)
    ensures Xor(a, a) == 0
  {
    if a == 0 {
    } else {
      XorSelf(a / 2);
    }
  }

  lemma {:induction false} XorTellsApart(n: nat, a: nat, b: nat)
    requires Xor(n, a) == Xor(n, b)
    ensures a == b
    decreases a + b
  {
    if a == 0 && b == 0 {
    } else {
      XorHalves(n, a);
      XorHalves(n, b);
      XorTellsApart(n / 2, a / 2, b / 2);
    }
  }

  lemma StepIsBijection(hash: U64, byte: Byte)
    ensures Unstep(Step(hash, byte), byte) == hash
    ensures Step(Unstep(hash, byte), byte) == hash
  {
    TimesInverse(XorU64(hash, byte));
    XorTwice(hash, byte);
    XorTwice(WrappingMul(hash, PRIME_INVERSE), byte);
    TimesInverse(hash);
  }

  ghost predicate Undoes<H(!new)>(back: (H, Byte) -> H, round: (H, Byte) -> H) {
    forall state, byte :: back(round(state, byte), byte) == state
  }

  lemma {:induction false} FoldUndone<H(!new)>(round: (H, Byte) -> H, back: (H, Byte) -> H, state: H, bytes: seq<Byte>)
    requires Undoes(back, round)
    ensures FoldBack(back, Fold(round, state, bytes), bytes) == state
  {
    if bytes == [] {
    } else {
      FoldUndone(round, back, state, bytes[..|bytes| - 1]);
    }
  }

  lemma {:induction false} FoldRedone<H(!new)>(round: (H, Byte) -> H, back: (H, Byte) -> H, state: H, bytes: seq<Byte>)
    requires Undoes(round, back)
    ensures Fold(round, FoldBack(back, state, bytes), bytes) == state
  {
    if bytes == [] {
    } else {
      FoldRedone(round, back, back(state, bytes[|bytes| - 1]), bytes[..|bytes| - 1]);
    }
  }

  lemma RoundsUndo()
    ensures Undoes(BACK_ROUND, ROUND) && Undoes(ROUND, BACK_ROUND)
  {
    forall hash: U64, byte: Byte ensures Unstep(Step(hash, byte), byte) == hash && Step(Unstep(hash, byte), byte) == hash {
      StepIsBijection(hash, byte);
    }
  }

  /** So hashing any fixed bytes permutes the states. */
  lemma HashIsBijection(hash: U64, bytes: seq<Byte>)
    ensures Unhash(HashFrom(hash, bytes), bytes) == hash
    ensures HashFrom(Unhash(hash, bytes), bytes) == hash
  {
    RoundsUndo();
    FoldUndone(ROUND, BACK_ROUND, hash, bytes);
    FoldRedone(ROUND, BACK_ROUND, hash, bytes);
  }

  /** From one state, different bytes lead to different states. */
  lemma StepTellsBytesApart(hash: U64, a: Byte, b: Byte)
    ensures Step(hash, a) == Step(hash, b) <==> a == b
  {
    if Step(hash, a) == Step(hash, b) {
      TimesInverse(XorU64(hash, a));
      TimesInverse(XorU64(hash, b));
      XorTellsApart(hash, a, b);
    }
  }

  lemma {:induction false} FoldSplits<H>(round: (H, Byte) -> H, state: H, a: seq<Byte>, b: seq<Byte>)
    ensures Fold(round, state, a + b) == Fold(round, Fold(round, state, a), b)
  {
    if b == [] {
      assert a + b == a;
    } else {
      assert (a + b)[..|a + b| - 1] == a + b[..|b| - 1];
      FoldSplits(round, state, a, b[..|b| - 1]);
    }
  }

  lemma HashSplits(hash: U64, a: seq<Byte>, b: seq<Byte>)
    ensures HashFrom(hash, a + b) == HashFrom(HashFrom(hash, a), b)
  {
    FoldSplits(ROUND, hash, a, b);
  }

  /** A common ending neither creates nor removes a collision. */
  lemma CommonEndingIsIrrelevant(a: seq<Byte>, b: seq<Byte>, ending: seq<Byte>)
    ensures Hash(a + ending) == Hash(b + ending) <==> Hash(a) == Hash(b)
  {
    HashSplits(OFFSET_BASIS, a, ending);
    HashSplits(OFFSET_BASIS, b, ending);
    HashIsBijection(Hash(a), ending);
    HashIsBijection(Hash(b), ending);
  }

  ghost predicate DifferOnlyAt(a: seq<Byte>, b: seq<Byte>, i: nat) {
    |a| == |b| && i < |a| && a[i] != b[i] && forall j :: 0 <= j < |a| && j != i ==> a[j] == b[j]
  }

  /** Two keys of equal length that differ in exactly one byte never collide. */
  lemma OneByteNeverCollides(a: seq<Byte>, b: seq<Byte>, i: nat)
    requires DifferOnlyAt(a, b, i)
    ensures Hash(a) != Hash(b)
  {
    var start, ending := a[..i], a[i + 1..];
    assert a == start + [a[i]] + ending;
    assert b == start + [b[i]] + ending;
    CommonEndingIsIrrelevant(start + [a[i]], start + [b[i]], ending);
    assert (start + [a[i]])[..i] == start && (start + [b[i]])[..i] == start;
    StepTellsBytesApart(Hash(start), a[i], b[i]);
  }

  // ---- Identifiers ----

  /** The last `width` hexadecimal digits of `n`, zeros in front. */
  function Hex(n: nat, width: nat): (r: string)
    ensures |r| == width
    decreases width
  {
    if width == 0 then "" else Hex(n / 16, width - 1) + [DIGITS[n % 16]]
  }

  function Power16(width: nat): (r: nat)
    ensures r > 0
  {
    if width == 0 then 1 else 16 * Power16(width - 1)
  }

  lemma {:induction false} HexInjective(a: nat, b: nat, width: nat)
    requires a < Power16(width) && b < Power16(width)
    requires Hex(a, width) == Hex(b, width)
    ensures a == b
    decreases width
  {
    if width == 0 {
    } else {
      var x, y := Hex(a, width), Hex(b, width);
      assert x[..width - 1] == Hex(a / 16, width - 1) && y[..width - 1] == Hex(b / 16, width - 1);
      assert x[width - 1] == DIGITS[a % 16] && y[width - 1] == DIGITS[b % 16];
      DigitsDiffer(a % 16, b % 16);
      HexInjective(a / 16, b / 16, width - 1);
    }
  }

  predicate IsAscii(s: string) {
    forall c :: c in s ==> c as int < 128
  }

  function AsciiByte(c: char): Byte {
    if c as int < 128 then c as int else 0
  }

  /** The bytes of a text of ASCII characters. */
  function Ascii(s: string): (r: seq<Byte>)
    requires IsAscii(s)
    ensures |r| == |s| && forall i :: 0 <= i < |s| ==> r[i] == AsciiByte(s[i])
  {
    Map(c => AsciiByte(c), s)
  }

  lemma NumeralIsAscii(n: nat)
    ensures IsAscii(Numeral(n, false))
  {
    forall c | c in Numeral(n, false) ensures c as int < 128 {
      assert c in DIGITS;
    }
  }

  /** A number written in decimal, as bytes. */
  function Digits(n: nat): seq<Byte> {
    NumeralIsAscii(n);
    Ascii(Numeral(n, false))
  }

  const COLONS: seq<Byte> := [0x3A, 0x3A]

  /** "::presentation::" */
  const PRESENTATION: seq<Byte> :=
    COLONS + [0x70, 0x72, 0x65, 0x73, 0x65, 0x6E, 0x74, 0x61, 0x74, 0x69, 0x6F, 0x6E] + COLONS

  function FileOrEmpty(file: Option<seq<Byte>>): seq<Byte> {
    match file case Some(path) => path case None => []
  }

  function TransitionKey(machine: seq<Byte>, file: Option<seq<Byte>>, line: nat): seq<Byte> {
    machine + COLONS + FileOrEmpty(file) + COLONS + Digits(line)
  }

  function PresentationKey(machine: seq<Byte>, file: Option<seq<Byte>>, line: nat): seq<Byte> {
    machine + PRESENTATION + FileOrEmpty(file) + COLONS + Digits(line)
  }

  function TransitionSlice(machine: seq<Byte>, file: Option<seq<Byte>>, line: nat): string {
    "__statum_transitions_" + Hex(Hash(TransitionKey(machine, file, line)), 16)
  }

  function PresentationSlice(machine: seq<Byte>, file: Option<seq<Byte>>, line: nat): string {
    "__statum_transition_presentation_" + Hex(Hash(PresentationKey(machine, file, line)), 16)
  }

  /** What a transition site's suffix is hashed from: everything before and after the index of the method. */
  function SiteKey(before: seq<Byte>, index: nat, after: seq<Byte>): seq<Byte> {
    before + Digits(index) + after
  }

  /** The unique suffix of transition method `index` of a machine and source state. */
  function SiteSuffix(
    machine: seq<Byte>, source: seq<Byte>, methodName: seq<Byte>, index: nat, attributes: seq<Byte>, returnType: seq<Byte>): string
  {
    Hex(Hash(SiteKey(machine + COLONS + source + COLONS + methodName + COLONS, index,
                     COLONS + attributes + COLONS + returnType)), 16)
  }

  lemma SixteenDigits()
    ensures Power16(16) == TWO_64
  {
    assert Power16(4) == 65536;
    assert Power16(8) == 65536 * Power16(4);
    assert Power16(12) == 65536 * Power16(8);
    assert Power16(16) == 65536 * Power16(12);
  }

  /** The sixteen digits say exactly which hash it is. */
  lemma HexFollowsHash(a: U64, b: U64)
    ensures Hex(a, 16) == Hex(b, 16) <==> a == b
  {
    if Hex(a, 16) == Hex(b, 16) {
      SixteenDigits();
      HexInjective(a, b, 16);
    }
  }

  lemma DropPrefix(prefix: string, a: string, b: string)
    ensures prefix + a == prefix + b <==> a == b
  {
    assert (prefix + a)[|prefix|..] == a && (prefix + b)[|prefix|..] == b;
  }

  /** Numbers that differ only in their last decimal digit are written with one byte of difference. */
  lemma DigitsDifferOnce(a: nat, b: nat)
    requires a != b && a / 10 == b / 10
    ensures DifferOnlyAt(Digits(a), Digits(b), |Digits(a)| - 1)
  {
    var x, y := Numeral(a, false), Numeral(b, false);
    LastDigit(a, false);
    LastDigit(b, false);
    var n := |x| - 1;
    assert |x| == |y| && forall j :: 0 <= j < n ==> x[j] == y[j];
    assert DIGITS[a % 10] != DIGITS[b % 10] by {
      if DIGITS[a % 10] == DIGITS[b % 10] { DigitsDiffer(a % 10, b % 10); }
    }
    assert x[n] in x && y[n] in y && IsAscii(x) && IsAscii(y) by {
      NumeralIsAscii(a);
      NumeralIsAscii(b);
    }
  }

  lemma KeysDifferOnce(before: seq<Byte>, a: nat, b: nat, after: seq<Byte>)
    requires a != b && a / 10 == b / 10
    ensures Hash(SiteKey(before, a, after)) != Hash(SiteKey(before, b, after))
  {
    DigitsDifferOnce(a, b);
    var i := |before| + |Digits(a)| - 1;
    assert DifferOnlyAt(SiteKey(before, a, after), SiteKey(before, b, after), i);
    OneByteNeverCollides(SiteKey(before, a, after), SiteKey(before, b, after), i);
  }

  /** Equal-length keys that differ in one byte name different slices. */
  lemma OneByteNamesApart(
    machine1: seq<Byte>, file1: Option<seq<Byte>>, line1: nat, machine2: seq<Byte>, file2: Option<seq<Byte>>, line2: nat, i: nat)
    ensures DifferOnlyAt(TransitionKey(machine1, file1, line1), TransitionKey(machine2, file2, line2), i) ==>
              TransitionSlice(machine1, file1, line1) != TransitionSlice(machine2, file2, line2)
    ensures DifferOnlyAt(PresentationKey(machine1, file1, line1), PresentationKey(machine2, file2, line2), i) ==>
              PresentationSlice(machine1, file1, line1) != PresentationSlice(machine2, file2, line2)
  {
    var t1, t2 := TransitionKey(machine1, file1, line1), TransitionKey(machine2, file2, line2);
    var p1, p2 := PresentationKey(machine1, file1, line1), PresentationKey(machine2, file2, line2);
    if DifferOnlyAt(t1, t2, i) { OneByteNeverCollides(t1, t2, i); }
    if DifferOnlyAt(p1, p2, i) { OneByteNeverCollides(p1, p2, i); }
    HexFollowsHash(Hash(t1), Hash(t2));
    HexFollowsHash(Hash(p1), Hash(p2));
    DropPrefix("__statum_transitions_", Hex(Hash(t1), 16), Hex(Hash(t2), 16));
    DropPrefix("__statum_transition_presentation_", Hex(Hash(p1), 16), Hex(Hash(p2), 16));
  }

  /** Two lines of one file in the same group of ten give a machine different slices of both kinds. */
  lemma NearbyLinesNamedApart(machine: seq<Byte>, file: Option<seq<Byte>>, line1: nat, line2: nat)
    requires line1 != line2 && line1 / 10 == line2 / 10
    ensures TransitionSlice(machine, file, line1) != TransitionSlice(machine, file, line2)
    ensures PresentationSlice(machine, file, line1) != PresentationSlice(machine, file, line2)
  {
    DigitsDifferOnce(line1, line2);
    var t := |machine + COLONS + FileOrEmpty(file) + COLONS| + |Digits(line1)| - 1;
    var p := |machine + PRESENTATION + FileOrEmpty(file) + COLONS| + |Digits(line1)| - 1;
    assert DifferOnlyAt(TransitionKey(machine, file, line1), TransitionKey(machine, file, line2), t);
    assert DifferOnlyAt(PresentationKey(machine, file, line1), PresentationKey(machine, file, line2), p);
    OneByteNamesApart(machine, file, line1, machine, file, line2, t);
    OneByteNamesApart(machine, file, line1, machine, file, line2, p);
  }

  /** A transition slice is never named like a presentation slice. */
  lemma KindsNamedApart(
    machine1: seq<Byte>, file1: Option<seq<Byte>>, line1: nat, machine2: seq<Byte>, file2: Option<seq<Byte>>, line2: nat)
    ensures TransitionSlice(machine1, file1, line1) != PresentationSlice(machine2, file2, line2)
  {
    assert |"__statum_transitions_"| == 21 && |"__statum_transition_presentation_"| == 33;
  }

  /** Overloads that differ only in an index of the same group of ten have different suffixes. */
  lemma NearbySitesNamedApart(
    machine: seq<Byte>, source: seq<Byte>, methodName: seq<Byte>, i: nat, j: nat, attributes: seq<Byte>, returnType: seq<Byte>)
    requires i != j && i / 10 == j / 10
    ensures SiteSuffix(machine, source, methodName, i, attributes, returnType)
         != SiteSuffix(machine, source, methodName, j, attributes, returnType)
  {
    var before, after := machine + COLONS + source + COLONS + methodName + COLONS, COLONS + attributes + COLONS + returnType;
    KeysDifferOnce(before, i, j, after);
    HexFollowsHash(Hash(SiteKey(before, i, after)), Hash(SiteKey(before, j, after)));
  }
}
