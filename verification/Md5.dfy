/**
  The MD5 program of `src/md5.h`: a padded copy of the message, a loop over its 64-byte
  chunks, and for each chunk a loop of 64 steps in which the four registers change places.
  It is proved to compute `Rfc1321.Digest`.
 */
module Md5 {
  import opened Rfc1321

  const SHIFTS: seq<nat> := SHIFTS_1 + SHIFTS_2 + SHIFTS_3 + SHIFTS_4
  const SHIFTS_1: seq<nat> := [7, 12, 17, 22, 7, 12, 17, 22, 7, 12, 17, 22, 7, 12, 17, 22]
  const SHIFTS_2: seq<nat> := [5, 9, 14, 20, 5, 9, 14, 20, 5, 9, 14, 20, 5, 9, 14, 20]
  const SHIFTS_3: seq<nat> := [4, 11, 16, 23, 4, 11, 16, 23, 4, 11, 16, 23, 4, 11, 16, 23]
  const SHIFTS_4: seq<nat> := [6, 10, 15, 21, 6, 10, 15, 21, 6, 10, 15, 21, 6, 10, 15, 21]

  // ----- rotation -----

  /** The LEFTROTATE macro. */
  function LeftRotate(x: Word, c: nat): Word
    requires c <= 32
  {
    (x << c) | (x >> (32 - c))
  }

  predicate ShiftAmount(c: nat) {
    c in {7, 12, 17, 22} || c in {5, 9, 14, 20} || c in {4, 11, 16, 23} || c in {6, 10, 15, 21}
  }

  lemma LeftRotateIsRotation(x: Word, c: nat)
    requires ShiftAmount(c)
    ensures LeftRotate(x, c) == Rotate(x, c)
  {
    RotationRound1(x);
    RotationRound2(x);
    RotationRound3(x);
    RotationRound4(x);
  }

  lemma RotationRound1(x: Word)
    ensures forall c | c in {7, 12, 17, 22} :: LeftRotate(x, c) == Rotate(x, c)
  {
    assert LeftRotate(x, 7) == Rotate(x, 7) && LeftRotate(x, 12) == Rotate(x, 12);
    assert LeftRotate(x, 17) == Rotate(x, 17) && LeftRotate(x, 22) == Rotate(x, 22);
  }

  lemma RotationRound2(x: Word)
    ensures forall c | c in {5, 9, 14, 20} :: LeftRotate(x, c) == Rotate(x, c)
  {
    assert LeftRotate(x, 5) == Rotate(x, 5) && LeftRotate(x, 9) == Rotate(x, 9);
    assert LeftRotate(x, 14) == Rotate(x, 14) && LeftRotate(x, 20) == Rotate(x, 20);
  }

  lemma RotationRound3(x: Word)
    ensures forall c | c in {4, 11, 16, 23} :: LeftRotate(x, c) == Rotate(x, c)
  {
    assert LeftRotate(x, 4) == Rotate(x, 4) && LeftRotate(x, 11) == Rotate(x, 11);
    assert LeftRotate(x, 16) == Rotate(x, 16) && LeftRotate(x, 23) == Rotate(x, 23);
  }

  lemma RotationRound4(x: Word)
    ensures forall c | c in {6, 10, 15, 21} :: LeftRotate(x, c) == Rotate(x, c)
  {
    assert LeftRotate(x, 6) == Rotate(x, 6) && LeftRotate(x, 10) == Rotate(x, 10);
    assert LeftRotate(x, 15) == Rotate(x, 15) && LeftRotate(x, 21) == Rotate(x, 21);
  }

  // ----- one step of the main loop -----

  function Mix(i: nat, b: Word, c: Word, d: Word): Word {
    if i < 16 then (b & c) | (!b & d)
    else if i < 32 then (d & b) | (!d & c)
    else if i < 48 then b ^ c ^ d
    else c ^ (b | !d)
  }

  function WordChoice(i: nat): (g: nat)
    requires i < 64
    ensures g < 16
  {
    if i < 16 then i
    else if i < 32 then (5 * i + 1) % 16
    else if i < 48 then (3 * i + 5) % 16
    else (7 * i) % 16
  }

  lemma MixIsAux(i: nat, b: Word, c: Word, d: Word)
    requires i < 64
    ensures Mix(i, b, c, d) == Aux(i / 16, b, c, d)
  {
    MixRound2(b, c, d);
    if i < 16 {
      assert i / 16 == 0;
    } else if i < 32 {
      assert i / 16 == 1;
    } else if i < 48 {
      assert i / 16 == 2;
    } else {
      assert i / 16 == 3;
    }
  }

  lemma MixRound2(b: Word, c: Word, d: Word)
    ensures (d & b) | (!d & c) == G(b, c, d)
  {
  }

  lemma WordChoiceIsWordIndex(i: nat)
    requires i < 64
    ensures WordChoice(i) == WordIndex(i)
  {
    WordIndexBound(i);
    WordOrderRound(i / 16, i % 16);
  }

  lemma WordOrderRound(round: nat, j: nat)
    requires round < 4 && j < 16
    ensures |WORD_ORDER[round]| == 16 && WORD_ORDER[round][j] == WordChoice(16 * round + j)
  {
    match round {
      case 0 => assert WORD_ORDER[0][j] == j;
      case 1 => WordOrderRound2(j);
      case 2 => WordOrderRound3(j);
      case _ => WordOrderRound4(j);
    }
  }

  lemma WordOrderRound2(j: nat)
    requires j < 16
    ensures |WORD_ORDER[1]| == 16 && WORD_ORDER[1][j] == (5 * (16 + j) + 1) % 16
  {
  }

  lemma WordOrderRound3(j: nat)
    requires j < 16
    ensures |WORD_ORDER[2]| == 16 && WORD_ORDER[2][j] == (3 * (32 + j) + 5) % 16
  {
  }

  lemma WordOrderRound4(j: nat)
    requires j < 16
    ensures |WORD_ORDER[3]| == 16 && WORD_ORDER[3][j] == (7 * (48 + j)) % 16
  {
  }

  lemma ShiftsOfRound1(j: nat)
    requires j < 16
    ensures |SHIFTS_1| == 16 && SHIFTS_1[j] == [7, 12, 17, 22][j % 4]
  {
  }

  lemma ShiftsOfRound2(j: nat)
    requires j < 16
    ensures |SHIFTS_2| == 16 && SHIFTS_2[j] == [5, 9, 14, 20][j % 4]
  {
  }

  lemma ShiftsOfRound3(j: nat)
    requires j < 16
    ensures |SHIFTS_3| == 16 && SHIFTS_3[j] == [4, 11, 16, 23][j % 4]
  {
  }

  lemma ShiftsOfRound4(j: nat)
    requires j < 16
    ensures |SHIFTS_4| == 16 && SHIFTS_4[j] == [6, 10, 15, 21][j % 4]
  {
  }

  lemma AmountsOfRounds(m: nat)
    requires m < 4
    ensures |AMOUNTS| == 4
    ensures AMOUNTS[0] == [7, 12, 17, 22] && AMOUNTS[1] == [5, 9, 14, 20]
    ensures AMOUNTS[2] == [4, 11, 16, 23] && AMOUNTS[3] == [6, 10, 15, 21]
    ensures ShiftAmount(AMOUNTS[0][m]) && ShiftAmount(AMOUNTS[1][m])
    ensures ShiftAmount(AMOUNTS[2][m]) && ShiftAmount(AMOUNTS[3][m])
  {
  }

  lemma ShiftRows(i: nat)
    requires i < 64
    ensures |SHIFTS| == 64 && |SHIFTS_1| == |SHIFTS_2| == |SHIFTS_3| == |SHIFTS_4| == 16
    ensures SHIFTS[i] == if i < 16 then SHIFTS_1[i] else if i < 32 then SHIFTS_2[i - 16]
                         else if i < 48 then SHIFTS_3[i - 32] else SHIFTS_4[i - 48]
  {
  }

  function Shift(i: nat): (s: nat)
    requires i < 64
    ensures s < 32
  {
    ShiftsAreAmounts(i);
    SHIFTS[i]
  }

  lemma ShiftsAreAmounts(i: nat)
    requires i < 64
    ensures |SHIFTS| == 64 && SHIFTS[i] == Amount(i) && ShiftAmount(SHIFTS[i])
  {
    hide ShiftAmount, Amount;
    if i < 16 {
      AmountsOfRound1(i);
    } else if i < 32 {
      AmountsOfRound2(i);
    } else if i < 48 {
      AmountsOfRound3(i);
    } else {
      AmountsOfRound4(i);
    }
  }

  lemma AmountsOfRound1(i: nat)
    requires i < 16
    ensures |SHIFTS| == 64 && SHIFTS[i] == Amount(i) && ShiftAmount(SHIFTS[i])
  {
    hide ShiftAmount, SHIFTS, SHIFTS_1, SHIFTS_2, SHIFTS_3, SHIFTS_4, AMOUNTS;
    ShiftRows(i);
    AmountsOfRounds(i % 4);
    ShiftsOfRound1(i);
  }

  lemma AmountsOfRound2(i: nat)
    requires 16 <= i < 32
    ensures |SHIFTS| == 64 && SHIFTS[i] == Amount(i) && ShiftAmount(SHIFTS[i])
  {
    hide ShiftAmount, SHIFTS, SHIFTS_1, SHIFTS_2, SHIFTS_3, SHIFTS_4, AMOUNTS;
    ShiftRows(i);
    AmountsOfRounds(i % 4);
    ShiftsOfRound2(i - 16);
    assert (i - 16) % 4 == i % 4;
  }

  lemma AmountsOfRound3(i: nat)
    requires 32 <= i < 48
    ensures |SHIFTS| == 64 && SHIFTS[i] == Amount(i) && ShiftAmount(SHIFTS[i])
  {
    hide ShiftAmount, SHIFTS, SHIFTS_1, SHIFTS_2, SHIFTS_3, SHIFTS_4, AMOUNTS;
    ShiftRows(i);
    AmountsOfRounds(i % 4);
    ShiftsOfRound3(i - 32);
    assert (i - 32) % 4 == i % 4;
  }

  lemma AmountsOfRound4(i: nat)
    requires 48 <= i < 64
    ensures |SHIFTS| == 64 && SHIFTS[i] == Amount(i) && ShiftAmount(SHIFTS[i])
  {
    hide ShiftAmount, SHIFTS, SHIFTS_1, SHIFTS_2, SHIFTS_3, SHIFTS_4, AMOUNTS;
    ShiftRows(i);
    AmountsOfRounds(i % 4);
    ShiftsOfRound4(i - 48);
    assert (i - 48) % 4 == i % 4;
  }

  /** What one pass through the loop body does to (a, b, c, d). */
  function RotatingStep(i: nat, r: Registers, w: seq<Word>): Registers
    requires i < 64 && |w| == 16
  {
    Registers(r.d,
              Add(r.b, LeftRotate(Add4(r.a, Mix(i, r.b, r.c, r.d), TableEntry(i), w[WordChoice(i)]), Shift(i))),
              r.b, r.c)
  }

  /** The named registers of RFC 1321 as the loop variables (a, b, c, d) hold them after `i` steps. */
  function Rotated(i: nat, r: Registers): Registers {
    match i % 4
    case 0 => r
    case 1 => Registers(r.d, r.a, r.b, r.c)
    case 2 => Registers(r.c, r.d, r.a, r.b)
    case _ => Registers(r.b, r.c, r.d, r.a)
  }

  /** Moving the values round and keeping the roles fixed is the same as keeping the values
      in place and moving the roles round. */
  lemma StepIsOperation(i: nat, r: Registers, w: seq<Word>)
    requires i < 64 && |w| == 16
    ensures RotatingStep(i, Rotated(i, r), w) == Rotated(i + 1, Operation(i, r, w))
  {
    StepComputesNewValue(i, Rotated(i, r), w);
    RolesMove(i, r, w);
  }

  lemma RolesMove(i: nat, r: Registers, w: seq<Word>)
    requires i < 64 && |w| == 16
    ensures var q := Rotated(i, r);
            Rotated(i + 1, Operation(i, r, w)) == Registers(q.d, NewValue(i, q.a, q.b, q.c, q.d, w), q.b, q.c)
  {
    hide NewValue, Rotated, Operation;
    if i % 4 == 0 {
      RolesMove0(i, r, w);
    } else if i % 4 == 1 {
      RolesMove1(i, r, w);
    } else if i % 4 == 2 {
      RolesMove2(i, r, w);
    } else {
      RolesMove3(i, r, w);
    }
  }

  lemma RolesMove0(i: nat, r: Registers, w: seq<Word>)
    requires i < 64 && |w| == 16 && i % 4 == 0
    ensures var q := Rotated(i, r);
            Rotated(i + 1, Operation(i, r, w)) == Registers(q.d, NewValue(i, q.a, q.b, q.c, q.d, w), q.b, q.c)
  {
    hide NewValue;
    NextRemainder(i);
  }

  lemma RolesMove1(i: nat, r: Registers, w: seq<Word>)
    requires i < 64 && |w| == 16 && i % 4 == 1
    ensures var q := Rotated(i, r);
            Rotated(i + 1, Operation(i, r, w)) == Registers(q.d, NewValue(i, q.a, q.b, q.c, q.d, w), q.b, q.c)
  {
    hide NewValue;
    NextRemainder(i);
  }

  lemma RolesMove2(i: nat, r: Registers, w: seq<Word>)
    requires i < 64 && |w| == 16 && i % 4 == 2
    ensures var q := Rotated(i, r);
            Rotated(i + 1, Operation(i, r, w)) == Registers(q.d, NewValue(i, q.a, q.b, q.c, q.d, w), q.b, q.c)
  {
    hide NewValue;
    NextRemainder(i);
  }

  lemma RolesMove3(i: nat, r: Registers, w: seq<Word>)
    requires i < 64 && |w| == 16 && i % 4 == 3
    ensures var q := Rotated(i, r);
            Rotated(i + 1, Operation(i, r, w)) == Registers(q.d, NewValue(i, q.a, q.b, q.c, q.d, w), q.b, q.c)
  {
    hide NewValue;
    NextRemainder(i);
  }

  lemma NextRemainder(i: nat)
    ensures (i + 1) % 4 == if i % 4 == 3 then 0 else i % 4 + 1
  {
  }

  lemma StepComputesNewValue(i: nat, r: Registers, w: seq<Word>)
    requires i < 64 && |w| == 16
    ensures RotatingStep(i, r, w) == Registers(r.d, NewValue(i, r.a, r.b, r.c, r.d, w), r.b, r.c)
  {
    hide Add, Add4, Mix, Aux, LeftRotate, Rotate, WordChoice, WordIndex, TableEntry, Shift, Amount;
    MixIsAux(i, r.b, r.c, r.d);
    WordChoiceIsWordIndex(i);
    ShiftIsAmount(i);
    var mix, entry, word := Mix(i, r.b, r.c, r.d), TableEntry(i), w[WordChoice(i)];
    SumOrder(r.a, mix, entry, word);
    LeftRotateIsRotation(Add4(r.a, mix, entry, word), Shift(i));
  }

  lemma ShiftIsAmount(i: nat)
    requires i < 64
    ensures Shift(i) == Amount(i) && ShiftAmount(Shift(i))
  {
    hide Amount, ShiftAmount;
    ShiftsAreAmounts(i);
  }

  lemma SumOrder(x: Word, y: Word, z: Word, u: Word)
    ensures Add4(x, y, z, u) == Add4(x, y, u, z)
  {
  }

  /** The main loop of `md5` over one chunk. */
  method MainLoop(w: array<Word>, a0: Word, b0: Word, c0: Word, d0: Word)
    returns (a: Word, b: Word, c: Word, d: Word)
    requires w.Length == 16
    ensures Registers(a, b, c, d) == Operations(64, Registers(a0, b0, c0, d0), w[..])
  {
    hide Add, Add4, Operation, Mix, WordChoice, LeftRotate, Shift, TableEntry;
    a, b, c, d := a0, b0, c0, d0;
    ghost var start, words := Registers(a0, b0, c0, d0), w[..];
    var i := 0;
    while i < 64
      invariant 0 <= i <= 64
      invariant Registers(a, b, c, d) == Rotated(i, Operations(i, start, words))
    {
      StepIsOperation(i, Operations(i, start, words), words);
      var f, g := Mix(i, b, c, d), WordChoice(i);
      var temp := d;
      d := c;
      c := b;
      b := Add(b, LeftRotate(Add4(a, f, TableEntry(i), w[g]), Shift(i)));
      a := temp;
      i := i + 1;
    }
  }

  // ----- the padded copy -----

  /** A number that fits in 32 bits, as a word. */
  function Uint32(n: nat): Word
    requires n < TWO_32
  {
    BytesWord(Digits(n))
  }

  /** `to_bytes((uint32_t)length * 8, ..)`: the product wraps. */
  function LowLengthWord(length: nat): (n: nat)
    ensures n < TWO_32
  {
    length % TWO_32 * 8 % TWO_32
  }

  /** `to_bytes((uint32_t)length >> 29, ..)`: the cast comes first, so three bits at most remain. */
  function HighLengthWord(length: nat): (n: nat)
    ensures n < TWO_32
  {
    length % TWO_32 / 0x2000_0000
  }

  function CodedLengthBytes(length: nat): seq<Byte> {
    WordBytes(Uint32(LowLengthWord(length))) + WordBytes(Uint32(HighLengthWord(length)))
  }

  function CodedText(message: seq<Byte>): (text: seq<Byte>)
    ensures |text| % 64 == 0
    ensures |text| == |message| + 9 + Zeros(|message|)
  {
    WholeBlocks(|message|, Zeros(|message|));
    message + [0x80] + seq(Zeros(|message|), _ => 0) + CodedLengthBytes(|message|)
  }

  /** The two length words are those of RFC 1321 exactly for these lengths: among the lengths
      below 2^61 bytes, the ones below 2^32. */
  predicate LengthFits(length: nat) {
    length % 0x2000_0000_0000_0000 < TWO_32
  }

  lemma LengthBytesExact(length: nat)
    ensures CodedLengthBytes(length) == LengthBytes(8 * length) <==> LengthFits(length)
  {
    var low, high := LowLengthWord(length), HighLengthWord(length);
    BytesRoundTrip(Digits(low));
    BytesRoundTrip(Digits(high));
    LowWordAgrees(length);
    HighWordAgrees(length);
    var rfcHigh := 8 * length / TWO_32 % TWO_32;
    assert CodedLengthBytes(length)[4..] == Digits(high);
    assert LengthBytes(8 * length)[4..] == Digits(rfcHigh);
    DigitsRoundTrip(high);
    DigitsRoundTrip(rfcHigh);
  }

  lemma LowWordAgrees(length: nat)
    ensures LowLengthWord(length) == 8 * length % TWO_32
  {
    var q, r := length / TWO_32, length % TWO_32;
    assert 8 * length == TWO_32 * (8 * q) + 8 * r;
  }

  lemma HighWordAgrees(length: nat)
    ensures HighLengthWord(length) == 8 * length / TWO_32 % TWO_32 <==> LengthFits(length)
  {
    var q := length / 0x2000_0000;
    TopBits(length);
    QuotientOfMultiple(length);
    hide HighLengthWord, LengthFits;
    SmallRemainder(q);
  }

  lemma QuotientOfMultiple(length: nat)
    ensures 8 * length / TWO_32 == length / 0x2000_0000
  {
  }

  /** Both sides in terms of the bits from 29 upwards. */
  lemma TopBits(length: nat)
    ensures HighLengthWord(length) == length / 0x2000_0000 % 8
    ensures LengthFits(length) <==> length / 0x2000_0000 % TWO_32 < 8
  {
    var q, r := length / 0x2000_0000, length % 0x2000_0000;
    assert length == 0x2000_0000 * q + r;
    LowerDigits(q, r, 8);
    LowerDigits(q, r, TWO_32);
  }

  lemma LowerDigits(q: nat, r: nat, m: nat)
    requires r < 0x2000_0000 && (m == 8 || m == TWO_32)
    ensures (0x2000_0000 * q + r) % (0x2000_0000 * m) == 0x2000_0000 * (q % m) + r
  {
    assert q == m * (q / m) + q % m;
  }

  lemma SmallRemainder(q: nat)
    ensures q % 8 == q % TWO_32 <==> q % TWO_32 < 8
  {
    assert q == TWO_32 * (q / TWO_32) + q % TWO_32;
  }

  lemma CodedTextExact(message: seq<Byte>)
    ensures CodedText(message) == Padded(message) <==> LengthFits(|message|)
  {
    LengthBytesExact(|message|);
    var front := message + [0x80] + seq(Zeros(|message|), _ => 0);
    assert CodedText(message) == front + CodedLengthBytes(|message|);
    assert Padded(message) == front + LengthBytes(8 * |message|);
    assert CodedText(message)[|front|..] == CodedLengthBytes(|message|);
    assert Padded(message)[|front|..] == LengthBytes(8 * |message|);
  }

  method ToBytes(val: Word, bytes: array<Byte>, at: nat)
    requires at + 4 <= bytes.Length
    modifies bytes
    ensures bytes[..] == old(bytes[..at]) + WordBytes(val) + old(bytes[at + 4..])
  {
    bytes[at] := (val & 0xff) as Byte;
    bytes[at + 1] := ((val >> 8) & 0xff) as Byte;
    bytes[at + 2] := ((val >> 16) & 0xff) as Byte;
    bytes[at + 3] := ((val >> 24) & 0xff) as Byte;
  }

  method PadMessage(message: array<Byte>, length: nat) returns (msg: array<Byte>, newLen: nat)
    requires length <= message.Length
    ensures fresh(msg) && msg[..] == CodedText(message[..length])
    ensures newLen + 8 == msg.Length && newLen % 64 == 56
  {
    hide CodedLengthBytes;
    newLen := length + 1;
    while newLen % 64 != 56
      invariant length + 1 <= newLen <= length + 1 + Zeros(length)
      decreases length + 1 + Zeros(length) - newLen
    {
      newLen := newLen + 1;
    }
    NearestPadding(length, newLen);

    msg := new Byte[newLen + 8];
    forall k | 0 <= k < length { msg[k] := message[k]; }
    msg[length] := 0x80;
    var offset := length + 1;
    while offset < newLen
      invariant length + 1 <= offset <= newLen
      invariant msg[..length] == message[..length] && msg[length] == 0x80
      invariant forall k | length < k < offset :: msg[k] == 0
    {
      msg[offset] := 0;
      offset := offset + 1;
    }
    ghost var front := message[..length] + [0x80] + seq(Zeros(length), _ => 0);
    assert msg[..newLen] == front;
    AppendLength(msg, newLen, length);
  }

  /** The length in bits, at the end of the buffer. */
  method AppendLength(msg: array<Byte>, newLen: nat, length: nat)
    requires msg.Length == newLen + 8
    modifies msg
    ensures msg[..] == old(msg[..newLen]) + CodedLengthBytes(length)
  {
    hide WordBytes, Uint32, LowLengthWord, HighLengthWord;
    ghost var front, low := msg[..newLen], WordBytes(Uint32(LowLengthWord(length)));
    ToBytes(Uint32(LowLengthWord(length)), msg, newLen);
    assert msg[..newLen + 4] == front + low;
    ToBytes(Uint32(HighLengthWord(length)), msg, newLen + 4);
    assert msg[..] == front + low + WordBytes(Uint32(HighLengthWord(length)));
  }

  lemma NearestPadding(length: nat, newLen: nat)
    requires length + 1 <= newLen <= length + 1 + Zeros(length) && newLen % 64 == 56
    ensures newLen == length + 1 + Zeros(length)
  {
  }

  /** The sixteen words of the chunk at `offset`. */
  method LoadWords(msg: array<Byte>, offset: nat, w: array<Word>)
    requires offset + 64 <= msg.Length && w.Length == 16
    modifies w
    ensures w[..] == BlockWords(msg[offset..offset + 64])
  {
    var i := 0;
    while i < 16
      invariant 0 <= i <= 16
      invariant forall j | 0 <= j < i :: w[j] == BlockWords(msg[offset..offset + 64])[j]
    {
      assert msg[offset..offset + 64][4 * i..4 * i + 4] == msg[offset + 4 * i..offset + 4 * i + 4];
      w[i] := BytesWord(msg[offset + 4 * i..offset + 4 * i + 4]);
      i := i + 1;
    }
  }

  /** Chunks from first to last, each folded into what came before. */
  lemma {:induction false} ProcessOneMore(r: Registers, text: seq<Byte>, block: seq<Byte>)
    requires |text| % 64 == 0 && |block| == 64
    ensures ProcessBlocks(r, text + block) == ProcessBlock(ProcessBlocks(r, text), block)
    decreases |text|
  {
    if text == [] {
      assert text + block == block && block[..64] == block && block[64..] == [];
    } else {
      assert (text + block)[..64] == text[..64];
      assert (text + block)[64..] == text[64..] + block;
      ProcessOneMore(ProcessBlock(r, text[..64]), text[64..], block);
    }
  }

  /** `md5`: for the lengths whose length words are right, which include every length below
      2^32 bytes, the digest is that of RFC 1321. */
  method Md5(message: array<Byte>, length: nat, digest: array<Byte>)
    requires length <= message.Length && digest.Length == 16
    modifies digest
    ensures digest[..] == Output(ProcessBlocks(INITIAL, CodedText(old(message[..length]))))
    ensures LengthFits(length) ==> digest[..] == Digest(old(message[..length]))
  {
    hide Add, Operations, BlockWords, CodedText, Padded, WordBytes, Output, LengthFits;
    ghost var text := message[..length];
    var a0, b0, c0, d0 := INITIAL.a, INITIAL.b, INITIAL.c, INITIAL.d;
    var msg, newLen := PadMessage(message, length);
    var w := new Word[16](_ => 0);
    var offset := 0;
    while offset < newLen
      invariant 0 <= offset <= newLen + 8 && offset % 64 == 0
      invariant msg[..] == CodedText(text)
      invariant Registers(a0, b0, c0, d0) == ProcessBlocks(INITIAL, msg[..offset])
    {
      LoadWords(msg, offset, w);
      ghost var block := msg[offset..offset + 64];
      ProcessOneMore(INITIAL, msg[..offset], block);
      assert msg[..offset] + block == msg[..offset + 64];
      var a, b, c, d := MainLoop(w, a0, b0, c0, d0);
      a0 := Add(a0, a);
      b0 := Add(b0, b);
      c0 := Add(c0, c);
      d0 := Add(d0, d);
      offset := offset + 64;
    }
    assert msg[..offset] == msg[..] == CodedText(text);
    CodedTextExact(text);
    WriteDigest(Registers(a0, b0, c0, d0), digest);
  }

  /** The last four calls of `md5`. */
  method WriteDigest(r: Registers, digest: array<Byte>)
    requires digest.Length == 16
    modifies digest
    ensures digest[..] == Output(r)
  {
    hide WordBytes;
    ToBytes(r.a, digest, 0);
    ToBytes(r.b, digest, 4);
    ToBytes(r.c, digest, 8);
    ToBytes(r.d, digest, 12);
    assert digest[..] == Output(r);
  }
}
