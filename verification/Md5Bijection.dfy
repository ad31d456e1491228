/**
  The 64 steps of MD5 on one block, before the feed-forward addition, are a bijection on the
  four registers: here is the inverse, step by step and as a whole.
 */
module Md5Bijection {
  import opened Rfc1321
  import opened Md5

  function Sub4(v: Word, y: Word, z: Word, u: Word): Word { v - y - z - u }

  function RotateBack(x: Word, s: nat): Word
    requires s <= 32
  {
    x.RotateRight(s)
  }

  // ----- addition and rotation can be undone -----

  lemma SubOfSum(b: Word, y: Word)
    ensures Sub(b + y, b) == y
  {
  }

  lemma SubUndoesAdd(b: Word, y: Word)
    ensures Sub(Add(b, y), b) == y
  {
    hide Sub;
    SubOfSum(b, y);
  }

  lemma AddOfDifference(b: Word, v: Word)
    ensures Add(b, v - b) == v
  {
  }

  lemma AddUndoesSub(b: Word, v: Word)
    ensures Add(b, Sub(v, b)) == v
  {
    hide Add;
    AddOfDifference(b, v);
  }

  lemma Sub4OfSum(x: Word, y: Word, z: Word, u: Word)
    ensures Sub4(x + y + z + u, y, z, u) == x
  {
  }

  lemma Sub4UndoesAdd4(x: Word, y: Word, z: Word, u: Word)
    ensures Sub4(Add4(x, y, z, u), y, z, u) == x
  {
    hide Sub4;
    Sub4OfSum(x, y, z, u);
  }

  lemma Add4OfDifference(v: Word, y: Word, z: Word, u: Word)
    ensures Add4(v - y - z - u, y, z, u) == v
  {
  }

  lemma Add4UndoesSub4(v: Word, y: Word, z: Word, u: Word)
    ensures Add4(Sub4(v, y, z, u), y, z, u) == v
  {
    hide Add4;
    Add4OfDifference(v, y, z, u);
  }

  /** Rotating by so much and back, in either order, changes nothing. */
  predicate Undone(x: Word, s: nat)
    requires s <= 32
  {
    RotateBack(Rotate(x, s), s) == x && Rotate(RotateBack(x, s), s) == x
  }

  lemma RotationsUndo(x: Word, s: nat)
    requires ShiftAmount(s) && s <= 32
    ensures RotateBack(LeftRotate(x, s), s) == x
    ensures LeftRotate(RotateBack(x, s), s) == x
  {
    hide LeftRotate, Rotate, RotateBack;
    LeftRotateIsRotation(x, s);
    LeftRotateIsRotation(RotateBack(x, s), s);
    RotationUndone(x, s);
  }

  lemma RotationUndone(x: Word, s: nat)
    requires ShiftAmount(s) && s <= 32
    ensures Undone(x, s)
  {
    hide Undone;
    match s
    case 7 => Undone7(x);
    case 12 => Undone12(x);
    case 17 => Undone17(x);
    case 22 => Undone22(x);
    case 5 => Undone5(x);
    case 9 => Undone9(x);
    case 14 => Undone14(x);
    case 20 => Undone20(x);
    case 4 => Undone4(x);
    case 11 => Undone11(x);
    case 16 => Undone16(x);
    case 23 => Undone23(x);
    case 6 => Undone6(x);
    case 10 => Undone10(x);
    case 15 => Undone15(x);
    case 21 => Undone21(x);
  }

  lemma Undone7(x: Word)
    ensures Undone(x, 7)
  {
    assert RotateBack(x.RotateLeft(7), 7) == x && Rotate(x.RotateRight(7), 7) == x;
  }

  lemma Undone12(x: Word)
    ensures Undone(x, 12)
  {
    assert RotateBack(x.RotateLeft(12), 12) == x && Rotate(x.RotateRight(12), 12) == x;
  }

  lemma Undone17(x: Word)
    ensures Undone(x, 17)
  {
    assert RotateBack(x.RotateLeft(17), 17) == x && Rotate(x.RotateRight(17), 17) == x;
  }

  lemma Undone22(x: Word)
    ensures Undone(x, 22)
  {
    assert RotateBack(x.RotateLeft(22), 22) == x && Rotate(x.RotateRight(22), 22) == x;
  }

  lemma Undone5(x: Word)
    ensures Undone(x, 5)
  {
    assert RotateBack(x.RotateLeft(5), 5) == x && Rotate(x.RotateRight(5), 5) == x;
  }

  lemma Undone9(x: Word)
    ensures Undone(x, 9)
  {
    assert RotateBack(x.RotateLeft(9), 9) == x && Rotate(x.RotateRight(9), 9) == x;
  }

  lemma Undone14(x: Word)
    ensures Undone(x, 14)
  {
    assert RotateBack(x.RotateLeft(14), 14) == x && Rotate(x.RotateRight(14), 14) == x;
  }

  lemma Undone20(x: Word)
    ensures Undone(x, 20)
  {
    assert RotateBack(x.RotateLeft(20), 20) == x && Rotate(x.RotateRight(20), 20) == x;
  }

  lemma Undone4(x: Word)
    ensures Undone(x, 4)
  {
    assert RotateBack(x.RotateLeft(4), 4) == x && Rotate(x.RotateRight(4), 4) == x;
  }

  lemma Undone11(x: Word)
    ensures Undone(x, 11)
  {
    assert RotateBack(x.RotateLeft(11), 11) == x && Rotate(x.RotateRight(11), 11) == x;
  }

  lemma Undone16(x: Word)
    ensures Undone(x, 16)
  {
    assert RotateBack(x.RotateLeft(16), 16) == x && Rotate(x.RotateRight(16), 16) == x;
  }

  lemma Undone23(x: Word)
    ensures Undone(x, 23)
  {
    assert RotateBack(x.RotateLeft(23), 23) == x && Rotate(x.RotateRight(23), 23) == x;
  }

  lemma Undone6(x: Word)
    ensures Undone(x, 6)
  {
    assert RotateBack(x.RotateLeft(6), 6) == x && Rotate(x.RotateRight(6), 6) == x;
  }

  lemma Undone10(x: Word)
    ensures Undone(x, 10)
  {
    assert RotateBack(x.RotateLeft(10), 10) == x && Rotate(x.RotateRight(10), 10) == x;
  }

  lemma Undone15(x: Word)
    ensures Undone(x, 15)
  {
    assert RotateBack(x.RotateLeft(15), 15) == x && Rotate(x.RotateRight(15), 15) == x;
  }

  lemma Undone21(x: Word)
    ensures Undone(x, 21)
  {
    assert RotateBack(x.RotateLeft(21), 21) == x && Rotate(x.RotateRight(21), 21) == x;
  }

  // ----- one step -----

  /** The step of the loop body, undone. */
  function StepBack(i: nat, r: Registers, w: seq<Word>): Registers
    requires i < 64 && |w| == 16
  {
    var b, c, d := r.c, r.d, r.a;
    Registers(Sub4(RotateBack(Sub(r.b, b), Shift(i)), Mix(i, b, c, d), TableEntry(i), w[WordChoice(i)]), b, c, d)
  }

  lemma StepBackUndoesStep(i: nat, r: Registers, w: seq<Word>)
    requires i < 64 && |w| == 16
    ensures StepBack(i, RotatingStep(i, r, w), w) == r
  {
    hide Add, Add4, Sub, Sub4, LeftRotate, RotateBack, Mix, TableEntry, WordChoice, Shift;
    var mix, entry, word := Mix(i, r.b, r.c, r.d), TableEntry(i), w[WordChoice(i)];
    var sum := Add4(r.a, mix, entry, word);
    ShiftIsAmount(i);
    SubUndoesAdd(r.b, LeftRotate(sum, Shift(i)));
    RotationsUndo(sum, Shift(i));
    Sub4UndoesAdd4(r.a, mix, entry, word);
  }

  lemma StepUndoesStepBack(i: nat, r: Registers, w: seq<Word>)
    requires i < 64 && |w| == 16
    ensures RotatingStep(i, StepBack(i, r, w), w) == r
  {
    hide Add, Add4, Sub, Sub4, LeftRotate, RotateBack, Mix, TableEntry, WordChoice, Shift;
    var b, c, d := r.c, r.d, r.a;
    var mix, entry, word := Mix(i, b, c, d), TableEntry(i), w[WordChoice(i)];
    var rotated := Sub(r.b, b);
    ShiftIsAmount(i);
    Add4UndoesSub4(RotateBack(rotated, Shift(i)), mix, entry, word);
    RotationsUndo(rotated, Shift(i));
    AddUndoesSub(b, r.b);
  }

  // ----- all the steps -----

  /** The registers from which `n` operations lead to `r`. */
  function OperationsBack(n: nat, r: Registers, w: seq<Word>): Registers
    requires n <= 64 && |w| == 16
  {
    if n == 0 then r else OperationsBack(n - 1, StepBack(n - 1, r, w), w)
  }

  lemma {:induction false} BackUndoesOperations(n: nat, r: Registers, w: seq<Word>)
    requires n <= 64 && |w| == 16
    ensures OperationsBack(n, Rotated(n, Operations(n, r, w)), w) == r
  {
    hide StepBack, Operation;
    if n > 0 {
      var before := Operations(n - 1, r, w);
      StepIsOperation(n - 1, before, w);
      StepBackUndoesStep(n - 1, Rotated(n - 1, before), w);
      BackUndoesOperations(n - 1, r, w);
    }
  }

  lemma {:induction false} OperationsUndoBack(n: nat, r: Registers, w: seq<Word>)
    requires n <= 64 && |w| == 16
    ensures Rotated(n, Operations(n, OperationsBack(n, r, w), w)) == r
  {
    hide StepBack, Operation;
    if n > 0 {
      var earlier := StepBack(n - 1, r, w);
      OperationsUndoBack(n - 1, earlier, w);
      var before := Operations(n - 1, OperationsBack(n, r, w), w);
      StepIsOperation(n - 1, before, w);
      StepUndoesStepBack(n - 1, r, w);
    }
  }

  /** For every block, distinct register values stay distinct through the 64 operations, and
      every register value is reached from exactly one: `OperationsBack`. */
  lemma OperationsAreBijective(r: Registers, s: Registers, w: seq<Word>)
    requires |w| == 16
    ensures Operations(64, r, w) == s <==> r == OperationsBack(64, s, w)
  {
    hide Operations, OperationsBack;
    BackUndoesOperations(64, r, w);
    OperationsUndoBack(64, s, w);
  }

  // ----- padding -----

  /** The message inside a padded text: its length stands in the last eight bytes. */
  function Unpadded(text: seq<Byte>): seq<Byte>
    requires |text| >= 8
  {
    var n := |text|;
    var bits := DigitsValue(text[n - 8..n - 4]) + TWO_32 * DigitsValue(text[n - 4..]);
    if bits / 8 <= n then text[..bits / 8] else []
  }

  lemma LengthRoundTrip(bits: nat)
    requires bits < TWO_32 * TWO_32
    ensures DigitsValue(LengthBytes(bits)[..4]) + TWO_32 * DigitsValue(LengthBytes(bits)[4..]) == bits
  {
    assert LengthBytes(bits)[..4] == Digits(bits % TWO_32);
    assert LengthBytes(bits)[4..] == Digits(bits / TWO_32 % TWO_32);
    DigitsRoundTrip(bits % TWO_32);
    DigitsRoundTrip(bits / TWO_32 % TWO_32);
  }

  /** What the program appends is well formed: the padded text is a multiple of 64 bytes, at most
      72 longer, and the message can be read back from it. */
  lemma UnpaddedOfCodedText(message: seq<Byte>)
    requires |message| < TWO_32
    ensures Unpadded(CodedText(message)) == message
  {
    hide LengthBytes, DigitsValue, Zeros, CodedText, Unpadded;
    CodedTextExact(message);
    var front, last := message + [0x80] + seq(Zeros(|message|), _ => 0), LengthBytes(8 * |message|);
    assert Padded(message) == front + last;
    LengthRoundTrip(8 * |message|);
    UnpaddedOf(front, last, |message|);
    assert front[..|message|] == message;
  }

  lemma UnpaddedOf(front: seq<Byte>, last: seq<Byte>, length: nat)
    requires |last| == 8 && length <= |front|
    requires DigitsValue(last[..4]) + TWO_32 * DigitsValue(last[4..]) == 8 * length
    ensures Unpadded(front + last) == front[..length]
  {
    hide DigitsValue;
    var text := front + last;
    assert text[|text| - 8..|text| - 4] == last[..4] && text[|text| - 4..] == last[4..];
    assert text[..length] == front[..length];
  }

  /** Messages below 2^32 bytes are hashed through the same padded text only if they are the same. */
  lemma PaddingIsInjective(m1: seq<Byte>, m2: seq<Byte>)
    requires |m1| < TWO_32 && |m2| < TWO_32
    ensures CodedText(m1) == CodedText(m2) <==> m1 == m2
  {
    UnpaddedOfCodedText(m1);
    UnpaddedOfCodedText(m2);
  }
}
