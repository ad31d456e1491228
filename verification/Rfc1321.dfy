/**
  The MD5 message-digest algorithm as RFC 1321 describes it: the padding of sections 3.1
  and 3.2, the initial buffer of section 3.3, the round operations of section 3.4, and the
  digest of section 3.5. Everything here is a mathematical definition; `Md5` holds the
  program that is proved to compute it.

  A byte is a `bv8` and a word is a `bv32`, whose addition wraps modulo 2^32.
 */
module Rfc1321 {

  type Byte = bv8
  type Word = bv32

  // ----- sections 2 and 3.2: words, and the byte order -----

  /** The four bytes of a word, low-order byte first. */
  function WordBytes(w: Word): (bytes: seq<Byte>)
    ensures |bytes| == 4
  {
    [(w & 0xff) as Byte, ((w >> 8) & 0xff) as Byte, ((w >> 16) & 0xff) as Byte, ((w >> 24) & 0xff) as Byte]
  }

  /** The word that four bytes stand for, low-order byte first. */
  function BytesWord(bytes: seq<Byte>): Word
    requires |bytes| == 4
  {
    (bytes[0] as Word) | ((bytes[1] as Word) << 8) | ((bytes[2] as Word) << 16) | ((bytes[3] as Word) << 24)
  }

  lemma WordRoundTrip(w: Word)
    ensures BytesWord(WordBytes(w)) == w
  {
  }

  lemma BytesRoundTrip(bytes: seq<Byte>)
    requires |bytes| == 4
    ensures WordBytes(BytesWord(bytes)) == bytes
  {
    var b0, b1, b2, b3 := bytes[0], bytes[1], bytes[2], bytes[3];
    assert bytes == [b0, b1, b2, b3];
    assert WordBytes(BytesWord([b0, b1, b2, b3])) == [b0, b1, b2, b3];
  }

  const TWO_32 := 0x1_0000_0000

  function ByteOf(n: nat): Byte
    requires n < 256
  {
    n as Byte
  }

  /** The base-256 digits of a number below 2^32, low-order digit first. */
  function Digits(n: nat): (bytes: seq<Byte>)
    requires n < TWO_32
    ensures |bytes| == 4
  {
    [ByteOf(n % 256), ByteOf(n / 256 % 256), ByteOf(n / 65536 % 256), ByteOf(n / 16777216)]
  }

  /** The number whose base-256 digits are given, low-order digit first. */
  function DigitsValue(bytes: seq<Byte>): nat
    requires |bytes| == 4
  {
    bytes[0] as nat + 256 * (bytes[1] as nat) + 65536 * (bytes[2] as nat) + 16777216 * (bytes[3] as nat)
  }

  lemma ByteRoundTrip(n: nat)
    requires n < 256
    ensures ByteOf(n) as nat == n
  {
    ConversionRoundTrip(n);
  }

  lemma ConversionRoundTrip(n: nat)
    requires n < 256
    ensures (n as Byte) as nat == n
  {
    if n < 32 {
    } else if n < 64 {
    } else if n < 96 {
    } else if n < 128 {
    } else if n < 160 {
    } else if n < 192 {
    } else if n < 224 {
    } else {
    }
  }

  lemma DigitsRoundTrip(n: nat)
    requires n < TWO_32
    ensures DigitsValue(Digits(n)) == n
  {
    ByteRoundTrip(n % 256);
    ByteRoundTrip(n / 256 % 256);
    ByteRoundTrip(n / 65536 % 256);
    ByteRoundTrip(n / 16777216);
    DigitSum(n);
  }

  lemma DigitSum(n: nat)
    ensures n % 256 + 256 * (n / 256 % 256) + 65536 * (n / 65536 % 256) + 16777216 * (n / 16777216) == n
  {
    assert n / 65536 == n / 256 / 256;
    assert n / 16777216 == n / 65536 / 256;
  }

  // ----- sections 3.1 and 3.2: padding -----

  /** "0" bytes so that the length is 56 modulo 64 after the byte that holds the "1" bit. */
  function Zeros(length: nat): (count: nat)
    ensures count < 64 && (length + 1 + count) % 64 == 56
  {
    (55 - length) % 64
  }

  /** The 64-bit length in bits as two words, low-order word first; a longer length is
      taken modulo 2^64. */
  function LengthBytes(bits: nat): (bytes: seq<Byte>)
    ensures |bytes| == 8
  {
    Digits(bits % TWO_32) + Digits(bits / TWO_32 % TWO_32)
  }

  function Padding(length: nat): (bytes: seq<Byte>)
    ensures |bytes| == Zeros(length) + 9
  {
    [0x80] + seq(Zeros(length), _ => 0) + LengthBytes(8 * length)
  }

  function Padded(message: seq<Byte>): (text: seq<Byte>)
    ensures |text| % 64 == 0
    ensures |message| + 9 <= |text| <= |message| + 72
  {
    WholeBlocks(|message|, Zeros(|message|));
    message + Padding(|message|)
  }

  lemma WholeBlocks(length: nat, zeros: nat)
    requires (length + 1 + zeros) % 64 == 56
    ensures (length + zeros + 9) % 64 == 0
  {
  }

  // ----- section 2: word arithmetic -----

  /** "+" denotes addition modulo 2^32, and "-" its inverse. */
  function Add(x: Word, y: Word): Word { x + y }
  function Sub(x: Word, y: Word): Word { x - y }
  function Add4(x: Word, y: Word, z: Word, u: Word): Word { x + y + z + u }

  // ----- section 3.4: the auxiliary functions, the sine table and the 64 operations -----

  function F(x: Word, y: Word, z: Word): Word { (x & y) | (!x & z) }
  function G(x: Word, y: Word, z: Word): Word { (x & z) | (y & !z) }
  function H(x: Word, y: Word, z: Word): Word { x ^ y ^ z }
  function I(x: Word, y: Word, z: Word): Word { y ^ (x | !z) }

  function Aux(round: nat, x: Word, y: Word, z: Word): Word
    requires round < 4
  {
    if round == 0 then F(x, y, z) else if round == 1 then G(x, y, z) else if round == 2 then H(x, y, z) else I(x, y, z)
  }

  /** X <<< s: circular shift left by `s` positions. */
  function Rotate(x: Word, s: nat): Word
    requires s <= 32
  {
    x.RotateLeft(s)
  }

  /** T[i] for i = 1..64, eight in a row: the integer part of 4294967296 times abs(sin(i)),
      i in radians. */
  const T: seq<seq<Word>> := [
    [0xd76aa478, 0xe8c7b756, 0x242070db, 0xc1bdceee, 0xf57c0faf, 0x4787c62a, 0xa8304613, 0xfd469501],
    [0x698098d8, 0x8b44f7af, 0xffff5bb1, 0x895cd7be, 0x6b901122, 0xfd987193, 0xa679438e, 0x49b40821],
    [0xf61e2562, 0xc040b340, 0x265e5a51, 0xe9b6c7aa, 0xd62f105d, 0x02441453, 0xd8a1e681, 0xe7d3fbc8],
    [0x21e1cde6, 0xc33707d6, 0xf4d50d87, 0x455a14ed, 0xa9e3e905, 0xfcefa3f8, 0x676f02d9, 0x8d2a4c8a],
    [0xfffa3942, 0x8771f681, 0x6d9d6122, 0xfde5380c, 0xa4beea44, 0x4bdecfa9, 0xf6bb4b60, 0xbebfbc70],
    [0x289b7ec6, 0xeaa127fa, 0xd4ef3085, 0x04881d05, 0xd9d4d039, 0xe6db99e5, 0x1fa27cf8, 0xc4ac5665],
    [0xf4292244, 0x432aff97, 0xab9423a7, 0xfc93a039, 0x655b59c3, 0x8f0ccc92, 0xffeff47d, 0x85845dd1],
    [0x6fa87e4f, 0xfe2ce6e0, 0xa3014314, 0x4e0811a1, 0xf7537e82, 0xbd3af235, 0x2ad7d2bb, 0xeb86d391]]

  /** For each round, the index k of the message word that its sixteen operations use. */
  const WORD_ORDER: seq<seq<nat>> := [
    [0, 1, 2, 3, 4, 5, 6, 7, 8, 9, 10, 11, 12, 13, 14, 15],
    [1, 6, 11, 0, 5, 10, 15, 4, 9, 14, 3, 8, 13, 2, 7, 12],
    [5, 8, 11, 14, 1, 4, 7, 10, 13, 0, 3, 6, 9, 12, 15, 2],
    [0, 7, 14, 5, 12, 3, 10, 1, 8, 15, 6, 13, 4, 11, 2, 9]]

  /** For each round, the four rotation amounts s that its operations cycle through. */
  const AMOUNTS: seq<seq<nat>> := [[7, 12, 17, 22], [5, 9, 14, 20], [4, 11, 16, 23], [6, 10, 15, 21]]

  datatype Registers = Registers(a: Word, b: Word, c: Word, d: Word)

  /** a = b + ((a + f(b,c,d) + X[k] + T[i]) <<< s) */
  function NewValue(n: nat, a: Word, b: Word, c: Word, d: Word, X: seq<Word>): Word
    requires n < 64 && |X| == 16
  {
    Combine(n / 16, a, b, c, d, X[WordIndex(n)], Amount(n), TableEntry(n))
  }

  function Combine(round: nat, a: Word, b: Word, c: Word, d: Word, x: Word, s: nat, t: Word): Word
    requires round < 4 && s < 32
  {
    Add(b, Rotate(Add4(a, Aux(round, b, c, d), x, t), s))
  }

  function Amount(n: nat): (s: nat)
    requires n < 64
    ensures s < 32
  {
    AMOUNTS[n / 16][n % 4]
  }

  function WordIndex(n: nat): (k: nat)
    requires n < 64
    ensures k < 16
  {
    WordIndexBound(n);
    WORD_ORDER[n / 16][n % 16]
  }

  lemma WordIndexBound(n: nat)
    requires n < 64
    ensures |WORD_ORDER[n / 16]| == 16 && WORD_ORDER[n / 16][n % 16] < 16
  {
  }

  function TableEntry(n: nat): Word
    requires n < 64
  {
    T[n / 8][n % 8]
  }

  /** Operation number `n` (from 0): [ABCD], [DABC], [CDAB] and [BCDA] in turn say which
      register is replaced and in which order the others are used. */
  function Operation(n: nat, r: Registers, X: seq<Word>): Registers
    requires n < 64 && |X| == 16
  {
    match n % 4
    case 0 => r.(a := NewValue(n, r.a, r.b, r.c, r.d, X))
    case 1 => r.(d := NewValue(n, r.d, r.a, r.b, r.c, X))
    case 2 => r.(c := NewValue(n, r.c, r.d, r.a, r.b, X))
    case _ => r.(b := NewValue(n, r.b, r.c, r.d, r.a, X))
  }

  /** The first `n` of the 64 operations. */
  function Operations(n: nat, r: Registers, X: seq<Word>): Registers
    requires n <= 64 && |X| == 16
  {
    if n == 0 then r else Operation(n - 1, Operations(n - 1, r, X), X)
  }

  function Sum(x: Registers, y: Registers): Registers {
    Registers(Add(x.a, y.a), Add(x.b, y.b), Add(x.c, y.c), Add(x.d, y.d))
  }

  /** The sixteen words of a 64-byte block. */
  function BlockWords(block: seq<Byte>): (X: seq<Word>)
    requires |block| == 64
    ensures |X| == 16
  {
    seq(16, j requires 0 <= j < 16 => BytesWord(block[4 * j..4 * j + 4]))
  }

  function ProcessBlock(r: Registers, block: seq<Byte>): Registers
    requires |block| == 64
  {
    Sum(r, Operations(64, r, BlockWords(block)))
  }

  /** The blocks are processed from first to last. */
  function ProcessBlocks(r: Registers, text: seq<Byte>): Registers
    requires |text| % 64 == 0
    decreases |text|
  {
    if text == [] then r else ProcessBlocks(ProcessBlock(r, text[..64]), text[64..])
  }

  // ----- sections 3.3 and 3.5 -----

  const INITIAL := Registers(0x67452301, 0xefcdab89, 0x98badcfe, 0x10325476)

  function Output(r: Registers): (digest: seq<Byte>)
    ensures |digest| == 16
  {
    WordBytes(r.a) + WordBytes(r.b) + WordBytes(r.c) + WordBytes(r.d)
  }

  function Digest(message: seq<Byte>): (digest: seq<Byte>)
    ensures |digest| == 16
  {
    Output(ProcessBlocks(INITIAL, Padded(message)))
  }
}
