/**
  The test suite of appendix A.5 of RFC 1321, in part: the digests of the empty message, of "abc"
  and of the eighty digits, which take one block, one block and two. They are computed operation by
  operation, as section 3.4 lists the operations.
 */
module Md5Suite {
  import opened Rfc1321

  // ----- the list of operations -----

  /** [.... k s i]: operation `n` = i - 1 takes word k, rotates by s and adds T[i]. */
  predicate Uses(n: nat, k: nat, s: nat, t: Word)
    requires n < 64
  {
    WordIndex(n) == k && Amount(n) == s && TableEntry(n) == t
  }

  lemma List1()
    ensures Uses(0, 0, 7, 0xd76aa478)
    ensures Uses(1, 1, 12, 0xe8c7b756)
    ensures Uses(2, 2, 17, 0x242070db)
    ensures Uses(3, 3, 22, 0xc1bdceee)
    ensures Uses(4, 4, 7, 0xf57c0faf)
    ensures Uses(5, 5, 12, 0x4787c62a)
    ensures Uses(6, 6, 17, 0xa8304613)
    ensures Uses(7, 7, 22, 0xfd469501)
  {
  }

  lemma List2()
    ensures Uses(8, 8, 7, 0x698098d8)
    ensures Uses(9, 9, 12, 0x8b44f7af)
    ensures Uses(10, 10, 17, 0xffff5bb1)
    ensures Uses(11, 11, 22, 0x895cd7be)
    ensures Uses(12, 12, 7, 0x6b901122)
    ensures Uses(13, 13, 12, 0xfd987193)
    ensures Uses(14, 14, 17, 0xa679438e)
    ensures Uses(15, 15, 22, 0x49b40821)
  {
  }

  lemma List3()
    ensures Uses(16, 1, 5, 0xf61e2562)
    ensures Uses(17, 6, 9, 0xc040b340)
    ensures Uses(18, 11, 14, 0x265e5a51)
    ensures Uses(19, 0, 20, 0xe9b6c7aa)
    ensures Uses(20, 5, 5, 0xd62f105d)
    ensures Uses(21, 10, 9, 0x02441453)
    ensures Uses(22, 15, 14, 0xd8a1e681)
    ensures Uses(23, 4, 20, 0xe7d3fbc8)
  {
  }

  lemma List4()
    ensures Uses(24, 9, 5, 0x21e1cde6)
    ensures Uses(25, 14, 9, 0xc33707d6)
    ensures Uses(26, 3, 14, 0xf4d50d87)
    ensures Uses(27, 8, 20, 0x455a14ed)
    ensures Uses(28, 13, 5, 0xa9e3e905)
    ensures Uses(29, 2, 9, 0xfcefa3f8)
    ensures Uses(30, 7, 14, 0x676f02d9)
    ensures Uses(31, 12, 20, 0x8d2a4c8a)
  {
  }

  lemma List5()
    ensures Uses(32, 5, 4, 0xfffa3942)
    ensures Uses(33, 8, 11, 0x8771f681)
    ensures Uses(34, 11, 16, 0x6d9d6122)
    ensures Uses(35, 14, 23, 0xfde5380c)
    ensures Uses(36, 1, 4, 0xa4beea44)
    ensures Uses(37, 4, 11, 0x4bdecfa9)
    ensures Uses(38, 7, 16, 0xf6bb4b60)
    ensures Uses(39, 10, 23, 0xbebfbc70)
  {
  }

  lemma List6()
    ensures Uses(40, 13, 4, 0x289b7ec6)
    ensures Uses(41, 0, 11, 0xeaa127fa)
    ensures Uses(42, 3, 16, 0xd4ef3085)
    ensures Uses(43, 6, 23, 0x04881d05)
    ensures Uses(44, 9, 4, 0xd9d4d039)
    ensures Uses(45, 12, 11, 0xe6db99e5)
    ensures Uses(46, 15, 16, 0x1fa27cf8)
    ensures Uses(47, 2, 23, 0xc4ac5665)
  {
  }

  lemma List7()
    ensures Uses(48, 0, 6, 0xf4292244)
    ensures Uses(49, 7, 10, 0x432aff97)
    ensures Uses(50, 14, 15, 0xab9423a7)
    ensures Uses(51, 5, 21, 0xfc93a039)
    ensures Uses(52, 12, 6, 0x655b59c3)
    ensures Uses(53, 3, 10, 0x8f0ccc92)
    ensures Uses(54, 10, 15, 0xffeff47d)
    ensures Uses(55, 1, 21, 0x85845dd1)
  {
  }

  lemma List8()
    ensures Uses(56, 8, 6, 0x6fa87e4f)
    ensures Uses(57, 15, 10, 0xfe2ce6e0)
    ensures Uses(58, 6, 15, 0xa3014314)
    ensures Uses(59, 13, 21, 0x4e0811a1)
    ensures Uses(60, 4, 6, 0xf7537e82)
    ensures Uses(61, 11, 10, 0xbd3af235)
    ensures Uses(62, 2, 15, 0x2ad7d2bb)
    ensures Uses(63, 9, 21, 0xeb86d391)
  {
  }

  lemma OneMore(n: nat, start: Registers, X: seq<Word>, r: Registers)
    requires n < 64 && |X| == 16 && Operations(n, start, X) == r
    ensures Operations(n + 1, start, X) == Operation(n, r, X)
  {
    hide Operation;
  }

  /** `v` is the new value that operation `n` computes with word `w`. */
  predicate Yields(n: nat, X: seq<Word>, a: Word, b: Word, c: Word, d: Word, k: nat, w: Word, s: nat, t: Word, v: Word)
    requires n < 64 && |X| == 16 && k < 16 && s < 32
  {
    Uses(n, k, s, t) && X[k] == w && Combine(n / 16, a, b, c, d, w, s, t) == v
  }

  lemma NewValueIs(n: nat, X: seq<Word>, a: Word, b: Word, c: Word, d: Word, k: nat, w: Word, s: nat, t: Word, v: Word)
    requires n < 64 && |X| == 16 && k < 16 && s < 32 && Yields(n, X, a, b, c, d, k, w, s, t, v)
    ensures NewValue(n, a, b, c, d, X) == v
  {
    hide Combine, WordIndex, Amount, TableEntry;
  }

  lemma NextA(n: nat, start: Registers, X: seq<Word>, a: Word, b: Word, c: Word, d: Word,
              k: nat, w: Word, s: nat, t: Word, v: Word)
    requires n < 64 && n % 4 == 0 && |X| == 16 && k < 16 && s < 32
    requires Operations(n, start, X) == Registers(a, b, c, d)
    requires Yields(n, X, a, b, c, d, k, w, s, t, v)
    ensures Operations(n + 1, start, X) == Registers(v, b, c, d)
  {
    hide Operations, Yields, NewValue;
    OneMore(n, start, X, Registers(a, b, c, d));
    NewValueIs(n, X, a, b, c, d, k, w, s, t, v);
  }

  lemma NextD(n: nat, start: Registers, X: seq<Word>, a: Word, b: Word, c: Word, d: Word,
              k: nat, w: Word, s: nat, t: Word, v: Word)
    requires n < 64 && n % 4 == 1 && |X| == 16 && k < 16 && s < 32
    requires Operations(n, start, X) == Registers(a, b, c, d)
    requires Yields(n, X, d, a, b, c, k, w, s, t, v)
    ensures Operations(n + 1, start, X) == Registers(a, b, c, v)
  {
    hide Operations, Yields, NewValue;
    OneMore(n, start, X, Registers(a, b, c, d));
    NewValueIs(n, X, d, a, b, c, k, w, s, t, v);
  }

  lemma NextC(n: nat, start: Registers, X: seq<Word>, a: Word, b: Word, c: Word, d: Word,
              k: nat, w: Word, s: nat, t: Word, v: Word)
    requires n < 64 && n % 4 == 2 && |X| == 16 && k < 16 && s < 32
    requires Operations(n, start, X) == Registers(a, b, c, d)
    requires Yields(n, X, c, d, a, b, k, w, s, t, v)
    ensures Operations(n + 1, start, X) == Registers(a, b, v, d)
  {
    hide Operations, Yields, NewValue;
    OneMore(n, start, X, Registers(a, b, c, d));
    NewValueIs(n, X, c, d, a, b, k, w, s, t, v);
  }

  lemma NextB(n: nat, start: Registers, X: seq<Word>, a: Word, b: Word, c: Word, d: Word,
              k: nat, w: Word, s: nat, t: Word, v: Word)
    requires n < 64 && n % 4 == 3 && |X| == 16 && k < 16 && s < 32
    requires Operations(n, start, X) == Registers(a, b, c, d)
    requires Yields(n, X, b, c, d, a, k, w, s, t, v)
    ensures Operations(n + 1, start, X) == Registers(a, v, c, d)
  {
    hide Operations, Yields, NewValue;
    OneMore(n, start, X, Registers(a, b, c, d));
    NewValueIs(n, X, b, c, d, a, k, w, s, t, v);
  }

  lemma NoOperations(start: Registers, X: seq<Word>)
    requires |X| == 16
    ensures Operations(0, start, X) == start
  {
  }

  lemma BlockFrom(start: Registers, block: seq<Byte>, end: Registers)
    requires |block| == 64 && Operations(64, start, BlockWords(block)) == end
    ensures ProcessBlock(start, block) == Sum(start, end)
  {
    hide Operations, BlockWords, Sum;
  }

  // ----- words of a block -----

  lemma WordAt(block: seq<Byte>, k: nat, b0: Byte, b1: Byte, b2: Byte, b3: Byte)
    requires |block| == 64 && k < 16
    requires block[4 * k] == b0 && block[4 * k + 1] == b1 && block[4 * k + 2] == b2 && block[4 * k + 3] == b3
    ensures BlockWords(block)[k] == BytesWord([b0, b1, b2, b3])
  {
    hide BytesWord;
    assert block[4 * k..4 * k + 4] == [b0, b1, b2, b3];
  }

  /** Where the parts of a padded message are. */
  lemma PaddedAt(message: seq<Byte>)
    ensures var n, zeros, text := |message|, Zeros(|message|), Padded(message);
            && |text| == n + 1 + zeros + 8
            && (forall k | 0 <= k < n :: text[k] == message[k])
            && text[n] == 0x80
            && (forall k | n < k < n + 1 + zeros :: text[k] == 0)
            && (forall k | 0 <= k < 8 :: text[n + 1 + zeros + k] == LengthBytes(8 * n)[k])
  {
    hide LengthBytes;
  }

  lemma SmallLength(bits: nat)
    requires bits < 65536
    ensures LengthBytes(bits) == [ByteOf(bits % 256), ByteOf(bits / 256), 0, 0, 0, 0, 0, 0]
  {
    hide ByteOf;
    ZeroByte();
    assert bits / 256 % 256 == bits / 256 && bits / 65536 % 256 == 0 && bits / 16777216 == 0;
  }

  lemma ZeroByte()
    ensures ByteOf(0) == 0
  {
  }

  // ----- the empty message -----

  predicate EmptyWords(X: seq<Word>) {
    && |X| == 16
    && X[0] == 0x00000080
    && X[1] == 0 && X[2] == 0 && X[3] == 0 && X[4] == 0 && X[5] == 0 && X[6] == 0 && X[7] == 0 && X[8] == 0
    && X[9] == 0 && X[10] == 0 && X[11] == 0 && X[12] == 0 && X[13] == 0 && X[14] == 0 && X[15] == 0
  }

  lemma EmptyEight1(start: Registers, X: seq<Word>)
    requires EmptyWords(X) && Operations(0, start, X) == Registers(0x67452301, 0xefcdab89, 0x98badcfe, 0x10325476)
    ensures Operations(8, start, X) == Registers(0x32033344, 0x9bc13ce9, 0xf5b158db, 0x2f35d494)
  {
    hide Operations, Uses;
    List1();
    NextA(0, start, X, 0x67452301, 0xefcdab89, 0x98badcfe, 0x10325476, 0, 0x00000080, 7, 0xd76aa478, 0xa5202774);
    NextD(1, start, X, 0xa5202774, 0xefcdab89, 0x98badcfe, 0x10325476, 1, 0x00000000, 12, 0xe8c7b756, 0xf59592dd);
    NextC(2, start, X, 0xa5202774, 0xefcdab89, 0x98badcfe, 0xf59592dd, 2, 0x00000000, 17, 0x242070db, 0xe7f06b23);
    NextB(3, start, X, 0xa5202774, 0xefcdab89, 0xe7f06b23, 0xf59592dd, 3, 0x00000000, 22, 0xc1bdceee, 0x1b163203);
    NextA(4, start, X, 0xa5202774, 0x1b163203, 0xe7f06b23, 0xf59592dd, 4, 0x00000000, 7, 0xf57c0faf, 0x32033344);
    NextD(5, start, X, 0x32033344, 0x1b163203, 0xe7f06b23, 0xf59592dd, 5, 0x00000000, 12, 0x4787c62a, 0x2f35d494);
    NextC(6, start, X, 0x32033344, 0x1b163203, 0xe7f06b23, 0x2f35d494, 6, 0x00000000, 17, 0xa8304613, 0xf5b158db);
    NextB(7, start, X, 0x32033344, 0x1b163203, 0xf5b158db, 0x2f35d494, 7, 0x00000000, 22, 0xfd469501, 0x9bc13ce9);
  }

  lemma EmptyEight2(start: Registers, X: seq<Word>)
    requires EmptyWords(X) && Operations(8, start, X) == Registers(0x32033344, 0x9bc13ce9, 0xf5b158db, 0x2f35d494)
    ensures Operations(16, start, X) == Registers(0xf56c7cf1, 0xd6819c6a, 0x5aa53f75, 0x374943a7)
  {
    hide Operations, Uses;
    List2();
    NextA(8, start, X, 0x32033344, 0x9bc13ce9, 0xf5b158db, 0x2f35d494, 8, 0x00000000, 7, 0x698098d8, 0x3893b991);
    NextD(9, start, X, 0x3893b991, 0x9bc13ce9, 0xf5b158db, 0x2f35d494, 9, 0x00000000, 12, 0x8b44f7af, 0xfce4a312);
    NextC(10, start, X, 0x3893b991, 0x9bc13ce9, 0xf5b158db, 0xfce4a312, 10, 0x00000000, 17, 0xffff5bb1, 0xe1ef0576);
    NextB(11, start, X, 0x3893b991, 0x9bc13ce9, 0xe1ef0576, 0xfce4a312, 11, 0x00000000, 22, 0x895cd7be, 0x70768a29);
    NextA(12, start, X, 0x3893b991, 0x70768a29, 0xe1ef0576, 0xfce4a312, 12, 0x00000000, 7, 0x6b901122, 0xf56c7cf1);
    NextD(13, start, X, 0xf56c7cf1, 0x70768a29, 0xe1ef0576, 0xfce4a312, 13, 0x00000000, 12, 0xfd987193, 0x374943a7);
    NextC(14, start, X, 0xf56c7cf1, 0x70768a29, 0xe1ef0576, 0x374943a7, 14, 0x00000000, 17, 0xa679438e, 0x5aa53f75);
    NextB(15, start, X, 0xf56c7cf1, 0x70768a29, 0x5aa53f75, 0x374943a7, 15, 0x00000000, 22, 0x49b40821, 0xd6819c6a);
  }

  lemma EmptyEight3(start: Registers, X: seq<Word>)
    requires EmptyWords(X) && Operations(16, start, X) == Registers(0xf56c7cf1, 0xd6819c6a, 0x5aa53f75, 0x374943a7)
    ensures Operations(24, start, X) == Registers(0x3d1e3e6c, 0xe422531a, 0xeb41643e, 0x68b7b3e3)
  {
    hide Operations, Uses;
    List3();
    NextA(16, start, X, 0xf56c7cf1, 0xd6819c6a, 0x5aa53f75, 0x374943a7, 1, 0x00000000, 5, 0xf61e2562, 0x1c7d7513);
    NextD(17, start, X, 0x1c7d7513, 0xd6819c6a, 0x5aa53f75, 0x374943a7, 6, 0x00000000, 9, 0xc040b340, 0x7bd57a3a);
    NextC(18, start, X, 0x1c7d7513, 0xd6819c6a, 0x5aa53f75, 0x7bd57a3a, 11, 0x00000000, 14, 0x265e5a51, 0xc095f13a);
    NextB(19, start, X, 0x1c7d7513, 0xd6819c6a, 0xc095f13a, 0x7bd57a3a, 0, 0x00000080, 20, 0xe9b6c7aa, 0xbd782e17);
    NextA(20, start, X, 0x1c7d7513, 0xbd782e17, 0xc095f13a, 0x7bd57a3a, 5, 0x00000000, 5, 0xd62f105d, 0x3d1e3e6c);
    NextD(21, start, X, 0x3d1e3e6c, 0xbd782e17, 0xc095f13a, 0x7bd57a3a, 10, 0x00000000, 9, 0x02441453, 0x68b7b3e3);
    NextC(22, start, X, 0x3d1e3e6c, 0xbd782e17, 0xc095f13a, 0x68b7b3e3, 15, 0x00000000, 14, 0xd8a1e681, 0xeb41643e);
    NextB(23, start, X, 0x3d1e3e6c, 0xbd782e17, 0xeb41643e, 0x68b7b3e3, 4, 0x00000000, 20, 0xe7d3fbc8, 0xe422531a);
  }

  lemma EmptyEight4(start: Registers, X: seq<Word>)
    requires EmptyWords(X) && Operations(24, start, X) == Registers(0x3d1e3e6c, 0xe422531a, 0xeb41643e, 0x68b7b3e3)
    ensures Operations(32, start, X) == Registers(0x13707036, 0xa2205f1f, 0x1c31c384, 0xae7813db)
  {
    hide Operations, Uses;
    List4();
    NextA(24, start, X, 0x3d1e3e6c, 0xe422531a, 0xeb41643e, 0x68b7b3e3, 9, 0x00000000, 5, 0x21e1cde6, 0x306ec122);
    NextD(25, start, X, 0x306ec122, 0xe422531a, 0xeb41643e, 0x68b7b3e3, 14, 0x00000000, 9, 0xc33707d6, 0xd28c77c2);
    NextC(26, start, X, 0x306ec122, 0xe422531a, 0xeb41643e, 0xd28c77c2, 3, 0x00000000, 14, 0xf4d50d87, 0xa3c663da);
    NextB(27, start, X, 0x306ec122, 0xe422531a, 0xa3c663da, 0xd28c77c2, 8, 0x00000000, 20, 0x455a14ed, 0xa0572807);
    NextA(28, start, X, 0x306ec122, 0xa0572807, 0xa3c663da, 0xd28c77c2, 13, 0x00000000, 5, 0xa9e3e905, 0x13707036);
    NextD(29, start, X, 0x13707036, 0xa0572807, 0xa3c663da, 0xd28c77c2, 2, 0x00000000, 9, 0xfcefa3f8, 0xae7813db);
    NextC(30, start, X, 0x13707036, 0xa0572807, 0xa3c663da, 0xae7813db, 7, 0x00000000, 14, 0x676f02d9, 0x1c31c384);
    NextB(31, start, X, 0x13707036, 0xa0572807, 0x1c31c384, 0xae7813db, 12, 0x00000000, 20, 0x8d2a4c8a, 0xa2205f1f);
  }

  lemma EmptyEight5(start: Registers, X: seq<Word>)
    requires EmptyWords(X) && Operations(32, start, X) == Registers(0x13707036, 0xa2205f1f, 0x1c31c384, 0xae7813db)
    ensures Operations(40, start, X) == Registers(0x5f7a9b2e, 0xc5dc8c15, 0x91ca4cb7, 0xabc34e16)
  {
    hide Operations, Uses;
    List5();
    NextA(32, start, X, 0x13707036, 0xa2205f1f, 0x1c31c384, 0xae7813db, 5, 0x00000000, 4, 0xfffa3942, 0xdf63eaa1);
    NextD(33, start, X, 0xdf63eaa1, 0xa2205f1f, 0x1c31c384, 0xae7813db, 8, 0x00000000, 11, 0x8771f681, 0xc3689f5b);
    NextC(34, start, X, 0xdf63eaa1, 0xa2205f1f, 0x1c31c384, 0xc3689f5b, 11, 0x00000000, 16, 0x6d9d6122, 0x12f3e755);
    NextB(35, start, X, 0xdf63eaa1, 0xa2205f1f, 0x12f3e755, 0xc3689f5b, 14, 0x00000000, 23, 0xfde5380c, 0x004b6669);
    NextA(36, start, X, 0xdf63eaa1, 0x004b6669, 0x12f3e755, 0xc3689f5b, 1, 0x00000000, 4, 0xa4beea44, 0x5f7a9b2e);
    NextD(37, start, X, 0x5f7a9b2e, 0x004b6669, 0x12f3e755, 0xc3689f5b, 4, 0x00000000, 11, 0x4bdecfa9, 0xabc34e16);
    NextC(38, start, X, 0x5f7a9b2e, 0x004b6669, 0x12f3e755, 0xabc34e16, 7, 0x00000000, 16, 0xf6bb4b60, 0x91ca4cb7);
    NextB(39, start, X, 0x5f7a9b2e, 0x004b6669, 0x91ca4cb7, 0xabc34e16, 10, 0x00000000, 23, 0xbebfbc70, 0xc5dc8c15);
  }

  lemma EmptyEight6(start: Registers, X: seq<Word>)
    requires EmptyWords(X) && Operations(40, start, X) == Registers(0x5f7a9b2e, 0xc5dc8c15, 0x91ca4cb7, 0xabc34e16)
    ensures Operations(48, start, X) == Registers(0x3f55edfd, 0xca7d2dbd, 0x68d84ea2, 0x22a31f54)
  {
    hide Operations, Uses;
    List6();
    NextA(40, start, X, 0x5f7a9b2e, 0xc5dc8c15, 0x91ca4cb7, 0xabc34e16, 13, 0x00000000, 4, 0x289b7ec6, 0x4497169d);
    NextD(41, start, X, 0x4497169d, 0xc5dc8c15, 0x91ca4cb7, 0xabc34e16, 0, 0x00000080, 11, 0xeaa127fa, 0x76fd93d4);
    NextC(42, start, X, 0x4497169d, 0xc5dc8c15, 0x91ca4cb7, 0x76fd93d4, 3, 0x00000000, 16, 0xd4ef3085, 0xfd95f243);
    NextB(43, start, X, 0x4497169d, 0xc5dc8c15, 0xfd95f243, 0x76fd93d4, 6, 0x00000000, 23, 0x04881d05, 0x0fe32453);
    NextA(44, start, X, 0x4497169d, 0x0fe32453, 0xfd95f243, 0x76fd93d4, 9, 0x00000000, 4, 0xd9d4d039, 0x3f55edfd);
    NextD(45, start, X, 0x3f55edfd, 0x0fe32453, 0xfd95f243, 0x76fd93d4, 12, 0x00000000, 11, 0xe6db99e5, 0x22a31f54);
    NextC(46, start, X, 0x3f55edfd, 0x0fe32453, 0xfd95f243, 0x22a31f54, 15, 0x00000000, 16, 0x1fa27cf8, 0x68d84ea2);
    NextB(47, start, X, 0x3f55edfd, 0x0fe32453, 0x68d84ea2, 0x22a31f54, 2, 0x00000000, 23, 0xc4ac5665, 0xca7d2dbd);
  }

  lemma EmptyEight7(start: Registers, X: seq<Word>)
    requires EmptyWords(X) && Operations(48, start, X) == Registers(0x3f55edfd, 0xca7d2dbd, 0x68d84ea2, 0x22a31f54)
    ensures Operations(56, start, X) == Registers(0x5625a114, 0x1e77fa61, 0x392ad0d0, 0x3450f42b)
  {
    hide Operations, Uses;
    List7();
    NextA(48, start, X, 0x3f55edfd, 0xca7d2dbd, 0x68d84ea2, 0x22a31f54, 0, 0x00000080, 6, 0xf4292244, 0x93aa2577);
    NextD(49, start, X, 0x93aa2577, 0xca7d2dbd, 0x68d84ea2, 0x22a31f54, 7, 0x00000000, 10, 0x432aff97, 0x1688dc85);
    NextC(50, start, X, 0x93aa2577, 0xca7d2dbd, 0x68d84ea2, 0x1688dc85, 14, 0x00000000, 15, 0xab9423a7, 0xcd85b8cb);
    NextB(51, start, X, 0x93aa2577, 0xca7d2dbd, 0xcd85b8cb, 0x1688dc85, 5, 0x00000000, 21, 0xfc93a039, 0x561e0689);
    NextA(52, start, X, 0x93aa2577, 0x561e0689, 0xcd85b8cb, 0x1688dc85, 12, 0x00000000, 6, 0x655b59c3, 0x5625a114);
    NextD(53, start, X, 0x5625a114, 0x561e0689, 0xcd85b8cb, 0x1688dc85, 3, 0x00000000, 10, 0x8f0ccc92, 0x3450f42b);
    NextC(54, start, X, 0x5625a114, 0x561e0689, 0xcd85b8cb, 0x3450f42b, 10, 0x00000000, 15, 0xffeff47d, 0x392ad0d0);
    NextB(55, start, X, 0x5625a114, 0x561e0689, 0x392ad0d0, 0x3450f42b, 1, 0x00000000, 21, 0x85845dd1, 0x1e77fa61);
  }

  lemma EmptyEight8(start: Registers, X: seq<Word>)
    requires EmptyWords(X) && Operations(56, start, X) == Registers(0x5625a114, 0x1e77fa61, 0x392ad0d0, 0x3450f42b)
    ensures Operations(64, start, X) == Registers(0x7246fad3, 0x14e45506, 0xff4ea3eb, 0x6e10a476)
  {
    hide Operations, Uses;
    List8();
    NextA(56, start, X, 0x5625a114, 0x1e77fa61, 0x392ad0d0, 0x3450f42b, 8, 0x00000000, 6, 0x6fa87e4f, 0x474a9c8c);
    NextD(57, start, X, 0x474a9c8c, 0x1e77fa61, 0x392ad0d0, 0x3450f42b, 15, 0x00000000, 10, 0xfe2ce6e0, 0xdfce00bc);
    NextC(58, start, X, 0x474a9c8c, 0x1e77fa61, 0x392ad0d0, 0xdfce00bc, 6, 0x00000000, 15, 0xa3014314, 0x36594b14);
    NextB(59, start, X, 0x474a9c8c, 0x1e77fa61, 0x36594b14, 0xdfce00bc, 13, 0x00000000, 21, 0x4e0811a1, 0x30130182);
    NextA(60, start, X, 0x474a9c8c, 0x30130182, 0x36594b14, 0xdfce00bc, 4, 0x00000000, 6, 0xf7537e82, 0x7246fad3);
    NextD(61, start, X, 0x7246fad3, 0x30130182, 0x36594b14, 0xdfce00bc, 11, 0x00000000, 10, 0xbd3af235, 0x6e10a476);
    NextC(62, start, X, 0x7246fad3, 0x30130182, 0x36594b14, 0x6e10a476, 2, 0x00000000, 15, 0x2ad7d2bb, 0xff4ea3eb);
    NextB(63, start, X, 0x7246fad3, 0x30130182, 0xff4ea3eb, 0x6e10a476, 9, 0x00000000, 21, 0xeb86d391, 0x14e45506);
  }

  lemma EmptyProcessed(block: seq<Byte>)
    requires |block| == 64 && EmptyWords(BlockWords(block))
    ensures ProcessBlock(Registers(0x67452301, 0xefcdab89, 0x98badcfe, 0x10325476), block)
         == Registers(0xd98c1dd4, 0x04b2008f, 0x980980e9, 0x7e42f8ec)
  {
    hide Operations, BlockWords, EmptyWords;
    var start, X := Registers(0x67452301, 0xefcdab89, 0x98badcfe, 0x10325476), BlockWords(block);
    NoOperations(start, X);
    EmptyEight1(start, X);
    EmptyEight2(start, X);
    EmptyEight3(start, X);
    EmptyEight4(start, X);
    EmptyEight5(start, X);
    EmptyEight6(start, X);
    EmptyEight7(start, X);
    EmptyEight8(start, X);
    BlockFrom(start, block, Registers(0x7246fad3, 0x14e45506, 0xff4ea3eb, 0x6e10a476));
  }

  lemma EmptyOutput()
    ensures Output(Registers(0xd98c1dd4, 0x04b2008f, 0x980980e9, 0x7e42f8ec))
         == [0xd4, 0x1d, 0x8c, 0xd9, 0x8f, 0x00, 0xb2, 0x04, 0xe9, 0x80, 0x09, 0x98, 0xec, 0xf8, 0x42, 0x7e]
  {
    assert WordBytes(0xd98c1dd4) == [0xd4, 0x1d, 0x8c, 0xd9];
    assert WordBytes(0x04b2008f) == [0x8f, 0x00, 0xb2, 0x04];
    assert WordBytes(0x980980e9) == [0xe9, 0x80, 0x09, 0x98];
    assert WordBytes(0x7e42f8ec) == [0xec, 0xf8, 0x42, 0x7e];
    hide WordBytes;
  }

  lemma EmptyText()
    ensures Padded([])[0] == 0x80 && forall k | 1 <= k < 64 :: Padded([])[k] == 0
    ensures |Padded([])| == 64
  {
  }

  lemma EmptyBlock()
    ensures EmptyWords(BlockWords(Padded([])))
  {
    hide Padded, BlockWords, BytesWord;
    EmptyText();
    WordAt(Padded([]), 0, 0x80, 0, 0, 0);
    forall k | 1 <= k < 16
      ensures BlockWords(Padded([]))[k] == BytesWord([0, 0, 0, 0])
    {
      WordAt(Padded([]), k, 0, 0, 0, 0);
    }
    MarkerWord();
  }

  lemma MarkerWord()
    ensures BytesWord([0x80, 0, 0, 0]) == 0x80 && BytesWord([0, 0, 0, 0]) == 0
  {
  }

  lemma OneBlock(text: seq<Byte>)
    requires |text| == 64
    ensures ProcessBlocks(INITIAL, text) == ProcessBlock(INITIAL, text)
  {
    hide ProcessBlock;
    assert text[..64] == text && text[64..] == [];
  }

  /** MD5 ("") = d41d8cd98f00b204e9800998ecf8427e */
  lemma EmptyDigest()
    ensures Digest([])
         == [0xd4, 0x1d, 0x8c, 0xd9, 0x8f, 0x00, 0xb2, 0x04, 0xe9, 0x80, 0x09, 0x98, 0xec, 0xf8, 0x42, 0x7e]
  {
    hide Padded, ProcessBlock, ProcessBlocks, Output, BlockWords, EmptyWords;
    EmptyText();
    EmptyBlock();
    OneBlock(Padded([]));
    EmptyProcessed(Padded([]));
    EmptyOutput();
  }

  // ----- "abc" -----

  predicate AbcWords(X: seq<Word>) {
    && |X| == 16
    && X[0] == 0x80636261 && X[14] == 0x00000018
    && X[1] == 0 && X[2] == 0 && X[3] == 0 && X[4] == 0 && X[5] == 0 && X[6] == 0 && X[7] == 0 && X[8] == 0
    && X[9] == 0 && X[10] == 0 && X[11] == 0 && X[12] == 0 && X[13] == 0 && X[15] == 0
  }

  lemma AbcEight1(start: Registers, X: seq<Word>)
    requires AbcWords(X) && Operations(0, start, X) == Registers(0x67452301, 0xefcdab89, 0x98badcfe, 0x10325476)
    ensures Operations(8, start, X) == Registers(0xc73741ef, 0x928d99f6, 0x207dc67b, 0x8bac3051)
  {
    hide Operations, Uses;
    List1();
    NextA(0, start, X, 0x67452301, 0xefcdab89, 0x98badcfe, 0x10325476, 0, 0x80636261, 7, 0xd76aa478, 0xd6d117b4);
    NextD(1, start, X, 0xd6d117b4, 0xefcdab89, 0x98badcfe, 0x10325476, 1, 0x00000000, 12, 0xe8c7b756, 0x344a8432);
    NextC(2, start, X, 0xd6d117b4, 0xefcdab89, 0x98badcfe, 0x344a8432, 2, 0x00000000, 17, 0x242070db, 0x2f6fbd72);
    NextB(3, start, X, 0xd6d117b4, 0xefcdab89, 0x2f6fbd72, 0x344a8432, 3, 0x00000000, 22, 0xc1bdceee, 0x7ad956f2);
    NextA(4, start, X, 0xd6d117b4, 0x7ad956f2, 0x2f6fbd72, 0x344a8432, 4, 0x00000000, 7, 0xf57c0faf, 0xc73741ef);
    NextD(5, start, X, 0xc73741ef, 0x7ad956f2, 0x2f6fbd72, 0x344a8432, 5, 0x00000000, 12, 0x4787c62a, 0x8bac3051);
    NextC(6, start, X, 0xc73741ef, 0x7ad956f2, 0x2f6fbd72, 0x8bac3051, 6, 0x00000000, 17, 0xa8304613, 0x207dc67b);
    NextB(7, start, X, 0xc73741ef, 0x7ad956f2, 0x207dc67b, 0x8bac3051, 7, 0x00000000, 22, 0xfd469501, 0x928d99f6);
  }

  lemma AbcEight2(start: Registers, X: seq<Word>)
    requires AbcWords(X) && Operations(8, start, X) == Registers(0xc73741ef, 0x928d99f6, 0x207dc67b, 0x8bac3051)
    ensures Operations(16, start, X) == Registers(0xdda9b9a6, 0x72aff2e0, 0xe396856b, 0xa1051895)
  {
    hide Operations, Uses;
    List2();
    NextA(8, start, X, 0xc73741ef, 0x928d99f6, 0x207dc67b, 0x8bac3051, 8, 0x00000000, 7, 0x698098d8, 0x854b3712);
    NextD(9, start, X, 0x854b3712, 0x928d99f6, 0x207dc67b, 0x8bac3051, 9, 0x00000000, 12, 0x8b44f7af, 0x74e2f284);
    NextC(10, start, X, 0x854b3712, 0x928d99f6, 0x207dc67b, 0x74e2f284, 10, 0x00000000, 17, 0xffff5bb1, 0x3020401c);
    NextB(11, start, X, 0x854b3712, 0x928d99f6, 0x3020401c, 0x74e2f284, 11, 0x00000000, 22, 0x895cd7be, 0x5ed49596);
    NextA(12, start, X, 0x854b3712, 0x5ed49596, 0x3020401c, 0x74e2f284, 12, 0x00000000, 7, 0x6b901122, 0xdda9b9a6);
    NextD(13, start, X, 0xdda9b9a6, 0x5ed49596, 0x3020401c, 0x74e2f284, 13, 0x00000000, 12, 0xfd987193, 0xa1051895);
    NextC(14, start, X, 0xdda9b9a6, 0x5ed49596, 0x3020401c, 0xa1051895, 14, 0x00000018, 17, 0xa679438e, 0xe396856b);
    NextB(15, start, X, 0xdda9b9a6, 0x5ed49596, 0xe396856b, 0xa1051895, 15, 0x00000000, 22, 0x49b40821, 0x72aff2e0);
  }

  lemma AbcEight3(start: Registers, X: seq<Word>)
    requires AbcWords(X) && Operations(16, start, X) == Registers(0xdda9b9a6, 0x72aff2e0, 0xe396856b, 0xa1051895)
    ensures Operations(24, start, X) == Registers(0x59a8ffda, 0x47092c07, 0xabfc7920, 0x6d002f1e)
  {
    hide Operations, Uses;
    List3();
    NextA(16, start, X, 0xdda9b9a6, 0x72aff2e0, 0xe396856b, 0xa1051895, 1, 0x00000000, 5, 0xf61e2562, 0x3e9e9126);
    NextD(17, start, X, 0x3e9e9126, 0x72aff2e0, 0xe396856b, 0xa1051895, 6, 0x00000000, 9, 0xc040b340, 0x4a1d804e);
    NextC(18, start, X, 0x3e9e9126, 0x72aff2e0, 0xe396856b, 0x4a1d804e, 11, 0x00000000, 14, 0x265e5a51, 0xe25e1652);
    NextB(19, start, X, 0x3e9e9126, 0x72aff2e0, 0xe25e1652, 0x4a1d804e, 0, 0x80636261, 20, 0xe9b6c7aa, 0xb5b204e4);
    NextA(20, start, X, 0x3e9e9126, 0xb5b204e4, 0xe25e1652, 0x4a1d804e, 5, 0x00000000, 5, 0xd62f105d, 0x59a8ffda);
    NextD(21, start, X, 0x59a8ffda, 0xb5b204e4, 0xe25e1652, 0x4a1d804e, 10, 0x00000000, 9, 0x02441453, 0x6d002f1e);
    NextC(22, start, X, 0x59a8ffda, 0xb5b204e4, 0xe25e1652, 0x6d002f1e, 15, 0x00000000, 14, 0xd8a1e681, 0xabfc7920);
    NextB(23, start, X, 0x59a8ffda, 0xb5b204e4, 0xabfc7920, 0x6d002f1e, 4, 0x00000000, 20, 0xe7d3fbc8, 0x47092c07);
  }

  lemma AbcEight4(start: Registers, X: seq<Word>)
    requires AbcWords(X) && Operations(24, start, X) == Registers(0x59a8ffda, 0x47092c07, 0xabfc7920, 0x6d002f1e)
    ensures Operations(32, start, X) == Registers(0x790a77fb, 0x726342d3, 0xa62884aa, 0x9f47e4f8)
  {
    hide Operations, Uses;
    List4();
    NextA(24, start, X, 0x59a8ffda, 0x47092c07, 0xabfc7920, 0x6d002f1e, 9, 0x00000000, 5, 0x21e1cde6, 0xb7f268cf);
    NextD(25, start, X, 0xb7f268cf, 0x47092c07, 0xabfc7920, 0x6d002f1e, 14, 0x00000018, 9, 0xc33707d6, 0x09388eff);
    NextC(26, start, X, 0xb7f268cf, 0x47092c07, 0xabfc7920, 0x09388eff, 3, 0x00000000, 14, 0xf4d50d87, 0xfe1623b1);
    NextB(27, start, X, 0xb7f268cf, 0x47092c07, 0xfe1623b1, 0x09388eff, 8, 0x00000000, 20, 0x455a14ed, 0x786acb8f);
    NextA(28, start, X, 0xb7f268cf, 0x786acb8f, 0xfe1623b1, 0x09388eff, 13, 0x00000000, 5, 0xa9e3e905, 0x790a77fb);
    NextD(29, start, X, 0x790a77fb, 0x786acb8f, 0xfe1623b1, 0x09388eff, 2, 0x00000000, 9, 0xfcefa3f8, 0x9f47e4f8);
    NextC(30, start, X, 0x790a77fb, 0x786acb8f, 0xfe1623b1, 0x9f47e4f8, 7, 0x00000000, 14, 0x676f02d9, 0xa62884aa);
    NextB(31, start, X, 0x790a77fb, 0x786acb8f, 0xa62884aa, 0x9f47e4f8, 12, 0x00000000, 20, 0x8d2a4c8a, 0x726342d3);
  }

  lemma AbcEight5(start: Registers, X: seq<Word>)
    requires AbcWords(X) && Operations(32, start, X) == Registers(0x790a77fb, 0x726342d3, 0xa62884aa, 0x9f47e4f8)
    ensures Operations(40, start, X) == Registers(0x21b117b9, 0x5a2f5ea5, 0x3575227e, 0x6e7429d5)
  {
    hide Operations, Uses;
    List5();
    NextA(32, start, X, 0x790a77fb, 0x726342d3, 0xa62884aa, 0x9f47e4f8, 5, 0x00000000, 4, 0xfffa3942, 0xb3707ebf);
    NextD(33, start, X, 0xb3707ebf, 0x726342d3, 0xa62884aa, 0x9f47e4f8, 8, 0x00000000, 11, 0x8771f681, 0x60127b2e);
    NextC(34, start, X, 0xb3707ebf, 0x726342d3, 0xa62884aa, 0x60127b2e, 11, 0x00000000, 16, 0x6d9d6122, 0x8d212ff5);
    NextB(35, start, X, 0xb3707ebf, 0x726342d3, 0x8d212ff5, 0x60127b2e, 14, 0x00000018, 23, 0xfde5380c, 0x3b0875c7);
    NextA(36, start, X, 0xb3707ebf, 0x3b0875c7, 0x8d212ff5, 0x60127b2e, 1, 0x00000000, 4, 0xa4beea44, 0x21b117b9);
    NextD(37, start, X, 0x21b117b9, 0x3b0875c7, 0x8d212ff5, 0x60127b2e, 4, 0x00000000, 11, 0x4bdecfa9, 0x6e7429d5);
    NextC(38, start, X, 0x21b117b9, 0x3b0875c7, 0x8d212ff5, 0x6e7429d5, 7, 0x00000000, 16, 0xf6bb4b60, 0x3575227e);
    NextB(39, start, X, 0x21b117b9, 0x3b0875c7, 0x3575227e, 0x6e7429d5, 10, 0x00000000, 23, 0xbebfbc70, 0x5a2f5ea5);
  }

  lemma AbcEight6(start: Registers, X: seq<Word>)
    requires AbcWords(X) && Operations(40, start, X) == Registers(0x21b117b9, 0x5a2f5ea5, 0x3575227e, 0x6e7429d5)
    ensures Operations(48, start, X) == Registers(0x7f2e507b, 0x7beb9700, 0x8fae6399, 0x99d9679d)
  {
    hide Operations, Uses;
    List6();
    NextA(40, start, X, 0x21b117b9, 0x5a2f5ea5, 0x3575227e, 0x6e7429d5, 13, 0x00000000, 4, 0x289b7ec6, 0x11de1779);
    NextD(41, start, X, 0x11de1779, 0x5a2f5ea5, 0x3575227e, 0x6e7429d5, 0, 0x80636261, 11, 0xeaa127fa, 0xfadcaa38);
    NextC(42, start, X, 0x11de1779, 0x5a2f5ea5, 0x3575227e, 0xfadcaa38, 3, 0x00000000, 16, 0xd4ef3085, 0x31c465ca);
    NextB(43, start, X, 0x11de1779, 0x5a2f5ea5, 0x31c465ca, 0xfadcaa38, 6, 0x00000000, 23, 0x04881d05, 0x4c6124f4);
    NextA(44, start, X, 0x11de1779, 0x4c6124f4, 0x31c465ca, 0xfadcaa38, 9, 0x00000000, 4, 0xd9d4d039, 0x7f2e507b);
    NextD(45, start, X, 0x7f2e507b, 0x4c6124f4, 0x31c465ca, 0xfadcaa38, 12, 0x00000000, 11, 0xe6db99e5, 0x99d9679d);
    NextC(46, start, X, 0x7f2e507b, 0x4c6124f4, 0x31c465ca, 0x99d9679d, 15, 0x00000000, 16, 0x1fa27cf8, 0x8fae6399);
    NextB(47, start, X, 0x7f2e507b, 0x4c6124f4, 0x8fae6399, 0x99d9679d, 2, 0x00000000, 23, 0xc4ac5665, 0x7beb9700);
  }

  lemma AbcEight7(start: Registers, X: seq<Word>)
    requires AbcWords(X) && Operations(48, start, X) == Registers(0x7f2e507b, 0x7beb9700, 0x8fae6399, 0x99d9679d)
    ensures Operations(56, start, X) == Registers(0x06cc5e8a, 0x3bfa2c27, 0x7d632dd0, 0x5b0d97aa)
  {
    hide Operations, Uses;
    List7();
    NextA(48, start, X, 0x7f2e507b, 0x7beb9700, 0x8fae6399, 0x99d9679d, 0, 0x80636261, 6, 0xf4292244, 0x7b201df8);
    NextD(49, start, X, 0x7b201df8, 0x7beb9700, 0x8fae6399, 0x99d9679d, 7, 0x00000000, 10, 0x432aff97, 0xf4e8e96e);
    NextC(50, start, X, 0x7b201df8, 0x7beb9700, 0x8fae6399, 0xf4e8e96e, 14, 0x00000018, 15, 0xab9423a7, 0xb298cefd);
    NextB(51, start, X, 0x7b201df8, 0x7beb9700, 0xb298cefd, 0xf4e8e96e, 5, 0x00000000, 21, 0xfc93a039, 0x8bf025c4);
    NextA(52, start, X, 0x7b201df8, 0x8bf025c4, 0xb298cefd, 0xf4e8e96e, 12, 0x00000000, 6, 0x655b59c3, 0x06cc5e8a);
    NextD(53, start, X, 0x06cc5e8a, 0x8bf025c4, 0xb298cefd, 0xf4e8e96e, 3, 0x00000000, 10, 0x8f0ccc92, 0x5b0d97aa);
    NextC(54, start, X, 0x06cc5e8a, 0x8bf025c4, 0xb298cefd, 0x5b0d97aa, 10, 0x00000000, 15, 0xffeff47d, 0x7d632dd0);
    NextB(55, start, X, 0x06cc5e8a, 0x8bf025c4, 0x7d632dd0, 0x5b0d97aa, 1, 0x00000000, 21, 0x85845dd1, 0x3bfa2c27);
  }

  lemma AbcEight8(start: Registers, X: seq<Word>)
    requires AbcWords(X) && Operations(56, start, X) == Registers(0x06cc5e8a, 0x3bfa2c27, 0x7d632dd0, 0x5b0d97aa)
    ensures Operations(64, start, X) == Registers(0x310ade8f, 0xc08226b3, 0xe484b9d8, 0x624d8cb2)
  {
    hide Operations, Uses;
    List8();
    NextA(56, start, X, 0x06cc5e8a, 0x3bfa2c27, 0x7d632dd0, 0x5b0d97aa, 8, 0x00000000, 6, 0x6fa87e4f, 0x7f81cc35);
    NextD(57, start, X, 0x7f81cc35, 0x3bfa2c27, 0x7d632dd0, 0x5b0d97aa, 15, 0x00000000, 10, 0xfe2ce6e0, 0x094454ab);
    NextC(58, start, X, 0x7f81cc35, 0x3bfa2c27, 0x7d632dd0, 0x094454ab, 6, 0x00000000, 15, 0xa3014314, 0x4f9dbe3f);
    NextB(59, start, X, 0x7f81cc35, 0x3bfa2c27, 0x4f9dbe3f, 0x094454ab, 13, 0x00000000, 21, 0x4e0811a1, 0x7327d604);
    NextA(60, start, X, 0x7f81cc35, 0x7327d604, 0x4f9dbe3f, 0x094454ab, 4, 0x00000000, 6, 0xf7537e82, 0x310ade8f);
    NextD(61, start, X, 0x310ade8f, 0x7327d604, 0x4f9dbe3f, 0x094454ab, 11, 0x00000000, 10, 0xbd3af235, 0x624d8cb2);
    NextC(62, start, X, 0x310ade8f, 0x7327d604, 0x4f9dbe3f, 0x624d8cb2, 2, 0x00000000, 15, 0x2ad7d2bb, 0xe484b9d8);
    NextB(63, start, X, 0x310ade8f, 0x7327d604, 0xe484b9d8, 0x624d8cb2, 9, 0x00000000, 21, 0xeb86d391, 0xc08226b3);
  }

  lemma AbcProcessed(block: seq<Byte>)
    requires |block| == 64 && AbcWords(BlockWords(block))
    ensures ProcessBlock(Registers(0x67452301, 0xefcdab89, 0x98badcfe, 0x10325476), block)
         == Registers(0x98500190, 0xb04fd23c, 0x7d3f96d6, 0x727fe128)
  {
    hide Operations, BlockWords, AbcWords;
    var start, X := Registers(0x67452301, 0xefcdab89, 0x98badcfe, 0x10325476), BlockWords(block);
    NoOperations(start, X);
    AbcEight1(start, X);
    AbcEight2(start, X);
    AbcEight3(start, X);
    AbcEight4(start, X);
    AbcEight5(start, X);
    AbcEight6(start, X);
    AbcEight7(start, X);
    AbcEight8(start, X);
    BlockFrom(start, block, Registers(0x310ade8f, 0xc08226b3, 0xe484b9d8, 0x624d8cb2));
  }

  lemma AbcOutput()
    ensures Output(Registers(0x98500190, 0xb04fd23c, 0x7d3f96d6, 0x727fe128))
         == [0x90, 0x01, 0x50, 0x98, 0x3c, 0xd2, 0x4f, 0xb0, 0xd6, 0x96, 0x3f, 0x7d, 0x28, 0xe1, 0x7f, 0x72]
  {
    assert WordBytes(0x98500190) == [0x90, 0x01, 0x50, 0x98];
    assert WordBytes(0xb04fd23c) == [0x3c, 0xd2, 0x4f, 0xb0];
    assert WordBytes(0x7d3f96d6) == [0xd6, 0x96, 0x3f, 0x7d];
    assert WordBytes(0x727fe128) == [0x28, 0xe1, 0x7f, 0x72];
    hide WordBytes;
  }

  const ABC: seq<Byte> := [0x61, 0x62, 0x63]

  lemma AbcText()
    ensures |Padded(ABC)| == 64
    ensures Padded(ABC)[0] == 0x61 && Padded(ABC)[1] == 0x62 && Padded(ABC)[2] == 0x63 && Padded(ABC)[3] == 0x80
    ensures Padded(ABC)[56] == 0x18 && forall k | 4 <= k < 64 && k != 56 :: Padded(ABC)[k] == 0
  {
    PaddedAt(ABC);
    assert Zeros(3) == 52;
    AbcLength();
    hide Padded, LengthBytes, Zeros;
    forall k | 57 <= k < 64
      ensures Padded(ABC)[k] == LengthBytes(24)[k - 56] == 0
    {
    }
  }

  lemma AbcLength()
    ensures LengthBytes(24) == [0x18, 0, 0, 0, 0, 0, 0, 0]
  {
    SmallLength(24);
    assert ByteOf(24) == 0x18 && ByteOf(0) == 0;
    hide LengthBytes, ByteOf;
  }

  lemma AbcBlock()
    ensures AbcWords(BlockWords(Padded(ABC)))
  {
    hide Padded, BlockWords, BytesWord;
    AbcText();
    var text := Padded(ABC);
    WordAt(text, 0, 0x61, 0x62, 0x63, 0x80);
    WordAt(text, 14, 0x18, 0, 0, 0);
    forall k | 1 <= k < 16 && k != 14
      ensures BlockWords(text)[k] == BytesWord([0, 0, 0, 0])
    {
      WordAt(text, k, 0, 0, 0, 0);
    }
    MarkerWord();
    AbcWord();
  }

  lemma AbcWord()
    ensures BytesWord([0x61, 0x62, 0x63, 0x80]) == 0x80636261 && BytesWord([0x18, 0, 0, 0]) == 0x18
  {
  }

  /** MD5 ("abc") = 900150983cd24fb0d6963f7d28e17f72 */
  lemma AbcDigest()
    ensures Digest(ABC)
         == [0x90, 0x01, 0x50, 0x98, 0x3c, 0xd2, 0x4f, 0xb0, 0xd6, 0x96, 0x3f, 0x7d, 0x28, 0xe1, 0x7f, 0x72]
  {
    hide Padded, ProcessBlock, ProcessBlocks, Output, BlockWords, AbcWords;
    AbcText();
    AbcBlock();
    OneBlock(Padded(ABC));
    AbcProcessed(Padded(ABC));
    AbcOutput();
  }

  // ----- "1234567890" eight times -----

  predicate FirstWords(X: seq<Word>) {
    && |X| == 16
    && X[0] == 0x34333231 && X[1] == 0x38373635 && X[2] == 0x32313039 && X[3] == 0x36353433
    && X[4] == 0x30393837 && X[5] == 0x34333231 && X[6] == 0x38373635 && X[7] == 0x32313039
    && X[8] == 0x36353433 && X[9] == 0x30393837 && X[10] == 0x34333231 && X[11] == 0x38373635
    && X[12] == 0x32313039 && X[13] == 0x36353433 && X[14] == 0x30393837 && X[15] == 0x34333231
  }

  lemma FirstEight1(start: Registers, X: seq<Word>)
    requires FirstWords(X) && Operations(0, start, X) == Registers(0x67452301, 0xefcdab89, 0x98badcfe, 0x10325476)
    ensures Operations(8, start, X) == Registers(0x8c17de9f, 0xc57e78c1, 0xe99fec1b, 0xc0f32d81)
  {
    hide Operations, Uses;
    List1();
    NextA(0, start, X, 0x67452301, 0xefcdab89, 0x98badcfe, 0x10325476, 0, 0x34333231, 7, 0xd76aa478, 0xbeb8ff8e);
    NextD(1, start, X, 0xbeb8ff8e, 0xefcdab89, 0x98badcfe, 0x10325476, 1, 0x38373635, 12, 0xe8c7b756, 0x7d989d89);
    NextC(2, start, X, 0xbeb8ff8e, 0xefcdab89, 0x98badcfe, 0x7d989d89, 2, 0x32313039, 17, 0x242070db, 0xf8cdf95d);
    NextB(3, start, X, 0xbeb8ff8e, 0xefcdab89, 0xf8cdf95d, 0x7d989d89, 3, 0x36353433, 22, 0xc1bdceee, 0x862797b0);
    NextA(4, start, X, 0xbeb8ff8e, 0x862797b0, 0xf8cdf95d, 0x7d989d89, 4, 0x30393837, 7, 0xf57c0faf, 0x8c17de9f);
    NextD(5, start, X, 0x8c17de9f, 0x862797b0, 0xf8cdf95d, 0x7d989d89, 5, 0x34333231, 12, 0x4787c62a, 0xc0f32d81);
    NextC(6, start, X, 0x8c17de9f, 0x862797b0, 0xf8cdf95d, 0xc0f32d81, 6, 0x38373635, 17, 0xa8304613, 0xe99fec1b);
    NextB(7, start, X, 0x8c17de9f, 0x862797b0, 0xe99fec1b, 0xc0f32d81, 7, 0x32313039, 22, 0xfd469501, 0xc57e78c1);
  }

  lemma FirstEight2(start: Registers, X: seq<Word>)
    requires FirstWords(X) && Operations(8, start, X) == Registers(0x8c17de9f, 0xc57e78c1, 0xe99fec1b, 0xc0f32d81)
    ensures Operations(16, start, X) == Registers(0x5157e49e, 0xaf506a03, 0x27e983a0, 0xffac907e)
  {
    hide Operations, Uses;
    List2();
    NextA(8, start, X, 0x8c17de9f, 0xc57e78c1, 0xe99fec1b, 0xc0f32d81, 8, 0x36353433, 7, 0x698098d8, 0x7c0aceb7);
    NextD(9, start, X, 0x7c0aceb7, 0xc57e78c1, 0xe99fec1b, 0xc0f32d81, 9, 0x30393837, 12, 0x8b44f7af, 0x8869d2d8);
    NextC(10, start, X, 0x7c0aceb7, 0xc57e78c1, 0xe99fec1b, 0x8869d2d8, 10, 0x34333231, 17, 0xffff5bb1, 0x5186a8ba);
    NextB(11, start, X, 0x7c0aceb7, 0xc57e78c1, 0x5186a8ba, 0x8869d2d8, 11, 0x38373635, 22, 0x895cd7be, 0xa5f36f8d);
    NextA(12, start, X, 0x7c0aceb7, 0xa5f36f8d, 0x5186a8ba, 0x8869d2d8, 12, 0x32313039, 7, 0x6b901122, 0x5157e49e);
    NextD(13, start, X, 0x5157e49e, 0xa5f36f8d, 0x5186a8ba, 0x8869d2d8, 13, 0x36353433, 12, 0xfd987193, 0xffac907e);
    NextC(14, start, X, 0x5157e49e, 0xa5f36f8d, 0x5186a8ba, 0xffac907e, 14, 0x30393837, 17, 0xa679438e, 0x27e983a0);
    NextB(15, start, X, 0x5157e49e, 0xa5f36f8d, 0x27e983a0, 0xffac907e, 15, 0x34333231, 22, 0x49b40821, 0xaf506a03);
  }

  lemma FirstEight3(start: Registers, X: seq<Word>)
    requires FirstWords(X) && Operations(16, start, X) == Registers(0x5157e49e, 0xaf506a03, 0x27e983a0, 0xffac907e)
    ensures Operations(24, start, X) == Registers(0x78929ee0, 0xad400a91, 0xb18aca50, 0x375c6c2c)
  {
    hide Operations, Uses;
    List3();
    NextA(16, start, X, 0x5157e49e, 0xaf506a03, 0x27e983a0, 0xffac907e, 1, 0x38373635, 5, 0xf61e2562, 0x8d18e0e8);
    NextD(17, start, X, 0x8d18e0e8, 0xaf506a03, 0x27e983a0, 0xffac907e, 6, 0x38373635, 9, 0xc040b340, 0x07de0df2);
    NextC(18, start, X, 0x8d18e0e8, 0xaf506a03, 0x27e983a0, 0x07de0df2, 11, 0x38373635, 14, 0x265e5a51, 0xef223167);
    NextB(19, start, X, 0x8d18e0e8, 0xaf506a03, 0xef223167, 0x07de0df2, 0, 0x34333231, 20, 0xe9b6c7aa, 0x04280170);
    NextA(20, start, X, 0x8d18e0e8, 0x04280170, 0xef223167, 0x07de0df2, 5, 0x34333231, 5, 0xd62f105d, 0x78929ee0);
    NextD(21, start, X, 0x78929ee0, 0x04280170, 0xef223167, 0x07de0df2, 10, 0x34333231, 9, 0x02441453, 0x375c6c2c);
    NextC(22, start, X, 0x78929ee0, 0x04280170, 0xef223167, 0x375c6c2c, 15, 0x34333231, 14, 0xd8a1e681, 0xb18aca50);
    NextB(23, start, X, 0x78929ee0, 0x04280170, 0xb18aca50, 0x375c6c2c, 4, 0x30393837, 20, 0xe7d3fbc8, 0xad400a91);
  }

  lemma FirstEight4(start: Registers, X: seq<Word>)
    requires FirstWords(X) && Operations(24, start, X) == Registers(0x78929ee0, 0xad400a91, 0xb18aca50, 0x375c6c2c)
    ensures Operations(32, start, X) == Registers(0xf8bcfbb0, 0x1bf25662, 0x99a0f1b8, 0xd760ed39)
  {
    hide Operations, Uses;
    List4();
    NextA(24, start, X, 0x78929ee0, 0xad400a91, 0xb18aca50, 0x375c6c2c, 9, 0x30393837, 5, 0x21e1cde6, 0xbb45f43f);
    NextD(25, start, X, 0xbb45f43f, 0xad400a91, 0xb18aca50, 0x375c6c2c, 14, 0x30393837, 9, 0xc33707d6, 0xd61f8a0f);
    NextC(26, start, X, 0xbb45f43f, 0xad400a91, 0xb18aca50, 0xd61f8a0f, 3, 0x36353433, 14, 0xf4d50d87, 0x98ade6b5);
    NextB(27, start, X, 0xbb45f43f, 0xad400a91, 0x98ade6b5, 0xd61f8a0f, 8, 0x36353433, 20, 0x455a14ed, 0xb70e35a9);
    NextA(28, start, X, 0xbb45f43f, 0xb70e35a9, 0x98ade6b5, 0xd61f8a0f, 13, 0x36353433, 5, 0xa9e3e905, 0xf8bcfbb0);
    NextD(29, start, X, 0xf8bcfbb0, 0xb70e35a9, 0x98ade6b5, 0xd61f8a0f, 2, 0x32313039, 9, 0xfcefa3f8, 0xd760ed39);
    NextC(30, start, X, 0xf8bcfbb0, 0xb70e35a9, 0x98ade6b5, 0xd760ed39, 7, 0x32313039, 14, 0x676f02d9, 0x99a0f1b8);
    NextB(31, start, X, 0xf8bcfbb0, 0xb70e35a9, 0x99a0f1b8, 0xd760ed39, 12, 0x32313039, 20, 0x8d2a4c8a, 0x1bf25662);
  }

  lemma FirstEight5(start: Registers, X: seq<Word>)
    requires FirstWords(X) && Operations(32, start, X) == Registers(0xf8bcfbb0, 0x1bf25662, 0x99a0f1b8, 0xd760ed39)
    ensures Operations(40, start, X) == Registers(0x3b32c408, 0x1d4d6f72, 0x9ef871ad, 0x7338d8b7)
  {
    hide Operations, Uses;
    List5();
    NextA(32, start, X, 0xf8bcfbb0, 0x1bf25662, 0x99a0f1b8, 0xd760ed39, 5, 0x34333231, 4, 0xfffa3942, 0x3dbd76ca);
    NextD(33, start, X, 0x3dbd76ca, 0x1bf25662, 0x99a0f1b8, 0xd760ed39, 8, 0x36353433, 11, 0x8771f681, 0xfd056171);
    NextC(34, start, X, 0x3dbd76ca, 0x1bf25662, 0x99a0f1b8, 0xfd056171, 11, 0x38373635, 16, 0x6d9d6122, 0xc7ed7c30);
    NextB(35, start, X, 0x3dbd76ca, 0x1bf25662, 0xc7ed7c30, 0xfd056171, 14, 0x30393837, 23, 0xfde5380c, 0xe0162f49);
    NextA(36, start, X, 0x3dbd76ca, 0xe0162f49, 0xc7ed7c30, 0xfd056171, 1, 0x38373635, 4, 0xa4beea44, 0x3b32c408);
    NextD(37, start, X, 0x3b32c408, 0xe0162f49, 0xc7ed7c30, 0xfd056171, 4, 0x30393837, 11, 0x4bdecfa9, 0x7338d8b7);
    NextC(38, start, X, 0x3b32c408, 0xe0162f49, 0xc7ed7c30, 0x7338d8b7, 7, 0x32313039, 16, 0xf6bb4b60, 0x9ef871ad);
    NextB(39, start, X, 0x3b32c408, 0xe0162f49, 0x9ef871ad, 0x7338d8b7, 10, 0x34333231, 23, 0xbebfbc70, 0x1d4d6f72);
  }

  lemma FirstEight6(start: Registers, X: seq<Word>)
    requires FirstWords(X) && Operations(40, start, X) == Registers(0x3b32c408, 0x1d4d6f72, 0x9ef871ad, 0x7338d8b7)
    ensures Operations(48, start, X) == Registers(0x697032ec, 0xdb4197da, 0xefc2c171, 0xfa597bfc)
  {
    hide Operations, Uses;
    List6();
    NextA(40, start, X, 0x3b32c408, 0x1d4d6f72, 0x9ef871ad, 0x7338d8b7, 13, 0x36353433, 4, 0x289b7ec6, 0xc661460a);
    NextD(41, start, X, 0xc661460a, 0x1d4d6f72, 0x9ef871ad, 0x7338d8b7, 0, 0x34333231, 11, 0xeaa127fa, 0xd2bf04c9);
    NextC(42, start, X, 0xc661460a, 0x1d4d6f72, 0x9ef871ad, 0xd2bf04c9, 3, 0x36353433, 16, 0xd4ef3085, 0xd6d5b879);
    NextB(43, start, X, 0xc661460a, 0x1d4d6f72, 0xd6d5b879, 0xd2bf04c9, 6, 0x38373635, 23, 0x04881d05, 0x89e3c4d7);
    NextA(44, start, X, 0xc661460a, 0x89e3c4d7, 0xd6d5b879, 0xd2bf04c9, 9, 0x30393837, 4, 0xd9d4d039, 0x697032ec);
    NextD(45, start, X, 0x697032ec, 0x89e3c4d7, 0xd6d5b879, 0xd2bf04c9, 12, 0x32313039, 11, 0xe6db99e5, 0xfa597bfc);
    NextC(46, start, X, 0x697032ec, 0x89e3c4d7, 0xd6d5b879, 0xfa597bfc, 15, 0x34333231, 16, 0x1fa27cf8, 0xefc2c171);
    NextB(47, start, X, 0x697032ec, 0x89e3c4d7, 0xefc2c171, 0xfa597bfc, 2, 0x32313039, 23, 0xc4ac5665, 0xdb4197da);
  }

  lemma FirstEight7(start: Registers, X: seq<Word>)
    requires FirstWords(X) && Operations(48, start, X) == Registers(0x697032ec, 0xdb4197da, 0xefc2c171, 0xfa597bfc)
    ensures Operations(56, start, X) == Registers(0x633d3f7c, 0x7713f5df, 0xccaa1524, 0x1a4d3beb)
  {
    hide Operations, Uses;
    List7();
    NextA(48, start, X, 0x697032ec, 0xdb4197da, 0xefc2c171, 0xfa597bfc, 0, 0x34333231, 6, 0xf4292244, 0x57b91aca);
    NextD(49, start, X, 0x57b91aca, 0xdb4197da, 0xefc2c171, 0xfa597bfc, 7, 0x32313039, 10, 0x432aff97, 0x210c9ebc);
    NextC(50, start, X, 0x57b91aca, 0xdb4197da, 0xefc2c171, 0x210c9ebc, 14, 0x30393837, 15, 0xab9423a7, 0x21efbd88);
    NextB(51, start, X, 0x57b91aca, 0xdb4197da, 0x21efbd88, 0x210c9ebc, 5, 0x34333231, 21, 0xfc93a039, 0xcaa25b01);
    NextA(52, start, X, 0x57b91aca, 0xcaa25b01, 0x21efbd88, 0x210c9ebc, 12, 0x32313039, 6, 0x655b59c3, 0x633d3f7c);
    NextD(53, start, X, 0x633d3f7c, 0xcaa25b01, 0x21efbd88, 0x210c9ebc, 3, 0x36353433, 10, 0x8f0ccc92, 0x1a4d3beb);
    NextC(54, start, X, 0x633d3f7c, 0xcaa25b01, 0x21efbd88, 0x1a4d3beb, 10, 0x34333231, 15, 0xffeff47d, 0xccaa1524);
    NextB(55, start, X, 0x633d3f7c, 0xcaa25b01, 0xccaa1524, 0x1a4d3beb, 1, 0x38373635, 21, 0x85845dd1, 0x7713f5df);
  }

  lemma FirstEight8(start: Registers, X: seq<Word>)
    requires FirstWords(X) && Operations(56, start, X) == Registers(0x633d3f7c, 0x7713f5df, 0xccaa1524, 0x1a4d3beb)
    ensures Operations(64, start, X) == Registers(0x614868eb, 0xb4d33102, 0x5133129b, 0xa09f38a7)
  {
    hide Operations, Uses;
    List8();
    NextA(56, start, X, 0x633d3f7c, 0x7713f5df, 0xccaa1524, 0x1a4d3beb, 8, 0x36353433, 6, 0x6fa87e4f, 0x8448b430);
    NextD(57, start, X, 0x8448b430, 0x7713f5df, 0xccaa1524, 0x1a4d3beb, 15, 0x34333231, 10, 0xfe2ce6e0, 0x71c93463);
    NextC(58, start, X, 0x8448b430, 0x7713f5df, 0xccaa1524, 0x71c93463, 6, 0x38373635, 15, 0xa3014314, 0x7e294727);
    NextB(59, start, X, 0x8448b430, 0x7713f5df, 0x7e294727, 0x71c93463, 13, 0x36353433, 21, 0x4e0811a1, 0x660a801d);
    NextA(60, start, X, 0x8448b430, 0x660a801d, 0x7e294727, 0x71c93463, 4, 0x30393837, 6, 0xf7537e82, 0x614868eb);
    NextD(61, start, X, 0x614868eb, 0x660a801d, 0x7e294727, 0x71c93463, 11, 0x38373635, 10, 0xbd3af235, 0xa09f38a7);
    NextC(62, start, X, 0x614868eb, 0x660a801d, 0x7e294727, 0xa09f38a7, 2, 0x32313039, 15, 0x2ad7d2bb, 0x5133129b);
    NextB(63, start, X, 0x614868eb, 0x660a801d, 0x5133129b, 0xa09f38a7, 9, 0x30393837, 21, 0xeb86d391, 0xb4d33102);
  }

  lemma FirstProcessed(block: seq<Byte>)
    requires |block| == 64 && FirstWords(BlockWords(block))
    ensures ProcessBlock(Registers(0x67452301, 0xefcdab89, 0x98badcfe, 0x10325476), block)
         == Registers(0xc88d8bec, 0xa4a0dc8b, 0xe9edef99, 0xb0d18d1d)
  {
    hide Operations, BlockWords, FirstWords;
    var start, X := Registers(0x67452301, 0xefcdab89, 0x98badcfe, 0x10325476), BlockWords(block);
    NoOperations(start, X);
    FirstEight1(start, X);
    FirstEight2(start, X);
    FirstEight3(start, X);
    FirstEight4(start, X);
    FirstEight5(start, X);
    FirstEight6(start, X);
    FirstEight7(start, X);
    FirstEight8(start, X);
    BlockFrom(start, block, Registers(0x614868eb, 0xb4d33102, 0x5133129b, 0xa09f38a7));
  }

  predicate SecondWords(X: seq<Word>) {
    && |X| == 16
    && X[0] == 0x38373635 && X[1] == 0x32313039 && X[2] == 0x36353433 && X[3] == 0x30393837
    && X[4] == 0x00000080 && X[14] == 0x00000280
    && X[5] == 0 && X[6] == 0 && X[7] == 0 && X[8] == 0 && X[9] == 0 && X[10] == 0 && X[11] == 0 && X[12] == 0
    && X[13] == 0 && X[15] == 0
  }

  lemma SecondEight1(start: Registers, X: seq<Word>)
    requires SecondWords(X) && Operations(0, start, X) == Registers(0xc88d8bec, 0xa4a0dc8b, 0xe9edef99, 0xb0d18d1d)
    ensures Operations(8, start, X) == Registers(0x3527497e, 0x377c7d0a, 0x948347ae, 0xab92660e)
  {
    hide Operations, Uses;
    List1();
    NextA(0, start, X, 0xc88d8bec, 0xa4a0dc8b, 0xe9edef99, 0xb0d18d1d, 0, 0x38373635, 7, 0xd76aa478, 0x353af7cf);
    NextD(1, start, X, 0x353af7cf, 0xa4a0dc8b, 0xe9edef99, 0xb0d18d1d, 1, 0x32313039, 12, 0xe8c7b756, 0x3a4f735a);
    NextC(2, start, X, 0x353af7cf, 0xa4a0dc8b, 0xe9edef99, 0x3a4f735a, 2, 0x36353433, 17, 0x242070db, 0x63356537);
    NextB(3, start, X, 0x353af7cf, 0xa4a0dc8b, 0x63356537, 0x3a4f735a, 3, 0x30393837, 22, 0xc1bdceee, 0x45e88f2c);
    NextA(4, start, X, 0x353af7cf, 0x45e88f2c, 0x63356537, 0x3a4f735a, 4, 0x00000080, 7, 0xf57c0faf, 0x3527497e);
    NextD(5, start, X, 0x3527497e, 0x45e88f2c, 0x63356537, 0x3a4f735a, 5, 0x00000000, 12, 0x4787c62a, 0xab92660e);
    NextC(6, start, X, 0x3527497e, 0x45e88f2c, 0x63356537, 0xab92660e, 6, 0x00000000, 17, 0xa8304613, 0x948347ae);
    NextB(7, start, X, 0x3527497e, 0x45e88f2c, 0x948347ae, 0xab92660e, 7, 0x00000000, 22, 0xfd469501, 0x377c7d0a);
  }

  lemma SecondEight2(start: Registers, X: seq<Word>)
    requires SecondWords(X) && Operations(8, start, X) == Registers(0x3527497e, 0x377c7d0a, 0x948347ae, 0xab92660e)
    ensures Operations(16, start, X) == Registers(0xdb4ff71c, 0x58b12eab, 0x04396a39, 0x9b6b4960)
  {
    hide Operations, Uses;
    List2();
    NextA(8, start, X, 0x3527497e, 0x377c7d0a, 0x948347ae, 0xab92660e, 8, 0x00000000, 7, 0x698098d8, 0xcc912f27);
    NextD(9, start, X, 0xcc912f27, 0x377c7d0a, 0x948347ae, 0xab92660e, 9, 0x00000000, 12, 0x8b44f7af, 0x6945a3d5);
    NextC(10, start, X, 0xcc912f27, 0x377c7d0a, 0x948347ae, 0x6945a3d5, 10, 0x00000000, 17, 0xffff5bb1, 0xae23894d);
    NextB(11, start, X, 0xcc912f27, 0x377c7d0a, 0xae23894d, 0x6945a3d5, 11, 0x00000000, 22, 0x895cd7be, 0xb9ede40c);
    NextA(12, start, X, 0xcc912f27, 0xb9ede40c, 0xae23894d, 0x6945a3d5, 12, 0x00000000, 7, 0x6b901122, 0xdb4ff71c);
    NextD(13, start, X, 0xdb4ff71c, 0xb9ede40c, 0xae23894d, 0x6945a3d5, 13, 0x00000000, 12, 0xfd987193, 0x9b6b4960);
    NextC(14, start, X, 0xdb4ff71c, 0xb9ede40c, 0xae23894d, 0x9b6b4960, 14, 0x00000280, 17, 0xa679438e, 0x04396a39);
    NextB(15, start, X, 0xdb4ff71c, 0xb9ede40c, 0x04396a39, 0x9b6b4960, 15, 0x00000000, 22, 0x49b40821, 0x58b12eab);
  }

  lemma SecondEight3(start: Registers, X: seq<Word>)
    requires SecondWords(X) && Operations(16, start, X) == Registers(0xdb4ff71c, 0x58b12eab, 0x04396a39, 0x9b6b4960)
    ensures Operations(24, start, X) == Registers(0x0d6e6d91, 0x043cb080, 0xd5b7a850, 0x17d64195)
  {
    hide Operations, Uses;
    List3();
    NextA(16, start, X, 0xdb4ff71c, 0x58b12eab, 0x04396a39, 0x9b6b4960, 1, 0x32313039, 5, 0xf61e2562, 0x52c00cae);
    NextD(17, start, X, 0x52c00cae, 0x58b12eab, 0x04396a39, 0x9b6b4960, 6, 0x00000000, 9, 0xc040b340, 0xaad2a216);
    NextC(18, start, X, 0x52c00cae, 0x58b12eab, 0x04396a39, 0xaad2a216, 11, 0x00000000, 14, 0x265e5a51, 0xa476af6f);
    NextB(19, start, X, 0x52c00cae, 0x58b12eab, 0xa476af6f, 0xaad2a216, 0, 0x38373635, 20, 0xe9b6c7aa, 0x50f8de8c);
    NextA(20, start, X, 0x52c00cae, 0x50f8de8c, 0xa476af6f, 0xaad2a216, 5, 0x00000000, 5, 0xd62f105d, 0x0d6e6d91);
    NextD(21, start, X, 0x0d6e6d91, 0x50f8de8c, 0xa476af6f, 0xaad2a216, 10, 0x00000000, 9, 0x02441453, 0x17d64195);
    NextC(22, start, X, 0x0d6e6d91, 0x50f8de8c, 0xa476af6f, 0x17d64195, 15, 0x00000000, 14, 0xd8a1e681, 0xd5b7a850);
    NextB(23, start, X, 0x0d6e6d91, 0x50f8de8c, 0xd5b7a850, 0x17d64195, 4, 0x00000080, 20, 0xe7d3fbc8, 0x043cb080);
  }

  lemma SecondEight4(start: Registers, X: seq<Word>)
    requires SecondWords(X) && Operations(24, start, X) == Registers(0x0d6e6d91, 0x043cb080, 0xd5b7a850, 0x17d64195)
    ensures Operations(32, start, X) == Registers(0x8761f38e, 0x67092c33, 0x061bc867, 0x7a516116)
  {
    hide Operations, Uses;
    List4();
    NextA(24, start, X, 0x0d6e6d91, 0x043cb080, 0xd5b7a850, 0x17d64195, 9, 0x00000000, 5, 0x21e1cde6, 0x74f9377e);
    NextD(25, start, X, 0x74f9377e, 0x043cb080, 0xd5b7a850, 0x17d64195, 14, 0x00000280, 9, 0xc33707d6, 0x01f2addd);
    NextC(26, start, X, 0x74f9377e, 0x043cb080, 0xd5b7a850, 0x01f2addd, 3, 0x30393837, 14, 0xf4d50d87, 0xe775c8ca);
    NextB(27, start, X, 0x74f9377e, 0x043cb080, 0xe775c8ca, 0x01f2addd, 8, 0x00000000, 20, 0x455a14ed, 0xcb00b96e);
    NextA(28, start, X, 0x74f9377e, 0xcb00b96e, 0xe775c8ca, 0x01f2addd, 13, 0x00000000, 5, 0xa9e3e905, 0x8761f38e);
    NextD(29, start, X, 0x8761f38e, 0xcb00b96e, 0xe775c8ca, 0x01f2addd, 2, 0x36353433, 9, 0xfcefa3f8, 0x7a516116);
    NextC(30, start, X, 0x8761f38e, 0xcb00b96e, 0xe775c8ca, 0x7a516116, 7, 0x00000000, 14, 0x676f02d9, 0x061bc867);
    NextB(31, start, X, 0x8761f38e, 0xcb00b96e, 0x061bc867, 0x7a516116, 12, 0x00000000, 20, 0x8d2a4c8a, 0x67092c33);
  }

  lemma SecondEight5(start: Registers, X: seq<Word>)
    requires SecondWords(X) && Operations(32, start, X) == Registers(0x8761f38e, 0x67092c33, 0x061bc867, 0x7a516116)
    ensures Operations(40, start, X) == Registers(0xae26ed7d, 0xdbd1bff6, 0xff4a94dc, 0x71d8ecea)
  {
    hide Operations, Uses;
    List5();
    NextA(32, start, X, 0x8761f38e, 0x67092c33, 0x061bc867, 0x7a516116, 5, 0x00000000, 4, 0xfffa3942, 0x91044d5d);
    NextD(33, start, X, 0x91044d5d, 0x67092c33, 0x061bc867, 0x7a516116, 8, 0x00000000, 11, 0x8771f681, 0x610954eb);
    NextC(34, start, X, 0x91044d5d, 0x67092c33, 0x061bc867, 0x610954eb, 11, 0x00000000, 16, 0x6d9d6122, 0xc0175fa8);
    NextB(35, start, X, 0x91044d5d, 0x67092c33, 0xc0175fa8, 0x610954eb, 14, 0x00000280, 23, 0xfde5380c, 0x2ee1e3fe);
    NextA(36, start, X, 0x91044d5d, 0x2ee1e3fe, 0xc0175fa8, 0x610954eb, 1, 0x32313039, 4, 0xa4beea44, 0xae26ed7d);
    NextD(37, start, X, 0xae26ed7d, 0x2ee1e3fe, 0xc0175fa8, 0x610954eb, 4, 0x00000080, 11, 0x4bdecfa9, 0x71d8ecea);
    NextC(38, start, X, 0xae26ed7d, 0x2ee1e3fe, 0xc0175fa8, 0x71d8ecea, 7, 0x00000000, 16, 0xf6bb4b60, 0xff4a94dc);
    NextB(39, start, X, 0xae26ed7d, 0x2ee1e3fe, 0xff4a94dc, 0x71d8ecea, 10, 0x00000000, 23, 0xbebfbc70, 0xdbd1bff6);
  }

  lemma SecondEight6(start: Registers, X: seq<Word>)
    requires SecondWords(X) && Operations(40, start, X) == Registers(0xae26ed7d, 0xdbd1bff6, 0xff4a94dc, 0x71d8ecea)
    ensures Operations(48, start, X) == Registers(0x71123afa, 0x1df7010a, 0xe6a8a386, 0xdc9c8ddb)
  {
    hide Operations, Uses;
    List6();
    NextA(40, start, X, 0xae26ed7d, 0xdbd1bff6, 0xff4a94dc, 0x71d8ecea, 13, 0x00000000, 4, 0x289b7ec6, 0x9c350028);
    NextD(41, start, X, 0x9c350028, 0xdbd1bff6, 0xff4a94dc, 0x71d8ecea, 0, 0x38373635, 11, 0xeaa127fa, 0x97e5da92);
    NextC(42, start, X, 0x9c350028, 0xdbd1bff6, 0xff4a94dc, 0x97e5da92, 3, 0x30393837, 16, 0xd4ef3085, 0xfacaaf06);
    NextB(43, start, X, 0x9c350028, 0xdbd1bff6, 0xfacaaf06, 0x97e5da92, 6, 0x00000000, 23, 0x04881d05, 0x56b3692f);
    NextA(44, start, X, 0x9c350028, 0x56b3692f, 0xfacaaf06, 0x97e5da92, 9, 0x00000000, 4, 0xd9d4d039, 0x71123afa);
    NextD(45, start, X, 0x71123afa, 0x56b3692f, 0xfacaaf06, 0x97e5da92, 12, 0x00000000, 11, 0xe6db99e5, 0xdc9c8ddb);
    NextC(46, start, X, 0x71123afa, 0x56b3692f, 0xfacaaf06, 0xdc9c8ddb, 15, 0x00000000, 16, 0x1fa27cf8, 0xe6a8a386);
    NextB(47, start, X, 0x71123afa, 0x56b3692f, 0xe6a8a386, 0xdc9c8ddb, 2, 0x36353433, 23, 0xc4ac5665, 0x1df7010a);
  }

  lemma SecondEight7(start: Registers, X: seq<Word>)
    requires SecondWords(X) && Operations(48, start, X) == Registers(0x71123afa, 0x1df7010a, 0xe6a8a386, 0xdc9c8ddb)
    ensures Operations(56, start, X) == Registers(0x7a504abd, 0x9b31b114, 0xa290d6ce, 0x211cc65d)
  {
    hide Operations, Uses;
    List7();
    NextA(48, start, X, 0x71123afa, 0x1df7010a, 0xe6a8a386, 0xdc9c8ddb, 0, 0x38373635, 6, 0xf4292244, 0xd29007e7);
    NextD(49, start, X, 0xd29007e7, 0x1df7010a, 0xe6a8a386, 0xdc9c8ddb, 7, 0x00000000, 10, 0x432aff97, 0x7241a77e);
    NextC(50, start, X, 0xd29007e7, 0x1df7010a, 0xe6a8a386, 0x7241a77e, 14, 0x00000280, 15, 0xab9423a7, 0xd3248109);
    NextB(51, start, X, 0xd29007e7, 0x1df7010a, 0xd3248109, 0x7241a77e, 5, 0x00000000, 21, 0xfc93a039, 0xc8797828);
    NextA(52, start, X, 0xd29007e7, 0xc8797828, 0xd3248109, 0x7241a77e, 12, 0x00000000, 6, 0x655b59c3, 0x7a504abd);
    NextD(53, start, X, 0x7a504abd, 0xc8797828, 0xd3248109, 0x7241a77e, 3, 0x30393837, 10, 0x8f0ccc92, 0x211cc65d);
    NextC(54, start, X, 0x7a504abd, 0xc8797828, 0xd3248109, 0x211cc65d, 10, 0x00000000, 15, 0xffeff47d, 0xa290d6ce);
    NextB(55, start, X, 0x7a504abd, 0xc8797828, 0xa290d6ce, 0x211cc65d, 1, 0x32313039, 21, 0x85845dd1, 0x9b31b114);
  }

  lemma SecondEight8(start: Registers, X: seq<Word>)
    requires SecondWords(X) && Operations(56, start, X) == Registers(0x7a504abd, 0x9b31b114, 0xa290d6ce, 0x211cc65d)
    ensures Operations(64, start, X) == Registers(0xda67616b, 0xb12906a0, 0x44ec5a13, 0xc9e47a04)
  {
    hide Operations, Uses;
    List8();
    NextA(56, start, X, 0x7a504abd, 0x9b31b114, 0xa290d6ce, 0x211cc65d, 8, 0x00000000, 6, 0x6fa87e4f, 0x723fd22d);
    NextD(57, start, X, 0x723fd22d, 0x9b31b114, 0xa290d6ce, 0x211cc65d, 15, 0x00000000, 10, 0xfe2ce6e0, 0xd21d6a3b);
    NextC(58, start, X, 0x723fd22d, 0x9b31b114, 0xa290d6ce, 0xd21d6a3b, 6, 0x00000000, 15, 0xa3014314, 0x3d79cf74);
    NextB(59, start, X, 0x723fd22d, 0x9b31b114, 0x3d79cf74, 0xd21d6a3b, 13, 0x00000000, 21, 0x4e0811a1, 0x4dc4f33d);
    NextA(60, start, X, 0x723fd22d, 0x4dc4f33d, 0x3d79cf74, 0xd21d6a3b, 4, 0x00000080, 6, 0xf7537e82, 0xda67616b);
    NextD(61, start, X, 0xda67616b, 0x4dc4f33d, 0x3d79cf74, 0xd21d6a3b, 11, 0x00000000, 10, 0xbd3af235, 0xc9e47a04);
    NextC(62, start, X, 0xda67616b, 0x4dc4f33d, 0x3d79cf74, 0xc9e47a04, 2, 0x36353433, 15, 0x2ad7d2bb, 0x44ec5a13);
    NextB(63, start, X, 0xda67616b, 0x4dc4f33d, 0x44ec5a13, 0xc9e47a04, 9, 0x00000000, 21, 0xeb86d391, 0xb12906a0);
  }

  lemma SecondProcessed(block: seq<Byte>)
    requires |block| == 64 && SecondWords(BlockWords(block))
    ensures ProcessBlock(Registers(0xc88d8bec, 0xa4a0dc8b, 0xe9edef99, 0xb0d18d1d), block)
         == Registers(0xa2f4ed57, 0x55c9e32b, 0x2eda49ac, 0x7ab60721)
  {
    hide Operations, BlockWords, SecondWords;
    var start, X := Registers(0xc88d8bec, 0xa4a0dc8b, 0xe9edef99, 0xb0d18d1d), BlockWords(block);
    NoOperations(start, X);
    SecondEight1(start, X);
    SecondEight2(start, X);
    SecondEight3(start, X);
    SecondEight4(start, X);
    SecondEight5(start, X);
    SecondEight6(start, X);
    SecondEight7(start, X);
    SecondEight8(start, X);
    BlockFrom(start, block, Registers(0xda67616b, 0xb12906a0, 0x44ec5a13, 0xc9e47a04));
  }

  lemma DigitsOutput()
    ensures Output(Registers(0xa2f4ed57, 0x55c9e32b, 0x2eda49ac, 0x7ab60721))
         == [0x57, 0xed, 0xf4, 0xa2, 0x2b, 0xe3, 0xc9, 0x55, 0xac, 0x49, 0xda, 0x2e, 0x21, 0x07, 0xb6, 0x7a]
  {
    assert WordBytes(0xa2f4ed57) == [0x57, 0xed, 0xf4, 0xa2];
    assert WordBytes(0x55c9e32b) == [0x2b, 0xe3, 0xc9, 0x55];
    assert WordBytes(0x2eda49ac) == [0xac, 0x49, 0xda, 0x2e];
    assert WordBytes(0x7ab60721) == [0x21, 0x07, 0xb6, 0x7a];
    hide WordBytes;
  }

  const DIGITS: seq<Byte> := [0x31, 0x32, 0x33, 0x34, 0x35, 0x36, 0x37, 0x38, 0x39, 0x30]

  function EightyDigits(): (message: seq<Byte>)
    ensures |message| == 80
  {
    seq(80, i requires 0 <= i < 80 => DIGITS[i % 10])
  }

  lemma DigitsText()
    ensures |Padded(EightyDigits())| == 128
    ensures forall k | 0 <= k < 80 :: Padded(EightyDigits())[k] == DIGITS[k % 10]
    ensures Padded(EightyDigits())[80] == 0x80
    ensures Padded(EightyDigits())[120] == 0x80 && Padded(EightyDigits())[121] == 0x02
    ensures forall k | 81 <= k < 128 && k != 120 && k != 121 :: Padded(EightyDigits())[k] == 0
  {
    var text := Padded(EightyDigits());
    PaddedAt(EightyDigits());
    assert Zeros(80) == 39;
    DigitsLength();
    hide Padded, LengthBytes, Zeros;
    assert forall k | 0 <= k < 8 :: text[120 + k] == LengthBytes(640)[k];
    forall k | 122 <= k < 128
      ensures text[k] == LengthBytes(640)[k - 120] == 0
    {
    }
  }

  lemma DigitsLength()
    ensures LengthBytes(640) == [0x80, 0x02, 0, 0, 0, 0, 0, 0]
  {
    SmallLength(640);
    assert ByteOf(128) == 0x80 && ByteOf(2) == 0x02;
    hide LengthBytes, ByteOf;
  }

  lemma FirstBlock()
    ensures |Padded(EightyDigits())| == 128
    ensures FirstWords(BlockWords(Padded(EightyDigits())[..64]))
  {
    hide Padded, BlockWords, BytesWord, EightyDigits;
    DigitsText();
    var block := Padded(EightyDigits())[..64];
    forall k | 0 <= k < 16
      ensures BlockWords(block)[k] == BytesWord(DigitsAt(4 * k))
    {
      WordAt(block, k, DIGITS[4 * k % 10], DIGITS[(4 * k + 1) % 10], DIGITS[(4 * k + 2) % 10], DIGITS[(4 * k + 3) % 10]);
    }
    DigitWords();
    hide DigitsAt;
  }

  function DigitsAt(k: nat): (bytes: seq<Byte>)
    ensures |bytes| == 4
  {
    [DIGITS[k % 10], DIGITS[(k + 1) % 10], DIGITS[(k + 2) % 10], DIGITS[(k + 3) % 10]]
  }

  lemma DigitWords()
    ensures BytesWord(DigitsAt(0)) == 0x34333231
    ensures BytesWord(DigitsAt(4)) == 0x38373635
    ensures BytesWord(DigitsAt(8)) == 0x32313039
    ensures BytesWord(DigitsAt(12)) == 0x36353433
    ensures BytesWord(DigitsAt(16)) == 0x30393837
    ensures BytesWord(DigitsAt(20)) == 0x34333231
    ensures BytesWord(DigitsAt(24)) == 0x38373635
    ensures BytesWord(DigitsAt(28)) == 0x32313039
    ensures BytesWord(DigitsAt(32)) == 0x36353433
    ensures BytesWord(DigitsAt(36)) == 0x30393837
    ensures BytesWord(DigitsAt(40)) == 0x34333231
    ensures BytesWord(DigitsAt(44)) == 0x38373635
    ensures BytesWord(DigitsAt(48)) == 0x32313039
    ensures BytesWord(DigitsAt(52)) == 0x36353433
    ensures BytesWord(DigitsAt(56)) == 0x30393837
    ensures BytesWord(DigitsAt(60)) == 0x34333231
  {
    DigitWord0();
    DigitWord1();
    DigitWord2();
    DigitWord3();
    DigitWord4();
    hide BytesWord;
    assert DigitsAt(20) == DigitsAt(0);
    assert DigitsAt(24) == DigitsAt(4);
    assert DigitsAt(28) == DigitsAt(8);
    assert DigitsAt(32) == DigitsAt(12);
    assert DigitsAt(36) == DigitsAt(16);
    assert DigitsAt(40) == DigitsAt(0);
    assert DigitsAt(44) == DigitsAt(4);
    assert DigitsAt(48) == DigitsAt(8);
    assert DigitsAt(52) == DigitsAt(12);
    assert DigitsAt(56) == DigitsAt(16);
    assert DigitsAt(60) == DigitsAt(0);
  }

  lemma DigitWord0()
    ensures BytesWord(DigitsAt(0)) == 0x34333231
  {
    assert DigitsAt(0) == [0x31, 0x32, 0x33, 0x34];
  }

  lemma DigitWord1()
    ensures BytesWord(DigitsAt(4)) == 0x38373635
  {
    assert DigitsAt(4) == [0x35, 0x36, 0x37, 0x38];
  }

  lemma DigitWord2()
    ensures BytesWord(DigitsAt(8)) == 0x32313039
  {
    assert DigitsAt(8) == [0x39, 0x30, 0x31, 0x32];
  }

  lemma DigitWord3()
    ensures BytesWord(DigitsAt(12)) == 0x36353433
  {
    assert DigitsAt(12) == [0x33, 0x34, 0x35, 0x36];
  }

  lemma DigitWord4()
    ensures BytesWord(DigitsAt(16)) == 0x30393837
  {
    assert DigitsAt(16) == [0x37, 0x38, 0x39, 0x30];
  }

  lemma SecondBlock()
    ensures |Padded(EightyDigits())| == 128
    ensures SecondWords(BlockWords(Padded(EightyDigits())[64..]))
  {
    hide Padded, BlockWords, BytesWord, EightyDigits;
    DigitsText();
    var text := Padded(EightyDigits());
    var block := text[64..];
    assert forall k | 0 <= k < 64 :: block[k] == text[64 + k];
    forall k | 0 <= k < 4
      ensures BlockWords(block)[k] == BytesWord(DigitsAt(4 * k + 64))
    {
      WordAt(block, k, DIGITS[(4 * k + 64) % 10], DIGITS[(4 * k + 65) % 10], DIGITS[(4 * k + 66) % 10],
             DIGITS[(4 * k + 67) % 10]);
    }
    WordAt(block, 4, 0x80, 0, 0, 0);
    WordAt(block, 14, 0x80, 0x02, 0, 0);
    forall k | 5 <= k < 16 && k != 14
      ensures BlockWords(block)[k] == BytesWord([0, 0, 0, 0])
    {
      WordAt(block, k, 0, 0, 0, 0);
    }
    MarkerWord();
    LengthWord();
    LastDigitWords();
    hide DigitsAt;
  }

  lemma LengthWord()
    ensures BytesWord([0x80, 0x02, 0, 0]) == 0x280
  {
  }

  lemma LastDigitWords()
    ensures BytesWord(DigitsAt(64)) == 0x38373635
    ensures BytesWord(DigitsAt(68)) == 0x32313039
    ensures BytesWord(DigitsAt(72)) == 0x36353433
    ensures BytesWord(DigitsAt(76)) == 0x30393837
  {
    DigitWord0();
    DigitWord1();
    DigitWord2();
    DigitWord3();
    DigitWord4();
    hide BytesWord;
    assert DigitsAt(64) == DigitsAt(4);
    assert DigitsAt(68) == DigitsAt(8);
    assert DigitsAt(72) == DigitsAt(12);
    assert DigitsAt(76) == DigitsAt(16);
  }

  lemma TwoBlocks(text: seq<Byte>)
    requires |text| == 128
    ensures ProcessBlocks(INITIAL, text) == ProcessBlock(ProcessBlock(INITIAL, text[..64]), text[64..])
  {
    hide ProcessBlock;
    var rest := text[64..];
    assert rest[..64] == rest && rest[64..] == [];
    assert forall r :: ProcessBlocks(r, rest) == ProcessBlocks(ProcessBlock(r, rest[..64]), rest[64..]);
  }

  /** MD5 ("1234567890" eight times) = 57edf4a22be3c955ac49da2e2107b67a */
  lemma DigitsDigest()
    ensures Digest(EightyDigits())
         == [0x57, 0xed, 0xf4, 0xa2, 0x2b, 0xe3, 0xc9, 0x55, 0xac, 0x49, 0xda, 0x2e, 0x21, 0x07, 0xb6, 0x7a]
  {
    hide Padded, ProcessBlock, ProcessBlocks, Output, BlockWords, FirstWords, SecondWords, EightyDigits;
    DigitsText();
    FirstBlock();
    SecondBlock();
    var text := Padded(EightyDigits());
    TwoBlocks(text);
    FirstProcessed(text[..64]);
    SecondProcessed(text[64..]);
    DigitsOutput();
  }
}
