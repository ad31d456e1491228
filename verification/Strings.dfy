/**
  The length-carrying string buffers of `src/sstrings.h` and their trimming in place.

  A buffer has room for `cap` characters and a final NUL. `len` is what the header says; the
  C string inside is what precedes the first NUL, and it may be shorter.
 */
module Strings {

  const NUL: char := 0 as char

  /** The argument of the trim functions: a null pointer stands for the default characters. */
  datatype TrimChars = Default | Given(chars: string)

  const LEFT_DEFAULT := " \t\r\n"
  const RIGHT_DEFAULT := "\r \t\n"

  predicate NoNul(s: string) {
    forall k | 0 <= k < |s| :: s[k] != NUL
  }

  // ----- stripping, on values -----

  /** How many characters at the start of `s` are all in `c`, up to the first that is not. */
  function Leading(s: string, c: string): (n: nat)
    ensures n <= |s|
    ensures forall k | 0 <= k < n :: s[k] in c
    ensures n < |s| ==> s[n] !in c
  {
    if s == "" || s[0] !in c then 0 else 1 + Leading(s[1..], c)
  }

  function Trailing(s: string, c: string): (n: nat)
    ensures n <= |s|
    ensures forall k | |s| - n <= k < |s| :: s[k] in c
    ensures n < |s| ==> s[|s| - n - 1] !in c
  {
    if s == "" || s[|s| - 1] !in c then 0 else 1 + Trailing(s[..|s| - 1], c)
  }

  function StripLeft(s: string, c: string): string {
    s[Leading(s, c)..]
  }

  function StripRight(s: string, c: string): string {
    s[..|s| - Trailing(s, c)]
  }

  /** What trimming is for: no character of `c` remains at either end. */
  function Strip(s: string, c: string): string {
    StripRight(StripLeft(s, c), c)
  }

  predicate Stripped(s: string, c: string) {
    s == "" || (s[0] !in c && s[|s| - 1] !in c)
  }

  /** The two ensures of `Leading` determine it. */
  lemma {:induction false} LeadingIs(s: string, c: string, n: nat)
    requires n <= |s| && (forall k | 0 <= k < n :: s[k] in c) && (n < |s| ==> s[n] !in c)
    ensures Leading(s, c) == n
  {
    if n > 0 {
      LeadingIs(s[1..], c, n - 1);
    }
  }

  lemma StripIsStripped(s: string, c: string)
    ensures Stripped(Strip(s, c), c)
    ensures Strip(s, c) <= StripLeft(s, c)
  {
    var t := StripLeft(s, c);
    if Trailing(t, c) < |t| {
      assert t[0] == s[Leading(s, c)];
    }
  }

  lemma StrippedStays(s: string, c: string)
    ensures Stripped(s, c) <==> Strip(s, c) == s
  {
    StripIsStripped(s, c);
    if Stripped(s, c) && s != "" {
      assert Leading(s, c) == 0;
      assert Trailing(s, c) == 0;
    }
  }

  lemma StripTwice(s: string, c: string)
    ensures Strip(Strip(s, c), c) == Strip(s, c)
  {
    StripIsStripped(s, c);
    StrippedStays(Strip(s, c), c);
  }

  /** The order in which the trim characters are listed does not matter. */
  lemma {:induction false} LeadingOfSameChars(s: string, c: string, d: string)
    requires forall x :: x in c <==> x in d
    ensures Leading(s, c) == Leading(s, d)
  {
    if s != "" && s[0] in c {
      LeadingOfSameChars(s[1..], c, d);
    }
  }

  lemma {:induction false} TrailingOfSameChars(s: string, c: string, d: string)
    requires forall x :: x in c <==> x in d
    ensures Trailing(s, c) == Trailing(s, d)
  {
    if s != "" && s[|s| - 1] in c {
      TrailingOfSameChars(s[..|s| - 1], c, d);
    }
  }

  lemma SameRightStrip(s: string)
    ensures StripRight(s, RIGHT_DEFAULT) == StripRight(s, LEFT_DEFAULT)
  {
    TrailingOfSameChars(s, RIGHT_DEFAULT, LEFT_DEFAULT);
  }

  /** Strings of trim characters only are stripped to nothing. */
  lemma {:induction false} TrailingOfAll(s: string, c: string)
    requires forall k | 0 <= k < |s| :: s[k] in c
    ensures Trailing(s, c) == |s|
  {
    if s != "" {
      TrailingOfAll(s[..|s| - 1], c);
    }
  }

  // ----- the buffers -----

  /** A `len` beyond this is taken for uninitialised, and measured again. */
  const LEN_LIMIT := 100000

  /** What `_grrrs_trim_left` leaves of a C string `s` when `nuls` NULs inside `len` follow it.
      A string of nothing but trim characters is not emptied: its first `nuls` characters stay. */
  function LeftTrimmed(s: string, nuls: nat, c: string): string {
    if StripLeft(s, c) == "" && nuls < |s| then s[..nuls]
    else if StripLeft(s, c) == "" then s
    else StripLeft(s, c)
  }

  /** A text of trim characters only, with NULs inside `len` behind it: the left trim moves nothing to
      the front but cuts the text down to as many characters as there are NULs. */
  lemma BlankLeftTrimmed(s: string, nuls: nat, c: string)
    requires forall k | 0 <= k < |s| :: s[k] in c
    ensures LeftTrimmed(s, nuls, c) == s[..if nuls < |s| then nuls else |s|]
  {
    LeadingIs(s, c, |s|);
    hide Leading;
  }

  lemma NothingToTrim(s: string, nuls: nat, c: string)
    requires Leading(s, c) == 0
    ensures LeftTrimmed(s, nuls, c) == s
  {
  }

  /** The buffer's text after the left trim has moved `newLen` characters down from `from`. */
  lemma MovedText(s: string, c: string, before: seq<char>, after: seq<char>, len: nat, from: nat)
    requires |s| <= len < |before| == |after| && NoNul(s)
    requires before[..|s|] == s && forall k | |s| <= k <= len :: before[k] == NUL
    requires from == if Leading(s, c) < |s| then Leading(s, c) else 0
    requires var newLen := len - Leading(s, c);
             && after[..newLen] == before[from..from + newLen]
             && forall k | newLen <= k <= len :: after[k] == NUL
    ensures var t, newLen := LeftTrimmed(s, len - |s|, c), len - Leading(s, c);
            && |t| <= newLen && NoNul(t) && after[..|t|] == t
            && forall k | |t| <= k <= newLen :: after[k] == NUL
  {
    var t, newLen := LeftTrimmed(s, len - |s|, c), len - Leading(s, c);
    forall k | 0 <= k <= newLen
      ensures after[k] == if k < |t| then t[k] else NUL
    {
      if k < newLen {
        assert after[k] == after[..newLen][k] == before[from + k];
        assert from + k < |s| ==> before[from + k] == before[..|s|][from + k];
      }
    }
  }

  class GrrrString {
    const data: array<char>
    const cap: nat
    var len: nat

    ghost predicate Valid()
      reads this
    {
      data.Length == cap + 1 && len <= cap
    }

    /** `s` is the C string in the buffer, and nothing but NULs follows it inside `len`. */
    ghost predicate Holds(s: string)
      reads this, data
    {
      && Valid()
      && NoNul(s)
      && |s| <= len
      && data[..|s|] == s
      && forall k | |s| <= k <= len :: data[k] == NUL
    }

    /** `_grrrs_new_empty` */
    constructor Empty(cap: nat)
      ensures Holds("") && this.cap == cap && len == 0 && fresh(data)
      ensures forall k | 0 <= k <= cap :: data[k] == NUL
    {
      this.cap := cap;
      len := 0;
      data := new char[cap + 1](_ => NUL);
    }

    /** `_grrrs_new_from_cstring` */
    constructor FromCString(s: string)
      requires NoNul(s)
      ensures Holds(s) && cap == len == |s| && fresh(data)
    {
      cap := |s|;
      len := |s|;
      data := new char[|s| + 1](k requires 0 <= k => if k < |s| then s[k] else NUL);
    }

    /** `__strlen` on this buffer. */
    method StrLen(ghost s: string) returns (n: nat)
      requires Holds(s)
      ensures n == |s|
    {
      n := 0;
      while data[n] != NUL
        invariant 0 <= n <= |s|
        decreases |s| - n
      {
        n := n + 1;
      }
    }

    /** The length that trimming starts from. */
    ghost function StartLen(s: string): nat
      reads this
    {
      if len > 100000 then |s| else len
    }

    /** `_grrrs_trim_left` */
    method TrimLeft(chars: TrimChars, ghost s: string)
      requires Holds(s) && (chars.Given? ==> NoNul(chars.chars))
      modifies this, data
      ensures var c := if chars.Default? then LEFT_DEFAULT else chars.chars;
              && Holds(LeftTrimmed(s, old(StartLen(s)) - |s|, c))
              && len == old(StartLen(s)) - Leading(s, c)
    {
      if len > LEN_LIMIT {
        len := StrLen(s);
      }
      var c := if chars.Default? then LEFT_DEFAULT else chars.chars;
      TrimLeftOf(c, s);
    }

    /** The left trim once the characters and the starting length are settled. */
    method TrimLeftOf(c: string, ghost s: string)
      requires Holds(s)
      modifies this, data
      ensures Holds(LeftTrimmed(s, old(len) - |s|, c))
      ensures len == old(len) - Leading(s, c)
    {
      ghost var lead := Leading(s, c);
      assert lead <= |s| <= len;
      hide LeftTrimmed, NoNul, Leading;
      var trimEnd, newLen := FindLeft(c, s);
      if newLen == len {
        NothingToTrim(s, len - |s|, c);
        return;
      }
      if trimEnd < 0 { trimEnd := 0; }
      ghost var before := data[..];
      MoveDown(trimEnd, newLen);
      MovedText(s, c, before, data[..], len, trimEnd);
      len := newLen;
    }

    /** The outer loop of `_grrrs_trim_left`: where the text to keep starts (-1 for nowhere), and
        how many characters are kept. */
    method FindLeft(c: string, ghost s: string) returns (trimEnd: int, newLen: nat)
      requires Holds(s)
      ensures newLen == len - Leading(s, c)
      ensures c != "" ==> trimEnd == if Leading(s, c) < |s| then Leading(s, c) else -1
    {
      ghost var lead := Leading(s, c);
      trimEnd, newLen := -1, len;
      var i := 0;
      while i < len
        invariant 0 <= i <= len && trimEnd == -1
        invariant newLen == len - if c == "" then 0 else if i < |s| then i else |s|
        invariant c != "" ==> i <= lead || lead == |s|
      {
        trimEnd, newLen := ScanLeft(c, i, newLen, trimEnd, s);
        if trimEnd >= 0 {
          break;
        }
        i := i + 1;
      }
    }

    /** The copy through `temp`, and the NULs after it. */
    method MoveDown(from: nat, newLen: nat)
      requires Valid() && from + newLen <= len
      modifies data
      ensures data[..newLen] == old(data[from..from + newLen])
      ensures forall k | newLen <= k < len :: data[k] == NUL
      ensures data[len] == old(data[len])
    {
      var temp := new char[newLen + 1];
      var k := 0;
      while k < newLen
        invariant 0 <= k <= newLen
        invariant temp[..k] == data[from..from + k] && data[..] == old(data[..])
      {
        temp[k] := data[from + k];
        k := k + 1;
      }
      ghost var moved := temp[..newLen];
      k := 0;
      while k < newLen
        invariant 0 <= k <= newLen
        invariant data[..k] == moved[..k] && temp[..newLen] == moved
        invariant data[len] == old(data[len])
      {
        data[k] := temp[k];
        k := k + 1;
      }
      while k < len
        invariant newLen <= k <= len
        invariant data[..newLen] == moved
        invariant forall j | newLen <= j < k :: data[j] == NUL
        invariant data[len] == old(data[len])
      {
        data[k] := NUL;
        k := k + 1;
      }
    }

    /** The inner loop of `_grrrs_trim_left`. */
    method ScanLeft(c: string, i: nat, newLen0: nat, trimEnd0: int, ghost s: string)
      returns (trimEnd: int, newLen: nat)
      requires Holds(s) && i < len && trimEnd0 == -1 && newLen0 > 0
      ensures i < |s| && s[i] in c ==> trimEnd == -1 && newLen == newLen0 - 1
      ensures i >= |s| || c == "" ==> trimEnd == -1 && newLen == newLen0
      ensures i < |s| && s[i] !in c && c != "" ==> trimEnd == i && newLen == newLen0
    {
      trimEnd, newLen := trimEnd0, newLen0;
      var j := 0;
      while j < |c|
        invariant 0 <= j <= |c|
        invariant newLen == newLen0 && trimEnd == if j == |c| && j > 0 then i else -1
        invariant j > 0 ==> i < |s| && s[i] !in c[..j]
      {
        if data[i] == NUL {
          assert i >= |s|;
          return;
        }
        assert i < |s| && data[i] == s[i];
        if data[i] == c[j] {
          newLen := newLen - 1;
          return;
        }
        if j == |c| - 1 {
          trimEnd := i;
        }
        j := j + 1;
      }
      assert c[..|c|] == c;
    }

    /** `_grrrs_trim_right` */
    method TrimRight(chars: TrimChars, ghost s: string)
      requires Holds(s) && (chars.Given? ==> NoNul(chars.chars))
      modifies this, data
      ensures var c := if chars.Default? then RIGHT_DEFAULT else chars.chars;
              && Holds(StripRight(s, c))
              && len == (if c == "" then old(StartLen(s))
                         else if old(StartLen(s)) == |s| then |StripRight(s, c)| else |StripRight(s, c)| + 1)
    {
      if len > LEN_LIMIT {
        len := StrLen(s);
      }
      var c := if chars.Default? then RIGHT_DEFAULT else chars.chars;
      var newLen := CutRight(c, s);
      len := newLen;
    }

    /** The outer loop of `_grrrs_trim_right`. */
    method CutRight(c: string, ghost s: string) returns (newLen: nat)
      requires Holds(s)
      modifies data
      ensures RightScanned(s, c, if c == "" then |s| else |s| - Trailing(s, c))
      ensures newLen == if c == "" then len else |s| - Trailing(s, c) + if len == |s| then 0 else 1
    {
      var stop := false;
      newLen := len;
      var i := len - 1;
      while i >= 0
        invariant -1 <= i < len && Valid() && !stop
        invariant RightScanned(s, c, i + 1)
        invariant newLen == RightScanLen(s, c, i + 1, len)
        decreases i
      {
        stop, newLen := ScanRight(c, i, newLen, s);
        if stop {
          break;
        }
        i := i - 1;
      }
    }

    /** The buffer when the right trim has passed over everything from index `done` on. */
    ghost predicate RightScanned(s: string, c: string, done: nat)
      requires Valid() && NoNul(s)
      reads this, data
    {
      && |s| <= len
      && (c == "" || done >= |s| ==> Holds(s))
      && (c != "" && done < |s| ==>
            && |s| - Trailing(s, c) <= done
            && data[..done] == s[..done]
            && forall k | done <= k <= len :: data[k] == NUL)
    }

    static ghost function RightScanLen(s: string, c: string, done: nat, startLen: nat): nat
    {
      if c == "" || done == startLen then startLen
      else if done >= |s| then done + 1
      else done + if startLen == |s| then 0 else 1
    }

    /** The inner loop of `_grrrs_trim_right`. */
    method ScanRight(c: string, i: nat, newLen0: nat, ghost s: string) returns (stop: bool, newLen: nat)
      requires Valid() && NoNul(s) && RightScanned(s, c, i + 1) && i < len && newLen0 > 0
      modifies data
      ensures forall k | 0 <= k < data.Length && k != i :: data[k] == old(data[k])
      ensures c == "" || i >= |s| ==> data[i] == old(data[i]) && !stop
      ensures newLen == if c == "" then newLen0
                        else if i >= |s| then i + 1
                        else if s[i] in c then newLen0 - 1 else newLen0
      ensures c != "" && i < |s| ==> stop == (s[i] !in c) && data[i] == if s[i] in c then NUL else s[i]
    {
      stop, newLen := false, newLen0;
      var j := 0;
      while j < |c|
        invariant 0 <= j <= |c|
        invariant newLen == newLen0 && stop == (j == |c| && j > 0)
        invariant j > 0 ==> i < |s| && s[i] !in c[..j]
        invariant data[..] == old(data[..])
      {
        if data[i] == NUL {
          newLen := i + 1;
          return;
        }
        if data[i] == c[j] {
          data[i] := NUL;
          newLen := newLen - 1;
          return;
        }
        if j == |c| - 1 {
          stop := true;
        }
        j := j + 1;
      }
      assert c[..|c|] == c;
    }

    /** The `grrrs_trim` macro. */
    method Trim(chars: TrimChars, ghost s: string)
      requires Holds(s) && (chars.Given? ==> NoNul(chars.chars))
      modifies this, data
      ensures var c := if chars.Default? then LEFT_DEFAULT else chars.chars;
              && Holds(Strip(s, c))
              && len == TrimmedLen(s, old(StartLen(s)) - |s|, c)
    {
      ghost var c := if chars.Default? then LEFT_DEFAULT else chars.chars;
      ghost var nuls := StartLen(s) - |s|;
      ghost var t := LeftTrimmed(s, nuls, c);
      hide LeftTrimmed, StripRight, Strip, TrimmedLen, NoNul;
      TrimLeft(chars, s);
      TrimRight(chars, t);
      SameRightStrip(t);
      LeftThenRight(s, nuls, c);
    }
  }

  /** The final `len`: the length of the C string, and one more when a NUL inside `len`
      followed it when the right end was trimmed. */
  function TrimmedLen(s: string, nuls: nat, c: string): nat {
    if c == "" then |s| + nuls
    else if nuls > 0 && (StripLeft(s, c) != "" || nuls > |s| || s == "") then |Strip(s, c)| + 1
    else |Strip(s, c)|
  }

  /** Although the left trim may stop early on a string of trim characters only, the two
      passes together strip both ends. */
  lemma LeftThenRight(s: string, nuls: nat, c: string)
    ensures StripRight(LeftTrimmed(s, nuls, c), c) == Strip(s, c)
    ensures var t, len := LeftTrimmed(s, nuls, c), |s| + nuls - Leading(s, c);
            && len >= |t|
            && (nuls == 0 ==> len == |t|)
            && TrimmedLen(s, nuls, c) == if c == "" then len
                                         else if len == |t| then |Strip(s, c)| else |Strip(s, c)| + 1
  {
    if StripLeft(s, c) == "" {
      TrailingOfAll(LeftTrimmed(s, nuls, c), c);
      TrailingOfAll("", c);
    }
  }

  /** A buffer with no NUL inside `len`, such as `_grrrs_new_from_cstring` makes, ends with
      `len` equal to the length of its C string. */
  lemma TrimmedLenWithoutNuls(s: string, c: string)
    ensures c != "" ==> TrimmedLen(s, 0, c) == |Strip(s, c)|
    ensures c == "" ==> Strip(s, c) == s && TrimmedLen(s, 0, c) == |s|
  {
    if c == "" {
      StrippedStays(s, c);
    }
  }
}
