/**
 UTF-8 alignment of streamed text: the backward scan that decides how many trailing bytes to
 hold back, against the byte syntax of section 4 of RFC 3629.
 */
module Utf8 {
  import opened Bytes

  predicate IsCont(b: Byte) {
    b & 0xC0 == 0x80
  }

  /** Sequence length announced by a non-continuation byte, as the mask tests of the scan read it. */
  function Need(b: Byte): nat {
    if b & 0xE0 == 0xC0 then 2
    else if b & 0xF0 == 0xE0 then 3
    else if b & 0xF8 == 0xF0 then 4
    else 1
  }

  function TailFrom(s: seq<Byte>, cont: nat): (r: nat)
    requires cont <= 4 && cont <= |s|
    ensures r <= 4 && r <= |s|
    decreases 4 - cont
  {
    if cont < 4 && cont < |s| then
      var c := s[|s| - 1 - cont];
      if IsCont(c) then TailFrom(s, cont + 1)
      else if cont + 1 < Need(c) then cont + 1
      else 0
    else
      cont
  }

  /** Number of trailing bytes held back. */
  function Tail(s: seq<Byte>): (r: nat)
    ensures r <= 4 && r <= |s|
  {
    TailFrom(s, 0)
  }

  /** The scan as the source runs it, on the first `len` bytes of a buffer. */
  method ScanTail(a: array<Byte>, len: nat) returns (r: nat)
    requires len <= a.Length
    ensures r == Tail(a[..len])
  {
    var cont := 0;
    while cont < 4 && cont < len
      invariant cont <= 4 && cont <= len
      invariant Tail(a[..len]) == TailFrom(a[..len], cont)
    {
      var c := a[len - 1 - cont];
      if IsCont(c) {
        cont := cont + 1;
        continue;
      }
      return if cont + 1 < Need(c) then cont + 1 else 0;
    }
    return cont;
  }

  lemma {:induction false} TailFromIsFour(s: seq<Byte>, cont: nat)
    requires cont <= 4 && cont <= |s| && forall i :: |s| - cont <= i < |s| ==> IsCont(s[i])
    ensures TailFrom(s, cont) == 4 <==> |s| >= 4 && forall i :: |s| - 4 <= i < |s| ==> IsCont(s[i])
    decreases 4 - cont
  {
    if cont < 4 && cont < |s| && IsCont(s[|s| - 1 - cont]) {
      TailFromIsFour(s, cont + 1);
    }
  }

  /** The scan returns 4, one more than its documentation allows, exactly on four trailing continuation bytes. */
  lemma {:induction false} TailIsFourIff(s: seq<Byte>)
    ensures Tail(s) == 4 <==> |s| >= 4 && forall i :: |s| - 4 <= i < |s| ==> IsCont(s[i])
  {
    TailFromIsFour(s, 0);
  }

  lemma {:induction false} FourContinuationBytes()
    ensures Tail([0x80, 0x80, 0x80, 0x80]) == 4
  {
    TailIsFourIff([0x80, 0x80, 0x80, 0x80]);
  }

  // ---------------------------------------------------------------- RFC 3629, section 4

  predicate InRange(b: Byte, lo: Byte, hi: Byte) {
    lo <= b <= hi
  }

  /** Length of the character a lead byte starts; 0 for a byte that starts none. */
  function CharLen(b: Byte): nat {
    if b <= 0x7F then 1
    else if InRange(b, 0xC2, 0xDF) then 2
    else if InRange(b, 0xE0, 0xEF) then 3
    else if InRange(b, 0xF0, 0xF4) then 4
    else 0
  }

  /** UTF8-1, UTF8-2, UTF8-3 and UTF8-4 of the RFC's grammar. */
  predicate IsChar(s: seq<Byte>) {
    && 1 <= |s| <= 4
    && CharLen(s[0]) == |s|
    && (|s| == 3 && s[0] == 0xE0 ==> s[1] >= 0xA0)
    && (|s| == 3 && s[0] == 0xED ==> s[1] <= 0x9F)
    && (|s| == 4 && s[0] == 0xF0 ==> s[1] >= 0x90)
    && (|s| == 4 && s[0] == 0xF4 ==> s[1] <= 0x8F)
    && forall i :: 1 <= i < |s| ==> InRange(s[i], 0x80, 0xBF)
  }

  predicate WellFormed(s: seq<Byte>)
    decreases |s|
  {
    s == [] ||
    (var n := CharLen(s[0]);
     1 <= n <= |s| && IsChar(s[..n]) && WellFormed(s[n..]))
  }

  /** `s` can be continued to well-formed text. */
  ghost predicate IsPrefix(s: seq<Byte>) {
    exists t :: WellFormed(s + t)
  }

  /** A character with its last bytes missing: nonempty, and completed by something nonempty. */
  ghost predicate IsPartialChar(s: seq<Byte>) {
    s != [] && exists t :: t != [] && IsChar(s + t)
  }

  // ---------------------------------------------------------------- masks and ranges agree

  lemma {:induction false} LeadByte(b: Byte)
    requires CharLen(b) >= 1
    ensures !IsCont(b) && Need(b) == CharLen(b)
  {
  }

  lemma {:induction false} ContByte(b: Byte)
    ensures InRange(b, 0x80, 0xBF) <==> IsCont(b)
  {
  }

  /** Every nonempty proper or improper prefix of a character: lead byte, then continuations. */
  lemma {:induction false} CharShape(s: seq<Byte>, t: seq<Byte>)
    requires IsChar(s + t) && s != []
    ensures !IsCont(s[0]) && Need(s[0]) == |s + t|
    ensures forall i :: 1 <= i < |s| ==> IsCont(s[i])
  {
    var c := s + t;
    assert c[0] == s[0];
    LeadByte(s[0]);
    forall i | 1 <= i < |s| ensures IsCont(s[i]) {
      assert c[i] == s[i];
      ContByte(s[i]);
    }
  }

  // ---------------------------------------------------------------- the scan on well-formed text

  /** On a lead byte followed by continuation bytes only, the scan reaches the lead byte. */
  lemma {:induction false} TailOfRun(s: seq<Byte>, cont: nat)
    requires 1 <= |s| <= 4 && cont < |s|
    requires !IsCont(s[0]) && forall i :: 1 <= i < |s| ==> IsCont(s[i])
    ensures TailFrom(s, cont) == if |s| < Need(s[0]) then |s| else 0
    decreases 4 - cont
  {
    if cont < |s| - 1 {
      TailOfRun(s, cont + 1);
    }
  }

  /** What stands before a stretch that begins with a lead byte does not change the scan. */
  lemma {:induction false} TailIgnoresFront(front: seq<Byte>, s: seq<Byte>, cont: nat)
    requires s != [] && !IsCont(s[0])
    requires cont <= 4 && cont < |s|
    requires forall i :: |s| - cont <= i < |s| ==> IsCont(s[i])
    ensures TailFrom(front + s, cont) == TailFrom(s, cont)
    decreases 4 - cont
  {
    if cont < 4 {
      var c := s[|s| - 1 - cont];
      assert c == (front + s)[|front + s| - 1 - cont];
      if IsCont(c) {
        assert cont + 1 < |s|;
        TailIgnoresFront(front, s, cont + 1);
      }
    }
  }

  /** A nonempty start of well-formed text begins with a lead byte. */
  lemma {:induction false} PrefixStartsWithLead(s: seq<Byte>, t: seq<Byte>)
    requires WellFormed(s + t) && s != []
    ensures !IsCont(s[0])
  {
    assert (s + t)[0] == s[0];
    LeadByte(s[0]);
  }

  /** A start that ends inside its first character is held back whole. */
  lemma {:induction false} TailInsideFirstChar(s: seq<Byte>, t: seq<Byte>)
    requires WellFormed(s + t) && s != [] && |s| < CharLen(s[0])
    ensures Tail(s) == |s| <= 3 && IsPartialChar(s)
  {
    var n := CharLen((s + t)[0]);
    var rest := t[..n - |s|];
    assert (s + t)[..n] == s + rest;
    CharShape(s, rest);
    TailOfRun(s, 0);
  }

  /** A complete first character does not change the scan of what follows it. */
  lemma {:induction false} TailAfterFirstChar(c: seq<Byte>, s: seq<Byte>, t: seq<Byte>)
    requires IsChar(c) && WellFormed(s + t)
    ensures Tail(c + s) == Tail(s)
  {
    if s == [] {
      assert c + [] == c;
      CharShape(c, []);
      TailOfRun(c, 0);
    } else {
      PrefixStartsWithLead(s, t);
      TailIgnoresFront(c, s, 0);
    }
  }

  lemma {:induction false} WellFormedCharThen(c: seq<Byte>, s: seq<Byte>)
    requires IsChar(c) && WellFormed(s)
    ensures WellFormed(c + s)
  {
    assert (c + s)[..|c|] == c && (c + s)[|c|..] == s;
  }

  lemma {:induction false} FirstCharOf(s: seq<Byte>, t: seq<Byte>) returns (c: seq<Byte>, rest: seq<Byte>)
    requires WellFormed(s + t) && s != [] && |s| >= CharLen(s[0])
    ensures s == c + rest && IsChar(c) && WellFormed(rest + t)
  {
    assert (s + t)[0] == s[0];
    var n := CharLen(s[0]);
    c, rest := s[..n], s[n..];
    assert (s + t)[..n] == c && (s + t)[n..] == rest + t;
  }

  /** `s` is well-formed text followed by `h` bytes of an incomplete character. */
  ghost predicate HoldsBack(s: seq<Byte>, h: nat) {
    && h <= 3 && h <= |s|
    && WellFormed(s[..|s| - h])
    && (h == 0 || IsPartialChar(s[|s| - h..]))
  }

  lemma {:induction false} HoldsBackAfterChar(c: seq<Byte>, s: seq<Byte>, h: nat)
    requires IsChar(c) && HoldsBack(s, h)
    ensures HoldsBack(c + s, h)
  {
    var k := |s| - h;
    assert (c + s)[..|c| + k] == c + s[..k];
    assert (c + s)[|c|..] == s && (c + s)[|c| + k..] == (c + s)[|c|..][k..];
    WellFormedCharThen(c, s[..k]);
  }

  /**
   The hold-back theorem: on any start of well-formed UTF-8, what is not held back is well
   formed, and what is held back is nothing or exactly one incomplete character (so at most 3 bytes).
   */
  lemma {:induction false} TailIsPartialChar(s: seq<Byte>, t: seq<Byte>)
    requires WellFormed(s + t)
    ensures HoldsBack(s, Tail(s))
    decreases |s|
  {
    if s != [] && |s| < CharLen(s[0]) {
      TailInsideFirstChar(s, t);
      assert s[0..] == s;
    } else if s != [] {
      var c, rest := FirstCharOf(s, t);
      TailIsPartialChar(rest, t);
      TailAfterFirstChar(c, rest, t);
      HoldsBackAfterChar(c, rest, Tail(rest));
    }
  }

  // ---------------------------------------------------------------- well-formed text composes

  lemma {:induction false} WellFormedCancel(a: seq<Byte>, b: seq<Byte>)
    requires WellFormed(a) && WellFormed(a + b)
    ensures WellFormed(b)
    decreases |a|
  {
    if a == [] {
      assert a + b == b;
    } else {
      var n := CharLen(a[0]);
      assert (a + b)[n..] == a[n..] + b;
      WellFormedCancel(a[n..], b);
    }
  }

  /** No character is a proper prefix of another: an incomplete character has no well-formed start. */
  lemma {:induction false} PartialHasNoWellFormedStart(p: seq<Byte>, k: nat)
    requires IsPartialChar(p) && 0 < k <= |p|
    ensures !WellFormed(p[..k])
  {
    var t :| t != [] && IsChar(p + t);
    assert (p + t)[0] == p[0] == p[..k][0];
  }

  lemma {:induction false} PrefixOfPrefix(a: seq<Byte>, b: seq<Byte>)
    requires IsPrefix(a + b)
    ensures IsPrefix(a)
  {
    var t :| WellFormed(a + b + t);
    assert a + (b + t) == a + b + t;
  }

  /**
   Boundaries only advance: any well-formed start ends at or before the hold-back boundary, and
   the stretch between the two is well-formed text of its own.
   */
  lemma {:induction false} HoldsBackUnique(s: seq<Byte>, i: nat, h: nat)
    requires HoldsBack(s, h) && i <= |s| && WellFormed(s[..i])
    ensures i <= |s| - h && WellFormed(s[i..|s| - h])
  {
    var j := |s| - h;
    if j < i {
      assert s[..j] + s[j..i] == s[..i];
      PartialHasNoWellFormedStart(s[j..], i - j);
      assert s[j..][..i - j] == s[j..i];
      WellFormedCancel(s[..j], s[j..i]);
    } else {
      assert s[..i] + s[i..j] == s[..j];
      WellFormedCancel(s[..i], s[i..j]);
    }
  }
}
