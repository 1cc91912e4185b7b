/**
 * The portable string helpers of the mol2inchi demo (moreutil.c): ASCII case-insensitive
 * comparison of C strings and of byte blocks, and extraction of the text between two
 * patterns into a caller's buffer.
 *
 * A C string is modelled by its characters without the terminating NUL; reading at its
 * length yields the terminator. Characters are bytes; `own_stricmp` widens them from plain
 * `char`, whose signedness the C compiler chooses, so that choice is a parameter.
 */
module MoreUtil {
  import opened Common

  type Byte = x: int | 0 <= x < 256

  /** The characters of a C string: no NUL before the terminator. */
  predicate NulFree(s: seq<Byte>) {
    forall i :: 0 <= i < |s| ==> s[i] != 0
  }

  /** The character at position i of a C string, the terminator at its length. */
  function At(s: seq<Byte>, i: nat): Byte {
    if i < |s| then s[i] else 0
  }

  /** `(int)c` for a plain `char` holding byte b: negative above 127 when char is signed. */
  function CharValue(b: Byte, charIsSigned: bool): (v: int)
    ensures -128 <= v < 256
    ensures v == 0 <==> b == 0
  {
    if charIsSigned && b >= 128 then b - 256 else b
  }

  /** __MYTOLOWER: only 'A'..'Z' are folded. */
  function Lower(c: int): (r: int)
    ensures r == 0 <==> c == 0
    ensures r < 0 <==> c < 0
    ensures 'A' as int <= c <= 'Z' as int ==> r == c + 32
    ensures !('A' as int <= c <= 'Z' as int) ==> r == c
  {
    if 'A' as int <= c <= 'Z' as int then c - 'A' as int + 'a' as int else c
  }

  /** Two characters agree under folding. */
  predicate FoldEq(b1: Byte, b2: Byte, charIsSigned: bool) {
    Lower(CharValue(b1, charIsSigned)) == Lower(CharValue(b2, charIsSigned))
  }

  // ----- own_stricmp -----

  /** The comparison own_stricmp makes from position i on (moreutil.c:70-92). */
  function StrICmpFrom(s1: seq<Byte>, s2: seq<Byte>, i: nat, charIsSigned: bool): int
    requires i <= |s1|
    decreases |s1| - i
  {
    if i == |s1| then (if At(s2, i) != 0 then -1 else 0)
    else
      var c1 := CharValue(s1[i], charIsSigned);
      var c2 := CharValue(At(s2, i), charIsSigned);
      if s1[i] == At(s2, i) || Lower(c1) == Lower(c2) then StrICmpFrom(s1, s2, i + 1, charIsSigned)
      else Lower(c1) - Lower(c2)
  }

  /** own_stricmp on two C strings (moreutil.c:71-92): 0 exactly for strings equal up to case. */
  function StrICmp(s1: seq<Byte>, s2: seq<Byte>, charIsSigned: bool): (r: int)
    requires NulFree(s1) && NulFree(s2)
    ensures r == 0 <==> FoldEqual(s1, s2, charIsSigned)
  {
    StrICmpFromZero(s1, s2, 0, charIsSigned);
    StrICmpFrom(s1, s2, 0, charIsSigned)
  }

  /** own_stricmp: walk both strings while the characters agree under folding. */
  method OwnStricmp(s1: seq<Byte>, s2: seq<Byte>, charIsSigned: bool) returns (r: int)
    requires NulFree(s1) && NulFree(s2)
    ensures r == StrICmp(s1, s2, charIsSigned)
  {
    var i := 0;
    while i < |s1|
      invariant i <= |s1| && i <= |s2|
      invariant StrICmpFrom(s1, s2, i, charIsSigned) == StrICmp(s1, s2, charIsSigned)
    {
      var c1 := CharValue(s1[i], charIsSigned);
      var c2 := CharValue(At(s2, i), charIsSigned);
      if s1[i] == At(s2, i) || Lower(c1) == Lower(c2) {
        i := i + 1;
      } else {
        return Lower(c1) - Lower(c2);
      }
    }
    if i < |s2| {
      return -1;
    }
    return 0;
  }

  /** Equal length and equal after folding 'A'..'Z'. */
  predicate FoldEqual(s1: seq<Byte>, s2: seq<Byte>, charIsSigned: bool) {
    |s1| == |s2| && forall i :: 0 <= i < |s1| ==> FoldEq(s1[i], s2[i], charIsSigned)
  }

  /** From position i on, the strings agree up to the end of s1 and the ends line up. */
  lemma {:induction false} StrICmpFromZero(s1: seq<Byte>, s2: seq<Byte>, i: nat, charIsSigned: bool)
    requires NulFree(s1) && NulFree(s2) && i <= |s1| && i <= |s2|
    ensures StrICmpFrom(s1, s2, i, charIsSigned) == 0 <==>
      |s1| == |s2| && forall j :: i <= j < |s1| ==> FoldEq(s1[j], s2[j], charIsSigned)
    decreases |s1| - i
  {
    if i < |s1| {
      var c1 := CharValue(s1[i], charIsSigned);
      var c2 := CharValue(At(s2, i), charIsSigned);
      if s1[i] == At(s2, i) || Lower(c1) == Lower(c2) {
        assert i < |s2|;
        StrICmpFromZero(s1, s2, i + 1, charIsSigned);
      } else {
        assert Lower(c1) - Lower(c2) != 0;
      }
    }
  }

  /** After a run of agreeing characters the result is decided at the first one that differs. */
  lemma {:induction false} StrICmpFromMismatch(s1: seq<Byte>, s2: seq<Byte>, i: nat, j: nat, charIsSigned: bool)
    requires NulFree(s1) && NulFree(s2)
    requires i <= j < |s1| && j <= |s2|
    requires forall k :: i <= k < j ==> k < |s2| && FoldEq(s1[k], s2[k], charIsSigned)
    requires !FoldEq(s1[j], At(s2, j), charIsSigned)
    ensures StrICmpFrom(s1, s2, i, charIsSigned) ==
      Lower(CharValue(s1[j], charIsSigned)) - Lower(CharValue(At(s2, j), charIsSigned))
    decreases j - i
  {
    if i < j {
      assert FoldEq(s1[i], s2[i], charIsSigned);
      StrICmpFromMismatch(s1, s2, i + 1, j, charIsSigned);
    }
  }

  /**
   * At the first position where the folded characters differ (the terminator of s2 counting
   * as a character), own_stricmp returns their folded difference.
   */
  lemma StrICmpFirstMismatch(s1: seq<Byte>, s2: seq<Byte>, j: nat, charIsSigned: bool)
    requires NulFree(s1) && NulFree(s2)
    requires j < |s1| && j <= |s2|
    requires forall k :: 0 <= k < j ==> FoldEq(s1[k], s2[k], charIsSigned)
    requires !FoldEq(s1[j], At(s2, j), charIsSigned)
    ensures StrICmp(s1, s2, charIsSigned) ==
      Lower(CharValue(s1[j], charIsSigned)) - Lower(CharValue(At(s2, j), charIsSigned))
  {
    StrICmpFromMismatch(s1, s2, 0, j, charIsSigned);
  }

  /** From position i on, a proper prefix of s2 (after folding) compares as -1. */
  lemma {:induction false} StrICmpFromPrefix(s1: seq<Byte>, s2: seq<Byte>, i: nat, charIsSigned: bool)
    requires NulFree(s1) && NulFree(s2)
    requires i <= |s1| < |s2|
    requires forall k :: i <= k < |s1| ==> FoldEq(s1[k], s2[k], charIsSigned)
    ensures StrICmpFrom(s1, s2, i, charIsSigned) == -1
    decreases |s1| - i
  {
    if i < |s1| {
      assert FoldEq(s1[i], s2[i], charIsSigned);
      StrICmpFromPrefix(s1, s2, i + 1, charIsSigned);
    }
  }

  /** A string that is a proper prefix of the other after folding compares as -1. */
  lemma StrICmpPrefix(s1: seq<Byte>, s2: seq<Byte>, charIsSigned: bool)
    requires NulFree(s1) && NulFree(s2)
    requires |s1| < |s2| && forall k :: 0 <= k < |s1| ==> FoldEq(s1[k], s2[k], charIsSigned)
    ensures StrICmp(s1, s2, charIsSigned) == -1
  {
    StrICmpFromPrefix(s1, s2, 0, charIsSigned);
  }

  /**
   * The order own_stricmp gives depends on the signedness of char: 'a' against byte 0xE9
   * is negative with unsigned char and positive with signed char.
   */
  lemma StrICmpDependsOnSignedness()
    ensures StrICmp([97], [0xE9], false) < 0
    ensures StrICmp([97], [0xE9], true) > 0
  {
    assert !FoldEq(97, 0xE9, false) && !FoldEq(97, 0xE9, true);
    StrICmpFirstMismatch([97], [0xE9], 0, false);
    StrICmpFirstMismatch([97], [0xE9], 0, true);
  }

  // ----- own_memicmp -----

  /** The comparison own_memicmp makes of bytes i..length-1 (moreutil.c:96-116). */
  function MemICmpFrom(p1: seq<Byte>, p2: seq<Byte>, length: nat, i: nat): int
    requires i <= length <= |p1| && length <= |p2|
    decreases length - i
  {
    if i == length then 0
    else if p1[i] == p2[i] || Lower(p1[i]) == Lower(p2[i]) then MemICmpFrom(p1, p2, length, i + 1)
    else Lower(p1[i]) - Lower(p2[i])
  }

  /** own_memicmp over `length` bytes (moreutil.c:96-116): 0 exactly when they agree up to case. */
  function MemICmp(p1: seq<Byte>, p2: seq<Byte>, length: nat): (r: int)
    requires length <= |p1| && length <= |p2|
    ensures r == 0 <==> forall k :: 0 <= k < length ==> FoldEq(p1[k], p2[k], false)
  {
    MemICmpFromZero(p1, p2, length, 0);
    MemICmpFrom(p1, p2, length, 0)
  }

  /** own_memicmp: exactly `length` bytes, read as unsigned char, NULs included. */
  method OwnMemicmp(p1: seq<Byte>, p2: seq<Byte>, length: nat) returns (r: int)
    requires length <= |p1| && length <= |p2|
    ensures r == MemICmp(p1, p2, length)
  {
    var left := length;
    var i := 0;
    while left > 0
      invariant i + left == length
      invariant MemICmpFrom(p1, p2, length, i) == MemICmp(p1, p2, length)
    {
      left := left - 1;
      if p1[i] == p2[i] || Lower(p1[i]) == Lower(p2[i]) {
        i := i + 1;
      } else {
        return Lower(p1[i]) - Lower(p2[i]);
      }
    }
    return 0;
  }

  lemma {:induction false} MemICmpFromZero(p1: seq<Byte>, p2: seq<Byte>, length: nat, i: nat)
    requires i <= length <= |p1| && length <= |p2|
    ensures MemICmpFrom(p1, p2, length, i) == 0 <==> forall k :: i <= k < length ==> FoldEq(p1[k], p2[k], false)
    decreases length - i
  {
    if i < length {
      MemICmpFromZero(p1, p2, length, i + 1);
    }
  }

  lemma {:induction false} MemICmpFromMismatch(p1: seq<Byte>, p2: seq<Byte>, length: nat, i: nat, j: nat)
    requires i <= j < length <= |p1| && length <= |p2|
    requires forall k :: i <= k < j ==> FoldEq(p1[k], p2[k], false)
    requires !FoldEq(p1[j], p2[j], false)
    ensures MemICmpFrom(p1, p2, length, i) == Lower(p1[j]) - Lower(p2[j])
    decreases j - i
  {
    if i < j {
      assert FoldEq(p1[i], p2[i], false);
      MemICmpFromMismatch(p1, p2, length, i + 1, j);
    }
  }

  /** At the first byte that differs after folding, own_memicmp returns the folded difference. */
  lemma MemICmpFirstMismatch(p1: seq<Byte>, p2: seq<Byte>, length: nat, j: nat)
    requires j < length <= |p1| && length <= |p2|
    requires forall k :: 0 <= k < j ==> FoldEq(p1[k], p2[k], false)
    requires !FoldEq(p1[j], p2[j], false)
    ensures MemICmp(p1, p2, length) == Lower(p1[j]) - Lower(p2[j])
  {
    MemICmpFromMismatch(p1, p2, length, 0, j);
  }

  function Sign(x: int): int {
    if x < 0 then -1 else if x > 0 then 1 else 0
  }

  lemma {:induction false} StrICmpMemICmpFrom(s1: seq<Byte>, s2: seq<Byte>, i: nat)
    requires NulFree(s1) && NulFree(s2)
    requires i <= |s1| && i <= |s2|
    ensures var n := if |s1| < |s2| then |s1| + 1 else |s2| + 1;
      Sign(StrICmpFrom(s1, s2, i, false)) == Sign(MemICmpFrom(s1 + [0], s2 + [0], n, i))
    decreases |s1| - i
  {
    var t1, t2 := s1 + [0], s2 + [0];
    var n := if |s1| < |s2| then |s1| + 1 else |s2| + 1;
    assert t1[i] == At(s1, i) && t2[i] == At(s2, i);
    if i < |s1| && i < |s2| {
      if s1[i] == s2[i] || Lower(s1[i]) == Lower(s2[i]) {
        StrICmpMemICmpFrom(s1, s2, i + 1);
      }
    } else if i < |s1| {
      assert MemICmpFrom(t1, t2, n, i) == Lower(s1[i]);
    } else if i < |s2| {
      assert MemICmpFrom(t1, t2, n, i) == -Lower(s2[i]);
    } else {
      assert MemICmpFrom(t1, t2, n, i + 1) == 0;
    }
  }

  /**
   * With unsigned char, own_stricmp orders two strings as own_memicmp orders them with their
   * terminators, over the shorter string and its NUL: the two agree in sign.
   */
  lemma StrICmpAgreesWithMemICmp(s1: seq<Byte>, s2: seq<Byte>)
    requires NulFree(s1) && NulFree(s2)
    ensures var n := if |s1| < |s2| then |s1| + 1 else |s2| + 1;
      Sign(StrICmp(s1, s2, false)) == Sign(MemICmp(s1 + [0], s2 + [0], n))
  {
    StrICmpMemICmpFrom(s1, s2, 0);
  }

  // ----- get_substr_in_between -----

  /** `pat` occurs in s at position i. */
  predicate MatchAt(s: seq<Byte>, pat: seq<Byte>, i: nat) {
    i + |pat| <= |s| && s[i..i + |pat|] == pat
  }

  /** strstr from position `from`: the first position at or after it where pat occurs. */
  function FirstMatch(s: seq<Byte>, pat: seq<Byte>, from: nat): (r: Option<nat>)
    requires from <= |s|
    ensures r.Some? ==>
      from <= r.value && MatchAt(s, pat, r.value) && forall i :: from <= i < r.value ==> !MatchAt(s, pat, i)
    ensures r.None? ==> forall i :: from <= i <= |s| ==> !MatchAt(s, pat, i)
    decreases |s| - from
  {
    if |s| - from < |pat| then None
    else if s[from..from + |pat|] == pat then Some(from)
    else FirstMatch(s, pat, from + 1)
  }

  /**
   * What get_substr_in_between finds: the text starts right after the first occurrence of
   * pat1, runs `n` characters, and the returned pointer is at `next`.
   */
  datatype Span = Span(start: nat, n: nat, next: nat)

  /**
   * The span between the first pat1 and the first pat2 after it (moreutil.c:128-157). An
   * empty pat2 stands for the end of s: the span runs to the end and the returned pointer is
   * one past the last character. Otherwise the returned pointer is one past the first
   * character of the pat2 occurrence.
   */
  function Between(s: seq<Byte>, pat1: seq<Byte>, pat2: seq<Byte>): (r: Option<Span>)
    requires NulFree(s) && NulFree(pat1) && NulFree(pat2)
    ensures r.Some? ==>
      && |pat1| <= r.value.start && r.value.start + r.value.n <= |s|
      && MatchAt(s, pat1, r.value.start - |pat1|)
      && (forall i :: 0 <= i < r.value.start - |pat1| ==> !MatchAt(s, pat1, i))
    ensures r.Some? && pat2 == [] ==> r.value.start + r.value.n == |s| && r.value.next == |s|
    ensures r.Some? && pat2 != [] ==>
      && MatchAt(s, pat2, r.value.start + r.value.n)
      && r.value.next == r.value.start + r.value.n + 1
      && forall i :: r.value.start <= i < r.value.start + r.value.n ==> !MatchAt(s, pat2, i)
  {
    match FirstMatch(s, pat1, 0)
    case None => None
    case Some(p1) =>
      var p1a := p1 + |pat1|;
      if pat2 == [] then Some(Span(p1a, |s| - p1a, |s|))
      else
        match FirstMatch(s, pat2, p1a)
        case None => None
        case Some(p2) => Some(Span(p1a, p2 - p1a, p2 + 1))
  }

  /** memcpy of `count` characters of s from `start` into buf, then a NUL after them. */
  method CopyTerminated(s: seq<Byte>, start: nat, count: nat, buf: array<Byte>)
    requires start + count <= |s| && count < buf.Length
    modifies buf
    ensures buf[..] == s[start..start + count] + [0] + old(buf[count + 1..])
  {
    forall k | 0 <= k < count {
      buf[k] := s[start + k];
    }
    buf[count] := 0;
  }

  /**
   * get_substr_in_between: on success the first min(n, max_symbols) characters of the span
   * are copied to buf followed by a NUL, and `copied` counts them and the NUL; an empty span
   * leaves buf alone. NULL (None) is returned when a pattern is missing.
   */
  method GetSubstrInBetween(s: seq<Byte>, pat1: seq<Byte>, pat2: seq<Byte>, buf: array<Byte>, maxSymbols: nat)
    returns (next: Option<nat>, copied: nat)
    requires NulFree(s) && NulFree(pat1) && NulFree(pat2)
    requires maxSymbols < buf.Length
    modifies buf
    ensures match Between(s, pat1, pat2)
      case None => next.None? && copied == 0 && buf[..] == old(buf[..])
      case Some(sp) =>
        && next == Some(sp.next)
        && (sp.n == 0 ==> copied == 0 && buf[..] == old(buf[..]))
        && (sp.n > 0 ==>
              && copied == (if sp.n <= maxSymbols then sp.n else maxSymbols) + 1
              && buf[..] == s[sp.start..sp.start + copied - 1] + [0] + old(buf[copied..]))
  {
    ghost var r := Between(s, pat1, pat2);
    copied := 0;
    var p1 := FirstMatch(s, pat1, 0);
    if p1.None? {
      return None, copied;
    }
    var p1a := p1.value + |pat1|;
    var n := 0;
    var p2: Option<int>;
    if pat2 == [] {
      p2 := Some(|s| - 1);
      n := 1;
    } else {
      var found := FirstMatch(s, pat2, p1a);
      p2 := if found.Some? then Some(found.value) else None;
    }
    if p2.None? {
      return None, copied;
    }
    n := n + (p2.value - p1a);
    assert r == Some(Span(p1a, n, p2.value + 1));
    if n > 0 {
      copied := n;
      if copied > maxSymbols {
        copied := maxSymbols;
      }
      CopyTerminated(s, p1a, copied, buf);
      copied := copied + 1;
    }
    next := Some(p2.value + 1);
  }

  /** Joining two C strings' characters gives a C string's characters. */
  lemma NulFreeConcat(a: seq<Byte>, b: seq<Byte>)
    requires NulFree(a) && NulFree(b)
    ensures NulFree(a + b)
  {
    forall i | 0 <= i < |a + b|
      ensures (a + b)[i] != 0
    {
      if i >= |a| {
        assert (a + b)[i] == b[i - |a|];
      }
    }
  }

  /** Neither pattern occurrence is found exactly when the function returns NULL. */
  lemma BetweenNoneIff(s: seq<Byte>, pat1: seq<Byte>, pat2: seq<Byte>)
    requires NulFree(s) && NulFree(pat1) && NulFree(pat2)
    ensures Between(s, pat1, pat2).None? <==>
      (forall i :: 0 <= i <= |s| ==> !MatchAt(s, pat1, i))
      || (pat2 != [] && FirstMatch(s, pat1, 0).Some? &&
          forall i :: FirstMatch(s, pat1, 0).value + |pat1| <= i <= |s| ==> !MatchAt(s, pat2, i))
  {
    var f := FirstMatch(s, pat1, 0);
    if f.Some? && pat2 != [] {
      var g := FirstMatch(s, pat2, f.value + |pat1|);
      if g.Some? {
        assert MatchAt(s, pat2, g.value);
      }
    }
  }

  /**
   * Text placed between the two patterns comes back out: when pat1 first occurs right
   * before `mid` and pat2 does not occur until right after it, the span is exactly `mid`.
   */
  lemma BetweenExtracts(pre: seq<Byte>, pat1: seq<Byte>, mid: seq<Byte>, pat2: seq<Byte>, post: seq<Byte>)
    requires NulFree(pre) && NulFree(pat1) && NulFree(mid) && NulFree(pat2) && NulFree(post)
    requires pat2 != []
    requires var s := pre + pat1 + mid + pat2 + post;
      forall i :: 0 <= i < |pre| ==> !MatchAt(s, pat1, i)
    requires var s := pre + pat1 + mid + pat2 + post;
      forall i :: |pre| + |pat1| <= i < |pre| + |pat1| + |mid| ==> !MatchAt(s, pat2, i)
    ensures var s := pre + pat1 + mid + pat2 + post;
      var r := Between(s, pat1, pat2);
      r.Some? && s[r.value.start..r.value.start + r.value.n] == mid
  {
    var s := pre + pat1 + mid + pat2 + post;
    var a := |pre| + |pat1|;
    NulFreeConcat(pre, pat1);
    NulFreeConcat(pre + pat1, mid);
    NulFreeConcat(pre + pat1 + mid, pat2);
    NulFreeConcat(pre + pat1 + mid + pat2, post);
    assert MatchAt(s, pat1, |pre|) by {
      assert s[|pre|..a] == pat1;
    }
    assert MatchAt(s, pat2, a + |mid|) by {
      assert s[a + |mid|..a + |mid| + |pat2|] == pat2;
    }
    var r := Between(s, pat1, pat2);
    assert r.Some?;
    assert r.value.start == a;
    assert r.value.n == |mid|;
    assert s[a..a + |mid|] == mid;
  }
}
