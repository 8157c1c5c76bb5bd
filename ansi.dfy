/**
 * `escape_ansi`: delete the control sequences of section 5.4 of ECMA-48 (5th edition)
 * from a string, as the regular expression `(\x9B|\x1B\[)[0-?]*[ -/]*[@-~]` does under
 * `re.sub` with an empty replacement.
 *
 * A control sequence is an introducer (the 8-bit CSI character 0x9B, or ESC followed
 * by `[`), then parameter bytes 0x30-0x3F, then intermediate bytes 0x20-0x2F, then one
 * final byte 0x40-0x7E. The three byte classes are disjoint, so the greedy pattern
 * matches at most one length at a given position and never needs to backtrack.
 */
module Ansi {
  import opened Text

  const ESC: char := '\U{1B}'
  const CSI: char := '\U{9B}'

  datatype ByteClass = Parameter | Intermediate | Final

  predicate InClass(c: char, k: ByteClass) {
    match k
    case Parameter => '0' <= c <= '?'
    case Intermediate => ' ' <= c <= '/'
    case Final => '@' <= c <= '~'
  }

  predicate AllInClass(s: string, k: ByteClass) {
    forall i :: 0 <= i < |s| ==> InClass(s[i], k)
  }

  predicate IsIntroducer(u: string) {
    u == [CSI] || u == [ESC, '[']
  }

  /**
   * The pattern written as a predicate on a whole candidate match `t`: `t[..i]` is the
   * introducer, `t[i..j]` the parameter bytes, `t[j..|t| - 1]` the intermediate bytes
   * and the last character the final byte.
   */
  predicate IsCsiSplit(t: string, i: nat, j: nat) {
    0 < i <= j < |t| &&
    IsIntroducer(t[..i]) &&
    AllInClass(t[i..j], Parameter) &&
    AllInClass(t[j..|t| - 1], Intermediate) &&
    InClass(t[|t| - 1], Final)
  }

  /** `t` is, as a whole, one control sequence. */
  ghost predicate IsCsi(t: string) {
    exists i: nat, j: nat :: IsCsiSplit(t, i, j)
  }

  /** Length of the introducer that starts `s`, or 0 if there is none. */
  function IntroLength(s: string): (n: nat)
    ensures n <= |s|
    ensures n > 0 ==> IsIntroducer(s[..n])
  {
    if |s| >= 1 && s[0] == CSI then
      assert IsIntroducer(s[..1]);
      1
    else if |s| >= 2 && s[0] == ESC && s[1] == '[' then
      assert IsIntroducer(s[..2]);
      2
    else 0
  }

  /** Length of the run of class-`k` characters in `s` starting at index `i`. */
  function Run(s: string, i: nat, k: ByteClass): (n: nat)
    requires i <= |s|
    ensures i + n <= |s|
    ensures forall p :: i <= p < i + n ==> InClass(s[p], k)
    ensures i + n < |s| ==> !InClass(s[i + n], k)
    decreases |s| - i
  {
    if i == |s| || !InClass(s[i], k) then 0 else 1 + Run(s, i + 1, k)
  }

  /**
   * The length of the match of the pattern at the start of `s`, or 0 if the pattern
   * does not match there.
   */
  function CsiLength(s: string): (n: nat)
    ensures n <= |s|
    ensures n == 0 || n >= 2
  {
    var i := IntroLength(s);
    if i == 0 then 0
    else
      var j := i + Run(s, i, Parameter);
      var f := j + Run(s, j, Intermediate);
      if f < |s| && InClass(s[f], Final) then f + 1 else 0
  }

  /** The classes are pairwise disjoint. */
  lemma ClassesDisjoint(c: char)
    ensures !(InClass(c, Parameter) && InClass(c, Intermediate))
    ensures !(InClass(c, Parameter) && InClass(c, Final))
    ensures !(InClass(c, Intermediate) && InClass(c, Final))
  {
  }

  /** What the scanner matches is a control sequence. */
  lemma CsiLengthSound(s: string)
    requires CsiLength(s) > 0
    ensures IsCsi(s[..CsiLength(s)])
  {
    var m := CsiLength(s);
    var i := IntroLength(s);
    var j := i + Run(s, i, Parameter);
    var t := s[..m];
    assert t[..i] == s[..i];
    var params, inters := t[i..j], t[j..m - 1];
    forall q | 0 <= q < |params| ensures InClass(params[q], Parameter) {
      assert params[q] == s[i + q];
    }
    forall q | 0 <= q < |inters| ensures InClass(inters[q], Intermediate) {
      assert inters[q] == s[j + q];
    }
    assert IsCsiSplit(t, i, j);
  }

  /** A run of `n` class-`k` characters that ends at a character outside `k` has length `n`. */
  lemma {:induction false} RunExact(s: string, i: nat, n: nat, k: ByteClass)
    requires i + n <= |s|
    requires forall p :: i <= p < i + n ==> InClass(s[p], k)
    requires i + n < |s| ==> !InClass(s[i + n], k)
    ensures Run(s, i, k) == n
    decreases n
  {
    if n > 0 {
      RunExact(s, i + 1, n - 1, k);
    }
  }

  /** A control sequence at the start of `s`, read off `s` itself. */
  lemma SplitInPlace(s: string, m: nat, i: nat, j: nat)
    requires 0 < m <= |s| && IsCsiSplit(s[..m], i, j)
    ensures IntroLength(s) == i
    ensures forall p :: i <= p < j ==> InClass(s[p], Parameter)
    ensures forall p :: j <= p < m - 1 ==> InClass(s[p], Intermediate)
    ensures InClass(s[m - 1], Final)
  {
    var t := s[..m];
    assert t[..i] == s[..i];
    var params, inters := t[i..j], t[j..|t| - 1];
    assert AllInClass(params, Parameter) && AllInClass(inters, Intermediate);
    forall p | i <= p < j ensures InClass(s[p], Parameter) {
      assert InClass(params[p - i], Parameter);
      assert params[p - i] == s[p];
    }
    forall p | j <= p < m - 1 ensures InClass(s[p], Intermediate) {
      assert InClass(inters[p - j], Intermediate);
      assert inters[p - j] == s[p];
    }
  }

  /** Whenever a prefix of `s` is a control sequence, the scanner matches exactly it. */
  lemma CsiLengthComplete(s: string, m: nat)
    requires 0 < m <= |s|
    requires IsCsi(s[..m])
    ensures CsiLength(s) == m
  {
    var i: nat, j: nat :| IsCsiSplit(s[..m], i, j);
    SplitInPlace(s, m, i, j);
    ClassesDisjoint(s[j]);
    RunExact(s, i, j - i, Parameter);
    ClassesDisjoint(s[m - 1]);
    RunExact(s, j, m - 1 - j, Intermediate);
    CsiLengthOf(s, i, j, m - 1);
  }

  /** The scanner's match, given the introducer and the two runs. */
  lemma CsiLengthOf(s: string, i: nat, j: nat, f: nat)
    requires 0 < i <= j <= f < |s| && IntroLength(s) == i
    requires Run(s, i, Parameter) == j - i && Run(s, j, Intermediate) == f - j
    requires InClass(s[f], Final)
    ensures CsiLength(s) == f + 1
  {
  }

  /**
   * The scanner's match is exactly the pattern: a prefix of `s` of length `m` is a
   * control sequence if and only if the scanner matches `m` characters at the start
   * of `s`. In particular at most one prefix of `s` is a control sequence.
   */
  lemma CsiMatch(s: string, m: nat)
    requires 0 < m <= |s|
    ensures IsCsi(s[..m]) <==> CsiLength(s) == m
  {
    if CsiLength(s) == m {
      CsiLengthSound(s);
    }
    if IsCsi(s[..m]) {
      CsiLengthComplete(s, m);
    }
  }

  /** `re.sub(pattern, '', s)`: a left-to-right scan deleting each match it meets. */
  function EscapeAnsi(s: string): (r: string)
    ensures |r| <= |s|
    decreases |s|
  {
    if s == [] then []
    else
      var n := CsiLength(s);
      if n > 0 then EscapeAnsi(s[n..]) else [s[0]] + EscapeAnsi(s[1..])
  }

  /** A control sequence at the scan position is deleted. */
  lemma DeletesCsi(c: string, t: string)
    requires IsCsi(c)
    ensures EscapeAnsi(c + t) == EscapeAnsi(t)
  {
    var s := c + t;
    assert s[..|c|] == c;
    CsiMatch(s, |c|);
    assert s[|c|..] == t;
  }

  /** A character where no control sequence starts is kept, and the scan moves on by one. */
  lemma KeepsUnmatched(s: string)
    requires |s| > 0
    requires forall m :: 0 < m <= |s| ==> !IsCsi(s[..m])
    ensures EscapeAnsi(s) == [s[0]] + EscapeAnsi(s[1..])
  {
    if CsiLength(s) > 0 {
      CsiMatch(s, CsiLength(s));
    }
  }

  /** A character other than ESC and 0x9B is kept, and the scan moves on by one. */
  lemma KeepsPlain(s: string)
    requires s != [] && s[0] != ESC && s[0] != CSI
    ensures EscapeAnsi(s) == [s[0]] + EscapeAnsi(s[1..])
  {
    assert IntroLength(s) == 0;
  }

  /** Text without ESC and without 0x9B passes through the scan unchanged. */
  lemma {:induction false} PlainPrefix(p: string, t: string)
    requires forall i :: 0 <= i < |p| ==> p[i] != ESC && p[i] != CSI
    ensures EscapeAnsi(p + t) == p + EscapeAnsi(t)
    decreases |p|
  {
    if p == [] {
      assert p + t == t;
    } else {
      Uncons(p, t);
      KeepsPlain(p + t);
      PlainPrefix(p[1..], t);
    }
  }

  /** Text containing neither ESC nor 0x9B is returned unchanged. */
  lemma NoIntroducerUnchanged(s: string)
    requires forall i :: 0 <= i < |s| ==> s[i] != ESC && s[i] != CSI
    ensures EscapeAnsi(s) == s
  {
    PlainPrefix(s, []);
    assert s + [] == s;
  }

  /**
   * Text without any final byte is returned unchanged: an introducer that is never
   * followed by a final byte is kept.
   */
  lemma {:induction false} NoFinalUnchanged(s: string)
    requires forall i :: 0 <= i < |s| ==> !InClass(s[i], Final)
    ensures EscapeAnsi(s) == s
    decreases |s|
  {
    if s != [] {
      NoFinalUnchanged(s[1..]);
    }
  }

  /**
   * ESC `[` followed by text without any final byte is kept: `[` is itself a final
   * byte, so this case lies outside `NoFinalUnchanged`.
   */
  lemma DanglingEscKept(t: string)
    requires forall i :: 0 <= i < |t| ==> !InClass(t[i], Final)
    ensures EscapeAnsi([ESC, '['] + t) == [ESC, '['] + t
  {
    NoFinalAfterIntro(t);
    BracketShape(t);
    KeepsFirst([ESC, '['] + t);
    KeepBracket(t);
    NoFinalUnchanged(t);
  }

  /** A `[` alone starts no match and is kept. */
  lemma KeepBracket(t: string)
    ensures EscapeAnsi(['['] + t) == ['['] + EscapeAnsi(t)
  {
    BracketShape(t);
    KeepsPlain(['['] + t);
  }

  lemma BracketShape(t: string)
    ensures (['['] + t)[0] == '[' && (['['] + t)[1..] == t
    ensures ([ESC, '['] + t)[0] == ESC && ([ESC, '['] + t)[1..] == ['['] + t
    ensures [ESC] + (['['] + t) == [ESC, '['] + t
  {
  }

  /** Where no match starts, the scan keeps one character and moves on. */
  lemma KeepsFirst(s: string)
    requires s != [] && CsiLength(s) == 0
    ensures EscapeAnsi(s) == [s[0]] + EscapeAnsi(s[1..])
  {
  }

  /** ESC `[` followed by text with no final byte starts no match. */
  lemma NoFinalAfterIntro(t: string)
    requires forall i :: 0 <= i < |t| ==> !InClass(t[i], Final)
    ensures CsiLength([ESC, '['] + t) == 0
  {
    var s := [ESC, '['] + t;
    assert forall p :: 2 <= p < |s| ==> s[p] == t[p - 2];
  }

  /** The select-graphic-rendition sequences for "bold red" and "reset" are control sequences. */
  lemma ColourSequences()
    ensures IsCsi([ESC] + "[1;31m") && IsCsi([ESC] + "[0m")
  {
    assert IsCsiSplit([ESC] + "[1;31m", 2, 6);
    assert IsCsiSplit([ESC] + "[0m", 2, 3);
  }

  lemma ColouredShape(text: string)
    ensures [ESC] + "[1;31m" + text + [ESC] + "[0m" == ([ESC] + "[1;31m") + (text + ([ESC] + "[0m"))
    ensures ([ESC] + "[0m") + [] == [ESC] + "[0m"
    ensures text + [] == text
  {
  }

  /** Plain text wrapped in a colour sequence and a reset sequence comes out bare. */
  lemma ColouredText(text: string)
    requires forall i :: 0 <= i < |text| ==> text[i] != ESC && text[i] != CSI
    ensures EscapeAnsi([ESC] + "[1;31m" + text + [ESC] + "[0m") == text
  {
    ColourSequences();
    ColouredShape(text);
    DeletesCsi([ESC] + "[1;31m", text + ([ESC] + "[0m"));
    PlainPrefix(text, [ESC] + "[0m");
    DeletesCsi([ESC] + "[0m", []);
  }

  lemma SinglePassShape()
    ensures ([ESC, ESC] + "[m[m")[1..] == ([ESC] + "[m") + "[m"
    ensures ([ESC] + "[m") + [] == [ESC] + "[m"
    ensures IsCsiSplit([ESC] + "[m", 2, 2)
  {
  }

  /** An ESC followed by another ESC starts no control sequence. */
  lemma StrayEscape(s: string)
    requires |s| >= 2 && s[0] == ESC && s[1] == ESC
    ensures EscapeAnsi(s) == [ESC] + EscapeAnsi(s[1..])
  {
    assert IntroLength(s) == 0;
  }

  /**
   * The scan is single-pass, so removing one sequence can bring a new one together:
   * deleting does not reach a fixed point in one call.
   */
  lemma SinglePass()
    ensures EscapeAnsi([ESC, ESC] + "[m[m") == [ESC] + "[m"
    ensures EscapeAnsi([ESC] + "[m") == []
  {
    SinglePassShape();
    StrayEscape([ESC, ESC] + "[m[m");
    DeletesCsi([ESC] + "[m", "[m");
    NoIntroducerUnchanged("[m");
    DeletesCsi([ESC] + "[m", []);
  }
}
