/**
 * Hostname normalisation in the `ecs` constructor:
 * `hostaddress.replace("https://", "").replace("HTTPS://", "")`.
 */
module Hostname {
  import opened Text

  /** `p` occurs in `s` starting at index `i`. */
  predicate OccursAt(p: string, s: string, i: int) {
    0 <= i <= |s| - |p| && s[i..i + |p|] == p
  }

  /** `p` occurs somewhere in `s`. */
  ghost predicate Occurs(p: string, s: string) {
    exists i :: OccursAt(p, s, i)
  }

  /**
   * `s.replace(p, "")`: a single left-to-right pass that deletes each occurrence of `p`
   * it meets and resumes the search right after it, so occurrences never overlap.
   */
  function RemoveAll(s: string, p: string): (r: string)
    requires |p| > 0
    ensures |r| <= |s|
    decreases |s|
  {
    if |s| < |p| then s
    else if s[..|p|] == p then RemoveAll(s[|p|..], p)
    else [s[0]] + RemoveAll(s[1..], p)
  }

  /** The host part the tool puts between `https://` and the API path. */
  function NormalizeHost(hostaddress: string): (r: string)
    ensures |r| <= |hostaddress|
  {
    RemoveAll(RemoveAll(hostaddress, "https://"), "HTTPS://")
  }

  /** Where `p` does not start, the scan keeps one character and moves on. */
  lemma KeepsOne(s: string, p: string)
    requires |p| > 0 && |s| > 0
    requires !OccursAt(p, s, 0)
    ensures RemoveAll(s, p) == [s[0]] + RemoveAll(s[1..], p)
  {
    if |s| < |p| {
      assert s == [s[0]] + s[1..];
    } else {
      assert s[0..0 + |p|] == s[..|p|];
    }
  }

  /** Whenever the scan changes the text, it has found an occurrence of `p`. */
  lemma {:induction false} ChangedOnlyIfOccurs(s: string, p: string)
    requires |p| > 0
    requires RemoveAll(s, p) != s
    ensures Occurs(p, s)
    decreases |s|
  {
    if OccursAt(p, s, 0) {
    } else {
      KeepsOne(s, p);
      assert s == [s[0]] + s[1..];
      ChangedOnlyIfOccurs(s[1..], p);
      var i :| OccursAt(p, s[1..], i);
      assert s[i + 1..i + 1 + |p|] == s[1..][i..i + |p|];
      assert OccursAt(p, s, i + 1);
    }
  }

  /** An occurrence after the first character is an occurrence in the rest. */
  lemma OccursInTail(p: string, s: string, i: int)
    requires OccursAt(p, s, i) && i > 0
    ensures OccursAt(p, s[1..], i - 1)
  {
    assert s[1..][i - 1..i - 1 + |p|] == s[i..i + |p|];
  }

  /** A text with an occurrence at `i` gets shorter. */
  lemma {:induction false} RemoveAllShrinksAt(s: string, p: string, i: int)
    requires |p| > 0
    requires OccursAt(p, s, i)
    ensures |RemoveAll(s, p)| < |s|
    decreases |s|
  {
    if OccursAt(p, s, 0) {
      assert s[0..0 + |p|] == s[..|p|];
    } else {
      KeepsOne(s, p);
      OccursInTail(p, s, i);
      RemoveAllShrinksAt(s[1..], p, i - 1);
    }
  }

  /** A text that contains the pattern gets shorter. */
  lemma RemoveAllShrinks(s: string, p: string)
    requires |p| > 0
    requires Occurs(p, s)
    ensures |RemoveAll(s, p)| < |s|
  {
    var i :| OccursAt(p, s, i);
    RemoveAllShrinksAt(s, p, i);
  }

  /** A removal leaves the text unchanged exactly when there is nothing to remove. */
  lemma RemoveAllUnchanged(s: string, p: string)
    requires |p| > 0
    ensures RemoveAll(s, p) == s <==> !Occurs(p, s)
  {
    if Occurs(p, s) {
      RemoveAllShrinks(s, p);
    } else if RemoveAll(s, p) != s {
      ChangedOnlyIfOccurs(s, p);
    }
  }

  /**
   * A hostname is left as it is exactly when it contains neither `https://` nor
   * `HTTPS://`.
   */
  lemma NormalizeHostUnchanged(h: string)
    ensures NormalizeHost(h) == h <==> !Occurs("https://", h) && !Occurs("HTTPS://", h)
  {
    var once := RemoveAll(h, "https://");
    RemoveAllUnchanged(h, "https://");
    RemoveAllUnchanged(once, "HTTPS://");
    if Occurs("https://", h) {
      RemoveAllShrinks(h, "https://");
    }
  }

  /** A prefix that does not contain the first character of `p` is passed through. */
  lemma {:induction false} KeepsPrefixWithoutLead(q: string, t: string, p: string)
    requires |p| > 0
    requires forall i :: 0 <= i < |q| ==> q[i] != p[0]
    ensures RemoveAll(q + t, p) == q + RemoveAll(t, p)
    decreases |q|
  {
    if q == [] {
      assert q + t == t;
    } else {
      Uncons(q, t);
      assert !OccursAt(p, q + t, 0);
      KeepsOne(q + t, p);
      KeepsPrefixWithoutLead(q[1..], t, p);
    }
  }

  /** A leading scheme in either spelling is removed. */
  lemma StripsScheme(h: string)
    ensures NormalizeHost("https://" + h) == NormalizeHost(h)
    ensures NormalizeHost("HTTPS://" + h) == NormalizeHost(h)
  {
    assert ("https://" + h)[..8] == "https://";
    assert ("https://" + h)[8..] == h;
    KeepsPrefixWithoutLead("HTTPS://", h, "https://");
    var once := RemoveAll(h, "https://");
    assert ("HTTPS://" + once)[..8] == "HTTPS://";
    assert ("HTTPS://" + once)[8..] == once;
  }

  /** An occurrence at the scan position is deleted. */
  lemma DropsOne(p: string, rest: string)
    requires |p| > 0
    ensures RemoveAll(p + rest, p) == RemoveAll(rest, p)
  {
    assert (p + rest)[..|p|] == p && (p + rest)[|p|..] == rest;
  }

  /** The first character of the split scheme is kept. */
  lemma SplitSchemeH(h: string)
    ensures RemoveAll("hthttps://tps://" + h, "https://") == "h" + RemoveAll("thttps://tps://" + h, "https://")
  {
    var s := "hthttps://tps://" + h;
    assert s[..8] == "hthttps:" && s[1..] == "thttps://tps://" + h;
  }

  /** So is the second. */
  lemma SplitSchemeT(h: string)
    ensures RemoveAll("thttps://tps://" + h, "https://") == "t" + RemoveAll("https://" + ("tps://" + h), "https://")
  {
    var s := "thttps://tps://" + h;
    assert s[..8] == "thttps:/" && s[1..] == "https://" + ("tps://" + h);
  }

  lemma SplitSchemeFirstPass(h: string)
    ensures RemoveAll("hthttps://tps://" + h, "https://") == "https://" + RemoveAll(h, "https://")
  {
    var rest := RemoveAll(h, "https://");
    SplitSchemeH(h);
    SplitSchemeT(h);
    DropsOne("https://", "tps://" + h);
    KeepsPrefixWithoutLead("tps://", h, "https://");
    SchemeJoin(rest);
  }

  lemma SchemeJoin(x: string)
    ensures "h" + ("t" + ("tps://" + x)) == "https://" + x
  {
  }

  /**
   * Each `replace` is a single pass: a scheme split by another scheme survives, since
   * deleting the inner one joins the outer one's halves.
   */
  lemma SinglePass(h: string)
    ensures NormalizeHost("hthttps://tps://" + h) == "https://" + NormalizeHost(h)
  {
    SplitSchemeFirstPass(h);
    KeepsPrefixWithoutLead("https://", RemoveAll(h, "https://"), "HTTPS://");
  }
}
