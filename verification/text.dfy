/**
 * The string primitives the service relies on: Go's `strings.TrimSpace`
 * (with the whitespace set of `unicode.IsSpace`) and a leftmost substring
 * search, which is all the one regular expression of the service needs.
 */
module Text {
  import opened Wrappers

  /** Go's `unicode.IsSpace`: the Latin-1 spaces plus the Unicode White_Space code points. */
  predicate IsSpace(c: char)
    ensures c < '\U{0080}' ==> (IsSpace(c) <==> c == ' ' || '\t' <= c <= '\r')
    ensures IsSpace(c) ==> c <= '\U{3000}'
  {
    || c == '\t' || c == '\n' || c == '\U{000B}' || c == '\U{000C}' || c == '\r' || c == ' '
    || c == '\U{0085}' || c == '\U{00A0}' || c == '\U{1680}'
    || ('\U{2000}' <= c <= '\U{200A}')
    || c == '\U{2028}' || c == '\U{2029}' || c == '\U{202F}' || c == '\U{205F}' || c == '\U{3000}'
  }

  predicate AllSpace(s: string)
  {
    forall i :: 0 <= i < |s| ==> IsSpace(s[i])
  }

  /** Drops leading whitespace: the result is the suffix of `s` that starts at its first non-space. */
  function TrimLeft(s: string): (r: string)
    ensures |r| <= |s|
    ensures r == [] || !IsSpace(r[0])
    decreases |s|
  {
    if |s| > 0 && IsSpace(s[0]) then TrimLeft(s[1..]) else s
  }

  /** Drops trailing whitespace: the result is the prefix of `s` that ends at its last non-space. */
  function TrimRight(s: string): (r: string)
    ensures |r| <= |s|
    ensures r == s[..|r|]
    ensures r == [] || !IsSpace(r[|r| - 1])
    decreases |s|
  {
    if |s| > 0 && IsSpace(s[|s| - 1]) then TrimRight(s[..|s| - 1]) else s
  }

  /**
   * Go's `strings.TrimSpace`: the slice of `s` left once all leading and
   * trailing whitespace is removed.
   */
  function TrimSpace(s: string): (r: string)
    ensures |r| <= |s|
    ensures r == [] || (!IsSpace(r[0]) && !IsSpace(r[|r| - 1]))
    ensures |s| > 0 && !IsSpace(s[0]) && !IsSpace(s[|s| - 1]) ==> r == s
  {
    TrimRight(TrimLeft(s))
  }

  /** `pat` occurs in `s` starting at index `i`. */
  predicate OccursAt(s: string, pat: string, i: int)
  {
    0 <= i && i + |pat| <= |s| && s[i..i + |pat|] == pat
  }

  /** `pat` is a substring of `s`. */
  predicate Occurs(s: string, pat: string)
  {
    exists i | 0 <= i <= |s| :: OccursAt(s, pat, i)
  }

  /** The first index at or after `from` where `pat` occurs in `s`, if any. */
  function IndexFrom(s: string, pat: string, from: nat): (r: Option<nat>)
    ensures r.Some? ==> from <= r.value && OccursAt(s, pat, r.value)
    ensures r.Some? ==> forall k :: from <= k < r.value ==> !OccursAt(s, pat, k)
    ensures r.None? ==> forall k :: from <= k ==> !OccursAt(s, pat, k)
    decreases |s| - from
  {
    if from + |pat| > |s| then None
    else if s[from..from + |pat|] == pat then Some(from)
    else IndexFrom(s, pat, from + 1)
  }

  /** Whitespace concatenates to whitespace. */
  lemma AllSpaceConcat(a: string, b: string)
    requires AllSpace(a) && AllSpace(b)
    ensures AllSpace(a + b)
  {
    forall i | 0 <= i < |a + b|
      ensures IsSpace((a + b)[i])
    {
      if i < |a| { assert (a + b)[i] == a[i]; } else { assert (a + b)[i] == b[i - |a|]; }
    }
  }

  /** `TrimLeft` removes only a whitespace prefix. */
  lemma {:induction false} TrimLeftSplit(s: string) returns (a: string)
    ensures s == a + TrimLeft(s)
    ensures AllSpace(a)
    decreases |s|
  {
    if |s| > 0 && IsSpace(s[0]) {
      var rest := TrimLeftSplit(s[1..]);
      a := [s[0]] + rest;
      assert s == [s[0]] + s[1..];
      forall i | 0 <= i < |a|
        ensures IsSpace(a[i])
      {
        if i > 0 {
          assert a[i] == rest[i - 1];
        }
      }
    } else {
      a := [];
    }
  }

  /** `TrimRight` removes only a whitespace suffix. */
  lemma {:induction false} TrimRightSplit(s: string) returns (b: string)
    ensures s == TrimRight(s) + b
    ensures AllSpace(b)
    decreases |s|
  {
    if |s| > 0 && IsSpace(s[|s| - 1]) {
      var rest := TrimRightSplit(s[..|s| - 1]);
      b := rest + [s[|s| - 1]];
      assert s == s[..|s| - 1] + [s[|s| - 1]];
      forall i | 0 <= i < |b|
        ensures IsSpace(b[i])
      {
        if i < |rest| {
          assert b[i] == rest[i];
        }
      }
    } else {
      b := [];
    }
  }

  /** `TrimSpace` removes nothing but whitespace: `s` is the result padded with whitespace on both sides. */
  lemma TrimSpaceSplit(s: string) returns (a: string, b: string)
    ensures s == a + TrimSpace(s) + b
    ensures AllSpace(a) && AllSpace(b)
  {
    a := TrimLeftSplit(s);
    b := TrimRightSplit(TrimLeft(s));
    Reassociate(s, a, TrimLeft(s), TrimSpace(s), b);
  }

  /** Leading whitespace in front of a text that does not start with whitespace is exactly what `TrimLeft` drops. */
  lemma {:induction false} TrimLeftUnique(a: string, t: string)
    requires AllSpace(a)
    requires t == [] || !IsSpace(t[0])
    ensures TrimLeft(a + t) == t
    decreases |a|
  {
    if a == [] {
      assert a + t == t;
    } else {
      assert (a + t)[0] == a[0];
      assert (a + t)[1..] == a[1..] + t;
      TrimLeftUnique(a[1..], t);
    }
  }

  /** Trailing whitespace after a text that does not end with whitespace is exactly what `TrimRight` drops. */
  lemma {:induction false} TrimRightUnique(t: string, b: string)
    requires AllSpace(b)
    requires t == [] || !IsSpace(t[|t| - 1])
    ensures TrimRight(t + b) == t
    decreases |b|
  {
    if b == [] {
      assert t + b == t;
    } else {
      var s := t + b;
      assert s[|s| - 1] == b[|b| - 1];
      assert s[..|s| - 1] == t + b[..|b| - 1];
      TrimRightUnique(t, b[..|b| - 1]);
    }
  }

  /**
   * Reference characterisation of `TrimSpace`: whatever whitespace surrounds a
   * text that neither starts nor ends with whitespace, trimming yields that text.
   */
  lemma TrimSpaceUnique(a: string, m: string, b: string)
    requires AllSpace(a) && AllSpace(b)
    requires m == [] || (!IsSpace(m[0]) && !IsSpace(m[|m| - 1]))
    ensures TrimSpace(a + m + b) == m
  {
    if m == [] {
      AllSpaceConcat(a, b);
      assert a + m + b == (a + b) + [];
      TrimLeftUnique(a + b, []);
    } else {
      assert a + m + b == a + (m + b);
      assert (m + b)[0] == m[0];
      TrimLeftUnique(a, m + b);
      TrimRightUnique(m, b);
    }
  }

  /** Surrounding whitespace never changes what `TrimSpace` returns. */
  lemma TrimSpacePadded(a: string, s: string, b: string)
    requires AllSpace(a) && AllSpace(b)
    ensures TrimSpace(a + s + b) == TrimSpace(s)
  {
    var a', b' := TrimSpaceSplit(s);
    var m := TrimSpace(s);
    Regroup(a, a', m, b', b);
    AllSpaceConcat(a, a');
    AllSpaceConcat(b', b);
    TrimSpaceUnique(a + a', m, b' + b);
  }

  lemma Reassociate(s: string, a: string, l: string, m: string, b: string)
    requires s == a + l && l == m + b
    ensures s == a + m + b
  {
  }

  lemma Regroup(a: string, a': string, m: string, b': string, b: string)
    ensures a + (a' + m + b') + b == (a + a') + m + (b' + b)
  {
  }

  /** A text made only of whitespace trims to the empty text. */
  lemma TrimSpaceOfWhitespace(s: string)
    requires AllSpace(s)
    ensures TrimSpace(s) == []
  {
    TrimSpaceUnique(s, [], []);
    assert s + [] + [] == s;
  }

  /** `TrimSpace` is idempotent. */
  lemma TrimSpaceIdempotent(s: string)
    ensures TrimSpace(TrimSpace(s)) == TrimSpace(s)
  {
    TrimSpaceUnique([], TrimSpace(s), []);
    assert [] + TrimSpace(s) + [] == TrimSpace(s);
  }

  /** An occurrence inside the middle part of a concatenation is an occurrence in the whole. */
  lemma OccursInInfix(a: string, m: string, b: string, pat: string, i: int)
    requires OccursAt(m, pat, i)
    ensures OccursAt(a + m + b, pat, |a| + i)
  {
    var s := a + m + b;
    assert s[|a| + i..|a| + i + |pat|] == m[i..i + |pat|];
  }

  /** Trimming cannot create a substring the untrimmed text lacks. */
  lemma TrimSpaceKeepsAbsence(s: string, pat: string)
    requires !Occurs(s, pat)
    ensures !Occurs(TrimSpace(s), pat)
  {
    var a, b := TrimSpaceSplit(s);
    if Occurs(TrimSpace(s), pat) {
      var i :| 0 <= i <= |TrimSpace(s)| && OccursAt(TrimSpace(s), pat, i);
      OccursInInfix(a, TrimSpace(s), b, pat, i);
      assert false;
    }
  }
}
