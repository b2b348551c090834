/**
 * The markdown-fence stripper applied to completion replies
 * (`stripMarkdownJSON`). The regular expression ```` (?s)```json(.*?)``` ````
 * is expressed by two substring searches: the first "```json" opener, then
 * the first "```" at or after the opener's end. Its leftmost-first, lazy
 * matching semantics is stated independently by `IsMatch` and
 * `IsLeftmostMatch`, and the two are proved to agree.
 */
module Markdown {
  import opened Wrappers
  import opened Text

  /** The opening fence tagged with the "json" language; the tag is matched case-sensitively. */
  const Opener: string := "```json"

  /** A bare fence, which closes the block. */
  const Fence: string := "```"

  /**
   * Returns the whitespace-trimmed text between the first "```json" and the
   * first "```" after it; without such a block returns `s` unchanged.
   */
  function StripMarkdownJSON(s: string): (r: string)
    ensures !Occurs(s, Opener) ==> r == s
    ensures |r| <= |s|
  {
    match IndexFrom(s, Opener, 0)
    case None => s
    case Some(i) =>
      match IndexFrom(s, Fence, i + |Opener|)
      case None => s
      case Some(j) => TrimSpace(s[i + |Opener|..j])
  }

  /**
   * Regular-expression semantics: a match of ```` ```json(.*?)``` ```` starts at an
   * opener at `i` and, the repetition being lazy, ends at the first fence `j`
   * after the opener; `.` matches newlines too, so nothing else constrains the group.
   */
  ghost predicate IsMatch(s: string, i: int, j: int)
  {
    && OccursAt(s, Opener, i)
    && i + |Opener| <= j
    && OccursAt(s, Fence, j)
    && forall k :: i + |Opener| <= k < j ==> !OccursAt(s, Fence, k)
  }

  /** The match Go's leftmost-first engine reports: no match starts earlier. */
  ghost predicate IsLeftmostMatch(s: string, i: int, j: int)
  {
    IsMatch(s, i, j) && forall i', j' :: IsMatch(s, i', j') ==> i <= i'
  }

  /** When the regular expression matches, the stripper returns the trimmed capture group of the leftmost match. */
  lemma StripReturnsLeftmostGroup(s: string, i: int, j: int)
    requires IsLeftmostMatch(s, i, j)
    ensures StripMarkdownJSON(s) == TrimSpace(s[i + |Opener|..j])
  {
    var o := IndexFrom(s, Opener, 0);
    assert OccursAt(s, Opener, i);
    var i0 := o.value;
    assert i0 <= i;
    var f := IndexFrom(s, Fence, i0 + |Opener|);
    assert OccursAt(s, Fence, j);
    var j0 := f.value;
    assert IsMatch(s, i0, j0);
    assert i0 == i;
    assert j0 == j;
  }

  /** The two searches the stripper performs locate a match of the regular expression. */
  lemma SearchesFindMatch(s: string, i: nat, j: nat)
    requires IndexFrom(s, Opener, 0) == Some(i)
    requires IndexFrom(s, Fence, i + |Opener|) == Some(j)
    ensures IsMatch(s, i, j)
  {
  }

  /** When the regular expression does not match anywhere, the stripper returns its input unchanged. */
  lemma StripWithoutMatch(s: string)
    requires forall i, j :: !IsMatch(s, i, j)
    ensures StripMarkdownJSON(s) == s
  {
    match IndexFrom(s, Opener, 0)
    case None =>
    case Some(i) =>
      match IndexFrom(s, Fence, i + |Opener|)
      case None =>
      case Some(j) =>
        SearchesFindMatch(s, i, j);
        assert false;
  }

  /** An opener contains a fence. */
  lemma OpenerHasFence(s: string, i: int)
    requires OccursAt(s, Opener, i)
    ensures OccursAt(s, Fence, i)
  {
    assert s[i..i + |Fence|] == s[i..i + |Opener|][..|Fence|];
  }

  /** The group of a match contains no fence, since the lazy repetition stops at the first one. */
  lemma GroupHasNoFence(s: string, i: int, j: int)
    requires IsMatch(s, i, j)
    ensures !Occurs(s[i + |Opener|..j], Fence)
  {
    var g := s[i + |Opener|..j];
    if Occurs(g, Fence) {
      var k :| 0 <= k <= |g| && OccursAt(g, Fence, k);
      assert s == s[..i + |Opener|] + g + s[j..];
      OccursInInfix(s[..i + |Opener|], g, s[j..], Fence, k);
      assert false;
    }
  }

  lemma TrimmedGroupHasNoFence(s: string, i: int, j: int)
    requires IsMatch(s, i, j)
    ensures !Occurs(TrimSpace(s[i + |Opener|..j]), Fence)
  {
    GroupHasNoFence(s, i, j);
    TrimSpaceKeepsAbsence(s[i + |Opener|..j], Fence);
  }

  /**
   * When a block was found the result holds no fence at all; otherwise the
   * input comes back unchanged.
   */
  lemma {:induction false} StripResultHasNoFence(s: string)
    ensures StripMarkdownJSON(s) == s || !Occurs(StripMarkdownJSON(s), Fence)
  {
    match IndexFrom(s, Opener, 0)
    case None =>
    case Some(i) =>
      match IndexFrom(s, Fence, i + |Opener|)
      case None =>
      case Some(j) =>
        SearchesFindMatch(s, i, j);
        TrimmedGroupHasNoFence(s, i, j);
  }

  /** Stripping twice is stripping once. */
  lemma {:induction false} StripIdempotent(s: string)
    ensures StripMarkdownJSON(StripMarkdownJSON(s)) == StripMarkdownJSON(s)
  {
    var r := StripMarkdownJSON(s);
    StripResultHasNoFence(s);
    if r != s && Occurs(r, Opener) {
      var i :| 0 <= i <= |r| && OccursAt(r, Opener, i);
      OpenerHasFence(r, i);
      assert false;
    }
  }

  /** Two openers never overlap: "```json" has no proper prefix that is also a suffix. */
  lemma OpenerNoOverlap(s: string, p: int, q: int)
    requires OccursAt(s, Opener, p)
    requires q < p < q + |Opener|
    ensures !OccursAt(s, Opener, q)
  {
    if 0 <= q && p + |Opener| <= |s| {
      var d := p - q;
      assert s[p] == s[p..p + |Opener|][0] == '`';
      if d >= 3 {
        assert s[q..q + |Opener|][d] == s[p];
        assert Opener[d] != '`';
      } else {
        assert s[q..q + |Opener|][3] == s[p..p + |Opener|][3 - d] == '`';
        assert Opener[3] == 'j';
      }
    }
  }

  /** A text ends with a backtick, so that it would complete a fence that follows it early. */
  predicate EndsWithBacktick(x: string)
  {
    |x| > 0 && x[|x| - 1] == '`'
  }

  /**
   * In `a` + `x` + `rest`, where `rest` starts with a fence and `x` holds no
   * fence and does not end with a backtick, no fence starts inside `x`.
   */
  lemma ClosingFenceIsFirst(a: string, x: string, rest: string)
    requires !Occurs(x, Fence) && !EndsWithBacktick(x)
    requires |rest| >= |Fence| && rest[..|Fence|] == Fence
    ensures forall k :: |a| <= k < |a| + |x| ==> !OccursAt(a + x + rest, Fence, k)
  {
    var s := a + x + rest;
    var j := |a| + |x|;
    forall k | |a| <= k < j
      ensures !OccursAt(s, Fence, k)
    {
      if k + |Fence| <= j {
        var t := k - |a|;
        assert !OccursAt(x, Fence, t);
        assert x[t..t + |Fence|] == s[k..k + |Fence|];
      } else {
        assert s[j - 1] == x[|x| - 1];
        assert s[k..k + |Fence|][j - 1 - k] == s[j - 1];
      }
    }
  }

  /**
   * A reply laid out as `pre` + "```json" + `x` + "```" + `post` yields the
   * trimmed `x`, whatever `post` holds, provided `pre` holds no opener and `x`
   * neither holds a fence nor ends with a backtick (which would close the
   * block one or two characters early).
   */
  lemma {:induction false} StripFencedBlock(pre: string, x: string, post: string)
    requires !Occurs(pre, Opener)
    requires !Occurs(x, Fence) && !EndsWithBacktick(x)
    ensures StripMarkdownJSON(pre + Opener + x + Fence + post) == TrimSpace(x)
  {
    var s := pre + Opener + x + Fence + post;
    var i := |pre|;
    var j := |pre| + |Opener| + |x|;
    assert s[i..i + |Opener|] == Opener;
    assert s[i + |Opener|..j] == x;
    assert s[j..j + |Fence|] == Fence;
    ClosingFenceIsFirst(pre + Opener, x, Fence + post);
    assert pre + Opener + x + Fence + post == (pre + Opener) + x + (Fence + post);
    assert IsMatch(s, i, j);
    forall q | 0 <= q < i
      ensures !OccursAt(s, Opener, q)
    {
      if q + |Opener| <= i {
        assert !OccursAt(pre, Opener, q);
        assert pre[q..q + |Opener|] == s[q..q + |Opener|];
      } else {
        OpenerNoOverlap(s, i, q);
      }
    }
    StripReturnsLeftmostGroup(s, i, j);
  }
}
