/**
  The poll URL built from the discovered link template (src/index.js:78): two
  calls of JavaScript's `String.prototype.replace` with a string pattern, which
  replaces only the FIRST occurrence of the pattern and leaves the string as it
  is when the pattern does not occur. This is not RFC 6570 template expansion.
 */
module Template {
  import opened Wrappers
  import opened Decimal

  /** The batch size substituted for `{limit}`. */
  const BatchLimit: nat := 10

  /** `pat` occurs in `s` starting at position `i`. */
  predicate OccursAt(s: string, pat: string, i: int) {
    0 <= i && i + |pat| <= |s| && s[i..i + |pat|] == pat
  }

  /**
    The first position at or after `from` where `pat` occurs in `s`, as
    `s.indexOf(pat, from)` finds it, or `None` when there is none.
   */
  function FindFrom(s: string, pat: string, from: nat): (r: Option<nat>)
    requires from <= |s| + 1
    ensures r.Some? ==> from <= r.value && OccursAt(s, pat, r.value)
    ensures r.Some? ==> forall j :: from <= j < r.value ==> !OccursAt(s, pat, j)
    ensures r.None? ==> forall j :: from <= j ==> !OccursAt(s, pat, j)
    decreases |s| + 1 - from
  {
    if from + |pat| > |s| then None
    else if s[from..from + |pat|] == pat then Some(from)
    else FindFrom(s, pat, from + 1)
  }

  /** `s.replace(pat, rep)` for a string `pat`: only the first occurrence is replaced. */
  function ReplaceFirst(s: string, pat: string, rep: string): string {
    match FindFrom(s, pat, 0)
    case None => s
    case Some(i) => s[..i] + rep + s[i + |pat|..]
  }

  /** The URL of the next batch after the cursor's sequence. */
  function PollUrl(template: string, after: int): string {
    ReplaceFirst(ReplaceFirst(template, "{after}", IntToDecimal(after)), "{limit}", IntToDecimal(BatchLimit))
  }

  /** A string in which no placeholder can start. */
  predicate NoBrace(s: string) {
    forall i :: 0 <= i < |s| ==> s[i] != '{'
  }

  /** Whenever `i` is the first occurrence, the search from the start finds it. */
  lemma FindFirstOccurrence(s: string, pat: string, i: nat)
    requires OccursAt(s, pat, i)
    requires forall j :: 0 <= j < i ==> !OccursAt(s, pat, j)
    ensures FindFrom(s, pat, 0) == Some(i)
  {
  }

  /** `ReplaceFirst` replaces exactly the first occurrence. */
  lemma ReplaceFirstAt(s: string, pat: string, rep: string, i: nat)
    requires OccursAt(s, pat, i)
    requires forall j :: 0 <= j < i ==> !OccursAt(s, pat, j)
    ensures ReplaceFirst(s, pat, rep) == s[..i] + rep + s[i + |pat|..]
  {
    FindFirstOccurrence(s, pat, i);
  }

  /** A pattern holding a character that `s` lacks never occurs in `s`. */
  lemma AbsentCharacter(s: string, pat: string, k: nat)
    requires k < |pat|
    requires forall j :: 0 <= j < |s| ==> s[j] != pat[k]
    ensures forall i :: !OccursAt(s, pat, i)
  {
    forall i | 0 <= i && i + |pat| <= |s|
      ensures !OccursAt(s, pat, i)
    {
      assert s[i..i + |pat|][k] == s[i + k] != pat[k];
    }
  }

  /** No occurrence of a pattern that starts with '{' begins inside a brace-free prefix. */
  lemma NoOccurrenceInBraceFree(s: string, pat: string, n: nat)
    requires n <= |s| && NoBrace(s[..n])
    requires |pat| > 0 && pat[0] == '{'
    ensures forall j :: 0 <= j < n ==> !OccursAt(s, pat, j)
  {
    forall j | 0 <= j < n
      ensures !OccursAt(s, pat, j)
    {
      assert s[..n][j] == s[j];
    }
  }

  /**
    For the usual template shape, with `{after}` before `{limit}` and no brace
    before either, the URL has the decimal sequence and the batch size in place.
   */
  lemma PollUrlUsualShape(base: string, mid: string, rest: string, after: int)
    requires NoBrace(base) && NoBrace(mid)
    ensures PollUrl(base + "{after}" + mid + "{limit}" + rest, after) == base + IntToDecimal(after) + mid + "10" + rest
  {
    var t := base + "{after}" + mid + "{limit}" + rest;
    var d := IntToDecimal(after);
    assert t[..|base|] == base;
    assert t[|base|..|base| + 7] == "{after}";
    NoOccurrenceInBraceFree(t, "{after}", |base|);
    ReplaceFirstAt(t, "{after}", d, |base|);
    var u := ReplaceFirst(t, "{after}", d);
    assert t[|base| + 7..] == mid + "{limit}" + rest;
    assert u == base + d + mid + "{limit}" + rest;
    var k := |base| + |d| + |mid|;
    assert u[..k] == base + d + mid;
    assert NoBrace(u[..k]);
    assert u[k..k + 7] == "{limit}";
    NoOccurrenceInBraceFree(u, "{limit}", k);
    ReplaceFirstAt(u, "{limit}", "10", k);
    assert u[k + 7..] == rest;
    assert IntToDecimal(BatchLimit) == "10";
  }

  /**
    An occurrence of `pat` clear of the replaced span `s[k..k + m]` is still
    there after the splice, moved by the change in length if it lies after it.
   */
  lemma OccurrenceSurvives(s: string, pat: string, k: nat, m: nat, rep: string, p: nat)
    requires k + m <= |s| && OccursAt(s, pat, p)
    requires p + |pat| <= k || k + m <= p
    ensures OccursAt(s[..k] + rep + s[k + m..], pat, if p + |pat| <= k then p else p - m + |rep|)
  {
    var post := s[k + m..];
    var u := s[..k] + rep + post;
    var n := |pat|;
    if p + n <= k {
      assert u[..k] == s[..k];
      assert u[p..p + n] == s[p..p + n];
    } else {
      var q := p - k - m;
      var r := p - m + |rep|;
      assert u[k + |rep|..] == post;
      assert u[r..r + n] == post[q..q + n];
      assert post[q..q + n] == s[p..p + n];
    }
  }

  /** Two placeholders of seven characters, each with its only '{' in front, never overlap. */
  lemma BracedApart(u: string, a: string, b: string, p: nat, k: nat)
    requires |a| == 7 && |b| == 7 && a[0] == '{' && b[0] == '{'
    requires forall t :: 1 <= t < 7 ==> a[t] != '{'
    requires OccursAt(u, a, p) && OccursAt(u, b, k) && p < k
    ensures p + 7 <= k
  {
    assert u[k..k + 7][0] == u[k] == '{';
    forall x | p < x < p + 7
      ensures u[x] != '{'
    {
      assert u[p..p + 7][x - p] == u[x];
    }
  }

  /** An `{after}` and a `{limit}` never overlap. */
  lemma AfterLimitApart(u: string, p: nat, k: nat)
    requires OccursAt(u, "{after}", p) && OccursAt(u, "{limit}", k)
    ensures p + 7 <= k || k + 7 <= p
  {
    assert u[p..p + 7][1] == u[p + 1] == 'a';
    assert u[k..k + 7][1] == u[k + 1] == 'l';
    if p < k {
      BracedApart(u, "{after}", "{limit}", p, k);
    } else if k < p {
      BracedApart(u, "{limit}", "{after}", k, p);
    }
  }

  /** Replacing the first `{after}` keeps a later one, moved by the change in length. */
  lemma LaterAfterKept(template: string, rep: string, i: nat, j: nat)
    requires OccursAt(template, "{after}", i) && forall k :: 0 <= k < i ==> !OccursAt(template, "{after}", k)
    requires OccursAt(template, "{after}", j) && i < j
    ensures OccursAt(ReplaceFirst(template, "{after}", rep), "{after}", j - 7 + |rep|)
  {
    BracedApart(template, "{after}", "{after}", i, j);
    ReplaceFirstAt(template, "{after}", rep, i);
    OccurrenceSurvives(template, "{after}", i, 7, rep, j);
  }

  /** Replacing the first `{limit}` keeps every `{after}`, since the two never overlap. */
  lemma AfterKeptByLimit(u: string, rep: string, p: nat)
    requires OccursAt(u, "{after}", p)
    ensures exists q :: OccursAt(ReplaceFirst(u, "{limit}", rep), "{after}", q)
  {
    match FindFrom(u, "{limit}", 0)
    case None =>
      assert OccursAt(ReplaceFirst(u, "{limit}", rep), "{after}", p);
    case Some(k) =>
      AfterLimitApart(u, p, k);
      OccurrenceSurvives(u, "{after}", k, 7, rep, p);
      var q := if p + 7 <= k then p else p - 7 + |rep|;
      assert OccursAt(ReplaceFirst(u, "{limit}", rep), "{after}", q);
  }

  /**
    Only the first `{after}` is replaced: when the template has another one
    after it, the URL still holds an `{after}`.
   */
  lemma OnlyFirstAfterReplaced(template: string, after: int, i: nat, j: nat)
    requires OccursAt(template, "{after}", i) && forall k :: 0 <= k < i ==> !OccursAt(template, "{after}", k)
    requires OccursAt(template, "{after}", j) && i < j
    ensures exists p :: OccursAt(PollUrl(template, after), "{after}", p)
  {
    var d := IntToDecimal(after);
    var u := ReplaceFirst(template, "{after}", d);
    LaterAfterKept(template, d, i, j);
    AfterKeptByLimit(u, IntToDecimal(BatchLimit), j - 7 + |d|);
    var q :| OccursAt(ReplaceFirst(u, "{limit}", IntToDecimal(BatchLimit)), "{after}", q);
    assert OccursAt(PollUrl(template, after), "{after}", q);
  }

  /** In `base{limit}mid{after}rest`, with no brace in `base` or `mid`, the first `{after}` follows `mid`. */
  lemma AfterBehindLimit(base: string, mid: string, rest: string)
    requires NoBrace(base) && NoBrace(mid)
    ensures OccursAt(base + "{limit}" + mid + "{after}" + rest, "{after}", |base| + 7 + |mid|)
    ensures forall j :: 0 <= j < |base| + 7 + |mid| ==> !OccursAt(base + "{limit}" + mid + "{after}" + rest, "{after}", j)
  {
    var t := base + "{limit}" + mid + "{after}" + rest;
    var i := |base| + 7 + |mid|;
    assert t[i..i + 7] == "{after}";
    forall j | 0 <= j < i
      ensures !OccursAt(t, "{after}", j)
    {
      if j + 7 <= |t| {
        assert t[j..j + 7][0] == t[j] && t[j..j + 7][1] == t[j + 1];
        if j < |base| {
          assert t[j] == base[j];
        } else if j == |base| {
          assert t[j + 1] == 'l';
        } else if j < |base| + 7 {
          assert t[j] == "{limit}"[j - |base|];
        } else {
          assert t[j] == mid[j - |base| - 7];
        }
      }
    }
  }

  /** In `base{limit}mid{after}rest` the first replacement substitutes the `{after}` behind `mid`. */
  lemma AfterReplacedBehindLimit(base: string, mid: string, rest: string, d: string)
    requires NoBrace(base) && NoBrace(mid)
    ensures ReplaceFirst(base + "{limit}" + mid + "{after}" + rest, "{after}", d) == base + "{limit}" + (mid + d + rest)
  {
    var t := base + "{limit}" + mid + "{after}" + rest;
    var i := |base| + 7 + |mid|;
    AfterBehindLimit(base, mid, rest);
    ReplaceFirstAt(t, "{after}", d, i);
    assert t[..i] == base + "{limit}" + mid;
    assert t[i + 7..] == rest;
  }

  /**
    With `{limit}` before `{after}` and no brace before either, each
    placeholder is still replaced in place.
   */
  lemma PollUrlLimitFirst(base: string, mid: string, rest: string, after: int)
    requires NoBrace(base) && NoBrace(mid)
    ensures PollUrl(base + "{limit}" + mid + "{after}" + rest, after) == base + "10" + mid + IntToDecimal(after) + rest
  {
    var d := IntToDecimal(after);
    AfterReplacedBehindLimit(base, mid, rest, d);
    LimitReplacedAfterBase(base, mid + d + rest, IntToDecimal(BatchLimit));
    assert IntToDecimal(BatchLimit) == "10";
    assert base + "10" + (mid + d + rest) == base + "10" + mid + d + rest;
  }

  /** The first `{limit}` behind a brace-free `base` is the one replaced. */
  lemma LimitReplacedAfterBase(base: string, v: string, rep: string)
    requires NoBrace(base)
    ensures ReplaceFirst(base + "{limit}" + v, "{limit}", rep) == base + rep + v
  {
    var u := base + "{limit}" + v;
    assert u[..|base|] == base;
    assert u[|base|..|base| + 7] == "{limit}";
    NoOccurrenceInBraceFree(u, "{limit}", |base|);
    ReplaceFirstAt(u, "{limit}", rep, |base|);
    assert u[|base| + 7..] == v;
  }

  /** A template without `{after}` only has its `{limit}` substituted. */
  lemma MissingAfterLeftAlone(template: string, after: int)
    requires forall i :: !OccursAt(template, "{after}", i)
    ensures PollUrl(template, after) == ReplaceFirst(template, "{limit}", "10")
  {
    assert IntToDecimal(BatchLimit) == "10";
  }

  /**
    Replacing `s[k..k + m]` by a string that shares no character with `pat`
    creates no occurrence of `pat` at position `i`.
   */
  lemma SpliceCreatesNone(s: string, k: nat, m: nat, d: string, pat: string, i: nat)
    requires k + m <= |s| && |d| > 0 && |pat| > 0
    requires forall j :: !OccursAt(s, pat, j)
    requires forall a, b :: 0 <= a < |d| && 0 <= b < |pat| ==> d[a] != pat[b]
    ensures !OccursAt(s[..k] + d + s[k + m..], pat, i)
  {
    var post := s[k + m..];
    var u := s[..k] + d + post;
    var n := |pat|;
    if i + n <= |u| {
      if i + n <= k {
        assert u[..k] == s[..k];
        assert u[i..i + n] == s[i..i + n];
        assert !OccursAt(s, pat, i);
      } else if i >= k + |d| {
        var q := i - k - |d|;
        assert u[k + |d|..] == post;
        assert u[i..i + n] == post[q..q + n];
        assert post[q..q + n] == s[q + k + m..q + k + m + n];
        assert !OccursAt(s, pat, q + k + m);
      } else {
        var p := if i >= k then i else k;
        assert u[p] == d[p - k];
        assert u[i..i + n][p - i] == u[p];
        assert d[p - k] != pat[p - i];
      }
    }
  }

  /** A template without `{limit}` only has its `{after}` substituted. */
  lemma MissingLimitLeftAlone(template: string, after: int)
    requires forall i :: !OccursAt(template, "{limit}", i)
    ensures PollUrl(template, after) == ReplaceFirst(template, "{after}", IntToDecimal(after))
  {
    var d := IntToDecimal(after);
    var u := ReplaceFirst(template, "{after}", d);
    var pat := "{limit}";
    assert forall b :: 0 <= b < |pat| ==> !IsDigit(pat[b]) && pat[b] != '-';
    match FindFrom(template, "{after}", 0)
    case None =>
    case Some(k) =>
      forall i: nat
        ensures !OccursAt(u, pat, i)
      {
        SpliceCreatesNone(template, k, 7, d, pat, i);
      }
  }
}
