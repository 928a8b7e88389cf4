/**
  The markup stripper applied to a scraped page: the regular-expression
  replacement `/<[^>]*>?/gm` with the empty string.

  Scanning left to right, every `<` opens a removed span. Because `[^>]*`
  matches any character other than `>` (newlines and further `<` included),
  the span runs through the first `>` that follows, inclusive; because the
  closing `>` is optional, a span with no `>` after it runs to the end of the
  text. Every character outside a span is copied through unchanged. The
  pattern has no anchors, so the multi-line flag changes nothing.
 */
module Markup {

  /** Index of the first `>` in `t`, or `|t|` when there is none. */
  function CloseIndex(t: string): (k: nat)
    ensures k <= |t|
    ensures k < |t| ==> t[k] == '>'
    ensures '>' !in t[..k]
    ensures k == |t| <==> '>' !in t
  {
    if t == [] then 0
    else if t[0] == '>' then 0
    else
      var k' := CloseIndex(t[1..]);
      assert t[..k' + 1] == [t[0]] + t[1..][..k'];
      k' + 1
  }

  /** How much of `t`, the text after an opening `<`, its span takes: up to
      and including the first `>`, or all of `t` if no `>` follows. */
  function SpanEnd(t: string): (e: nat)
    ensures e <= |t|
  {
    var k := CloseIndex(t);
    if k < |t| then k + 1 else |t|
  }

  /** The replacement `.replace(/<[^>]*>?/gm, '')`. */
  function StripTags(s: string): (r: string)
    ensures '<' !in r
    ensures |r| <= |s|
    decreases |s|
  {
    if s == [] then []
    else if s[0] == '<' then StripTags(s[1 + SpanEnd(s[1..])..])
    else [s[0]] + StripTags(s[1..])
  }

  // ---------------------------------------------------------------------
  // Characteristic cases

  /** Text without `<` is returned unchanged; in particular a stray `>` that
      no `<` opened is kept. */
  lemma {:induction false} NoOpenBracketUnchanged(s: string)
    requires '<' !in s
    ensures StripTags(s) == s
    decreases |s|
  {
    if s != [] {
      assert s[0] in s;
      assert forall c :: c in s[1..] ==> c in s;
      NoOpenBracketUnchanged(s[1..]);
      assert s == [s[0]] + s[1..];
    }
  }

  /** Stripping twice is the same as stripping once. */
  lemma {:induction false} StripTagsIdempotent(s: string)
    ensures StripTags(StripTags(s)) == StripTags(s)
  {
    NoOpenBracketUnchanged(StripTags(s));
  }

  /** A span opened at the head of the text ends at the first `>`: anything
      in between, further `<` included, goes with it, and stripping resumes
      right after that `>`. */
  lemma ClosedSpanRemoved(t: string, q: string)
    requires '>' !in t
    ensures StripTags(['<'] + t + ['>'] + q) == StripTags(q)
  {
    var s := ['<'] + t + ['>'] + q;
    var u := t + ['>'] + q;
    assert s[1..] == u;
    assert u[..|t|] == t;
    FirstCloseOf(u, |t|);
    assert s[|t| + 2..] == q;
  }

  /** The example `a<b<c>d` strips to `ad`. */
  lemma NestedOpenExample()
    ensures StripTags("a<b<c>d") == "ad"
  {
    var s := "a<b<c>d";
    var tail := ['<'] + "b<c" + ['>'] + "d";
    assert s[0] == 'a' && s[1..] == tail;
    ClosedSpanRemoved("b<c", "d");
    NoOpenBracketUnchanged("d");
    assert StripTags(tail) == "d";
  }

  /** A `<` with no `>` anywhere after it removes everything from that `<` to
      the end of the text, whatever precedes it. */
  lemma {:induction false} UnclosedTagDropsRest(p: string, q: string)
    requires '>' !in q
    ensures StripTags(p + ['<'] + q) == StripTags(p)
    decreases |p|
  {
    var s := p + ['<'] + q;
    if p == [] {
      assert s[1..] == q;
      assert SpanEnd(q) == |q|;
    } else if p[0] != '<' {
      assert s[0] == p[0];
      assert s[1..] == p[1..] + ['<'] + q;
      UnclosedTagDropsRest(p[1..], q);
    } else {
      var t := p[1..];
      var u := ['<'] + q;
      assert s[1..] == t + u;
      var e := SpanEnd(t);
      if CloseIndex(t) < |t| {
        SpanEndAppend(t, u);
        assert s[1 + e..] == p[1 + e..] + ['<'] + q;
        UnclosedTagDropsRest(p[1 + e..], q);
      } else {
        assert '>' !in t + u by {
          assert forall c :: c in t + u ==> c in t || c in u;
        }
        assert SpanEnd(t + u) == |t + u|;
      }
    }
  }

  // ---------------------------------------------------------------------
  // Helpers about the first `>`

  /** A `>` at index `k` with none before it is the first one. */
  lemma FirstCloseOf(u: string, k: nat)
    requires k < |u| && u[k] == '>' && '>' !in u[..k]
    ensures CloseIndex(u) == k
  {
    var c := CloseIndex(u);
    assert forall i :: 0 <= i < k ==> u[..k][i] == u[i];
    assert forall i :: 0 <= i < c ==> u[..c][i] == u[i];
  }

  /** Text appended after a closed span does not move its end. */
  lemma SpanEndAppend(t: string, u: string)
    requires CloseIndex(t) < |t|
    ensures SpanEnd(t + u) == SpanEnd(t)
  {
    var k := CloseIndex(t);
    var tu := t + u;
    assert tu[k] == t[k] == '>';
    assert tu[..k] == t[..k];
    FirstCloseOf(tu, k);
  }

  // ---------------------------------------------------------------------
  // The output is an order-preserving subsequence of the input

  /** `r` is obtained from `s` by deleting characters. */
  predicate IsSubsequence(r: string, s: string)
    decreases |s|
  {
    if r == [] then true
    else if s == [] then false
    else (r[0] == s[0] && IsSubsequence(r[1..], s[1..])) || IsSubsequence(r, s[1..])
  }

  /** A subsequence of a suffix is a subsequence of the whole. */
  lemma {:induction false} SubsequenceOfSuffix(r: string, s: string, d: nat)
    requires d <= |s| && IsSubsequence(r, s[d..])
    ensures IsSubsequence(r, s)
    decreases d
  {
    if d > 0 {
      assert s[1..][d - 1..] == s[d..];
      SubsequenceOfSuffix(r, s[1..], d - 1);
    }
  }

  /** Stripping only deletes characters and keeps the rest in order. */
  lemma {:induction false} StripTagsIsSubsequence(s: string)
    ensures IsSubsequence(StripTags(s), s)
    decreases |s|
  {
    if s != [] {
      if s[0] == '<' {
        var e := SpanEnd(s[1..]);
        StripTagsIsSubsequence(s[1 + e..]);
        SubsequenceOfSuffix(StripTags(s), s, 1 + e);
      } else {
        var r := StripTags(s);
        assert r[0] == s[0] && r[1..] == StripTags(s[1..]);
        StripTagsIsSubsequence(s[1..]);
      }
    }
  }

  // ---------------------------------------------------------------------
  // Reference definition by positions

  /** Position `i` of `s` lies in a removed span: some `<` at or before `i`
      has no `>` between it and `i` (the `>` at `i` itself, closing the
      span, is still removed). */
  ghost predicate InTag(s: string, i: nat)
    requires i < |s|
  {
    exists j :: 0 <= j <= i && s[j] == '<' && '>' !in s[j..i]
  }

  /** The characters of `s` from position `i` on that lie in no removed
      span, in their original order. */
  ghost function Kept(s: string, i: nat): string
    requires i <= |s|
    decreases |s| - i
  {
    if i == |s| then [] else (if InTag(s, i) then [] else [s[i]]) + Kept(s, i + 1)
  }

  /** Positions inside removed spans contribute nothing. */
  lemma {:induction false} KeptSkipsSpan(s: string, a: nat, b: nat)
    requires a <= b <= |s|
    requires forall i :: a <= i < b ==> InTag(s, i)
    ensures Kept(s, a) == Kept(s, b)
    decreases b - a
  {
    if a < b {
      KeptSkipsSpan(s, a + 1, b);
    }
  }

  /** Dropping a prefix of length `d` that no later span reaches back into
      does not change what is kept after it. */
  lemma {:induction false} KeptShift(s: string, d: nat, i: nat)
    requires d <= i <= |s|
    requires forall m :: d <= m < |s| ==> (InTag(s, m) <==> InTag(s[d..], m - d))
    ensures Kept(s, i) == Kept(s[d..], i - d)
    decreases |s| - i
  {
    if i < |s| {
      var t := s[d..];
      assert t[i - d] == s[i];
      assert InTag(s, i) <==> InTag(t, i - d);
      calc {
        Kept(s, i);
        (if InTag(s, i) then [] else [s[i]]) + Kept(s, i + 1);
        { KeptShift(s, d, i + 1); }
        (if InTag(t, i - d) then [] else [t[i - d]]) + Kept(t, i - d + 1);
        Kept(t, i - d);
      }
    }
  }

  /** After a leading character other than `<`, spans are unchanged. */
  lemma InTagAfterPlainChar(s: string, m: nat)
    requires 1 <= m < |s| && s[0] != '<'
    ensures InTag(s, m) <==> InTag(s[1..], m - 1)
  {
    if InTag(s, m) {
      var j :| 0 <= j <= m && s[j] == '<' && '>' !in s[j..m];
      assert j >= 1;
      assert s[1..][j - 1..m - 1] == s[j..m];
    }
    if InTag(s[1..], m - 1) {
      var j :| 0 <= j <= m - 1 && s[1..][j] == '<' && '>' !in s[1..][j..m - 1];
      assert s[1..][j..m - 1] == s[j + 1..m];
    }
  }

  /** After a span `s[0..d)` closed by the `>` at `d - 1`, spans are
      unchanged. */
  lemma InTagAfterClosedSpan(s: string, d: nat, m: nat)
    requires 1 <= d <= m < |s| && s[d - 1] == '>'
    ensures InTag(s, m) <==> InTag(s[d..], m - d)
  {
    if InTag(s, m) {
      var j :| 0 <= j <= m && s[j] == '<' && '>' !in s[j..m];
      assert forall i :: j <= i < m ==> s[j..m][i - j] == s[i];
      assert s[d..][j - d..m - d] == s[j..m];
    }
    if InTag(s[d..], m - d) {
      var j :| 0 <= j <= m - d && s[d..][j] == '<' && '>' !in s[d..][j..m - d];
      assert s[d..][j..m - d] == s[j + d..m];
    }
  }

  /** Every position of a span opened by the `<` at 0 is removed up to
      index `e`, when no `>` occurs before index `e - 1`. */
  lemma OpenSpanCovers(s: string, e: nat)
    requires 1 <= e <= |s| && s[0] == '<' && '>' !in s[..e - 1]
    ensures forall m :: 0 <= m < e ==> InTag(s, m)
  {
    forall m | 0 <= m < e
      ensures InTag(s, m)
    {
      assert forall c :: c in s[0..m] ==> c in s[..e - 1];
      assert s[0] == '<' && '>' !in s[0..m];
    }
  }

  /** StripTags keeps exactly the characters that lie in no span. */
  lemma {:induction false} StripTagsKeepsUntagged(s: string)
    ensures StripTags(s) == Kept(s, 0)
    decreases |s|
  {
    if s == [] {
    } else if s[0] != '<' {
      assert !InTag(s, 0);
      forall m | 1 <= m < |s|
        ensures InTag(s, m) <==> InTag(s[1..], m - 1)
      {
        InTagAfterPlainChar(s, m);
      }
      KeptShift(s, 1, 1);
      StripTagsKeepsUntagged(s[1..]);
    } else {
      var t := s[1..];
      var k := CloseIndex(t);
      if k < |t| {
        var d := k + 2;
        assert s[..d - 1] == [s[0]] + t[..k];
        OpenSpanCovers(s, d);
        KeptSkipsSpan(s, 0, d);
        forall m | d <= m < |s|
          ensures InTag(s, m) <==> InTag(s[d..], m - d)
        {
          InTagAfterClosedSpan(s, d, m);
        }
        KeptShift(s, d, d);
        assert SpanEnd(t) == k + 1;
        StripTagsKeepsUntagged(s[d..]);
      } else {
        assert '>' !in s by {
          assert s == [s[0]] + t;
        }
        assert forall c :: c in s[..|s| - 1] ==> c in s;
        OpenSpanCovers(s, |s|);
        KeptSkipsSpan(s, 0, |s|);
        assert s[1 + SpanEnd(t)..] == [];
      }
    }
  }
}
