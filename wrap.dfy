/**
  main.go's `wrap`: re-flows a comment body to 70-byte chunks, starting every
  continuation line (from a cut or from an original newline) with a prefix.
 */
module Wrap {
  import opened Text

  const Width: nat := 70

  /**
    Where a line longer than 70 bytes is cut: just after the last space of its
    first 70 bytes (the space stays on the earlier chunk), or after 70 bytes.
   */
  function BreakPoint(s: string): (b: nat)
    requires |s| > Width
    ensures 0 < b <= Width
    ensures b < Width ==> s[b - 1] == ' '
    ensures forall j :: b <= j < Width ==> s[j] != ' '
    // a hard cut after 70 bytes happens only when those bytes hold no space
    ensures b == Width ==> s[Width - 1] == ' ' || forall j :: 0 <= j < Width ==> s[j] != ' '
  {
    var i := LastIndexOf(s[..Width], ' ');
    if i < 0 then Width else i + 1
  }

  /** The chunks one newline-free line is cut into. */
  function Chunks(s: string): (r: seq<string>)
    ensures |r| > 0
    decreases |s|
  {
    if |s| <= Width then [s]
    else
      var b := BreakPoint(s);
      [s[..b]] + Chunks(s[b..])
  }

  /** One line as the inner loop writes it: its chunks separated by a newline and the prefix. */
  function WrapLine(s: string, prefix: string): string {
    Join(Chunks(s), "\n" + prefix)
  }

  /** The wrapped lines, separated by a newline and the prefix. */
  function WrapAll(lines: seq<string>, prefix: string): string {
    if |lines| == 0 then ""
    else if |lines| == 1 then WrapLine(lines[0], prefix)
    else WrapAll(lines[..|lines| - 1], prefix) + "\n" + prefix + WrapLine(lines[|lines| - 1], prefix)
  }

  /** What `wrap(t, prefix)` returns. */
  function WrapSpec(t: string, prefix: string): string {
    WrapAll(SplitLines(ReplaceCrlf(t)), prefix)
  }

  /** main.go's `wrap`, with its two nested loops. */
  method Wrap(t: string, prefix: string) returns (out: string)
    ensures out == WrapSpec(t, prefix)
  {
    out := "";
    var normalised := ReplaceCrlf(t);
    var lines := SplitLines(normalised);
    for i := 0 to |lines|
      invariant out == WrapAll(lines[..i], prefix)
    {
      WrapAllSnoc(lines, i, prefix);
      if i > 0 {
        out := out + "\n" + prefix;
      }
      ghost var base := out;
      var s := lines[i];
      while |s| > Width
        invariant out + WrapLine(s, prefix) == base + WrapLine(lines[i], prefix)
        decreases |s|
      {
        var j := LastIndexOf(s[..Width], ' ');
        if j < 0 {
          j := Width - 1;
        }
        j := j + 1;
        WrapLineCut(s, prefix);
        out := out + s[..j] + "\n" + prefix;
        s := s[j..];
      }
      WrapLineCut(s, prefix);
      out := out + s;
    }
    assert lines[..|lines|] == lines;
  }

  lemma {:induction false} WrapAllSnoc(lines: seq<string>, i: nat, prefix: string)
    requires i < |lines|
    ensures WrapAll(lines[..i + 1], prefix)
      == (if i == 0 then "" else WrapAll(lines[..i], prefix) + "\n" + prefix) + WrapLine(lines[i], prefix)
  {
    assert lines[..i + 1][..i] == lines[..i];
  }

  lemma {:induction false} WrapLineCut(s: string, prefix: string)
    ensures |s| <= Width ==> WrapLine(s, prefix) == s
    ensures |s| > Width ==>
      WrapLine(s, prefix) == s[..BreakPoint(s)] + "\n" + prefix + WrapLine(s[BreakPoint(s)..], prefix)
  {
    if |s| > Width {
      var b := BreakPoint(s);
      JoinCons(s[..b], Chunks(s[b..]), "\n" + prefix);
    }
  }

  /** Every chunk is at most 70 bytes long. */
  lemma {:induction false} ChunksBounded(s: string)
    ensures forall k :: 0 <= k < |Chunks(s)| ==> |Chunks(s)[k]| <= Width
    decreases |s|
  {
    if |s| > Width {
      ChunksBounded(s[BreakPoint(s)..]);
    }
  }

  /** The chunks of a line, put back together, are the line. */
  lemma {:induction false} ChunksConcat(s: string)
    ensures Concat(Chunks(s)) == s
    decreases |s|
  {
    if |s| <= Width {
      assert Concat([s]) == Concat([]) + s;
    } else {
      var b := BreakPoint(s);
      ChunksConcat(s[b..]);
      ConcatCons(s[..b], Chunks(s[b..]));
      assert s == s[..b] + s[b..];
    }
  }

  /** The cut: a short line stays whole; a long one loses its first chunk at the break point. */
  lemma {:induction false} ChunksFirstCut(s: string)
    ensures |s| <= Width ==> Chunks(s) == [s]
    ensures |s| > Width ==> Chunks(s)[0] == s[..BreakPoint(s)] && Chunks(s)[1..] == Chunks(s[BreakPoint(s)..])
  {
  }

  /** Chunks are pieces of a newline-free line, so they hold no newline. */
  lemma {:induction false} ChunksNoNewline(s: string)
    requires '\n' !in s
    ensures forall k :: 0 <= k < |Chunks(s)| ==> '\n' !in Chunks(s)[k]
    decreases |s|
  {
    if |s| > Width {
      var b := BreakPoint(s);
      assert forall c :: c in s[..b] ==> c in s;
      assert forall c :: c in s[b..] ==> c in s;
      ChunksNoNewline(s[b..]);
    }
  }

  /** Every newline of `s` is followed by `p`. */
  predicate NewlinesFollowedBy(s: string, p: string) {
    forall i :: 0 <= i < |s| && s[i] == '\n' ==> HasPrefix(s[i + 1..], p)
  }

  lemma {:induction false} JoinSeparated(cs: seq<string>, p: string)
    requires '\n' !in p
    requires forall k :: 0 <= k < |cs| ==> '\n' !in cs[k]
    ensures NewlinesFollowedBy(Join(cs, "\n" + p), p)
    decreases |cs|
  {
    if |cs| >= 2 {
      var init := cs[..|cs| - 1];
      var last := cs[|cs| - 1];
      JoinSeparated(init, p);
      var a := Join(init, "\n" + p);
      var s := Join(cs, "\n" + p);
      assert s == a + "\n" + (p + last);
      forall i | |a| < i < |s|
        ensures s[i] != '\n'
      {
        assert s[i] == (p + last)[i - |a| - 1];
      }
      forall i | 0 <= i < |s| && s[i] == '\n'
        ensures HasPrefix(s[i + 1..], p)
      {
        if i < |a| {
          assert s[i + 1..] == a[i + 1..] + "\n" + (p + last);
        } else {
          assert s[i + 1..] == p + last;
        }
      }
    }
  }

  lemma {:induction false} WrapAllSeparated(lines: seq<string>, p: string)
    requires '\n' !in p
    requires forall k :: 0 <= k < |lines| ==> '\n' !in lines[k]
    ensures NewlinesFollowedBy(WrapAll(lines, p), p)
    decreases |lines|
  {
    if |lines| == 1 {
      ChunksNoNewline(lines[0]);
      JoinSeparated(Chunks(lines[0]), p);
    } else if |lines| >= 2 {
      var init := lines[..|lines| - 1];
      var last := WrapLine(lines[|lines| - 1], p);
      WrapAllSeparated(init, p);
      ChunksNoNewline(lines[|lines| - 1]);
      JoinSeparated(Chunks(lines[|lines| - 1]), p);
      var a := WrapAll(init, p);
      var s := WrapAll(lines, p);
      assert s == a + "\n" + (p + last);
      forall i | |a| < i <= |a| + |p|
        ensures s[i] != '\n'
      {
        assert s[i] == p[i - |a| - 1];
      }
      forall i | 0 <= i < |s| && s[i] == '\n'
        ensures HasPrefix(s[i + 1..], p)
      {
        if i < |a| {
          assert s[i + 1..] == a[i + 1..] + "\n" + (p + last);
        } else if i == |a| {
          assert s[i + 1..] == p + last;
        } else {
          var j := i - |a| - 1 - |p|;
          assert s[i] == last[j];
          assert s[i + 1..] == last[j + 1..];
        }
      }
    }
  }

  /**
    Each newline of the output is an inserted break or an original newline, and
    is followed by the prefix: no output line escapes the prefix.
   */
  lemma {:induction false} WrapPrefixesEveryLine(t: string, prefix: string)
    requires '\n' !in prefix
    ensures NewlinesFollowedBy(WrapSpec(t, prefix), prefix)
  {
    SplitLinesHaveNoNewline(ReplaceCrlf(t));
    WrapAllSeparated(SplitLines(ReplaceCrlf(t)), prefix);
  }

  /** Without `\r` there is nothing to normalise. */
  lemma {:induction false} ReplaceCrlfWithoutCr(t: string)
    requires '\r' !in t
    ensures ReplaceCrlf(t) == t
    decreases |t|
  {
    if t != [] {
      assert t[0] != '\r';
      assert '\r' !in t[1..] by { assert forall c :: c in t[1..] ==> c in t; }
      ReplaceCrlfWithoutCr(t[1..]);
      assert t == [t[0]] + t[1..];
    }
  }

  /**
    When no line is longer than 70 bytes nothing is cut: each original newline
    becomes a newline followed by the prefix, and the text is otherwise unchanged.
   */
  lemma {:induction false} WrapAllShort(lines: seq<string>, prefix: string)
    requires forall k :: 0 <= k < |lines| ==> |lines[k]| <= Width
    ensures WrapAll(lines, prefix) == Join(lines, "\n" + prefix)
    decreases |lines|
  {
    if |lines| >= 2 {
      WrapAllShort(lines[..|lines| - 1], prefix);
    }
  }

  lemma {:induction false} WrapShortLines(t: string, prefix: string)
    requires forall k :: 0 <= k < |SplitLines(ReplaceCrlf(t))| ==> |SplitLines(ReplaceCrlf(t))[k]| <= Width
    ensures WrapSpec(t, prefix) == Join(SplitLines(ReplaceCrlf(t)), "\n" + prefix)
  {
    WrapAllShort(SplitLines(ReplaceCrlf(t)), prefix);
  }
}
