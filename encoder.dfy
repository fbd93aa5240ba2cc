/**
  The diff part of review.go's `makeReviewTemplate`: the `git diff` output is
  copied to the template line by line, and after each counted line of a hunk
  the comments already posted at that position are inserted as an inline
  block, every line of which starts with `*`.
 */
module Encoder {
  import opened Wrappers
  import opened Text
  import opened GitHub
  import opened Getters
  import opened CommentIndex
  import opened Protocol
  import opened Wrap

  /** What every line of a wrapped comment body starts with. */
  const BodyPrefix: string := "*\t"

  /** The header line of an existing comment; the first comment of a thread also names the thread. */
  function CommentHeader(c: PullRequestComment): string {
    CommentByPrefix + GetUserLogin(c.user) + " (" + GetTime(c.createdAt).text + ")"
      + (if c.inReplyTo.None? then " thread " + Itoa(c.id) else "")
  }

  /** One existing comment as the template shows it: the header line, then the wrapped body. */
  function CommentText(c: PullRequestComment): string {
    CommentHeader(c) + "\n" + BodyPrefix + WrapSpec(c.body, BodyPrefix) + "\n"
  }

  function CommentsText(cs: seq<PullRequestComment>): string {
    if cs == [] then "" else CommentsText(cs[..|cs| - 1]) + CommentText(cs[|cs| - 1])
  }

  /** The inline block of the comments at one position, between the two inline markers. */
  function InlineBlock(cs: seq<PullRequestComment>): string {
    InlineStartMarker + "\n" + CommentsText(cs) + InlineEndMarker + "\n"
  }

  /** A piece the loop counts: a non-header line after the first hunk of a file. */
  predicate Counted(c: Cursor, piece: string) {
    piece != "" && c.foundFirstHunk && IsBodyLine(TrimLine(piece))
  }

  /** The cursor after one piece, as the encoder's own loop moves it. */
  function Advance(c: Cursor, piece: string): Cursor {
    var line := TrimLine(piece);
    if piece == "" then c
    else if IsCommitHeader(line) then c.(foundFirstHunk := false, commit := CommitOf(line))
    else if IsDiffHeader(line) then c.(foundFirstHunk := false)
    else if IsFileHeader(line) then c.(file := FileOf(line))
    else if !c.foundFirstHunk then (if IsHunkHeader(line) then c.(foundFirstHunk := true, num := 0) else c)
    else c.(num := c.num + 1)
  }

  /**
    The encoder's loop and the decoder's header rule move the cursor alike: a
    header or pre-hunk line as the rule says, any other line one further.
   */
  lemma {:induction false} AdvanceFollowsHeaderRule(c: Cursor, piece: string)
    requires piece != ""
    ensures HeaderStep(c, TrimLine(piece)).None? <==> Counted(c, piece)
    ensures HeaderStep(c, TrimLine(piece)).Some? ==> Advance(c, piece) == HeaderStep(c, TrimLine(piece)).value
    ensures HeaderStep(c, TrimLine(piece)).None? ==> Advance(c, piece) == c.(num := c.num + 1)
  {
  }

  /** The comments whose block follows a piece reached with cursor `c`, if any. */
  function BlockAfter(index: CommitComments, c: Cursor, piece: string): Option<seq<PullRequestComment>> {
    if Counted(c, piece) then Get(index, c.commit, c.file, c.num + 1) else None
  }

  /** A piece followed by the inline block of `block`, if there is one. */
  function WithBlock(piece: string, block: Option<seq<PullRequestComment>>): string {
    match block
    case None => piece
    case Some(cs) => piece + InlineBlock(cs)
  }

  /** What the loop writes for one piece, reached with cursor `c`. */
  function Emitted(index: CommitComments, c: Cursor, piece: string): string {
    WithBlock(piece, BlockAfter(index, c, piece))
  }

  /**
    Each piece is copied verbatim, and more follows it exactly when it is a
    counted line whose position holds comments: their inline block.
   */
  lemma {:induction false} EmittedVerbatim(index: CommitComments, c: Cursor, piece: string)
    ensures HasPrefix(Emitted(index, c, piece), piece)
    ensures Emitted(index, c, piece) != piece <==>
      Counted(c, piece) && Get(index, c.commit, c.file, c.num + 1).Some?
    ensures Emitted(index, c, piece) != piece ==>
      Emitted(index, c, piece)[|piece|..] == InlineBlock(Get(index, c.commit, c.file, c.num + 1).value)
  {
    var r := Emitted(index, c, piece);
    if Counted(c, piece) && Get(index, c.commit, c.file, c.num + 1).Some? {
      var cs := Get(index, c.commit, c.file, c.num + 1).value;
      assert r == piece + InlineBlock(cs);
      assert |InlineBlock(cs)| > 0;
      assert r[..|piece|] == piece;
    }
  }

  /** The cursor after a list of pieces. */
  function Track(c: Cursor, ls: seq<string>): Cursor {
    if ls == [] then c else Advance(Track(c, ls[..|ls| - 1]), ls[|ls| - 1])
  }

  /** What the loop writes for a list of pieces, starting with cursor `c`. */
  function Annotate(index: CommitComments, c: Cursor, ls: seq<string>): string {
    if ls == [] then ""
    else
      var init := ls[..|ls| - 1];
      Annotate(index, c, init) + Emitted(index, Track(c, init), ls[|ls| - 1])
  }

  /** The diff part of the template for a `git diff` output. */
  function Template(index: CommitComments, diff: string): string {
    Annotate(index, InitialCursor, SplitAfter(diff))
  }

  /** The loop of `makeReviewTemplate`, appending to the buffer that holds the header. */
  method AnnotateDiff(index: CommitComments, header: string, diff: string) returns (buf: string)
    ensures buf == header + Template(index, diff)
  {
    buf := header;
    var commit, file, num, foundFirstHunk := "", "", 0, false;
    var lines := SplitAfter(diff);
    var i := 0;
    while i < |lines| && lines[i] != ""  // the loop breaks on the empty final piece
      invariant 0 <= i <= |lines|
      invariant Cursor(commit, file, num, foundFirstHunk) == Track(InitialCursor, lines[..i])
      invariant buf == header + Annotate(index, InitialCursor, lines[..i])
    {
      var out;
      ghost var before := buf;
      commit, file, num, foundFirstHunk, out := EmitLine(index, commit, file, num, foundFirstHunk, lines[i]);
      buf := buf + out;
      AnnotateStep(index, header, lines, i, before, out);
      i := i + 1;
    }
    if i < |lines| {
      StopAtEmpty(index, diff, i);
    } else {
      assert lines[..|lines|] == lines;
    }
  }

  /** The loop breaks on the empty piece, which is the last one and writes nothing. */
  lemma {:induction false} StopAtEmpty(index: CommitComments, diff: string, i: int)
    requires 0 <= i < |SplitAfter(diff)| && SplitAfter(diff)[i] == ""
    ensures Annotate(index, InitialCursor, SplitAfter(diff)[..i]) == Template(index, diff)
  {
    var lines := SplitAfter(diff);
    AnnotateSnoc(index, lines, i);
    SplitAfterEmptyIsLast(diff, i);
    assert lines[..i + 1] == lines;
  }

  lemma {:induction false} AnnotateSnoc(index: CommitComments, ls: seq<string>, i: int)
    requires 0 <= i < |ls|
    ensures Track(InitialCursor, ls[..i + 1]) == Advance(Track(InitialCursor, ls[..i]), ls[i])
    ensures Annotate(index, InitialCursor, ls[..i + 1]) ==
      Annotate(index, InitialCursor, ls[..i]) + Emitted(index, Track(InitialCursor, ls[..i]), ls[i])
  {
    assert ls[..i + 1][..i] == ls[..i];
  }

  /** One turn of the loop: the buffer and the cursor move on by one piece. */
  lemma {:induction false} AnnotateStep(index: CommitComments, header: string, ls: seq<string>, i: int, buf: string, out: string)
    requires 0 <= i < |ls|
    requires buf == header + Annotate(index, InitialCursor, ls[..i])
    requires out == Emitted(index, Track(InitialCursor, ls[..i]), ls[i])
    ensures buf + out == header + Annotate(index, InitialCursor, ls[..i + 1])
    ensures Track(InitialCursor, ls[..i + 1]) == Advance(Track(InitialCursor, ls[..i]), ls[i])
  {
    AnnotateSnoc(index, ls, i);
    AppendAssoc(header, Annotate(index, InitialCursor, ls[..i]), out);
  }

  /** The body of the loop for one non-empty piece: its text, the block after it, and the new cursor. */
  method EmitLine(index: CommitComments, commit: string, file: string, num: int, foundFirstHunk: bool, piece: string)
      returns (commit': string, file': string, num': int, foundFirstHunk': bool, out: string)
    requires piece != ""
    ensures Cursor(commit', file', num', foundFirstHunk') == Advance(Cursor(commit, file, num, foundFirstHunk), piece)
    ensures out == Emitted(index, Cursor(commit, file, num, foundFirstHunk), piece)
  {
    commit', file', num', foundFirstHunk', out := commit, file, num, foundFirstHunk, piece;
    var line := TrimLine(piece);
    if IsCommitHeader(line) {
      foundFirstHunk' := false;
      commit' := CommitOf(line);
      return;
    }
    if IsDiffHeader(line) {
      foundFirstHunk' := false;
      return;
    }
    if IsFileHeader(line) {
      file' := FileOf(line);
      return;
    }
    if !foundFirstHunk {
      if IsHunkHeader(line) {
        foundFirstHunk' := true;
        num' := 0;
      }
      return;
    }
    num' := num + 1;
    var comments := Get(index, commit, file, num');
    if comments.Some? {
      var block := WriteBlock(comments.value);
      out := out + block;
    }
  }

  /** The inner loop: the markers around the header and wrapped body of each comment. */
  method WriteBlock(cs: seq<PullRequestComment>) returns (s: string)
    ensures s == InlineBlock(cs)
  {
    var start := InlineStartMarker + "\n";
    s := start;
    assert CommentsText(cs[..0]) == "";
    for k := 0 to |cs|
      invariant s == start + CommentsText(cs[..k])
    {
      assert cs[..k + 1][..k] == cs[..k];
      var text := WriteComment(cs[k]);
      AppendAssoc(start, CommentsText(cs[..k]), text);
      s := s + text;
    }
    assert cs[..|cs|] == cs;
    s := s + InlineEndMarker + "\n";
  }

  /** One comment of a block: its header line, then its body wrapped behind `*\t`. */
  method WriteComment(c: PullRequestComment) returns (text: string)
    ensures text == CommentText(c)
  {
    var header := CommentByPrefix + GetUserLogin(c.user) + " (" + GetTime(c.createdAt).text + ")";
    if c.inReplyTo.None? {
      header := header + " thread " + Itoa(c.id);
    }
    var w := Wrap.Wrap(c.body, BodyPrefix);
    text := header + "\n" + BodyPrefix + w + "\n";
  }

  /**
    An inline block is only ever written for comments that exist: in an index
    built by `put`, a position that `get` finds holds at least one comment, all
    anchored at that commit, file and position.
   */
  lemma {:induction false} BlocksAreNonEmpty(list: seq<PullRequestComment>, c: Cursor, piece: string)
    ensures
      var b := BlockAfter(IndexOf(list), c, piece);
      b.Some? ==> |b.value| > 0 && forall k :: 0 <= k < |b.value| ==> KeyedAt(b.value[k], c.commit, c.file, c.num + 1)
  {
    IndexOfConsistent(list);
  }

  /** With no comments at all the template's diff part is the diff itself. */
  lemma {:induction false} NoCommentsNoBlocks(c: Cursor, ls: seq<string>)
    ensures Annotate(map[], c, ls) == Concat(ls)
    decreases |ls|
  {
    if ls != [] {
      NoCommentsNoBlocks(c, ls[..|ls| - 1]);
      var e := Emitted(map[], Track(c, ls[..|ls| - 1]), ls[|ls| - 1]);
      assert e == ls[|ls| - 1];
    }
  }

  lemma {:induction false} TemplateWithoutComments(diff: string)
    ensures Template(map[], diff) == diff
  {
    NoCommentsNoBlocks(InitialCursor, SplitAfter(diff));
    SplitAfterConcat(diff);
  }

  /**
    Inside a hunk the counter goes up by one for each non-empty line that is no
    header, whatever the line holds.
   */
  lemma {:induction false} CountsEveryHunkLine(c: Cursor, ls: seq<string>)
    requires c.foundFirstHunk
    requires forall k :: 0 <= k < |ls| ==> ls[k] != "" && IsBodyLine(TrimLine(ls[k]))
    ensures Track(c, ls) == c.(num := c.num + |ls|)
    decreases |ls|
  {
    if ls != [] {
      var init := ls[..|ls| - 1];
      CountsEveryHunkLine(c, init);
      assert Counted(Track(c, init), ls[|ls| - 1]);
    }
  }

  /** A printable comment: its login and its time text stay on one line. */
  predicate Printable(c: PullRequestComment) {
    '\n' !in GetUserLogin(c.user) && '\n' !in GetTime(c.createdAt).text
  }

  ghost predicate AllPrintable(index: CommitComments) {
    forall commit, file, line :: Get(index, commit, file, line).Some? ==>
      forall k :: 0 <= k < |Get(index, commit, file, line).value| ==> Printable(Get(index, commit, file, line).value[k])
  }

  /**
    A line the decoder skips inside a hunk: a complete line whose first byte is
    `*`, and which carries no thread id that `strconv.Atoi` cannot read.
   */
  predicate StarLine(piece: string) {
    && IsLine(piece) && |piece| >= 2 && piece[0] == '*'
    && var m := ThreadIdMatch(TrimLine(piece));
       m.Some? ==> DecimalValue(m.value) <= MaxInt64
  }

  /** The pieces of the wrapped body lines made from the chunks `xs`. */
  function ChunkLines(xs: seq<string>): seq<string> {
    if xs == [] then [] else ChunkLines(xs[..|xs| - 1]) + [BodyPrefix + xs[|xs| - 1] + "\n"]
  }

  /** The lines of `BodyPrefix + WrapAll(lines, BodyPrefix) + "\n"`, mirroring `WrapAll`. */
  function WrappedLines(lines: seq<string>): seq<string> {
    if |lines| == 0 then [BodyPrefix + "\n"]
    else if |lines| == 1 then ChunkLines(Chunks(lines[0]))
    else WrappedLines(lines[..|lines| - 1]) + ChunkLines(Chunks(lines[|lines| - 1]))
  }

  function CommentLines(c: PullRequestComment): seq<string> {
    [CommentHeader(c) + "\n"] + WrappedLines(SplitLines(ReplaceCrlf(c.body)))
  }

  function CommentsLines(cs: seq<PullRequestComment>): seq<string> {
    if cs == [] then [] else CommentsLines(cs[..|cs| - 1]) + CommentLines(cs[|cs| - 1])
  }

  /** The inline block, line by line. */
  function BlockLines(cs: seq<PullRequestComment>): seq<string> {
    [InlineStartMarker + "\n"] + CommentsLines(cs) + [InlineEndMarker + "\n"]
  }

  lemma {:induction false} ChunkLinesConcat(xs: seq<string>)
    requires |xs| > 0
    ensures Concat(ChunkLines(xs)) == BodyPrefix + Join(xs, "\n" + BodyPrefix) + "\n"
    decreases |xs|
  {
    var init, x := xs[..|xs| - 1], xs[|xs| - 1];
    var l := BodyPrefix + x + "\n";
    assert ChunkLines(xs) == ChunkLines(init) + [l];
    ConcatAppend(ChunkLines(init), [l]);
    assert Concat([l]) == Concat([]) + l;
    if |init| > 0 {
      ChunkLinesConcat(init);
      assert xs[..|xs| - 1] == init;
    } else {
      assert ChunkLines(init) == [];
    }
  }

  lemma {:induction false} WrappedLinesConcat(lines: seq<string>)
    ensures Concat(WrappedLines(lines)) == BodyPrefix + WrapAll(lines, BodyPrefix) + "\n"
    decreases |lines|
  {
    if |lines| == 0 {
      assert Concat([BodyPrefix + "\n"]) == Concat([]) + (BodyPrefix + "\n");
    } else if |lines| == 1 {
      ChunkLinesConcat(Chunks(lines[0]));
    } else {
      var init, last := lines[..|lines| - 1], lines[|lines| - 1];
      WrappedLinesConcat(init);
      ChunkLinesConcat(Chunks(last));
      ConcatAppend(WrappedLines(init), ChunkLines(Chunks(last)));
      var a, j := WrapAll(init, BodyPrefix), WrapLine(last, BodyPrefix);
      assert WrapAll(lines, BodyPrefix) == a + "\n" + BodyPrefix + j;
      Regroup(BodyPrefix, a, j);
    }
  }

  lemma {:induction false} Regroup(p: string, a: string, j: string)
    ensures (p + a + "\n") + (p + j + "\n") == p + (a + "\n" + p + j) + "\n"
  {
    var n := "\n";
    calc {
      (p + a + n) + (p + j + n);
    == { AppendAssoc(p + a + n, p + j, n); }
      ((p + a + n) + (p + j)) + n;
    == { AppendAssoc(p + a + n, p, j); }
      (((p + a + n) + p) + j) + n;
    == { AppendAssoc(p, a + n + p, j); AppendAssoc(p, a, n); AppendAssoc(p, a + n, p); }
      (p + (a + n + p + j)) + n;
    }
  }

  lemma {:induction false} CommentLinesConcat(c: PullRequestComment)
    ensures Concat(CommentLines(c)) == CommentText(c)
  {
    WrappedLinesConcat(SplitLines(ReplaceCrlf(c.body)));
    ConcatCons(CommentHeader(c) + "\n", WrappedLines(SplitLines(ReplaceCrlf(c.body))));
  }

  lemma {:induction false} CommentsLinesConcat(cs: seq<PullRequestComment>)
    ensures Concat(CommentsLines(cs)) == CommentsText(cs)
    decreases |cs|
  {
    if cs != [] {
      var init := cs[..|cs| - 1];
      CommentsLinesConcat(init);
      CommentLinesConcat(cs[|cs| - 1]);
      ConcatAppend(CommentsLines(init), CommentLines(cs[|cs| - 1]));
    }
  }

  /** The block's lines, written one after the other, are the block. */
  lemma {:induction false} BlockLinesConcat(cs: seq<PullRequestComment>)
    ensures Concat(BlockLines(cs)) == InlineBlock(cs)
  {
    var a, b := InlineStartMarker + "\n", InlineEndMarker + "\n";
    CommentsLinesConcat(cs);
    ConcatCons(a, CommentsLines(cs));
    ConcatAppend([a] + CommentsLines(cs), [b]);
    assert Concat([b]) == Concat([]) + b;
  }

  /** A body line: the body prefix, one newline-free chunk and the newline. */
  lemma {:induction false} BodyLineIsStarLine(x: string)
    requires '\n' !in x
    ensures StarLine(BodyPrefix + x + "\n")
  {
    NoThreadIdWithoutCommentBy(BodyPrefix + x);
    TerminatedIsStarLine(BodyPrefix + x);
    assert BodyPrefix + x + "\n" == (BodyPrefix + x) + "\n";
  }

  lemma {:induction false} ChunkLinesAreStarLines(xs: seq<string>)
    requires forall k :: 0 <= k < |xs| ==> '\n' !in xs[k]
    ensures forall k :: 0 <= k < |ChunkLines(xs)| ==> StarLine(ChunkLines(xs)[k])
    decreases |xs|
  {
    if xs != [] {
      var init := xs[..|xs| - 1];
      ChunkLinesAreStarLines(init);
      BodyLineIsStarLine(xs[|xs| - 1]);
    }
  }

  lemma {:induction false} WrappedLinesAreStarLines(lines: seq<string>)
    requires forall k :: 0 <= k < |lines| ==> '\n' !in lines[k]
    ensures forall k :: 0 <= k < |WrappedLines(lines)| ==> StarLine(WrappedLines(lines)[k])
    decreases |lines|
  {
    if |lines| == 0 {
      BodyLineIsStarLine("");
      assert BodyPrefix + "" + "\n" == BodyPrefix + "\n";
    } else {
      var last := lines[|lines| - 1];
      ChunksNoNewline(last);
      ChunkLinesAreStarLines(Chunks(last));
      if |lines| >= 2 {
        WrappedLinesAreStarLines(lines[..|lines| - 1]);
      }
    }
  }

  /** A newline-free text starting with `*`, with no unreadable thread id, is a star line once terminated. */
  lemma {:induction false} TerminatedIsStarLine(h: string)
    requires |h| >= 1 && h[0] == '*' && '\n' !in h
    requires ThreadIdMatch(h).Some? ==> DecimalValue(ThreadIdMatch(h).value) <= MaxInt64
    ensures StarLine(h + "\n")
  {
    var p := h + "\n";
    assert p[..|p| - 1] == h;
  }

  lemma {:induction false} ItoaHasNoNewline(n: int)
    ensures '\n' !in Itoa(n)
  {
    var d := Itoa(n);
    if n < 0 {
      assert d == [d[0]] + d[1..];
      assert forall k :: 0 <= k < |d[1..]| ==> IsDigit(d[1..][k]);
    } else {
      assert forall k :: 0 <= k < |d| ==> IsDigit(d[k]);
    }
  }

  lemma {:induction false} HeaderShape(c: PullRequestComment)
    requires Printable(c)
    ensures |CommentHeader(c)| >= 1 && CommentHeader(c)[0] == '*' && '\n' !in CommentHeader(c)
  {
    ItoaHasNoNewline(c.id);
    var h := CommentHeader(c);
    assert h[0] == CommentByPrefix[0];
  }

  /** When the header line carries a thread id, the id is the comment's own, and it fits an `int`. */
  lemma {:induction false} HeaderThreadId(c: PullRequestComment)
    ensures ThreadIdMatch(CommentHeader(c)).Some? ==>
      c.inReplyTo.None? && c.id >= 0 && ThreadIdMatch(CommentHeader(c)).value == Itoa(c.id)
  {
    var h := CommentHeader(c);
    var y := CommentByPrefix + GetUserLogin(c.user) + " (" + GetTime(c.createdAt).text + ")";
    if c.inReplyTo.None? {
      var x := y + " thread ";
      var d := Itoa(c.id);
      assert h == x + d;
      if c.id >= 0 {
        ThreadIdDigitsAreMaximal(h, x, d);
      } else {
        assert h == (x + "-") + d[1..];
        ThreadIdDigitsAreMaximal(h, x + "-", d[1..]);
      }
    } else {
      assert h == y;
      NoThreadIdWithoutDigitEnd(h);
    }
  }

  lemma {:induction false} HeaderIsStarLine(c: PullRequestComment)
    requires Printable(c)
    ensures StarLine(CommentHeader(c) + "\n")
  {
    HeaderShape(c);
    HeaderThreadId(c);
    if ThreadIdMatch(CommentHeader(c)).Some? {
      assert ThreadIdMatch(CommentHeader(c)).value == Itoa(c.id);
    }
    TerminatedIsStarLine(CommentHeader(c));
  }

  lemma {:induction false} CommentsLinesAreStarLines(cs: seq<PullRequestComment>)
    requires forall k :: 0 <= k < |cs| ==> Printable(cs[k])
    ensures forall k :: 0 <= k < |CommentsLines(cs)| ==> StarLine(CommentsLines(cs)[k])
    decreases |cs|
  {
    if cs != [] {
      var init, c := cs[..|cs| - 1], cs[|cs| - 1];
      CommentsLinesAreStarLines(init);
      HeaderIsStarLine(c);
      SplitLinesHaveNoNewline(ReplaceCrlf(c.body));
      WrappedLinesAreStarLines(SplitLines(ReplaceCrlf(c.body)));
    }
  }

  /** Every line the encoder inserts starts with `*`, the markers included. */
  lemma {:induction false} BlockLinesAreStarLines(cs: seq<PullRequestComment>)
    requires forall k :: 0 <= k < |cs| ==> Printable(cs[k])
    ensures forall k :: 0 <= k < |BlockLines(cs)| ==> StarLine(BlockLines(cs)[k])
  {
    CommentsLinesAreStarLines(cs);
    InlineMarkersStartWithStar();
    MarkerIsStarLine(InlineStartMarker);
    MarkerIsStarLine(InlineEndMarker);
  }

  lemma {:induction false} MarkerIsStarLine(m: string)
    requires |m| == 80 && m[0] == '*' && m[1] == '*' && '\n' !in m
    ensures StarLine(m + "\n")
  {
    NoThreadIdWithoutCommentBy(m);
    TerminatedIsStarLine(m);
  }
}
