/**
  The template protocol read both ways: the decoder of review.go, run over a
  template the encoder wrote and nobody edited, keeps the encoder's position,
  skips every inserted block and makes no draft comment.
 */
module RoundTrip {
  import opened Wrappers
  import opened Text
  import opened GitHub
  import opened CommentIndex
  import opened Protocol
  import opened Decoder
  import opened DecoderProperties
  import opened Encoder

  /**
    A diff piece, reached with cursor `c`, that the decoder reads as the encoder
    does: a complete line, no marker, no thread id, and inside a hunk a line
    that starts like a line of a hunk.
   */
  predicate CleanLine(c: Cursor, piece: string) {
    && IsLine(piece)
    && var line := TrimLine(piece);
       && !IsMarker(line) && ThreadIdMatch(line).None?
       && (c.foundFirstHunk && IsBodyLine(line) ==> line != "" && IsDiffLineStart(line[0]))
  }

  predicate CleanDiff(c: Cursor, ls: seq<string>) {
    forall k :: 0 <= k < |ls| ==> CleanLine(Track(c, ls[..k]), ls[k])
  }

  /** A `git diff` output ending in a newline whose lines are all clean. */
  predicate CleanDiffText(diff: string) {
    var ps := SplitAfter(diff);
    ps[|ps| - 1] == "" && CleanDiff(InitialCursor, ps[..|ps| - 1])
  }

  /**
    A `git show` output: empty, or starting with the `commit` line that the
    pretty format puts first.
   */
  predicate StartsWithCommit(diff: string) {
    var ps := SplitAfter(diff);
    |ps| == 1 || IsCommitHeader(TrimLine(ps[0]))
  }

  /** The lines of a piece followed by the inline block of `block`, if there is one. */
  function LinesWithBlock(piece: string, block: Option<seq<PullRequestComment>>): seq<string> {
    match block
    case None => [piece]
    case Some(cs) => [piece] + BlockLines(cs)
  }

  /** The lines the encoder writes for one piece: the piece, then the block, if any. */
  function PieceLines(index: CommitComments, c: Cursor, piece: string): seq<string> {
    if piece == "" then [] else LinesWithBlock(piece, BlockAfter(index, c, piece))
  }

  function EncodedLines(index: CommitComments, c: Cursor, ls: seq<string>): seq<string> {
    if ls == [] then []
    else
      var init := ls[..|ls| - 1];
      EncodedLines(index, c, init) + PieceLines(index, Track(c, init), ls[|ls| - 1])
  }

  lemma {:induction false} LinesWithBlockConcat(piece: string, block: Option<seq<PullRequestComment>>)
    ensures Concat(LinesWithBlock(piece, block)) == WithBlock(piece, block)
  {
    match block
    case None =>
      assert Concat([piece]) == Concat([]) + piece;
    case Some(cs) =>
      BlockLinesConcat(cs);
      ConcatCons(piece, BlockLines(cs));
  }

  lemma {:induction false} PieceLinesConcat(index: CommitComments, c: Cursor, piece: string)
    ensures Concat(PieceLines(index, c, piece)) == Emitted(index, c, piece)
  {
    if piece != "" {
      LinesWithBlockConcat(piece, BlockAfter(index, c, piece));
    }
  }

  /** The template's lines, written one after the other, are the template. */
  lemma {:induction false} EncodedLinesConcat(index: CommitComments, c: Cursor, ls: seq<string>)
    ensures Concat(EncodedLines(index, c, ls)) == Annotate(index, c, ls)
    decreases |ls|
  {
    if ls != [] {
      var init := ls[..|ls| - 1];
      EncodedLinesConcat(index, c, init);
      PieceLinesConcat(index, Track(c, init), ls[|ls| - 1]);
      ConcatAppend(EncodedLines(index, c, init), PieceLines(index, Track(c, init), ls[|ls| - 1]));
    }
  }

  /** The review request as the decoder found it: no new comment, no new body, no region open. */
  predicate Keeps(st: DecodeState, r: DecodeState) {
    && r.topLevelStart == 0
    && r.review.comments == st.review.comments
    && r.review.body == st.review.body
    && r.review.event == st.review.event
  }

  /** Inside a hunk the decoder skips a line starting with `*` and keeps its position. */
  lemma {:induction false} StarLineStep(dat: string, st: DecodeState, piece: string)
    requires Valid(dat, st) && st.off + |piece| <= |dat|
    requires StarLine(piece) && st.topLevelStart == 0 && st.cursor.foundFirstHunk
    ensures Step(dat, st, piece).Ok?
    ensures Step(dat, st, piece).value.cursor == st.cursor
    ensures Step(dat, st, piece).value.review == st.review
    ensures Step(dat, st, piece).value.topLevelStart == 0
  {
    var line := TrimLine(piece);
    assert line == piece[..|piece| - 1];
    assert line[0] == '*';
    TopLevelMarkersAreLines();
    assert line != TopLevelStartMarker && line != TopLevelEndMarker;
    if line == InlineEndMarker {
      StepInlineEnd(dat, st, piece);
    } else if line == InlineStartMarker {
    } else if ThreadIdMatch(line).Some? {
      StepThreadId(dat, st, piece, ThreadIdMatch(line).value);
    } else {
      StepDiff(dat, st, piece);
      assert HeaderStep(st.cursor, line).None?;
    }
  }

  /** A whole inserted block is skipped the same way. */
  lemma {:induction false} ScanStarLines(dat: string, st: DecodeState, ls: seq<string>)
    requires Valid(dat, st) && st.off + |Concat(ls)| <= |dat|
    requires st.topLevelStart == 0 && st.cursor.foundFirstHunk
    requires forall k :: 0 <= k < |ls| ==> StarLine(ls[k])
    ensures Scan(dat, st, ls).Ok?
    ensures Scan(dat, st, ls).value.cursor == st.cursor
    ensures Scan(dat, st, ls).value.review == st.review
    ensures Scan(dat, st, ls).value.topLevelStart == 0
    decreases |ls|
  {
    if ls != [] {
      var init := ls[..|ls| - 1];
      assert Concat(ls) == Concat(init) + ls[|ls| - 1];
      ScanStarLines(dat, st, init);
      StarLineStep(dat, Scan(dat, st, init).value, ls[|ls| - 1]);
    }
  }

  /** A clean diff piece moves the decoder's cursor exactly as it moves the encoder's. */
  lemma {:induction false} CleanStep(dat: string, st: DecodeState, piece: string)
    requires Valid(dat, st) && st.off + |piece| <= |dat|
    requires st.topLevelStart == 0 && CleanLine(st.cursor, piece)
    ensures Step(dat, st, piece).Ok?
    ensures Step(dat, st, piece).value.cursor == Advance(st.cursor, piece)
    ensures Keeps(st, Step(dat, st, piece).value)
  {
    StepDiff(dat, st, piece);
    AdvanceFollowsHeaderRule(st.cursor, piece);
  }

  /** The lines written for one clean piece leave the decoder where the encoder is. */
  lemma {:induction false} ScanPiece(dat: string, st: DecodeState, index: CommitComments, piece: string)
    requires Valid(dat, st) && st.off + |Concat(PieceLines(index, st.cursor, piece))| <= |dat|
    requires st.topLevelStart == 0 && CleanLine(st.cursor, piece) && AllPrintable(index)
    ensures Scan(dat, st, PieceLines(index, st.cursor, piece)).Ok?
    ensures Scan(dat, st, PieceLines(index, st.cursor, piece)).value.cursor == Advance(st.cursor, piece)
    ensures Keeps(st, Scan(dat, st, PieceLines(index, st.cursor, piece)).value)
  {
    var c := st.cursor;
    match BlockAfter(index, c, piece)
    case None =>
      ScanLone(dat, st, piece);
    case Some(cs) =>
      PrintableAt(index, c.commit, c.file, c.num + 1);
      ScanBlock(dat, st, piece, cs);
  }

  lemma {:induction false} PrintableAt(index: CommitComments, commit: string, file: string, line: int)
    requires AllPrintable(index) && Get(index, commit, file, line).Some?
    ensures forall k :: 0 <= k < |Get(index, commit, file, line).value| ==> Printable(Get(index, commit, file, line).value[k])
  {
  }

  /** A piece with no block after it. */
  lemma {:induction false} ScanLone(dat: string, st: DecodeState, piece: string)
    requires Valid(dat, st) && st.off + |piece| <= |dat|
    requires st.topLevelStart == 0 && CleanLine(st.cursor, piece)
    ensures Concat([piece]) == piece
    ensures Scan(dat, st, [piece]).Ok?
    ensures Scan(dat, st, [piece]).value.cursor == Advance(st.cursor, piece)
    ensures Keeps(st, Scan(dat, st, [piece]).value)
  {
    ScanSingle(dat, st, piece);
    CleanStep(dat, st, piece);
  }

  /** A counted line and the block after it. */
  lemma {:induction false} ScanBlock(dat: string, st: DecodeState, piece: string, cs: seq<PullRequestComment>)
    requires Valid(dat, st) && st.off + |Concat([piece] + BlockLines(cs))| <= |dat|
    requires st.topLevelStart == 0 && CleanLine(st.cursor, piece) && Counted(st.cursor, piece)
    requires forall k :: 0 <= k < |cs| ==> Printable(cs[k])
    ensures Scan(dat, st, [piece] + BlockLines(cs)).Ok?
    ensures Scan(dat, st, [piece] + BlockLines(cs)).value.cursor == Advance(st.cursor, piece)
    ensures Keeps(st, Scan(dat, st, [piece] + BlockLines(cs)).value)
  {
    var bs := BlockLines(cs);
    ConcatCons(piece, bs);
    ScanSingle(dat, st, piece);
    CleanStep(dat, st, piece);
    var s1 := Step(dat, st, piece).value;
    BlockLinesConcat(cs);
    BlockLinesAreStarLines(cs);
    ScanStarLines(dat, s1, bs);
    ScanThen(dat, st, [piece], bs, s1, Scan(dat, s1, bs).value);
  }

  lemma {:induction false} PieceLinesAreLines(index: CommitComments, c: Cursor, piece: string)
    requires CleanLine(c, piece) && AllPrintable(index)
    ensures forall k :: 0 <= k < |PieceLines(index, c, piece)| ==> IsLine(PieceLines(index, c, piece)[k])
  {
    match BlockAfter(index, c, piece)
    case None =>
    case Some(cs) =>
      PrintableAt(index, c.commit, c.file, c.num + 1);
      BlockLinesAreStarLines(cs);
  }

  lemma {:induction false} CleanDiffInit(c: Cursor, ls: seq<string>)
    requires |ls| > 0 && CleanDiff(c, ls)
    ensures CleanDiff(c, ls[..|ls| - 1])
    ensures CleanLine(Track(c, ls[..|ls| - 1]), ls[|ls| - 1])
  {
    var init := ls[..|ls| - 1];
    forall k | 0 <= k < |init|
      ensures CleanLine(Track(c, init[..k]), init[k])
    {
      assert init[..k] == ls[..k];
    }
  }

  /**
    The diff part of an untouched template: the decoder ends where the encoder
    ended, and adds no comment and no body on the way.
   */
  lemma {:induction false} ScanEncoded(dat: string, st: DecodeState, index: CommitComments, ls: seq<string>)
    requires Valid(dat, st) && st.off + |Annotate(index, st.cursor, ls)| <= |dat|
    requires st.topLevelStart == 0 && CleanDiff(st.cursor, ls) && AllPrintable(index)
    ensures Concat(EncodedLines(index, st.cursor, ls)) == Annotate(index, st.cursor, ls)
    ensures Scan(dat, st, EncodedLines(index, st.cursor, ls)).Ok?
    ensures Scan(dat, st, EncodedLines(index, st.cursor, ls)).value.cursor == Track(st.cursor, ls)
    ensures Keeps(st, Scan(dat, st, EncodedLines(index, st.cursor, ls)).value)
    decreases |ls|
  {
    EncodedLinesConcat(index, st.cursor, ls);
    if ls != [] {
      var c := st.cursor;
      var init, last := ls[..|ls| - 1], ls[|ls| - 1];
      CleanDiffInit(c, ls);
      EncodedLinesConcat(index, c, init);
      ScanEncoded(dat, st, index, init);
      var s := Scan(dat, st, EncodedLines(index, c, init)).value;
      ConcatAppend(EncodedLines(index, c, init), PieceLines(index, s.cursor, last));
      ScanPiece(dat, s, index, last);
      ScanAppend(dat, st, EncodedLines(index, c, init), PieceLines(index, s.cursor, last));
    }
  }

  /** The final empty piece of a diff writes nothing. */
  lemma {:induction false} TemplateLines(index: CommitComments, diff: string)
    requires SplitAfter(diff)[|SplitAfter(diff)| - 1] == ""
    ensures
      var ps := SplitAfter(diff);
      Template(index, diff) == Annotate(index, InitialCursor, ps[..|ps| - 1])
  {
    var ps := SplitAfter(diff);
    assert ps[..|ps| - 1] == ps[..|ps| - 1];
  }

  /** Two cursors that the first piece moves to the same place stay together. */
  lemma {:induction false} TrackFromFirst(c: Cursor, d: Cursor, ls: seq<string>)
    requires |ls| > 0 && Advance(c, ls[0]) == Advance(d, ls[0])
    ensures Track(c, ls) == Track(d, ls)
    decreases |ls|
  {
    var init := ls[..|ls| - 1];
    if |ls| == 1 {
      assert init == [];
    } else {
      assert init[0] == ls[0];
      TrackFromFirst(c, d, init);
    }
  }

  /** ... and the encoder writes the same for them, once it writes the same for the first piece. */
  lemma {:induction false} AnnotateFromFirst(index: CommitComments, c: Cursor, d: Cursor, ls: seq<string>)
    requires |ls| > 0 && Advance(c, ls[0]) == Advance(d, ls[0])
    requires Emitted(index, c, ls[0]) == Emitted(index, d, ls[0])
    ensures Annotate(index, c, ls) == Annotate(index, d, ls)
    decreases |ls|
  {
    var init := ls[..|ls| - 1];
    if |ls| == 1 {
      assert init == [];
    } else {
      assert init[0] == ls[0];
      AnnotateFromFirst(index, c, d, init);
      TrackFromFirst(c, d, init);
    }
  }

  /**
    After a header that leaves the decoder outside any hunk, with no file and at
    position 0, the encoder's walk over a `git show` output is the same from the
    decoder's cursor as from the initial one, whatever commit the header named:
    the diff's first line names its own commit.
   */
  lemma {:induction false} HeadCursorAgrees(index: CommitComments, c: Cursor, ls: seq<string>)
    requires !c.foundFirstHunk && c.file == "" && c.num == 0
    requires CleanDiff(InitialCursor, ls)
    requires ls == [] || IsCommitHeader(TrimLine(ls[0]))
    ensures Annotate(index, c, ls) == Annotate(index, InitialCursor, ls)
    ensures CleanDiff(c, ls)
  {
    if ls != [] {
      assert ls[..0] == [];
      assert CleanLine(InitialCursor, ls[0]);
      assert Advance(c, ls[0]) == Advance(InitialCursor, ls[0]);
      AnnotateFromFirst(index, c, InitialCursor, ls);
      forall k | 0 <= k < |ls|
        ensures CleanLine(Track(c, ls[..k]), ls[k])
      {
        if k == 0 {
          assert CleanLine(Track(InitialCursor, ls[..0]), ls[0]);
        } else {
          assert ls[..k][0] == ls[0];
          TrackFromFirst(c, InitialCursor, ls[..k]);
          assert CleanLine(Track(InitialCursor, ls[..k]), ls[k]);
        }
      }
    }
  }

  /** The diff part of a template, read from the state the header leaves. */
  lemma {:induction false} ScanDiffPart(dat: string, st: DecodeState, index: CommitComments, ls: seq<string>)
    requires Valid(dat, st) && st.off + |Annotate(index, InitialCursor, ls)| <= |dat|
    requires st.topLevelStart == 0 && !st.cursor.foundFirstHunk && st.cursor.file == "" && st.cursor.num == 0
    requires CleanDiff(InitialCursor, ls) && (ls == [] || IsCommitHeader(TrimLine(ls[0]))) && AllPrintable(index)
    ensures
      var es := EncodedLines(index, st.cursor, ls);
      && Concat(es) == Annotate(index, InitialCursor, ls)
      && (forall k :: 0 <= k < |es| ==> IsLine(es[k]))
      && Scan(dat, st, es).Ok?
      && Keeps(st, Scan(dat, st, es).value)
  {
    HeadCursorAgrees(index, st.cursor, ls);
    ScanEncoded(dat, st, index, ls);
    EncodedAreLines(index, st.cursor, ls);
  }

  /**
    An untouched template holds no draft comment the header did not already hold:
    after a header that the decoder leaves outside any region and hunk, with no
    file and at position 0 but any commit (printPR's header names the zero
    commit), the diff part with its inline blocks adds neither comments nor a
    top-level body.
   */
  lemma {:induction false} UntouchedTemplate(index: CommitComments, head: seq<string>, diff: string)
    requires forall k :: 0 <= k < |head| ==> IsLine(head[k])
    requires CleanDiffText(diff) && StartsWithCommit(diff) && AllPrintable(index)
    requires
      var dat := Concat(head) + Template(index, diff);
      && Scan(dat, Init, head).Ok?
      && !Scan(dat, Init, head).value.cursor.foundFirstHunk
      && Scan(dat, Init, head).value.cursor.file == ""
      && Scan(dat, Init, head).value.cursor.num == 0
      && Scan(dat, Init, head).value.topLevelStart == 0
    ensures
      var dat := Concat(head) + Template(index, diff);
      var s := Scan(dat, Init, head).value;
      && Decode(dat).Ok?
      && Decode(dat).value.comments == s.review.comments
      && Decode(dat).value.body == s.review.body
  {
    var dat := Concat(head) + Template(index, diff);
    var s := Scan(dat, Init, head).value;
    var ps := SplitAfter(diff);
    var ls := ps[..|ps| - 1];
    TemplateLines(index, diff);
    var es := EncodedLines(index, s.cursor, ls);
    ScanDiffPart(dat, s, index, ls);
    ScanLines(dat, head, es);
  }

  /** A document made of complete lines is scanned line by line, then its empty tail. */
  lemma {:induction false} ScanLines(dat: string, head: seq<string>, es: seq<string>)
    requires forall k :: 0 <= k < |head| ==> IsLine(head[k])
    requires forall k :: 0 <= k < |es| ==> IsLine(es[k])
    requires Concat(head) + Concat(es) == dat
    requires Scan(dat, Init, head).Ok? && Scan(dat, Scan(dat, Init, head).value, es).Ok?
    ensures
      var r := Scan(dat, Scan(dat, Init, head).value, es).value;
      Decode(dat) == match Step(dat, r, "") case Ok(t) => Ok(t.review) case Err(e) => Err(e)
  {
    assert forall k :: 0 <= k < |head + es| ==> IsLine((head + es)[k]);
    ConcatAppend(head, es);
    SplitAfterLines(head + es, "");
    assert Concat(head + es) + "" == dat;
    ScanAppend(dat, Init, head, es);
    ScanAppend(dat, Init, head + es, [""]);
    ScanSingle(dat, Scan(dat, Init, head + es).value, "");
  }

  lemma {:induction false} EncodedAreLines(index: CommitComments, c: Cursor, ls: seq<string>)
    requires CleanDiff(c, ls) && AllPrintable(index)
    ensures forall k :: 0 <= k < |EncodedLines(index, c, ls)| ==> IsLine(EncodedLines(index, c, ls)[k])
    decreases |ls|
  {
    if ls != [] {
      var init, last := ls[..|ls| - 1], ls[|ls| - 1];
      CleanDiffInit(c, ls);
      EncodedAreLines(index, c, init);
      var es, ps := EncodedLines(index, c, init), PieceLines(index, Track(c, init), last);
      PieceLinesAreLines(index, Track(c, init), last);
      assert EncodedLines(index, c, ls) == es + ps;
      forall k | 0 <= k < |es + ps|
        ensures IsLine((es + ps)[k])
      {
        if k < |es| {
          assert (es + ps)[k] == es[k];
        } else {
          assert (es + ps)[k] == ps[k - |es|];
        }
      }
    }
  }
}
