/**
  What one line does to the decoder's variables (review.go:482-590), and what
  a run of lines does: the position rule, free-text runs becoming one draft
  comment each, thread-id lines, and the commit id the request ends up with.
 */
module DecoderProperties {
  import opened Wrappers
  import opened Text
  import opened GitHub
  import opened Protocol
  import opened Decoder

  /** A line that reaches the diff part of the loop: outside the region, no marker, no thread id. */
  predicate ReachesDiff(st: DecodeState, line: string) {
    st.topLevelStart == 0 && !IsMarker(line) && ThreadIdMatch(line).None?
  }

  /** A piece that reaches the diff part is handled there and nowhere else. */
  lemma {:induction false} StepDiff(dat: string, st: DecodeState, piece: string)
    requires Valid(dat, st) && st.off + |piece| <= |dat| && piece != ""
    requires ReachesDiff(st, TrimLine(piece))
    ensures Step(dat, st, piece).Ok?
    ensures Step(dat, st, piece).value ==
      DiffStep(dat, st.(off := st.off + |piece|, commentStart := -1), st.commentStart, TrimLine(piece))
  {
  }

  /**
    The position rule of the decoder. Before the first hunk of a file no line is
    counted and no comment is made, and the hunk header sets the counter to 0.
    After it, exactly the lines starting with `+`, `-`, space or `@` count; an
    empty line and lines starting with `*` or a tab do not. Only a free-text line
    opens or extends a draft comment; any other line leaves the comments as they
    were and ends the run.
   */
  lemma {:induction false} StepPosition(dat: string, st: DecodeState, piece: string)
    requires Valid(dat, st) && st.off + |piece| <= |dat| && piece != ""
    requires ReachesDiff(st, TrimLine(piece))
    ensures Step(dat, st, piece).Ok?
    ensures
      var line := TrimLine(piece);
      var r := Step(dat, st, piece).value;
      && (!st.cursor.foundFirstHunk ==> r.review.comments == st.review.comments && r.commentStart == -1)
      && (!st.cursor.foundFirstHunk && IsBodyLine(line) ==>
            r.cursor == if IsHunkHeader(line) then st.cursor.(foundFirstHunk := true, num := 0) else st.cursor)
      && (st.cursor.foundFirstHunk && IsBodyLine(line) ==>
            r.cursor == st.cursor.(num := st.cursor.num + if line != "" && IsDiffLineStart(line[0]) then 1 else 0))
      && (r.commentStart != -1 <==> st.cursor.foundFirstHunk && IsFreeText(line))
      && (r.commentStart == -1 ==> r.review.comments == st.review.comments)
  {
    StepDiff(dat, st, piece);
  }

  /**
    A free-text line after the first hunk with no run open appends a new draft
    comment at the current file and position, whose body is the line.
   */
  lemma {:induction false} StepOpensComment(dat: string, st: DecodeState, piece: string)
    requires Valid(dat, st) && st.off + |piece| <= |dat| && piece != ""
    requires ReachesDiff(st, TrimLine(piece)) && st.cursor.foundFirstHunk && IsFreeText(TrimLine(piece))
    requires st.commentStart == -1
    ensures Step(dat, st, piece).Ok?
    ensures
      var r := Step(dat, st, piece).value;
      && r.cursor == st.cursor && r.off == st.off + |piece| && r.topLevelStart == 0
      && r.review.commitId == st.review.commitId && r.review.body == st.review.body && r.review.event == st.review.event
      && r.commentStart == st.off + |piece| - |TrimLine(piece)| - 1
      && r.review.comments == st.review.comments +
           [DraftReviewComment(st.cursor.file, st.cursor.num, Some(dat[r.commentStart..r.off - 1]))]
  {
    StepDiff(dat, st, piece);
  }

  /**
    A free-text line after the first hunk with a run open keeps the comments and
    stretches the last body from the run's start to the end of this line.
   */
  lemma {:induction false} StepExtendsComment(dat: string, st: DecodeState, piece: string)
    requires Valid(dat, st) && st.off + |piece| <= |dat| && piece != ""
    requires ReachesDiff(st, TrimLine(piece)) && st.cursor.foundFirstHunk && IsFreeText(TrimLine(piece))
    requires st.commentStart != -1
    ensures Step(dat, st, piece).Ok?
    ensures
      var r := Step(dat, st, piece).value;
      var n := |st.review.comments| - 1;
      && r.cursor == st.cursor && r.off == st.off + |piece| && r.topLevelStart == 0
      && r.review.commitId == st.review.commitId && r.review.body == st.review.body && r.review.event == st.review.event
      && r.commentStart == st.commentStart
      && r.review.comments == st.review.comments[n := st.review.comments[n].(body := Some(dat[st.commentStart..r.off - 1]))]
  {
    StepDiff(dat, st, piece);
  }

  /** The inline end marker forgets the thread id; nothing else changes. */
  lemma {:induction false} StepInlineEnd(dat: string, st: DecodeState, piece: string)
    requires Valid(dat, st) && st.off + |piece| <= |dat| && piece != ""
    requires st.topLevelStart == 0 && TrimLine(piece) == InlineEndMarker
    ensures Step(dat, st, piece).Ok?
    ensures Step(dat, st, piece).value == DecodeState(st.cursor, st.off + |piece|, -1, 0, 0, st.review)
  {
    InlineMarkersStartWithStar();
    TopLevelMarkersAreLines();
    assert TrimLine(piece) != TopLevelStartMarker && TrimLine(piece) != TopLevelEndMarker;
    assert TrimLine(piece) != InlineStartMarker by {
      assert InlineStartMarker[79] != InlineEndMarker[79];
    }
  }

  /** Thread-id lines start with `* `, which no marker does. */
  lemma {:induction false} ThreadIdLineIsNoMarker(line: string)
    requires ThreadIdMatch(line).Some?
    ensures !IsMarker(line)
  {
    InlineMarkersStartWithStar();
    TopLevelMarkersAreLines();
    assert line[0] == '*' && line[1] == ' ';
  }

  /** A thread-id line records the id it carries when `strconv.Atoi` can read it. */
  lemma {:induction false} StepThreadId(dat: string, st: DecodeState, piece: string, digits: string)
    requires Valid(dat, st) && st.off + |piece| <= |dat| && piece != ""
    requires st.topLevelStart == 0 && ThreadIdMatch(TrimLine(piece)) == Some(digits)
    requires DecimalValue(digits) <= MaxInt64
    ensures Step(dat, st, piece).Ok?
    ensures Step(dat, st, piece).value == DecodeState(st.cursor, st.off + |piece|, -1, 0, DecimalValue(digits), st.review)
  {
    ThreadIdLineIsNoMarker(TrimLine(piece));
  }

  /** A thread id that `strconv.Atoi` cannot read is the error of the whole parse. */
  lemma {:induction false} StepThreadIdOverflow(dat: string, st: DecodeState, piece: string, digits: string)
    requires Valid(dat, st) && st.off + |piece| <= |dat| && piece != ""
    requires st.topLevelStart == 0 && ThreadIdMatch(TrimLine(piece)) == Some(digits)
    requires DecimalValue(digits) > MaxInt64
    ensures Step(dat, st, piece) == Err(RangeError(digits))
  {
    ThreadIdLineIsNoMarker(TrimLine(piece));
  }

  /**
    The request's commit id: a commit header that reaches the diff part sets it
    to that commit, and every other line leaves it alone.
   */
  lemma {:induction false} StepCommitId(dat: string, st: DecodeState, piece: string)
    requires Valid(dat, st) && st.off + |piece| <= |dat|
    requires Step(dat, st, piece).Ok?
    ensures Step(dat, st, piece).value.review.commitId ==
      if piece != "" && ReachesDiff(st, TrimLine(piece)) && IsCommitHeader(TrimLine(piece))
      then Some(CommitOf(TrimLine(piece)))
      else st.review.commitId
  {
    if piece != "" && ReachesDiff(st, TrimLine(piece)) {
      StepDiff(dat, st, piece);
    }
  }

  /**
    Only a free-text line after the first hunk keeps a run open: an empty line,
    a counted diff line, an old comment, a header, a marker or a thread-id line
    ends it, so the next free-text line opens a new draft comment.
   */
  lemma {:induction false} OnlyFreeTextContinuesRun(dat: string, st: DecodeState, piece: string)
    requires Valid(dat, st) && st.off + |piece| <= |dat| && piece != ""
    requires Step(dat, st, piece).Ok?
    ensures Step(dat, st, piece).value.commentStart != -1 <==>
      ReachesDiff(st, TrimLine(piece)) && st.cursor.foundFirstHunk && IsFreeText(TrimLine(piece))
  {
    if ReachesDiff(st, TrimLine(piece)) {
      StepPosition(dat, st, piece);
    }
  }

  /** Every piece is a free-text line after the first hunk, outside the region. */
  predicate AllFreeText(st: DecodeState, ls: seq<string>) {
    forall k :: 0 <= k < |ls| ==> IsLine(ls[k]) && ReachesDiff(st, TrimLine(ls[k])) && IsFreeText(TrimLine(ls[k]))
  }

  /**
    A run of free-text lines gives exactly one draft comment, anchored at the
    file and position current at the run's first line, whose body runs from the
    start of the first line to the end of the last line without its newline.
   */
  lemma {:induction false} FreeTextRun(dat: string, st: DecodeState, ls: seq<string>)
    requires Valid(dat, st) && st.off + |Concat(ls)| <= |dat|
    requires st.topLevelStart == 0 && st.cursor.foundFirstHunk && st.commentStart == -1
    requires |ls| > 0 && AllFreeText(st, ls)
    ensures Scan(dat, st, ls).Ok?
    ensures InRun(dat, st, Scan(dat, st, ls).value)
    decreases |ls|
  {
    var last := ls[|ls| - 1];
    var prefix := ls[..|ls| - 1];
    assert Concat(ls) == Concat(prefix) + last;
    if prefix == [] {
      RunOpens(dat, st, last);
    } else {
      assert AllFreeText(st, prefix) by {
        forall k | 0 <= k < |prefix| ensures IsLine(prefix[k]) && ReachesDiff(st, TrimLine(prefix[k])) && IsFreeText(TrimLine(prefix[k])) {
          assert prefix[k] == ls[k];
        }
      }
      FreeTextRun(dat, st, prefix);
      RunGrows(dat, st, Scan(dat, st, prefix).value, last);
    }
  }

  /**
    The state `r` reached by a run of free-text lines that began in state `st`:
    one more draft comment, anchored where the run began, whose body is the
    text from the run's first byte up to, not including, the newline ending at
    `r.off`; the run is still open and nothing else has changed.
   */
  predicate InRun(dat: string, st: DecodeState, r: DecodeState) {
    && 0 <= st.off < r.off <= |dat|
    && r.cursor == st.cursor && r.topLevelStart == 0 && r.commentStart == st.off
    && r.review.commitId == st.review.commitId && r.review.body == st.review.body && r.review.event == st.review.event
    && r.review.comments == st.review.comments + [DraftReviewComment(st.cursor.file, st.cursor.num, Some(dat[st.off..r.off - 1]))]
  }

  /** The first line of a run opens the draft comment. */
  lemma {:induction false} RunOpens(dat: string, st: DecodeState, p: string)
    requires Valid(dat, st) && st.off + |p| <= |dat|
    requires st.topLevelStart == 0 && st.cursor.foundFirstHunk && st.commentStart == -1
    requires IsLine(p) && ReachesDiff(st, TrimLine(p)) && IsFreeText(TrimLine(p))
    ensures Step(dat, st, p).Ok? && InRun(dat, st, Step(dat, st, p).value)
  {
    StepOpensComment(dat, st, p);
    assert |TrimLine(p)| == |p| - 1;
  }

  /** A later line of a run stretches the draft comment's body over it. */
  lemma {:induction false} RunGrows(dat: string, st: DecodeState, mid: DecodeState, p: string)
    requires Valid(dat, mid) && InRun(dat, st, mid) && mid.off + |p| <= |dat|
    requires st.cursor.foundFirstHunk
    requires IsLine(p) && ReachesDiff(st, TrimLine(p)) && IsFreeText(TrimLine(p))
    ensures Step(dat, mid, p).Ok? && InRun(dat, st, Step(dat, mid, p).value)
  {
    StepExtendsComment(dat, mid, p);
    var body := Some(dat[st.off..mid.off + |p| - 1]);
    var n := |mid.review.comments| - 1;
    assert mid.review.comments[n := mid.review.comments[n].(body := body)] ==
      st.review.comments + [DraftReviewComment(st.cursor.file, st.cursor.num, body)];
  }

  /** The two states agree on everything but the thread id of the inline block being read. */
  predicate SameButThreadId(a: DecodeState, b: DecodeState) {
    a.cursor == b.cursor && a.off == b.off && a.commentStart == b.commentStart &&
    a.topLevelStart == b.topLevelStart && a.review == b.review
  }

  lemma {:induction false} StepIgnoresThreadId(dat: string, a: DecodeState, b: DecodeState, piece: string)
    requires Valid(dat, a) && Valid(dat, b) && SameButThreadId(a, b) && a.off + |piece| <= |dat|
    ensures Step(dat, a, piece).Ok? == Step(dat, b, piece).Ok?
    ensures Step(dat, a, piece).Ok? ==> SameButThreadId(Step(dat, a, piece).value, Step(dat, b, piece).value)
    ensures Step(dat, a, piece).Err? ==> Step(dat, a, piece).error == Step(dat, b, piece).error
  {
    if piece != "" {
      var line := TrimLine(piece);
      if line == TopLevelStartMarker || line == TopLevelEndMarker || a.topLevelStart != 0 {
      } else if line == InlineStartMarker || line == InlineEndMarker {
      } else if ThreadIdMatch(line).Some? {
      } else {
        StepDiff(dat, a, piece);
        StepDiff(dat, b, piece);
        DiffStepIgnoresThreadId(dat, a.(off := a.off + |piece|, commentStart := -1), b.(off := b.off + |piece|, commentStart := -1), a.commentStart, line);
      }
    }
  }

  lemma {:induction false} DiffStepIgnoresThreadId(dat: string, a: DecodeState, b: DecodeState, last: int, line: string)
    requires Valid(dat, a) && Valid(dat, b) && SameButThreadId(a, b) && a.off > 0
    requires a.cursor.foundFirstHunk && |line| > 0 ==> (last == -1 ==> |line| + 1 <= a.off)
    requires last != -1 ==> 0 <= last < a.off && |a.review.comments| > 0
    ensures SameButThreadId(DiffStep(dat, a, last, line), DiffStep(dat, b, last, line))
  {
  }

  /**
    The thread id recorded from an old comment's header line never changes the
    request: the draft comments are not sent as replies, so scanning from two
    states that differ only in that id fails alike or yields the same request.
   */
  lemma {:induction false} ThreadIdHasNoEffect(dat: string, a: DecodeState, b: DecodeState, ls: seq<string>)
    requires Valid(dat, a) && Valid(dat, b) && SameButThreadId(a, b) && a.off + |Concat(ls)| <= |dat|
    ensures Scan(dat, a, ls).Ok? == Scan(dat, b, ls).Ok?
    ensures Scan(dat, a, ls).Ok? ==> SameButThreadId(Scan(dat, a, ls).value, Scan(dat, b, ls).value)
    ensures Scan(dat, a, ls).Err? ==> Scan(dat, a, ls).error == Scan(dat, b, ls).error
    decreases |ls|
  {
    if ls != [] {
      var prefix := ls[..|ls| - 1];
      assert Concat(ls) == Concat(prefix) + ls[|ls| - 1];
      ThreadIdHasNoEffect(dat, a, b, prefix);
      if Scan(dat, a, prefix).Ok? {
        StepIgnoresThreadId(dat, Scan(dat, a, prefix).value, Scan(dat, b, prefix).value, ls[|ls| - 1]);
      }
    }
  }
}
