/**
  main.go's older `parseFile`. It reads the same template as review.go's
  decoder, but the template has no inline blocks and no thread ids:
  - the top-level body is the region's text with nothing appended;
  - only lines starting with `*` are skipped as old comments, so a line
    starting with a tab is comment text;
  - an empty line inside a hunk starts or continues a comment.
  It never reports an error.
 */
module LegacyDecoder {
  import opened Wrappers
  import opened Text
  import opened GitHub
  import opened Protocol
  import Decoder

  /** The variables of the older scan loop; it has no thread id. */
  datatype LegacyState = LegacyState(
    cursor: Cursor,
    off: int,            // bytes consumed so far
    commentStart: int,   // start of the free-text run through the last line, or -1
    topLevelStart: int,  // offset just after the top-level start marker, 0 outside the region
    review: ReviewRequest)

  const Init: LegacyState := LegacyState(InitialCursor, 0, -1, 0, EmptyRequest)

  /** What the scan keeps true of its variables; the slices it takes depend on it. */
  predicate Valid(dat: string, st: LegacyState) {
    && 0 <= st.topLevelStart <= st.off <= |dat|
    && -1 <= st.commentStart <= st.off
    && (st.commentStart != -1 ==> |st.review.comments| > 0)
    && (st.cursor.foundFirstHunk ==> st.off > 0)
    && (st.review.commitId.Some? ==> st.review.commitId.value == st.cursor.commit)
    && (st.review.commitId.None? ==> st.cursor.commit == "")
  }

  /** The top-level end marker: the region's text becomes the body, when it is not empty. */
  function CloseTopLevel(dat: string, s: LegacyState): (r: LegacyState)
    requires Valid(dat, s)
    ensures Valid(dat, r) && r.off == s.off
    ensures r.topLevelStart == 0 && r.review.comments == s.review.comments
  {
    var end := s.off - |TopLevelEndMarker| - 2;
    var review := if end > s.topLevelStart then s.review.(body := Some(dat[s.topLevelStart..end])) else s.review;
    s.(topLevelStart := 0, review := review)
  }

  /**
    A comment line, possibly empty: it opens a new draft comment at the current
    position unless the previous line was one too, and the comment's body grows
    to the end of this line, without its newline.
   */
  function AddText(dat: string, s: LegacyState, last: int, line: string): (r: LegacyState)
    requires Valid(dat, s)
    requires last == -1 ==> |line| + 1 <= s.off
    requires last != -1 ==> 0 <= last < s.off && |s.review.comments| > 0
    ensures Valid(dat, r) && r.off == s.off
    ensures |r.review.comments| == |s.review.comments| + (if last == -1 then 1 else 0)
    ensures r.review.comments[..|r.review.comments| - 1] == s.review.comments[..|r.review.comments| - 1]
    ensures r.commentStart == (if last == -1 then s.off - |line| - 1 else last)
    ensures r.review.comments[|r.review.comments| - 1].body == Some(dat[r.commentStart..s.off - 1])
  {
    var start := if last == -1 then s.off - |line| - 1 else last;
    var comments := if last == -1 then s.review.comments + [Decoder.MakeDraftReviewComment(s.cursor.file, s.cursor.num)] else s.review.comments;
    var n := |comments| - 1;
    s.(commentStart := start, review := s.review.(comments := comments[n := comments[n].(body := Some(dat[start..s.off - 1]))]))
  }

  /** The diff part of the loop: headers, counted lines, old comments and everything else as text. */
  function DiffStep(dat: string, s: LegacyState, last: int, line: string): (r: LegacyState)
    requires Valid(dat, s) && s.off > 0
    requires s.cursor.foundFirstHunk ==> (last == -1 ==> |line| + 1 <= s.off)
    requires last != -1 ==> 0 <= last < s.off && |s.review.comments| > 0
    ensures Valid(dat, r) && r.off == s.off
  {
    match HeaderStep(s.cursor, line)
    case Some(c) =>
      s.(cursor := c, review := if IsCommitHeader(line) then s.review.(commitId := Some(c.commit)) else s.review)
    case None =>
      if line != "" && IsDiffLineStart(line[0]) then s.(cursor := s.cursor.(num := s.cursor.num + 1))
      else if line != "" && line[0] == '*' then s
      else AddText(dat, s, last, line)
  }

  /** One iteration of the older loop. */
  function Step(dat: string, st: LegacyState, piece: string): (r: LegacyState)
    requires Valid(dat, st) && st.off + |piece| <= |dat|
    ensures Valid(dat, r) && r.off == st.off + |piece|
  {
    if piece == "" then st  // the loop breaks on the empty final piece
    else
      var off := st.off + |piece|;
      var line := TrimLine(piece);
      var s := st.(off := off, commentStart := -1);
      if line == TopLevelStartMarker then s.(topLevelStart := off)
      else if line == TopLevelEndMarker then CloseTopLevel(dat, s)
      else if st.topLevelStart != 0 then s
      else DiffStep(dat, s, st.commentStart, line)
  }

  function Scan(dat: string, st: LegacyState, ls: seq<string>): (r: LegacyState)
    requires Valid(dat, st) && st.off + |Concat(ls)| <= |dat|
    ensures Valid(dat, r) && r.off == st.off + |Concat(ls)|
    decreases |ls|
  {
    if ls == [] then st else Step(dat, Scan(dat, st, ls[..|ls| - 1]), ls[|ls| - 1])
  }

  /** What the older `parseFile` returns for a document; its error result is always nil. */
  function Decode(dat: string): ReviewRequest {
    SplitAfterConcat(dat);
    Scan(dat, Init, SplitAfter(dat)).review
  }

  /** The older `parseFile`: one pass over the pieces of the document. */
  method ParseFile(b: string) returns (r: ReviewRequest)
    ensures r == Decode(b)
  {
    var dat := b;
    var st := Init;
    var lines := SplitAfter(dat);
    SplitAfterConcat(dat);
    ghost var stopped := false;
    for i := 0 to |lines|
      invariant |Concat(lines[..i])| <= |dat|
      invariant Scan(dat, Init, lines[..i]) == st
    {
      var line := lines[i];
      ScanNext(dat, lines, i, st);
      if line == "" {
        stopped := true;
        break;
      }
      st := ParseLine(dat, st, line);
    }
    if !stopped {
      assert lines[..|lines|] == lines;
    }
    return st.review;
  }

  lemma {:induction false} ScanNext(dat: string, ls: seq<string>, i: int, st: LegacyState)
    requires ls == SplitAfter(dat) && Concat(ls) == dat && 0 <= i < |ls|
    requires |Concat(ls[..i])| <= |dat| && Scan(dat, Init, ls[..i]) == st
    ensures Valid(dat, st) && st.off + |ls[i]| <= |dat|
    ensures |Concat(ls[..i + 1])| <= |dat|
    ensures Scan(dat, Init, ls[..i + 1]) == Step(dat, st, ls[i])
    ensures ls[i] == "" ==> Decode(dat) == st.review
  {
    assert ls == ls[..i + 1] + ls[i + 1..];
    ConcatAppend(ls[..i + 1], ls[i + 1..]);
    assert ls[..i + 1][..i] == ls[..i];
    if ls[i] == "" {
      SplitAfterEmptyIsLast(dat, i);
      assert ls[..i + 1] == ls;
    }
  }

  /** The body of the older loop for one non-empty piece. */
  method ParseLine(dat: string, st: LegacyState, piece: string) returns (r: LegacyState)
    requires Valid(dat, st) && st.off + |piece| <= |dat| && piece != ""
    ensures r == Step(dat, st, piece)
  {
    var topLevelCommentStart := st.topLevelStart;
    var review := st.review;
    var off := st.off + |piece|;
    var line := TrimLine(piece);
    if line == TopLevelStartMarker {
      topLevelCommentStart := off;
    } else if line == TopLevelEndMarker {
      var topLevelCommentEnd := off - |line| - 2;
      if topLevelCommentEnd > topLevelCommentStart {
        var body := dat[topLevelCommentStart..topLevelCommentEnd];
        review := review.(body := Some(body));
      }
      topLevelCommentStart := 0;
    } else if topLevelCommentStart != 0 {
      // inside the top-level region
    } else {
      r := ParseDiffLine(dat, st.(off := off, commentStart := -1), st.commentStart, line);
      return;
    }
    r := LegacyState(st.cursor, off, -1, topLevelCommentStart, review);
  }

  /** The rest of the older loop body. */
  method ParseDiffLine(dat: string, s: LegacyState, last: int, line: string) returns (r: LegacyState)
    requires Valid(dat, s) && s.off > 0
    requires s.cursor.foundFirstHunk ==> (last == -1 ==> |line| + 1 <= s.off)
    requires last != -1 ==> 0 <= last < s.off && |s.review.comments| > 0
    ensures r == DiffStep(dat, s, last, line)
  {
    var commit, file, num, foundFirstHunk := s.cursor.commit, s.cursor.file, s.cursor.num, s.cursor.foundFirstHunk;
    var review := s.review;
    if IsCommitHeader(line) {
      foundFirstHunk := false;
      commit := CommitOf(line);
      review := review.(commitId := Some(commit));
    } else if IsDiffHeader(line) {
      foundFirstHunk := false;
    } else if IsFileHeader(line) {
      file := FileOf(line);
    } else if !foundFirstHunk {
      if IsHunkHeader(line) {
        foundFirstHunk := true;
        num := 0;
      }
    } else if |line| > 0 && IsDiffLineStart(line[0]) {
      num := num + 1;
    } else if |line| > 0 && line[0] == '*' {
      // an old comment
    } else {
      // a comment
      r := AddComment(dat, s, last, line);
      return;
    }
    r := s.(cursor := Cursor(commit, file, num, foundFirstHunk), review := review);
  }

  /** The comment case of the older loop: open or extend the current draft comment. */
  method AddComment(dat: string, s: LegacyState, last: int, line: string) returns (r: LegacyState)
    requires Valid(dat, s)
    requires last == -1 ==> |line| + 1 <= s.off
    requires last != -1 ==> 0 <= last < s.off && |s.review.comments| > 0
    ensures r == AddText(dat, s, last, line)
  {
    var review := s.review;
    var commentStart := last;
    if commentStart == -1 {
      commentStart := s.off - |line| - 1;
      var comment := Decoder.MakeDraftReviewComment(s.cursor.file, s.cursor.num);
      review := review.(comments := review.comments + [comment]);
    }
    var n := |review.comments| - 1;
    var body := dat[commentStart..s.off - 1];
    review := review.(comments := review.comments[n := review.comments[n].(body := Some(body))]);
    r := s.(commentStart := commentStart, review := review);
  }

  /**
    The older top-level body is the exact text between the marker lines,
    without the newline before the end marker and with no suffix; an empty
    region leaves the body as it was.
   */
  lemma {:induction false} StepTopLevelEnd(dat: string, st: LegacyState, piece: string)
    requires Valid(dat, st) && st.off + |piece| <= |dat|
    requires IsLine(piece) && TrimLine(piece) == TopLevelEndMarker
    ensures
      var r := Step(dat, st, piece);
      var end := st.off - 1;
      && r.topLevelStart == 0 && r.review.comments == st.review.comments && r.cursor == st.cursor
      && r.review.body == (if end > st.topLevelStart then Some(dat[st.topLevelStart..end]) else st.review.body)
  {
    TopLevelMarkersAreLines();
    assert |piece| == |TopLevelEndMarker| + 1;
  }

  /** Inside a hunk, the older loop counts the lines starting with `+`, `-`, space or `@`, and only those. */
  lemma {:induction false} StepPosition(dat: string, st: LegacyState, piece: string)
    requires Valid(dat, st) && st.off + |piece| <= |dat| && piece != ""
    requires st.topLevelStart == 0 && st.cursor.foundFirstHunk
    requires TrimLine(piece) != TopLevelStartMarker && TrimLine(piece) != TopLevelEndMarker
    requires IsBodyLine(TrimLine(piece))
    ensures
      var line := TrimLine(piece);
      var r := Step(dat, st, piece);
      && r.cursor == st.cursor.(num := st.cursor.num + if line != "" && IsDiffLineStart(line[0]) then 1 else 0)
      && (r.commentStart != -1 <==> line == "" || (!IsDiffLineStart(line[0]) && line[0] != '*'))
      && (r.commentStart == -1 ==> r.review == st.review)
  {
  }

  /**
    A line that is empty or starts with a tab is comment text for the older
    loop: it opens a draft comment at the current position or extends the open
    one, whose body then ends with this line.
   */
  lemma {:induction false} StepBlankOrTabIsText(dat: string, st: LegacyState, piece: string)
    requires Valid(dat, st) && st.off + |piece| <= |dat| && IsLine(piece)
    requires st.topLevelStart == 0 && st.cursor.foundFirstHunk
    requires TrimLine(piece) == "" || TrimLine(piece)[0] == '\t'
    ensures
      var r := Step(dat, st, piece);
      var n := |st.review.comments|;
      && r.cursor == st.cursor
      && r.commentStart == (if st.commentStart == -1 then st.off else st.commentStart)
      && |r.review.comments| == n + (if st.commentStart == -1 then 1 else 0)
      && (st.commentStart == -1 ==> r.review.comments[n].path == st.cursor.file && r.review.comments[n].position == st.cursor.num)
      && r.review.comments[|r.review.comments| - 1].body == Some(dat[r.commentStart..st.off + |piece| - 1])
  {
    var line := TrimLine(piece);
    assert |line| == |piece| - 1;
    TopLevelMarkersAreLines();
    assert line != TopLevelStartMarker && line != TopLevelEndMarker;
  }

  /** Outside the top-level region the older loop passes over every line starting with `*`. */
  lemma {:induction false} StepOldComment(dat: string, st: LegacyState, piece: string)
    requires Valid(dat, st) && st.off + |piece| <= |dat| && piece != ""
    requires st.topLevelStart == 0 && TrimLine(piece) != TopLevelStartMarker && TrimLine(piece) != TopLevelEndMarker
    requires TrimLine(piece) != "" && TrimLine(piece)[0] == '*'
    ensures Step(dat, st, piece) == st.(off := st.off + |piece|, commentStart := -1)
  {
    var line := TrimLine(piece);
    assert !IsCommitHeader(line) && !IsDiffHeader(line) && !IsFileHeader(line) && !IsHunkHeader(line);
  }

  /** `review.CommitID` changes exactly at a commit header outside the top-level region. */
  lemma {:induction false} StepCommitId(dat: string, st: LegacyState, piece: string)
    requires Valid(dat, st) && st.off + |piece| <= |dat|
    ensures Step(dat, st, piece).review.commitId ==
      if piece != "" && st.topLevelStart == 0 && TrimLine(piece) != TopLevelStartMarker
         && TrimLine(piece) != TopLevelEndMarker && IsCommitHeader(TrimLine(piece))
      then Some(CommitOf(TrimLine(piece)))
      else st.review.commitId
  {
  }
}
