/**
  review.go's `parseFile`: reads the edited review template back into a review
  request. The document is split after each newline and scanned once; the scan
  keeps the diff position of the encoder, collects the top-level region, skips
  the inline blocks of existing comments and turns each run of free-text lines
  into one draft comment.
 */
module Decoder {
  import opened Wrappers
  import opened Text
  import opened GitHub
  import opened Protocol

  /** What the decoder appends to a top-level body. */
  const ReviewSuffix: string := "\n<!-- review by re -->"

  /** `makeDraftReviewComment`: a new comment anchored at a position, body not yet set. */
  function MakeDraftReviewComment(path: string, position: int): (r: DraftReviewComment)
    ensures r.path == path && r.position == position && r.body.None?
  {
    DraftReviewComment(path, position, None)
  }

  /** The variables of the scan loop, as they stand after a line. */
  datatype DecodeState = DecodeState(
    cursor: Cursor,
    off: int,            // bytes consumed so far
    commentStart: int,   // start of the free-text run through the last line, or -1
    topLevelStart: int,  // offset just after the top-level start marker, 0 outside the region
    lastInlineId: int,   // thread id of the inline block being read, 0 outside one
    review: ReviewRequest)

  const Init: DecodeState := DecodeState(InitialCursor, 0, -1, 0, 0, EmptyRequest)

  /** What the scan keeps true of its variables; the slices it takes depend on it. */
  predicate Valid(dat: string, st: DecodeState) {
    && 0 <= st.topLevelStart <= st.off <= |dat|
    && -1 <= st.commentStart <= st.off
    && (st.commentStart != -1 ==> |st.review.comments| > 0)
    && (st.cursor.foundFirstHunk ==> st.off > 0)
    // the request's commit id points at the loop variable `commit`
    && (st.review.commitId.Some? ==> st.review.commitId.value == st.cursor.commit)
    && (st.review.commitId.None? ==> st.cursor.commit == "")
  }

  /** The four marker lines. */
  predicate IsMarker(line: string) {
    line == TopLevelStartMarker || line == TopLevelEndMarker || line == InlineStartMarker || line == InlineEndMarker
  }

  /** A line the decoder reads as comment text once it is inside a hunk. */
  predicate IsFreeText(line: string) {
    && line != ""
    && !IsDiffLineStart(line[0]) && line[0] != '*' && line[0] != '\t'
    && line != TopLevelStartMarker && line != TopLevelEndMarker
    && !IsCommitHeader(line) && !IsDiffHeader(line)
  }

  /**
    The top-level end marker: the text from just after the start marker up to
    the newline before the end marker becomes the body, when it is not empty.
   */
  function CloseTopLevel(dat: string, s: DecodeState): (r: DecodeState)
    requires Valid(dat, s)
    ensures Valid(dat, r) && r.off == s.off
    ensures r.topLevelStart == 0 && r.review.comments == s.review.comments
  {
    var end := s.off - |TopLevelEndMarker| - 2;
    var review := if end > s.topLevelStart then s.review.(body := Some(dat[s.topLevelStart..end] + ReviewSuffix)) else s.review;
    s.(topLevelStart := 0, review := review)
  }

  /**
    A free-text line: it opens a new draft comment at the current position
    unless the previous line was free text too, and the comment's body grows
    to the end of this line, without its newline.
   */
  function AddText(dat: string, s: DecodeState, last: int, line: string): (r: DecodeState)
    requires Valid(dat, s) && |line| >= 1
    requires last == -1 ==> |line| + 1 <= s.off
    requires last != -1 ==> 0 <= last < s.off && |s.review.comments| > 0
    ensures Valid(dat, r) && r.off == s.off
    ensures |r.review.comments| == |s.review.comments| + (if last == -1 then 1 else 0)
    ensures r.review.comments[..|r.review.comments| - 1] == s.review.comments[..|r.review.comments| - 1]
    ensures r.commentStart == (if last == -1 then s.off - |line| - 1 else last)
    ensures r.review.comments[|r.review.comments| - 1].body == Some(dat[r.commentStart..s.off - 1])
  {
    var start := if last == -1 then s.off - |line| - 1 else last;
    var comments := if last == -1 then s.review.comments + [MakeDraftReviewComment(s.cursor.file, s.cursor.num)] else s.review.comments;
    var n := |comments| - 1;
    s.(commentStart := start, review := s.review.(comments := comments[n := comments[n].(body := Some(dat[start..s.off - 1]))]))
  }

  /** The diff part of the loop: headers, counted lines, old comments and free text. */
  function DiffStep(dat: string, s: DecodeState, last: int, line: string): (r: DecodeState)
    requires Valid(dat, s) && s.off > 0
    requires s.cursor.foundFirstHunk && |line| > 0 ==> (last == -1 ==> |line| + 1 <= s.off)
    requires last != -1 ==> 0 <= last < s.off && |s.review.comments| > 0
    ensures Valid(dat, r) && r.off == s.off
  {
    match HeaderStep(s.cursor, line)
    case Some(c) =>
      s.(cursor := c, review := if IsCommitHeader(line) then s.review.(commitId := Some(c.commit)) else s.review)
    case None =>
      if line == "" then s
      else if IsDiffLineStart(line[0]) then s.(cursor := s.cursor.(num := s.cursor.num + 1))
      else if line[0] == '*' || line[0] == '\t' then s
      else AddText(dat, s, last, line)
  }

  /** A thread-id line whose id does not fit an `int`, and the error `strconv.Atoi` reports for it. */
  predicate ThreadIdOverflows(piece: string, e: RangeError) {
    var m := ThreadIdMatch(TrimLine(piece));
    m.Some? && DecimalValue(m.value) > MaxInt64 && e == RangeError(m.value)
  }

  /** One iteration of the loop over the pieces of `strings.SplitAfter`. */
  function Step(dat: string, st: DecodeState, piece: string): (r: Result<DecodeState, RangeError>)
    requires Valid(dat, st) && st.off + |piece| <= |dat|
    ensures r.Ok? ==> Valid(dat, r.value) && r.value.off == st.off + |piece|
    ensures r.Err? ==> ThreadIdOverflows(piece, r.error)
  {
    if piece == "" then Ok(st)  // the loop breaks on the empty final piece
    else
      var off := st.off + |piece|;
      var line := TrimLine(piece);
      var s := st.(off := off, commentStart := -1);
      if line == TopLevelStartMarker then Ok(s.(topLevelStart := off))
      else if line == TopLevelEndMarker then Ok(CloseTopLevel(dat, s))
      else if st.topLevelStart != 0 then Ok(s)
      else if line == InlineStartMarker then Ok(s)
      else if line == InlineEndMarker then Ok(s.(lastInlineId := 0))
      else
        match ThreadIdMatch(line)
        case Some(d) =>
          (match Atoi(d)
           case Ok(n) => Ok(s.(lastInlineId := n))
           case Err(e) => Err(e))
        case None => Ok(DiffStep(dat, s, st.commentStart, line))
  }

  /** The loop run over a list of pieces from a given state; an error stops it. */
  function Scan(dat: string, st: DecodeState, ls: seq<string>): (r: Result<DecodeState, RangeError>)
    requires Valid(dat, st) && st.off + |Concat(ls)| <= |dat|
    ensures r.Ok? ==> Valid(dat, r.value) && r.value.off == st.off + |Concat(ls)|
    decreases |ls|
  {
    if ls == [] then Ok(st)
    else
      match Scan(dat, st, ls[..|ls| - 1])
      case Err(e) => Err(e)
      case Ok(s) => Step(dat, s, ls[|ls| - 1])
  }

  /** What `parseFile` returns for a document. */
  function Decode(dat: string): Result<ReviewRequest, RangeError> {
    SplitAfterConcat(dat);
    match Scan(dat, Init, SplitAfter(dat))
    case Ok(st) => Ok(st.review)
    case Err(e) => Err(e)
  }

  /** `parseFile`: one pass over the pieces of the document. */
  method ParseFile(b: string) returns (r: Result<ReviewRequest, RangeError>)
    ensures r == Decode(b)
  {
    var dat := b;
    var st := Init;
    var lines := SplitAfter(dat);
    SplitAfterConcat(dat);
    ghost var stopped := false;
    for i := 0 to |lines|
      invariant |Concat(lines[..i])| <= |dat|
      invariant Scan(dat, Init, lines[..i]) == Ok(st)
    {
      var line := lines[i];
      ScanNext(dat, lines, i, st);
      if line == "" {
        stopped := true;
        break;
      }
      var next := ParseLine(dat, st, line);
      if next.Err? {
        return Err(next.error);
      }
      st := next.value;
    }
    if !stopped {
      ScanDone(dat, lines, st);
    }
    return Ok(st.review);
  }

  /** One more piece of the scan; a failure there, or the empty last piece, ends the whole scan. */
  lemma {:induction false} ScanNext(dat: string, ls: seq<string>, i: int, st: DecodeState)
    requires ls == SplitAfter(dat) && Concat(ls) == dat && 0 <= i < |ls|
    requires |Concat(ls[..i])| <= |dat| && Scan(dat, Init, ls[..i]) == Ok(st)
    ensures Valid(dat, st) && st.off + |ls[i]| <= |dat|
    ensures |Concat(ls[..i + 1])| <= |dat|
    ensures Scan(dat, Init, ls[..i + 1]) == Step(dat, st, ls[i])
    ensures Step(dat, st, ls[i]).Err? ==> Decode(dat) == Err(Step(dat, st, ls[i]).error)
    ensures ls[i] == "" ==> Decode(dat) == Ok(st.review)
  {
    assert ls == ls[..i + 1] + ls[i + 1..];
    ConcatAppend(ls[..i + 1], ls[i + 1..]);
    assert ls[..i + 1][..i] == ls[..i];
    if Step(dat, st, ls[i]).Err? {
      ScanErrorSticks(dat, Init, ls[..i + 1], ls[i + 1..]);
    }
    if ls[i] == "" {
      SplitAfterEmptyIsLast(dat, i);
      assert ls[..i + 1] == ls;
    }
  }

  /** The scan of all pieces is the result of `parseFile`. */
  lemma {:induction false} ScanDone(dat: string, ls: seq<string>, st: DecodeState)
    requires ls == SplitAfter(dat) && Concat(ls) == dat
    requires |Concat(ls[..|ls|])| <= |dat| && Scan(dat, Init, ls[..|ls|]) == Ok(st)
    ensures Decode(dat) == Ok(st.review)
  {
    assert ls[..|ls|] == ls;
  }

  /** The body of `parseFile`'s loop for one non-empty piece, on the loop's variables. */
  method ParseLine(dat: string, st: DecodeState, piece: string) returns (r: Result<DecodeState, RangeError>)
    requires Valid(dat, st) && st.off + |piece| <= |dat| && piece != ""
    ensures r == Step(dat, st, piece)
  {
    var topLevelCommentStart := st.topLevelStart;
    var lastInlineCommentId := st.lastInlineId;
    var review := st.review;
    var lastCommentStart := st.commentStart;
    var commentStart := -1;
    var off := st.off + |piece|;
    var line := TrimLine(piece);

    if line == TopLevelStartMarker {
      topLevelCommentStart := off;
    } else if line == TopLevelEndMarker {
      var topLevelCommentEnd := off - |line| - 2;
      if topLevelCommentEnd > topLevelCommentStart {
        var body := dat[topLevelCommentStart..topLevelCommentEnd];
        body := body + ReviewSuffix;
        review := review.(body := Some(body));
      }
      topLevelCommentStart := 0;
    } else if topLevelCommentStart != 0 {
      // inside the top-level region
    } else if line == InlineStartMarker {
    } else if line == InlineEndMarker {
      lastInlineCommentId := 0;
    } else if ThreadIdMatch(line).Some? {
      var id := Atoi(ThreadIdMatch(line).value);
      if id.Err? {
        return Err(id.error);
      }
      lastInlineCommentId := id.value;
    } else {
      var next := ParseDiffLine(dat, st.(off := off, commentStart := -1), lastCommentStart, line);
      return Ok(next);
    }
    return Ok(DecodeState(st.cursor, off, commentStart, topLevelCommentStart, lastInlineCommentId, review));
  }

  /** The rest of the loop body: headers, counted lines, old comments and free text. */
  method ParseDiffLine(dat: string, s: DecodeState, last: int, line: string) returns (r: DecodeState)
    requires Valid(dat, s) && s.off > 0
    requires s.cursor.foundFirstHunk && |line| > 0 ==> (last == -1 ==> |line| + 1 <= s.off)
    requires last != -1 ==> 0 <= last < s.off && |s.review.comments| > 0
    ensures r == DiffStep(dat, s, last, line)
  {
    var commit, file, num, foundFirstHunk := s.cursor.commit, s.cursor.file, s.cursor.num, s.cursor.foundFirstHunk;
    var review := s.review;
    if IsCommitHeader(line) {
      foundFirstHunk := false;
      commit := CommitOf(line);
      review := review.(commitId := Some(commit));
    } else if IsDiffHeader(line) {
      foundFirstHunk := false;
    } else if IsFileHeader(line) {
      file := FileOf(line);
    } else if !foundFirstHunk {
      if IsHunkHeader(line) {
        foundFirstHunk := true;
        num := 0;
      }
    } else if |line| == 0 {
      // an empty line
    } else if IsDiffLineStart(line[0]) {
      num := num + 1;
    } else if line[0] == '*' || line[0] == '\t' {
      // an old comment
    } else {
      // a comment
      r := AddComment(dat, s, last, line);
      return;
    }
    r := s.(cursor := Cursor(commit, file, num, foundFirstHunk), review := review);
  }

  /** The free-text case of `parseFile`'s loop: open or extend the current draft comment. */
  method AddComment(dat: string, s: DecodeState, last: int, line: string) returns (r: DecodeState)
    requires Valid(dat, s) && |line| >= 1
    requires last == -1 ==> |line| + 1 <= s.off
    requires last != -1 ==> 0 <= last < s.off && |s.review.comments| > 0
    ensures r == AddText(dat, s, last, line)
  {
    var review := s.review;
    var commentStart := last;
    if commentStart == -1 {
      commentStart := s.off - |line| - 1;
      var comment := MakeDraftReviewComment(s.cursor.file, s.cursor.num);
      review := review.(comments := review.comments + [comment]);
    }
    var n := |review.comments| - 1;
    var body := dat[commentStart..s.off - 1];
    review := review.(comments := review.comments[n := review.comments[n].(body := Some(body))]);
    r := s.(commentStart := commentStart, review := review);
  }

  /** Scanning two lists one after the other is scanning their concatenation. */
  lemma {:induction false} ScanAppend(dat: string, st: DecodeState, ls: seq<string>, ms: seq<string>)
    requires Valid(dat, st) && st.off + |Concat(ls)| + |Concat(ms)| <= |dat|
    ensures Concat(ls + ms) == Concat(ls) + Concat(ms)
    ensures Scan(dat, st, ls + ms) ==
        match Scan(dat, st, ls)
        case Err(e) => Err(e)
        case Ok(s) => Scan(dat, s, ms)
    decreases |ms|
  {
    ConcatAppend(ls, ms);
    if ms == [] {
      assert ls + ms == ls;
    } else {
      var ms' := ms[..|ms| - 1];
      assert (ls + ms)[..|ls + ms| - 1] == ls + ms';
      ConcatAppend(ls, ms');
      ScanAppend(dat, st, ls, ms');
    }
  }

  /** Once the scan has failed it stays failed. */
  lemma {:induction false} ScanErrorSticks(dat: string, st: DecodeState, ls: seq<string>, ms: seq<string>)
    requires Valid(dat, st) && st.off + |Concat(ls)| + |Concat(ms)| <= |dat|
    requires Scan(dat, st, ls).Err?
    ensures Concat(ls + ms) == Concat(ls) + Concat(ms)
    ensures Scan(dat, st, ls + ms) == Scan(dat, st, ls)
  {
    ScanAppend(dat, st, ls, ms);
  }

  /** The only error the scan reports is a thread id `strconv.Atoi` cannot read. */
  lemma {:induction false} ScanErrorIsAtoi(dat: string, st: DecodeState, ls: seq<string>)
    requires Valid(dat, st) && st.off + |Concat(ls)| <= |dat|
    ensures Scan(dat, st, ls).Err? ==> exists k :: 0 <= k < |ls| && ThreadIdOverflows(ls[k], Scan(dat, st, ls).error)
    decreases |ls|
  {
    if ls != [] {
      var prefix := ls[..|ls| - 1];
      ScanErrorIsAtoi(dat, st, prefix);
      if Scan(dat, st, prefix).Err? {
        var k :| 0 <= k < |prefix| && ThreadIdOverflows(prefix[k], Scan(dat, st, prefix).error);
        assert ls[k] == prefix[k];
      } else if Scan(dat, st, ls).Err? {
        assert ThreadIdOverflows(ls[|ls| - 1], Scan(dat, st, ls).error);
      }
    }
  }

  /** `parseFile` fails only on a line with a thread id too large for `strconv.Atoi`. */
  lemma {:induction false} DecodeErrorIsAtoi(dat: string)
    ensures Decode(dat).Err? ==>
      exists k :: 0 <= k < |SplitAfter(dat)| && ThreadIdOverflows(SplitAfter(dat)[k], Decode(dat).error)
  {
    SplitAfterConcat(dat);
    ScanErrorIsAtoi(dat, Init, SplitAfter(dat));
  }

  /** Inside the top-level region every line is skipped, whatever it says. */
  lemma {:induction false} RegionSkipped(dat: string, st: DecodeState, inner: seq<string>)
    requires Valid(dat, st) && st.off + |Concat(inner)| <= |dat|
    requires st.topLevelStart != 0
    requires forall k :: 0 <= k < |inner| ==>
      inner[k] != "" && TrimLine(inner[k]) != TopLevelStartMarker && TrimLine(inner[k]) != TopLevelEndMarker
    ensures Scan(dat, st, inner).Ok?
    ensures Scan(dat, st, inner).value ==
      st.(off := st.off + |Concat(inner)|, commentStart := if inner == [] then st.commentStart else -1)
    decreases |inner|
  {
    if inner != [] {
      RegionSkipped(dat, st, inner[..|inner| - 1]);
    }
  }

  /**
    The top-level region: the lines between the two marker lines are not
    interpreted, and the body becomes the text from just after the start marker
    up to, not including, the newline before the end marker, with the suffix
    appended; an empty region leaves the body as it was.
   */
  lemma {:induction false} TopLevelBody(dat: string, st: DecodeState, sp: string, inner: seq<string>, ep: string)
    requires IsLine(sp) && TrimLine(sp) == TopLevelStartMarker
    requires IsLine(ep) && TrimLine(ep) == TopLevelEndMarker
    requires Valid(dat, st)
    requires st.off + |sp| + |Concat(inner)| + |ep| <= |dat|
    requires forall k :: 0 <= k < |inner| ==>
      IsLine(inner[k]) && TrimLine(inner[k]) != TopLevelStartMarker && TrimLine(inner[k]) != TopLevelEndMarker
    ensures Concat([sp] + inner + [ep]) == sp + Concat(inner) + ep
    ensures Scan(dat, st, [sp] + inner + [ep]).Ok?
    ensures Scan(dat, st, [sp] + inner + [ep]).value ==
      TopLevelClosed(dat, st.(off := st.off + |sp| + |Concat(inner)|, commentStart := -1, topLevelStart := st.off + |sp|), |ep|)
  {
    var a := st.off + |sp|;
    var b := a + |Concat(inner)|;
    OpenRegion(dat, st, sp, inner);
    var s2 := st.(off := b, commentStart := -1, topLevelStart := a);
    CloseAfter(dat, s2, ep);
    ScanThen(dat, st, [sp] + inner, [ep], s2, TopLevelClosed(dat, s2, |ep|));
  }

  /** The start marker and the lines after it, up to the end marker. */
  lemma {:induction false} OpenRegion(dat: string, st: DecodeState, sp: string, inner: seq<string>)
    requires IsLine(sp) && TrimLine(sp) == TopLevelStartMarker
    requires Valid(dat, st)
    requires st.off + |sp| + |Concat(inner)| <= |dat|
    requires forall k :: 0 <= k < |inner| ==>
      IsLine(inner[k]) && TrimLine(inner[k]) != TopLevelStartMarker && TrimLine(inner[k]) != TopLevelEndMarker
    ensures Concat([sp] + inner) == sp + Concat(inner)
    ensures Scan(dat, st, [sp] + inner).Ok?
    ensures Scan(dat, st, [sp] + inner).value ==
      st.(off := st.off + |sp| + |Concat(inner)|, commentStart := -1, topLevelStart := st.off + |sp|)
  {
    var a := st.off + |sp|;
    var s1 := st.(off := a, commentStart := -1, topLevelStart := a);
    StartMarkerStep(dat, st, sp);
    ScanSingle(dat, st, sp);
    RegionSkipped(dat, s1, inner);
    ScanThen(dat, st, [sp], inner, s1, s1.(off := a + |Concat(inner)|, commentStart := -1));
  }

  /** The end marker line closes the open region as `TopLevelClosed` says. */
  lemma {:induction false} CloseAfter(dat: string, s: DecodeState, ep: string)
    requires IsLine(ep) && TrimLine(ep) == TopLevelEndMarker
    requires Valid(dat, s) && s.off + |ep| <= |dat|
    ensures Concat([ep]) == ep
    ensures Scan(dat, s, [ep]).Ok? && Scan(dat, s, [ep]).value == TopLevelClosed(dat, s, |ep|)
  {
    EndMarkerScan(dat, s, ep);
    CloseRegion(dat, s, |ep|);
  }

  /** The end marker line, scanned on its own. */
  lemma {:induction false} EndMarkerScan(dat: string, st: DecodeState, ep: string)
    requires Valid(dat, st) && st.off + |ep| <= |dat|
    requires ep != "" && TrimLine(ep) == TopLevelEndMarker
    ensures Concat([ep]) == ep
    ensures Scan(dat, st, [ep]).Ok?
    ensures Scan(dat, st, [ep]).value == CloseTopLevel(dat, st.(off := st.off + |ep|, commentStart := -1))
  {
    EndMarkerStep(dat, st, ep);
    ScanSingle(dat, st, ep);
  }

  /**
    The state after the end marker line of `e` bytes, when the region was opened
    at `s.topLevelStart` and the marker line starts at `s.off`: the body is the
    region's text without the newline before the marker, when that is not empty.
   */
  function TopLevelClosed(dat: string, s: DecodeState, e: int): DecodeState
    requires 0 <= s.topLevelStart <= s.off <= |dat|
  {
    var a := s.topLevelStart;
    var b := s.off;
    DecodeState(s.cursor, b + e, -1, 0, s.lastInlineId,
      if b - 1 > a then s.review.(body := Some(dat[a..b - 1] + ReviewSuffix)) else s.review)
  }

  /** The end marker closes the region as `TopLevelClosed` says. */
  lemma {:induction false} CloseRegion(dat: string, s: DecodeState, e: int)
    requires e == |TopLevelEndMarker| + 1 && Valid(dat, s) && s.off + e <= |dat|
    ensures CloseTopLevel(dat, s.(off := s.off + e, commentStart := -1)) == TopLevelClosed(dat, s, e)
  {
    TopLevelMarkersAreLines();
  }

  /** Two scans that succeed one after the other are one scan of the two lists. */
  lemma {:induction false} ScanThen(dat: string, st: DecodeState, ls: seq<string>, ms: seq<string>, mid: DecodeState, fin: DecodeState)
    requires Valid(dat, st) && st.off + |Concat(ls)| + |Concat(ms)| <= |dat|
    requires Scan(dat, st, ls).Ok? && Scan(dat, st, ls).value == mid
    requires Scan(dat, mid, ms).Ok? && Scan(dat, mid, ms).value == fin
    ensures Concat(ls + ms) == Concat(ls) + Concat(ms)
    ensures Scan(dat, st, ls + ms).Ok? && Scan(dat, st, ls + ms).value == fin
  {
    ScanAppend(dat, st, ls, ms);
  }

  /** Scanning one piece is one step. */
  lemma {:induction false} ScanSingle(dat: string, st: DecodeState, p: string)
    requires Valid(dat, st) && st.off + |p| <= |dat|
    ensures Concat([p]) == p
    ensures Scan(dat, st, [p]) == Step(dat, st, p)
  {
    assert Concat([p]) == Concat([]) + p;
    assert [p][..0] == [];
  }

  /** Scanning one more piece is one more step. */
  lemma {:induction false} ScanSnoc(dat: string, st: DecodeState, ls: seq<string>, p: string)
    requires Valid(dat, st) && st.off + |Concat(ls)| + |p| <= |dat|
    ensures Concat(ls + [p]) == Concat(ls) + p
    ensures Scan(dat, st, ls + [p]) ==
        if Scan(dat, st, ls).Err? then Scan(dat, st, ls) else Step(dat, Scan(dat, st, ls).value, p)
  {
    assert (ls + [p])[..|ls|] == ls;
  }

  /** The start marker opens the top-level region. */
  lemma {:induction false} StartMarkerStep(dat: string, st: DecodeState, piece: string)
    requires Valid(dat, st) && st.off + |piece| <= |dat|
    requires piece != "" && TrimLine(piece) == TopLevelStartMarker
    ensures Step(dat, st, piece).Ok?
    ensures Step(dat, st, piece).value ==
      DecodeState(st.cursor, st.off + |piece|, -1, st.off + |piece|, st.lastInlineId, st.review)
  {
  }

  /** The end marker closes it, wherever the scan stands. */
  lemma {:induction false} EndMarkerStep(dat: string, st: DecodeState, piece: string)
    requires Valid(dat, st) && st.off + |piece| <= |dat|
    requires piece != "" && TrimLine(piece) == TopLevelEndMarker
    ensures Step(dat, st, piece).Ok?
    ensures Step(dat, st, piece).value == CloseTopLevel(dat, st.(off := st.off + |piece|, commentStart := -1))
  {
    TopLevelMarkersAreLines();
  }
}
