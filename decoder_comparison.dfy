/**
  The two revisions of `parseFile` side by side. On a document where no line
  inside a hunk is empty or starts with a tab, and no thread id overflows, the
  newer decoder returns what the older one returns, with the review suffix
  appended to the top-level body.
 */
module DecoderComparison {
  import opened Wrappers
  import opened Text
  import opened GitHub
  import opened Protocol
  import D = Decoder
  import L = LegacyDecoder
  import DecoderProperties

  /** A top-level body as the newer decoder writes it. */
  function Suffixed(body: Option<string>): Option<string> {
    match body
    case None => None
    case Some(t) => Some(t + D.ReviewSuffix)
  }

  /** A state of the newer loop that matches one of the older loop, but for the body's suffix and the thread id. */
  predicate Similar(n: D.DecodeState, o: L.LegacyState) {
    && n.cursor == o.cursor && n.off == o.off && n.commentStart == o.commentStart && n.topLevelStart == o.topLevelStart
    && n.review.commitId == o.review.commitId && n.review.event == o.review.event
    && n.review.comments == o.review.comments && n.review.body == Suffixed(o.review.body)
  }

  /** A piece on which the two loops do the same, read from the newer loop's state. */
  predicate Comparable(st: D.DecodeState, piece: string) {
    var line := TrimLine(piece);
    && (st.topLevelStart == 0 && ThreadIdMatch(line).Some? ==> DecimalValue(ThreadIdMatch(line).value) <= MaxInt64)
    && ((piece != "" && st.topLevelStart == 0 && line != TopLevelStartMarker && line != TopLevelEndMarker
         && st.cursor.foundFirstHunk && IsBodyLine(line)) ==> line != "" && line[0] != '\t')
  }

  /** One piece: both loops move to similar states. */
  lemma {:induction false} StepSimilar(dat: string, n: D.DecodeState, o: L.LegacyState, piece: string)
    requires D.Valid(dat, n) && L.Valid(dat, o) && Similar(n, o) && n.off + |piece| <= |dat|
    requires Comparable(n, piece)
    ensures D.Step(dat, n, piece).Ok?
    ensures Similar(D.Step(dat, n, piece).value, L.Step(dat, o, piece))
  {
    if piece != "" {
      var line := TrimLine(piece);
      var off := n.off + |piece|;
      if line == TopLevelEndMarker {
        EndMarkerSimilar(dat, n, o, piece);
      } else if line == TopLevelStartMarker || n.topLevelStart != 0 {
      } else if D.IsMarker(line) || ThreadIdMatch(line).Some? {
        SkipSimilar(dat, n, o, piece);
      } else {
        DiffStepSimilar(dat, n.(off := off, commentStart := -1), o.(off := off, commentStart := -1), n.commentStart, line);
      }
    }
  }

  lemma {:induction false} EndMarkerSimilar(dat: string, n: D.DecodeState, o: L.LegacyState, piece: string)
    requires D.Valid(dat, n) && L.Valid(dat, o) && Similar(n, o) && n.off + |piece| <= |dat|
    requires piece != "" && TrimLine(piece) == TopLevelEndMarker
    ensures D.Step(dat, n, piece).Ok?
    ensures Similar(D.Step(dat, n, piece).value, L.Step(dat, o, piece))
  {
    TopLevelMarkersAreLines();
  }

  /** Inline markers and thread-id lines start with `*`: the older loop skips them as old comments. */
  lemma {:induction false} SkipSimilar(dat: string, n: D.DecodeState, o: L.LegacyState, piece: string)
    requires D.Valid(dat, n) && L.Valid(dat, o) && Similar(n, o) && n.off + |piece| <= |dat|
    requires piece != "" && n.topLevelStart == 0 && Comparable(n, piece)
    requires TrimLine(piece) != TopLevelStartMarker && TrimLine(piece) != TopLevelEndMarker
    requires D.IsMarker(TrimLine(piece)) || ThreadIdMatch(TrimLine(piece)).Some?
    ensures D.Step(dat, n, piece).Ok?
    ensures Similar(D.Step(dat, n, piece).value, L.Step(dat, o, piece))
  {
    var line := TrimLine(piece);
    var off := n.off + |piece|;
    NewSkips(dat, n, piece);
    if ThreadIdMatch(line).Some? {
      assert line[0] == '*';
    } else {
      InlineMarkersStartWithStar();
    }
    L.StepOldComment(dat, o, piece);
  }

  /** The newer loop passes over inline markers and thread-id lines, changing only the thread id. */
  lemma {:induction false} NewSkips(dat: string, n: D.DecodeState, piece: string)
    requires D.Valid(dat, n) && n.off + |piece| <= |dat|
    requires piece != "" && n.topLevelStart == 0 && Comparable(n, piece)
    requires TrimLine(piece) != TopLevelStartMarker && TrimLine(piece) != TopLevelEndMarker
    requires D.IsMarker(TrimLine(piece)) || ThreadIdMatch(TrimLine(piece)).Some?
    ensures D.Step(dat, n, piece).Ok?
    ensures D.Step(dat, n, piece).value.(lastInlineId := n.lastInlineId) == n.(off := n.off + |piece|, commentStart := -1)
  {
    var line := TrimLine(piece);
    match ThreadIdMatch(line)
    case Some(digits) =>
      DecoderProperties.StepThreadId(dat, n, piece, digits);
    case None =>
      if line == InlineEndMarker {
        DecoderProperties.StepInlineEnd(dat, n, piece);
      }
  }

  lemma {:induction false} DiffStepSimilar(dat: string, n: D.DecodeState, o: L.LegacyState, last: int, line: string)
    requires D.Valid(dat, n) && L.Valid(dat, o) && Similar(n, o) && n.off > 0
    requires n.cursor.foundFirstHunk && |line| > 0 ==> (last == -1 ==> |line| + 1 <= n.off)
    requires last != -1 ==> 0 <= last < n.off && |n.review.comments| > 0
    requires n.cursor.foundFirstHunk && IsBodyLine(line) ==> line != "" && line[0] != '\t'
    ensures Similar(D.DiffStep(dat, n, last, line), L.DiffStep(dat, o, last, line))
  {
    match HeaderStep(n.cursor, line)
    case Some(c) =>
    case None =>
  }

  /** A list of pieces each of which is comparable in the state the newer loop reaches it in. */
  predicate ComparableAll(dat: string, st: D.DecodeState, ls: seq<string>) {
    forall k :: 0 <= k < |ls| ==> ComparableAt(dat, st, ls, k)
  }

  predicate ComparableAt(dat: string, st: D.DecodeState, ls: seq<string>, k: int)
    requires 0 <= k < |ls|
  {
    && D.Valid(dat, st) && st.off + |Concat(ls[..k])| <= |dat|
    && D.Scan(dat, st, ls[..k]).Ok? && Comparable(D.Scan(dat, st, ls[..k]).value, ls[k])
  }

  /** Scanning comparable pieces keeps the two loops' states similar. */
  lemma {:induction false} ScanSimilar(dat: string, n: D.DecodeState, o: L.LegacyState, ls: seq<string>)
    requires D.Valid(dat, n) && L.Valid(dat, o) && Similar(n, o) && n.off + |Concat(ls)| <= |dat|
    requires ComparableAll(dat, n, ls)
    ensures D.Scan(dat, n, ls).Ok?
    ensures Similar(D.Scan(dat, n, ls).value, L.Scan(dat, o, ls))
    decreases |ls|
  {
    if ls != [] {
      var init := ls[..|ls| - 1];
      ConcatAppend(init, [ls[|ls| - 1]]);
      assert init + [ls[|ls| - 1]] == ls;
      forall k | 0 <= k < |init|
        ensures ComparableAt(dat, n, init, k)
      {
        assert init[..k] == ls[..k];
        assert ComparableAt(dat, n, ls, k);
      }
      ScanSimilar(dat, n, o, init);
      assert ComparableAt(dat, n, ls, |ls| - 1);
      StepSimilar(dat, D.Scan(dat, n, init).value, L.Scan(dat, o, init), ls[|ls| - 1]);
    }
  }

  /**
    On a comparable document the newer `parseFile` succeeds and returns the
    older one's request, its top-level body followed by the review suffix.
   */
  lemma {:induction false} DecodersAgree(dat: string)
    requires ComparableAll(dat, D.Init, SplitAfter(dat))
    ensures D.Decode(dat).Ok?
    ensures D.Decode(dat).value == L.Decode(dat).(body := Suffixed(L.Decode(dat).body))
  {
    SplitAfterConcat(dat);
    ScanSimilar(dat, D.Init, L.Init, SplitAfter(dat));
  }
}
