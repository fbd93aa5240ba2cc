/**
  The submit menu: after each editing session the user answers one prompt,
  and the first byte of the answer decides whether the review is submitted
  (with an event), saved, abandoned, shown, or edited again. review.go's
  `review` and main.go's `decisionLoop` are two revisions of it that differ in
  what an unrecognised answer does.

  Each answer is given by its first byte: `keys[i]` answers the i-th prompt,
  and running out of keys is the end of input. Editing session `n` (counted
  from 0) yields `session(n)`: `Some` request once the template parses, or
  `None` when the user gives up at the "edit again?" prompt of the parse
  retries (an answer `q` or the end of input), which ends the program. The
  editor and the retries themselves are not part of this model.
 */
module Menu {
  import opened Wrappers
  import opened GitHub

  datatype Revision = Newer | Older   // review.go's `review`, main.go's `decisionLoop`

  datatype Outcome =
    | Submit(request: ReviewRequest)  // the request is returned for posting
    | SaveDraft                       // `s`: the template is copied aside, then the program exits
    | Quit                            // `q` or end of input: the program exits

  /** The answers that end the loop. */
  predicate Terminal(key: char) {
    key in {'y', 'a', 'r', 'd', 's', 'q'}
  }

  /** What a terminal answer does with the request of the current session. */
  function Decide(key: char, request: ReviewRequest): (o: Outcome)
    requires Terminal(key)
    ensures o.Submit? <==> key in {'y', 'a', 'r', 'd'}
    ensures o.Submit? ==> o.request.comments == request.comments && o.request.body == request.body
    ensures o.Submit? ==> o.request.commitId == request.commitId
    ensures key == 'y' ==> o == Submit(request.(event := Some(ReviewComment)))
    ensures key == 'a' ==> o == Submit(request.(event := Some(ReviewApprove)))
    ensures key == 'r' ==> o == Submit(request.(event := Some(ReviewRequestChanges)))
    ensures key == 'd' ==> o == Submit(request.(event := None))
  {
    match key
    case 'y' => Submit(request.(event := Some(ReviewComment)))
    case 'a' => Submit(request.(event := Some(ReviewApprove)))
    case 'r' => Submit(request.(event := Some(ReviewRequestChanges)))
    case 'd' => Submit(request.(event := None))
    case 's' => SaveDraft
    case 'q' => Quit
  }

  /**
    Whether a non-terminal answer opens the editor again. The newer loop does
    so only for `e`; the older one has no default case, so an answer it does
    not recognise falls out of the switch and re-edits as `e` does.
   */
  predicate Reopens(rev: Revision, key: char) {
    match rev
    case Newer => key == 'e'
    case Older => key != 'p' && key != '?'
  }

  /** The loop from prompt `i` on, once session `cur` has been opened. */
  function Run(rev: Revision, keys: seq<char>, session: nat -> Option<ReviewRequest>, i: nat, cur: nat): Outcome
    requires i <= |keys|
    decreases |keys| - i
  {
    if session(cur).None? then Quit  // the parse retries ended the program
    else if i == |keys| then Quit
    else if Terminal(keys[i]) then Decide(keys[i], session(cur).value)
    else Run(rev, keys, session, i + 1, if Reopens(rev, keys[i]) then cur + 1 else cur)
  }

  /** The whole menu: the first session is opened before the first prompt. */
  function RunMenu(rev: Revision, keys: seq<char>, session: nat -> Option<ReviewRequest>): Outcome {
    Run(rev, keys, session, 0, 0)
  }

  /** review.go's `review`. */
  method Review(keys: seq<char>, session: nat -> Option<ReviewRequest>) returns (o: Outcome)
    ensures o == RunMenu(Newer, keys, session)
  {
    var editReview := true;
    var request := EmptyRequest;
    var sessions := 0;
    var i := 0;
    ghost var cur := 0;
    while true
      invariant 0 <= i <= |keys|
      invariant sessions == if editReview then cur else cur + 1
      invariant !editReview ==> session(cur) == Some(request)
      invariant Run(Newer, keys, session, i, cur) == RunMenu(Newer, keys, session)
      decreases |keys| - i
    {
      if editReview {
        var parsed := session(sessions);
        if parsed.None? {
          return Quit;  // the user gave up at the "edit again?" prompt
        }
        request := parsed.value;
        sessions := sessions + 1;
      }
      editReview := true;
      if i == |keys| {
        return Quit;  // end of input
      }
      var key := keys[i];
      i := i + 1;
      match key {
        case 'y' =>
          request := request.(event := Some(ReviewComment));
          return Submit(request);
        case 'a' =>
          request := request.(event := Some(ReviewApprove));
          return Submit(request);
        case 'r' =>
          request := request.(event := Some(ReviewRequestChanges));
          return Submit(request);
        case 'd' =>
          request := request.(event := None);
          return Submit(request);
        case 's' =>
          return SaveDraft;
        case 'p' =>
          editReview := false;
        case 'e' =>
          cur := cur + 1;
        case 'q' =>
          return Quit;
        case _ =>
          editReview := false;  // `?` and every other answer print the help
      }
    }
  }

  /** main.go's `decisionLoop`. */
  method DecisionLoop(keys: seq<char>, session: nat -> Option<ReviewRequest>) returns (o: Outcome)
    ensures o == RunMenu(Older, keys, session)
  {
    var editReview := true;
    var request := EmptyRequest;
    var sessions := 0;
    var i := 0;
    ghost var cur := 0;
    while true
      invariant 0 <= i <= |keys|
      invariant sessions == if editReview then cur else cur + 1
      invariant !editReview ==> session(cur) == Some(request)
      invariant Run(Older, keys, session, i, cur) == RunMenu(Older, keys, session)
      decreases |keys| - i
    {
      if editReview {
        var parsed := session(sessions);
        if parsed.None? {
          return Quit;  // the user gave up at the "edit again?" prompt
        }
        request := parsed.value;
        sessions := sessions + 1;
      }
      editReview := true;
      if i == |keys| {
        return Quit;
      }
      var key := keys[i];
      i := i + 1;
      match key {
        case 'y' =>
          request := request.(event := Some(ReviewComment));
          return Submit(request);
        case 'a' =>
          request := request.(event := Some(ReviewApprove));
          return Submit(request);
        case 'r' =>
          request := request.(event := Some(ReviewRequestChanges));
          return Submit(request);
        case 'd' =>
          request := request.(event := None);
          return Submit(request);
        case 's' =>
          return SaveDraft;
        case 'p' =>
          editReview := false;
        case 'e' =>
          cur := cur + 1;
        case 'q' =>
          return Quit;
        case '?' =>
          editReview := false;
        case _ =>
          cur := cur + 1;  // no case matches: the loop starts over and re-edits
      }
    }
  }

  /** How many of `keys` open the editor again. */
  function Reopened(rev: Revision, keys: seq<char>): nat {
    if keys == [] then 0
    else Reopened(rev, keys[..|keys| - 1]) + if Reopens(rev, keys[|keys| - 1]) then 1 else 0
  }

  /** The index of the first terminal answer, or -1 when there is none. */
  function FirstTerminal(keys: seq<char>): (j: int)
    ensures -1 <= j < |keys|
    ensures j >= 0 ==> Terminal(keys[j])
    ensures forall k :: 0 <= k < |keys| && (j == -1 || k < j) ==> !Terminal(keys[k])
    decreases |keys|
  {
    if keys == [] then -1
    else if Terminal(keys[0]) then 0
    else
      var j := FirstTerminal(keys[1..]);
      assert forall k :: 1 <= k < |keys| ==> keys[k] == keys[1..][k - 1];
      if j == -1 then -1 else j + 1
  }

  /** Sessions 0 to `n` all yielded a request: none of them ended the program. */
  predicate AllParsed(session: nat -> Option<ReviewRequest>, n: nat) {
    forall m: nat :: m <= n ==> session(m).Some?
  }

  /**
    The menu's outcome is decided by the first terminal answer alone, applied
    to the request of the session opened by the re-editing answers before it;
    with no terminal answer the input runs out, and when one of the sessions
    opened on the way ends the program, it ends there: either way nothing is
    submitted.
   */
  lemma {:induction false} OutcomeIsFirstDecision(rev: Revision, keys: seq<char>, session: nat -> Option<ReviewRequest>)
    ensures
      var j := FirstTerminal(keys);
      var last := Reopened(rev, keys[..if j == -1 then |keys| else j]);
      RunMenu(rev, keys, session) ==
        if j == -1 || !AllParsed(session, last) then Quit else Decide(keys[j], session(last).value)
  {
    var j := FirstTerminal(keys);
    var end := if j == -1 then |keys| else j;
    assert keys[..0] == [];
    RunUntil(rev, keys, session, 0, end);
  }

  /** Past non-terminal answers the loop only opens further sessions. */
  lemma {:induction false} RunUntil(rev: Revision, keys: seq<char>, session: nat -> Option<ReviewRequest>, i: nat, end: nat)
    requires i <= end <= |keys|
    requires forall k :: i <= k < end ==> !Terminal(keys[k])
    requires end < |keys| ==> Terminal(keys[end])
    requires forall m: nat :: m < Reopened(rev, keys[..i]) ==> session(m).Some?
    ensures
      var last := Reopened(rev, keys[..end]);
      Run(rev, keys, session, i, Reopened(rev, keys[..i])) ==
        if end == |keys| || !AllParsed(session, last) then Quit else Decide(keys[end], session(last).value)
    decreases end - i
  {
    var cur := Reopened(rev, keys[..i]);
    if session(cur).None? {
      ReopenedGrows(rev, keys, i, end);
      assert !AllParsed(session, Reopened(rev, keys[..end]));
    } else if i < end {
      assert keys[..i + 1][..i] == keys[..i];
      RunUntil(rev, keys, session, i + 1, end);
    }
  }

  /** Later answers never undo a session: the count of re-edits only grows. */
  lemma {:induction false} ReopenedGrows(rev: Revision, keys: seq<char>, i: nat, end: nat)
    requires i <= end <= |keys|
    ensures Reopened(rev, keys[..i]) <= Reopened(rev, keys[..end])
    decreases end - i
  {
    if i < end {
      assert keys[..i + 1][..i] == keys[..i];
      ReopenedGrows(rev, keys, i + 1, end);
    }
  }

  /** The two revisions agree on every input whose answers they both recognise. */
  lemma {:induction false} RevisionsAgree(keys: seq<char>, session: nat -> Option<ReviewRequest>)
    requires forall k :: 0 <= k < |keys| ==> keys[k] in {'y', 'a', 'r', 'd', 's', 'q', 'p', 'e', '?'}
    ensures RunMenu(Newer, keys, session) == RunMenu(Older, keys, session)
  {
    OutcomeIsFirstDecision(Newer, keys, session);
    OutcomeIsFirstDecision(Older, keys, session);
    var j := FirstTerminal(keys);
    if j != -1 {
      ReopenedAgree(keys[..j]);
    }
  }

  /** Among answers both revisions recognise, only `e` re-edits. */
  lemma {:induction false} ReopenedAgree(keys: seq<char>)
    requires forall k :: 0 <= k < |keys| ==> keys[k] in {'p', 'e', '?'}
    ensures Reopened(Newer, keys) == Reopened(Older, keys)
    decreases |keys|
  {
    if keys != [] {
      ReopenedAgree(keys[..|keys| - 1]);
    }
  }

  /**
    An answer neither revision recognises: the newer loop prints the help and
    keeps the request, the older one opens the editor again.
   */
  lemma {:induction false} UnknownAnswerDiffers(x: char, session: nat -> Option<ReviewRequest>)
    requires !Terminal(x) && x !in {'p', 'e', '?'}
    ensures RunMenu(Newer, [x, 'y'], session) ==
      if session(0).None? then Quit else Submit(session(0).value.(event := Some(ReviewComment)))
    ensures RunMenu(Older, [x, 'y'], session) ==
      if session(0).None? || session(1).None? then Quit else Submit(session(1).value.(event := Some(ReviewComment)))
  {
    if session(0).Some? {
      assert Run(Newer, [x, 'y'], session, 1, 0) == Decide('y', session(0).value);
      if session(1).Some? {
        assert Run(Older, [x, 'y'], session, 1, 1) == Decide('y', session(1).value);
      } else {
        assert Run(Older, [x, 'y'], session, 1, 1) == Quit;
      }
    }
  }
}
