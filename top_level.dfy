/**
  The top-level part of review.go's `printPR`: the reviews and issue comments
  shown above the diff, oldest first, each under a line naming what it is,
  who wrote it and when. Empty comments and the platform's "This change is
  Reviewable" notices are not shown.
 */
module TopLevel {
  import opened Text
  import opened GitHub
  import opened Wrap

  /** The marker that starts the notice a code-review service posts on every pull request. */
  const ReviewableStart: string := "<!-- Reviewable:start -->"

  /** `time.Time.Before`. */
  predicate Before(a: Time, b: Time) {
    a.instant < b.instant
  }

  /** `topLevelComments.Less`: comments sort by creation time. */
  function Less(cs: seq<TopLevelComment>, i: int, j: int): (r: bool)
    requires 0 <= i < |cs| && 0 <= j < |cs|
    ensures r ==> !Before(cs[j].createdAt, cs[i].createdAt)
    ensures cs[i].createdAt == cs[j].createdAt ==> !r
    ensures r <==> cs[i].createdAt.instant < cs[j].createdAt.instant
  {
    Before(cs[i].createdAt, cs[j].createdAt)
  }

  /**
    `Less` is a strict weak order, as `sort.Sort` needs: irreflexive,
    transitive, and two comments neither of which is less than the other are
    interchangeable with respect to every third one.
   */
  lemma {:induction false} LessIsStrictWeakOrder(cs: seq<TopLevelComment>, i: int, j: int, k: int)
    requires 0 <= i < |cs| && 0 <= j < |cs| && 0 <= k < |cs|
    ensures !Less(cs, i, i)
    ensures Less(cs, i, j) && Less(cs, j, k) ==> Less(cs, i, k)
    ensures !Less(cs, i, j) && !Less(cs, j, i) ==> (Less(cs, i, k) <==> Less(cs, j, k))
  {
  }

  /** A list ordered by `Less`, as `sort.Sort` leaves it. */
  predicate SortedByTime(cs: seq<TopLevelComment>) {
    forall i, j :: 0 <= i < j < |cs| ==> !Less(cs, j, i)
  }

  /** In a sorted list, creation times never decrease. */
  lemma {:induction false} SortedIsOldestFirst(cs: seq<TopLevelComment>, i: int, j: int)
    requires SortedByTime(cs) && 0 <= i <= j < |cs|
    ensures cs[i].createdAt.instant <= cs[j].createdAt.instant
  {
    if i < j {
      assert !Less(cs, j, i);
    }
  }

  /** The word that says what a top-level comment is, from the state of its review. */
  function Action(state: string): (r: string)
    ensures r == "Approved" <==> state == ReviewApprove
    ensures r == "Changes requested" <==> state == ReviewRequestChanges
    ensures r == "Draft comment" <==> state == ReviewPending
    ensures r == "Comment" <==> state !in {ReviewApprove, ReviewRequestChanges, ReviewPending}
  {
    if state == ReviewApprove then "Approved"
    else if state == ReviewRequestChanges then "Changes requested"
    else if state == ReviewPending then "Draft comment"
    else "Comment"
  }

  /** A comment is shown when its trimmed body is not empty and is no Reviewable notice. */
  predicate Shown(c: TopLevelComment) {
    var text := TrimSpace(c.body);
    text != "" && !Contains(text, ReviewableStart)
  }

  /** What is printed for one shown comment: a blank line, the label line, a blank line, the wrapped body. */
  function Entry(c: TopLevelComment): string {
    "\n" + Action(c.state) + " by " + c.author + " (" + c.createdAt.text + ")\n"
      + "\n\t" + WrapSpec(TrimSpace(c.body), "\t") + "\n"
  }

  /** What is printed for a list of comments: the entries of the shown ones, in order. */
  function Entries(cs: seq<TopLevelComment>): string {
    if cs == [] then ""
    else
      var init, c := cs[..|cs| - 1], cs[|cs| - 1];
      if Shown(c) then Entries(init) + Entry(c) else Entries(init)
  }

  /** The loop of `printPR` over the top-level comments. */
  method WriteComments(cs: seq<TopLevelComment>) returns (w: string)
    ensures w == Entries(cs)
  {
    w := "";
    for i := 0 to |cs|
      invariant w == Entries(cs[..i])
    {
      assert cs[..i + 1][..i] == cs[..i];
      var com := cs[i];
      var text := TrimSpace(com.body);
      if text == "" {
        continue;
      }
      if Contains(text, ReviewableStart) {
        continue;
      }
      var action := "Comment";
      if com.state == ReviewApprove {
        action := "Approved";
      } else if com.state == ReviewRequestChanges {
        action := "Changes requested";
      } else if com.state == ReviewPending {
        action := "Draft comment";
      }
      var wrapped := Wrap.Wrap(text, "\t");
      var entry := "\n" + action + " by " + com.author + " (" + com.createdAt.text + ")\n"
        + "\n\t" + wrapped + "\n";
      w := w + entry;
    }
    assert cs[..|cs|] == cs;
  }

  /** The entries of two lists one after the other are the entries of the joined list. */
  lemma {:induction false} EntriesAppend(a: seq<TopLevelComment>, b: seq<TopLevelComment>)
    ensures Entries(a + b) == Entries(a) + Entries(b)
    decreases |b|
  {
    if b == [] {
      assert a + b == a;
    } else {
      var init, c := b[..|b| - 1], b[|b| - 1];
      assert (a + b)[..|a + b| - 1] == a + init;
      assert (a + b)[|a + b| - 1] == c;
      EntriesAppend(a, init);
      if Shown(c) {
        AppendAssoc(Entries(a), Entries(init), Entry(c));
      }
    }
  }

  /** One comment prints its entry when it is shown, and nothing otherwise. */
  lemma {:induction false} EntriesSingle(c: TopLevelComment)
    ensures Entries([c]) == if Shown(c) then Entry(c) else ""
  {
    assert [c][..0] == [];
  }

  /** A comment whose body is only white space, or that is a Reviewable notice, adds nothing. */
  lemma {:induction false} HiddenAddsNothing(a: seq<TopLevelComment>, c: TopLevelComment, b: seq<TopLevelComment>)
    requires !Shown(c)
    ensures Entries(a + [c] + b) == Entries(a) + Entries(b)
  {
    EntriesAppend(a + [c], b);
    EntriesAppend(a, [c]);
    EntriesSingle(c);
  }

  /** Inside an entry's body every line break is followed by the tab that indents the next line. */
  lemma {:induction false} EntryBodyIndented(c: TopLevelComment)
    ensures NewlinesFollowedBy(WrapSpec(TrimSpace(c.body), "\t"), "\t")
  {
    WrapPrefixesEveryLine(TrimSpace(c.body), "\t");
  }
}
