/**
  The index of existing line comments, keyed by commit id, then file path,
  then diff position (review.go:24-54). Lookups go through `Get`, which
  answers `None` where Go's `get` answers nil.
 */
module CommentIndex {
  import opened Wrappers
  import opened GitHub

  type LineComments = map<int, seq<PullRequestComment>>
  type FileComments = map<string, LineComments>
  type CommitComments = map<string, FileComments>

  /** `commitComments.get`: the list at the key, `None` when any level is absent. */
  function Get(c: CommitComments, commit: string, file: string, line: int): (r: Option<seq<PullRequestComment>>)
    ensures r.None? <==> commit !in c || file !in c[commit] || line !in c[commit][file]
    ensures r.Some? ==> r.value == c[commit][file][line]
  {
    if commit in c && file in c[commit] && line in c[commit][file] then Some(c[commit][file][line])
    else None
  }

  /** The list at a key, empty when there is none (Go's nil slice). */
  function At(c: CommitComments, commit: string, file: string, line: int): seq<PullRequestComment> {
    match Get(c, commit, file, line)
    case None => []
    case Some(cs) => cs
  }

  /** Whether `x` is stored under the key. */
  predicate KeyedAt(x: PullRequestComment, commit: string, file: string, line: int) {
    x.position == Some(line) && x.commitId == commit && x.path == file
  }

  /**
    The index as `put` leaves it: an outdated comment (no position) is dropped,
    any other is appended at its own key and no other key changes.
   */
  function Inserted(c: CommitComments, x: PullRequestComment): (r: CommitComments)
    ensures forall commit, file, line {:trigger Get(r, commit, file, line)} ::
      Get(r, commit, file, line) ==
        if KeyedAt(x, commit, file, line) then Some(At(c, commit, file, line) + [x])
        else Get(c, commit, file, line)
  {
    if x.position.None? then c
    else
      var files := if x.commitId in c then c[x.commitId] else map[];
      var lines := if x.path in files then files[x.path] else map[];
      var line := x.position.value;
      c[x.commitId := files[x.path := lines[line := At(c, x.commitId, x.path, line) + [x]]]]
  }

  /** Every stored list is non-empty and holds only comments keyed at it. */
  ghost predicate Consistent(c: CommitComments) {
    forall commit, file, line {:trigger Get(c, commit, file, line)} ::
      Get(c, commit, file, line).Some? ==>
        |Get(c, commit, file, line).value| > 0 &&
        forall k :: 0 <= k < |Get(c, commit, file, line).value| ==>
          KeyedAt(Get(c, commit, file, line).value[k], commit, file, line)
  }

  lemma {:induction false} InsertedConsistent(c: CommitComments, x: PullRequestComment)
    requires Consistent(c)
    ensures Consistent(Inserted(c, x))
  {
    var r := Inserted(c, x);
    forall commit, file, line | Get(r, commit, file, line).Some?
      ensures |Get(r, commit, file, line).value| > 0
      ensures forall k :: 0 <= k < |Get(r, commit, file, line).value| ==>
          KeyedAt(Get(r, commit, file, line).value[k], commit, file, line)
    {
      if KeyedAt(x, commit, file, line) {
        assert Get(r, commit, file, line).value == At(c, commit, file, line) + [x];
      } else {
        assert Get(r, commit, file, line) == Get(c, commit, file, line);
      }
    }
  }

  /** The index the encoder reads: every fetched comment put in order. */
  function IndexOf(cs: seq<PullRequestComment>): CommitComments {
    if cs == [] then map[] else Inserted(IndexOf(cs[..|cs| - 1]), cs[|cs| - 1])
  }

  /** Putting a list of comments, one after the other, keeps the index consistent. */
  lemma {:induction false} IndexOfConsistent(cs: seq<PullRequestComment>)
    ensures Consistent(IndexOf(cs))
    decreases |cs|
  {
    if cs != [] {
      IndexOfConsistent(cs[..|cs| - 1]);
      InsertedConsistent(IndexOf(cs[..|cs| - 1]), cs[|cs| - 1]);
    }
  }

  /** The comments of `cs` keyed at one position, in their original order. */
  function Matching(cs: seq<PullRequestComment>, commit: string, file: string, line: int): seq<PullRequestComment> {
    if cs == [] then []
    else
      Matching(cs[..|cs| - 1], commit, file, line) +
        (if KeyedAt(cs[|cs| - 1], commit, file, line) then [cs[|cs| - 1]] else [])
  }

  /**
    After putting a list of comments, a key holds exactly the comments keyed at
    it, in insertion order, and is absent when there are none.
   */
  lemma {:induction false} IndexOfGet(cs: seq<PullRequestComment>, commit: string, file: string, line: int)
    ensures Get(IndexOf(cs), commit, file, line) ==
      if Matching(cs, commit, file, line) == [] then None else Some(Matching(cs, commit, file, line))
  {
    if cs == [] {
      assert IndexOf(cs) == map[];
      assert Matching(cs, commit, file, line) == [];
      assert Get(IndexOf(cs), commit, file, line) == None;
    } else {
      var prev := cs[..|cs| - 1];
      IndexOfGet(prev, commit, file, line);
      assert At(IndexOf(prev), commit, file, line) == Matching(prev, commit, file, line);
      var last := cs[|cs| - 1];
      assert Get(IndexOf(cs), commit, file, line) == Get(Inserted(IndexOf(prev), last), commit, file, line);
      if KeyedAt(last, commit, file, line) {
        assert Matching(cs, commit, file, line) == Matching(prev, commit, file, line) + [last];
      } else {
        assert Matching(cs, commit, file, line) == Matching(prev, commit, file, line) + [];
        assert Matching(prev, commit, file, line) + [] == Matching(prev, commit, file, line);
      }
    }
  }

  /** The index as an object whose `Put` updates the nested maps in place. */
  class Index {
    var comments: CommitComments

    ghost predicate Valid()
      reads this
    {
      Consistent(comments)
    }

    constructor ()
      ensures Valid() && comments == map[]
    {
      comments := map[];
    }

    /** `commitComments.put`. */
    method Put(comment: PullRequestComment)
      requires Valid()
      modifies this
      ensures Valid()
      ensures comments == Inserted(old(comments), comment)
    {
      InsertedConsistent(comments, comment);
      if comment.position.None? {
        // outdated comment
        return;
      }
      var commit := comment.commitId;
      var file := comment.path;
      var line := comment.position.value;
      ghost var files0 := if commit in comments then comments[commit] else map[];
      ghost var lines0 := if file in files0 then files0[file] else map[];
      if commit !in comments {
        comments := comments[commit := map[]];
      }
      if file !in comments[commit] {
        comments := comments[commit := comments[commit][file := map[]]];
      }
      var lines := comments[commit][file];
      var list := if line in lines then lines[line] else [];
      assert lines == lines0 && comments[commit] == files0[file := lines0];
      assert list == At(old(comments), commit, file, line);
      assert comments == old(comments)[commit := files0[file := lines0]];
      assert Inserted(old(comments), comment) == old(comments)[commit := files0[file := lines0[line := list + [comment]]]];
      var updated := comments[commit][file := lines[line := list + [comment]]];
      assert updated == files0[file := lines0[line := list + [comment]]];
      comments := comments[commit := updated];
      assert comments == old(comments)[commit := updated];
    }

    /** Putting every fetched comment in order builds `IndexOf` of the list. */
    method PutAll(list: seq<PullRequestComment>)
      requires Valid() && comments == map[]
      modifies this
      ensures Valid() && comments == IndexOf(list)
    {
      for i := 0 to |list|
        invariant Valid() && comments == IndexOf(list[..i])
      {
        assert list[..i + 1][..i] == list[..i];
        Put(list[i]);
      }
      assert list[..|list|] == list;
    }
  }
}
