/**
  The fixed lines of the review template and the position rule that the
  encoder and both decoders share: which lines are commit, diff-section and
  file headers, when the first hunk of a file starts, and which lines lie
  inside a hunk.
 */
module Protocol {
  import opened Wrappers
  import opened Text

  // The two top-level marker lines, spelled in three parts of 16 bytes each.
  const TopLevelStartMarker: string := "# ------ BEGIN  " + "TOP-LEVEL REVIEW" + " COMMENTS ----- #"
  const TopLevelEndMarker: string := "# ------ END OF " + "TOP-LEVEL REVIEW" + " COMMENTS ----- #"
  /** A run of `n` stars, written as a comprehension so that the prover keeps it small. */
  function StarRun(n: nat): (r: string)
    ensures |r| == n && forall i :: 0 <= i < n ==> r[i] == '*'
  {
    seq(n, i => '*')
  }

  /** The inline markers: 79 stars, then `v` or `^`. */
  const InlineStartMarker: string := StarRun(79) + "v"
  const InlineEndMarker: string := StarRun(79) + "^"

  const DiffStart: string := "diff --git "
  const HunkStart: string := "@@"

  /** The top-level markers are single lines starting with `#`, and they differ. */
  lemma {:induction false} TopLevelMarkersAreLines()
    ensures '\n' !in TopLevelStartMarker && |TopLevelStartMarker| == 49 && TopLevelStartMarker[0] == '#'
    ensures '\n' !in TopLevelEndMarker && |TopLevelEndMarker| == 49 && TopLevelEndMarker[0] == '#'
    ensures TopLevelStartMarker != TopLevelEndMarker
  {
    assert TopLevelStartMarker[9] != TopLevelEndMarker[9];
  }

  /** The inline markers are single lines whose first two bytes are `*`. */
  lemma {:induction false} InlineMarkersStartWithStar()
    ensures |InlineStartMarker| == 80 && InlineStartMarker[0] == '*' && InlineStartMarker[1] == '*'
    ensures |InlineEndMarker| == 80 && InlineEndMarker[0] == '*' && InlineEndMarker[1] == '*'
    ensures '\n' !in InlineStartMarker && '\n' !in InlineEndMarker
  {
    assert forall i :: 0 <= i < 80 ==> InlineStartMarker[i] != '\n';
    assert forall i :: 0 <= i < 80 ==> InlineEndMarker[i] != '\n';
  }

  /** The markers are `strings.Repeat("*", 79)` followed by `v` and `^`. */
  lemma {:induction false} InlineMarkersAreRepeats()
    ensures InlineStartMarker == Repeat("*", 79) + "v"
    ensures InlineEndMarker == Repeat("*", 79) + "^"
  {
    RepeatStar(79);
  }

  lemma {:induction false} RepeatStar(n: nat)
    ensures Repeat("*", n) == StarRun(n)
  {
    if n > 0 {
      RepeatStar(n - 1);
      assert Repeat("*", n) == StarRun(n - 1) + "*";
    }
  }

  /** The regular expression `^commit (.*)$`. */
  predicate IsCommitHeader(line: string) {
    HasPrefix(line, "commit ")
  }

  function CommitOf(line: string): string
    requires IsCommitHeader(line)
  {
    line[7..]
  }

  predicate IsDiffHeader(line: string) {
    HasPrefix(line, DiffStart)
  }

  /** The regular expression `^\+\+\+ b\/(.*)$`. */
  predicate IsFileHeader(line: string) {
    HasPrefix(line, "+++ b/")
  }

  function FileOf(line: string): string
    requires IsFileHeader(line)
  {
    line[6..]
  }

  predicate IsHunkHeader(line: string) {
    HasPrefix(line, HunkStart)
  }

  /** A line of a diff section: none of the three headers. */
  predicate IsBodyLine(line: string) {
    !IsCommitHeader(line) && !IsDiffHeader(line) && !IsFileHeader(line)
  }

  /** The first bytes of the lines of a hunk: addition, deletion, context, hunk header. */
  predicate IsDiffLineStart(c: char) {
    c == '+' || c == '-' || c == ' ' || c == '@'
  }

  /** The scan state both sides keep while walking a diff. */
  datatype Cursor = Cursor(commit: string, file: string, num: int, foundFirstHunk: bool)

  const InitialCursor: Cursor := Cursor("", "", 0, false)

  /**
    The shared header rule. `Some(next)` when the line is a commit, diff-section
    or file header or comes before the first hunk of a file; `None` when the line
    lies inside a hunk, where the caller decides whether it is counted.
   */
  function HeaderStep(c: Cursor, line: string): (r: Option<Cursor>)
    // exactly the non-header lines after the first hunk fall through
    ensures r.None? <==> c.foundFirstHunk && !IsCommitHeader(line) && !IsDiffHeader(line) && !IsFileHeader(line)
    // a commit or diff-section header forgets the hunk
    ensures r.Some? && (IsCommitHeader(line) || IsDiffHeader(line)) ==> !r.value.foundFirstHunk
    ensures r.Some? && IsCommitHeader(line) ==> r.value.commit == CommitOf(line)
    ensures r.Some? && !IsCommitHeader(line) ==> r.value.commit == c.commit
    // a header line is never counted; the counter is only zeroed at the first hunk
    ensures r.Some? ==> r.value.num == c.num || (!c.foundFirstHunk && r.value == c.(foundFirstHunk := true, num := 0))
    ensures r.Some? && !c.foundFirstHunk && r.value.foundFirstHunk ==>
      IsHunkHeader(line) && !IsCommitHeader(line) && !IsDiffHeader(line) && !IsFileHeader(line)
    // a file header names the file and keeps the rest, also inside a hunk
    ensures r.Some? && IsFileHeader(line) && !IsCommitHeader(line) && !IsDiffHeader(line) ==>
      r.value == c.(file := FileOf(line))
    // the header rules in full: a commit or diff-section header keeps the file,
    // and the first `@@` of a file sets the flag and zeroes the position
    ensures r.Some? && IsCommitHeader(line) ==> r.value == c.(foundFirstHunk := false, commit := CommitOf(line))
    ensures r.Some? && IsDiffHeader(line) && !IsCommitHeader(line) ==> r.value == c.(foundFirstHunk := false)
    ensures r.Some? && !c.foundFirstHunk && IsHunkHeader(line) && !IsCommitHeader(line) && !IsDiffHeader(line) && !IsFileHeader(line) ==>
      r.value == c.(foundFirstHunk := true, num := 0)
    // before the first hunk, any other line leaves the cursor as it was
    ensures r.Some? && !IsCommitHeader(line) && !IsDiffHeader(line) && !IsFileHeader(line) && !IsHunkHeader(line) ==>
      r.value == c
  {
    if IsCommitHeader(line) then Some(c.(foundFirstHunk := false, commit := CommitOf(line)))
    else if IsDiffHeader(line) then Some(c.(foundFirstHunk := false))
    else if IsFileHeader(line) then Some(c.(file := FileOf(line)))
    else if !c.foundFirstHunk then
      (if IsHunkHeader(line) then Some(c.(foundFirstHunk := true, num := 0)) else Some(c))
    else None
  }

  /** Length of the longest prefix of `s` made of `\w` bytes. */
  function WordRun(s: string): (n: nat)
    ensures n <= |s|
  {
    if s != [] && IsWordChar(s[0]) then 1 + WordRun(s[1..]) else 0
  }

  /** `\w+` is greedy: the run covers word bytes only and stops at the first other byte. */
  lemma {:induction false} WordRunIsMaximal(s: string)
    ensures forall i :: 0 <= i < WordRun(s) ==> IsWordChar(s[i])
    ensures WordRun(s) < |s| ==> !IsWordChar(s[WordRun(s)])
  {
    if s != [] && IsWordChar(s[0]) {
      WordRunIsMaximal(s[1..]);
    }
  }

  /** Length of the longest prefix of `s` without `)`. */
  function NonParenRun(s: string): (n: nat)
    ensures n <= |s|
  {
    if s != [] && s[0] != ')' then 1 + NonParenRun(s[1..]) else 0
  }

  /** `[^\)]+` is greedy: the run has no `)` and stops at the first one. */
  lemma {:induction false} NonParenRunIsMaximal(s: string)
    ensures forall i :: 0 <= i < NonParenRun(s) ==> s[i] != ')'
    ensures NonParenRun(s) < |s| ==> s[NonParenRun(s)] == ')'
  {
    if s != [] && s[0] != ')' {
      NonParenRunIsMaximal(s[1..]);
    }
  }

  const CommentByPrefix: string := "* Comment by @"
  const ThreadInfix: string := ") thread "

  /**
    The regular expression `^\* Comment by @\w+ \([^\)]+\) thread (\d+)$`: the
    digits of the thread id, when the line matches. `\w+` must stop at the space
    and `[^\)]+` at the parenthesis, so both runs are the maximal ones.
   */
  function ThreadIdMatch(line: string): (r: Option<string>)
    ensures r.Some? ==> HasPrefix(line, CommentByPrefix) && line[0] == '*' && line[1] == ' '
    ensures r.Some? ==> |r.value| > 0 && AllDigits(r.value)
    ensures r.Some? ==> |r.value| < |line| && line[|line| - |r.value|..] == r.value
    ensures r.Some? ==> line[|line| - |r.value| - 1] == ' '
    ensures r.Some? ==> IsDigit(line[|line| - 1])
  {
    if !HasPrefix(line, CommentByPrefix) then None
    else
      var w := WordRun(line[|CommentByPrefix|..]);
      var p := |CommentByPrefix| + w;
      if w == 0 || !HasPrefix(line[p..], " (") then None
      else
        var t := NonParenRun(line[p + 2..]);
        var q := p + 2 + t;
        if t == 0 || !HasPrefix(line[q..], ThreadInfix) then None
        else
          var start := q + |ThreadInfix|;
          var d := line[start..];
          if |d| > 0 && AllDigits(d) then
            assert line[start - 1] == line[q..][..|ThreadInfix|][|ThreadInfix| - 1];
            assert line[0] == line[..|CommentByPrefix|][0];
            assert line[1] == line[..|CommentByPrefix|][1];
            assert line[|line| - 1] == d[|d| - 1];
            Some(d)
          else None
  }

  /**
    When a line is some text ending in a non-digit followed by digits, the only
    thread id it can carry is those digits, after a space.
   */
  lemma {:induction false} ThreadIdDigitsAreMaximal(line: string, x: string, digits: string)
    requires line == x + digits && |x| > 0 && !IsDigit(x[|x| - 1]) && AllDigits(digits)
    ensures ThreadIdMatch(line).Some? ==> ThreadIdMatch(line) == Some(digits) && x[|x| - 1] == ' '
  {
    if ThreadIdMatch(line).Some? {
      var d := ThreadIdMatch(line).value;
      assert forall k :: |x| <= k < |line| ==> IsDigit(line[k]) by {
        forall k | |x| <= k < |line| ensures IsDigit(line[k]) {
          assert line[k] == digits[k - |x|];
        }
      }
      assert forall k :: |line| - |d| <= k < |line| ==> IsDigit(line[k]) by {
        forall k | |line| - |d| <= k < |line| ensures IsDigit(line[k]) {
          assert line[k] == line[|line| - |d|..][k - (|line| - |d|)];
        }
      }
      assert !IsDigit(line[|line| - |d| - 1]);
      assert line[|x| - 1] == x[|x| - 1];
      assert |d| == |digits|;
      assert d == line[|x|..] == digits;
    }
  }

  /** A line that ends in a non-digit never carries a thread id. */
  lemma {:induction false} NoThreadIdWithoutDigitEnd(line: string)
    requires |line| > 0 && !IsDigit(line[|line| - 1])
    ensures ThreadIdMatch(line).None?
  {
  }

  /** A line whose second byte is not a space never carries a thread id. */
  lemma {:induction false} NoThreadIdWithoutCommentBy(line: string)
    requires |line| < 2 || line[1] != ' '
    ensures ThreadIdMatch(line).None?
  {
  }
}
