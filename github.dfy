/**
  The values the review core exchanges with the hosting platform's client
  library: positioned comments, draft comments and the review request.
  Pointer fields that the core tests against nil are `Option`s.
 */
module GitHub {
  import opened Wrappers
  import Text

  /** Go's `int64`. */
  type Int64 = x: int | -0x8000_0000_0000_0000 <= x <= Text.MaxInt64

  /**
    A `time.Time`: `instant` orders times, `text` is what
    `Format("2006-01-02 15:04:05")` prints for it.
   */
  datatype Time = Time(instant: int, text: string)

  /** Go's zero `time.Time` (January 1 of year 1, UTC). */
  const ZeroTime: Time := Time(-62135596800, "0001-01-01 00:00:00")

  datatype User = User(login: Option<string>)

  /** A comment already posted on a line of the diff. */
  datatype PullRequestComment = PullRequestComment(
    id: Int64,
    commitId: string,
    path: string,
    position: Option<int>,   // None: the platform marked the comment outdated
    inReplyTo: Option<Int64>,
    user: Option<User>,
    createdAt: Option<Time>,
    body: string)

  /** A new line comment produced by the decoder. */
  datatype DraftReviewComment = DraftReviewComment(path: string, position: int, body: Option<string>)

  /** The review the decoder builds and the submit menu completes. */
  datatype ReviewRequest = ReviewRequest(
    commitId: Option<string>,
    body: Option<string>,
    event: Option<string>,
    comments: seq<DraftReviewComment>)

  const EmptyRequest: ReviewRequest := ReviewRequest(None, None, None, [])

  /** A review or an issue comment shown above the diff. */
  datatype TopLevelComment = TopLevelComment(body: string, author: string, createdAt: Time, state: string, commitId: string)

  const ReviewApprove := "APPROVE"
  const ReviewRequestChanges := "REQUEST_CHANGES"
  const ReviewComment := "COMMENT"
  const ReviewPending := "PENDING"
}
