# re: the review template protocol, in Dafny

`re` is a command-line tool for reviewing GitHub pull requests in a text
editor. It writes a review template: a header, the pull request's top-level
comments, a marked region for a new top-level comment, then the `git diff` of
the pull request. Comments already posted on a diff line are printed right
after that line, as an inline block of `*`-prefixed lines between two marker
lines. The user types new comments under diff lines. When the editor exits,
the program decodes the edited template into a review request: one draft
comment per run of typed lines, each anchored at a (file, position) pair. A
small menu then submits, saves or abandons the review.

This project models the encoder, the decoder, the comment index, the word
wrapper, the top-level comment listing and the submit menu. It proves what
they promise. `review.go` and `main.go` are two revisions of the same program:

- The newer revision lives in `review.go`. It has the comment index, inline
  blocks and thread ids.
- The older revision lives in `main.go`. It has its own `parseFile` and menu,
  plus `wrap` and the nil-safe getters.

Each decoder has its own module, and a comparison module relates the two.

Modules, one per file:

- `wrappers.dfy` (`Wrappers`): `Option` and `Result`.
- `text.dfy` (`Text`): the Go string functions the core uses. Strings are
  sequences of bytes, one `char` per byte. `strconv.Atoi` fails beyond the
  64-bit `int` range.
- `github.dfy` (`GitHub`): the API records. A pointer field that the code
  tests against nil is `None`; one it dereferences without a test is a plain
  value.
- `getters.dfy` (`Getters`): `getInt`, `getString`, `getUserLogin`, `getTime`.
- `comment_index.dfy` (`CommentIndex`): `commitComments.get` and `put`. `put`
  is a method of a class whose nested map is updated in place.
- `wrap.dfy` (`Wrap`): `wrap`, with its two nested loops, proved against a
  functional definition.
- `protocol.dfy` (`Protocol`): the marker lines, and hand-written matchers for
  the `commit`, `+++ b/` and thread-id regular expressions. Also the
  header rule both loops share to move the (commit, file, position) cursor.
- `encoder.dfy` (`Encoder`): the diff-annotation loop of
  `makeReviewTemplate`, proved against a fold over the diff's lines.
- `decoder.dfy` (`Decoder`): the newer `parseFile` loop, proved against a
  fold `Scan` of a one-line `Step`.
- `decoder_properties.dfy` (`DecoderProperties`): what one step and one run of
  typed lines do to the request.
- `round_trip.dfy` (`RoundTrip`): decoding an untouched template adds no
  draft comment and no top-level body.
- `top_level.dfy` (`TopLevel`): the top-level comment listing of `printPR`,
  and `topLevelComments.Less`.
- `legacy_decoder.dfy` (`LegacyDecoder`): the older `parseFile`.
- `decoder_comparison.dfy` (`DecoderComparison`): when both decoders return
  the same request.
- `menu.dfy` (`Menu`): the `review` and `decisionLoop` menus.

The model follows the code where the program's design description says
something else:

- **Top-level body.** The description says the body is trimmed of
  surrounding blank lines. The code takes the exact span between the markers
  and, in the newer revision, appends `"\n<!-- review by re -->"`.
- **Unrecognised menu answer.** The description says it re-opens the editor.
  That is what `main.go` does. `review.go` prints the help and keeps the
  request.
- **Reviewable notices.** The description skips comments that consist only
  of a boilerplate notice. The code skips every comment that contains
  `<!-- Reviewable:start -->`.
- **Thread ids.** The description lets a recorded thread id link the next
  typed comment as a reply. The code records the id and never uses it, and
  `DecoderProperties.ThreadIdHasNoEffect` proves it has no effect.
- **File path across commits.** The description has a new diff section start
  afresh. In the code a `commit` or `diff --git ` header clears only the
  first-hunk flag and keeps the file path, which changes only at the next
  `+++ b/` line.

Both decoders find a comment's start as `off - len(line) - 1` and its end as
`off - 1`, and these formulas assume the line ends in a newline. So when an
edited file's last line is typed text without a final newline, its comment
body starts one byte early (at the previous newline) and loses its last byte.
For the same reason, an end marker on an unterminated last line cuts the last
byte off the top-level body. The model keeps these offsets as written. The
round-trip lemmas are about templates the encoder wrote, which always end in a
newline.

## Model

| member | source | states |
|---|---|---|
| Getters.GetInt | main.go:407-412 | 0 for nil, the value otherwise |
| Getters.GetString | main.go:414-419 | "" for nil, the value otherwise |
| Getters.GetUserLogin | main.go:421-426 | "" for a nil user or a nil login, the login otherwise |
| Getters.GetTime | main.go:428-433 | the zero time for nil, the time otherwise |
| CommentIndex.Get | review.go:28-37 | `None` exactly when the commit, the file or the position level is absent; otherwise the list stored at the key |
| CommentIndex.Inserted | review.go:39-54 | after `put`, the comment's own key holds the old list (or nothing) followed by the comment; every other key reads as before; a comment without a position changes nothing |
| CommentIndex.InsertedConsistent | review.go:39-54 | `put` keeps every stored list non-empty and made only of comments keyed at it |
| CommentIndex.IndexOfConsistent | review.go:39-54 | an index built by putting a list of comments in order holds only non-empty lists of comments keyed at their own position |
| CommentIndex.IndexOfGet | review.go:39-54 | after putting a list of comments, each key holds exactly the comments keyed at it, in insertion order, and is absent when there are none |
| CommentIndex.Index.Put | review.go:39-54 | updates the nested maps in place to `Inserted` of the old index and keeps the index consistent |
| CommentIndex.Index.PutAll | review.go:171-173 | putting every fetched comment in order builds the index of the whole list |
| Wrap.BreakPoint | main.go:354-358 | the cut of a line longer than 70 bytes falls just after the last space within its first 70 bytes, and after byte 70 only when byte 70 is that space or the first 70 bytes hold none |
| Wrap.Wrap | main.go:344-365 | the nested loops return the functional definition `WrapSpec` of the wrapped text |
| Wrap.WrapLineCut | main.go:353-362 | a line of at most 70 bytes is written unchanged; a longer one is its first chunk, a newline and the prefix, then the wrapped rest |
| Wrap.ChunksBounded | main.go:353-362 | every chunk written between breaks is at most 70 bytes long |
| Wrap.ChunksConcat | main.go:352-362 | a line's chunks, put back together, are the line |
| Wrap.ChunksFirstCut | main.go:353-360 | a short line is one chunk; a long line's first chunk ends at the break point and the rest are the chunks of what follows |
| Wrap.ChunksNoNewline | main.go:347-362 | the chunks of a line hold no newline |
| Wrap.WrapPrefixesEveryLine | main.go:346-362 | in the wrapped text every newline is followed by the prefix |
| Wrap.ReplaceCrlfWithoutCr | main.go:346 | text without `\r` is left alone by the CRLF normalisation |
| Wrap.WrapShortLines | main.go:346-362 | when no line is longer than 70 bytes the result is the normalised lines joined by a newline and the prefix |
| Text.Atoi | review.go:519 | `strconv.Atoi` of a digit string succeeds exactly when its value fits a 64-bit `int`, and gives that value |
| Text.AtoiItoa | review.go:253 | a non-negative id printed with `%d` is read back by `strconv.Atoi` as the same id |
| Protocol.TopLevelMarkersAreLines | review.go:278-279 | the two top-level markers are distinct 49-byte lines without newline, starting with `#` |
| Protocol.InlineMarkersAreRepeats | review.go:280-281 | the inline markers are 79 `*` followed by `v` and by `^` |
| Protocol.InlineMarkersStartWithStar | review.go:280-281 | both inline markers are 80 bytes, without newline, starting with `**` |
| Protocol.HeaderStep | review.go:527-555 | commit and `diff --git ` headers clear the first-hunk flag and change nothing else but, for a commit header, the commit; they keep the file; the first `@@` sets the flag and zeroes the position, a file header sets the file and nothing else, also inside a hunk, and any other line before the first hunk leaves the cursor unchanged; no rule applies exactly to non-header lines after the first hunk |
| Protocol.ThreadIdMatch | review.go:460 | a match starts with `* Comment by @` and captures a non-empty run of digits that ends the line after a space |
| Protocol.ThreadIdDigitsAreMaximal | review.go:460 | the captured digits are exactly the final digit run of the line |
| Protocol.NoThreadIdWithoutDigitEnd | review.go:460 | a line that does not end in a digit carries no thread id |
| Protocol.NoThreadIdWithoutCommentBy | review.go:460 | a line whose second byte is not a space carries no thread id |
| Protocol.WordRunIsMaximal | review.go:460 | the `\w+` run is maximal |
| Protocol.NonParenRunIsMaximal | review.go:460 | the `[^\)]+` run is maximal |
| Encoder.AdvanceFollowsHeaderRule | review.go:219-247 | the encoder moves its cursor by the header rule and counts exactly the other lines after the first hunk, one each |
| Encoder.EmittedVerbatim | review.go:216-259 | each diff line is written verbatim, followed by something exactly when it is a counted line whose key holds comments; what follows is their inline block |
| Encoder.AnnotateDiff | review.go:206-260 | the loop appends to the header the template of the diff: the fold of the per-line output over the split diff |
| Encoder.EmitLine | review.go:213-259 | one iteration: the new cursor is `Advance` of the old one, the output is the line and its block |
| Encoder.WriteBlock | review.go:249-258 | writes the start marker, each comment's header and wrapped body, then the end marker |
| Encoder.WriteComment | review.go:251-256 | writes the `* Comment by` header, with ` thread <id>` for a root comment, then the body wrapped with the `*\t` prefix |
| Encoder.NoCommentsNoBlocks | review.go:212-260 | with an empty index the loop writes its input lines unchanged |
| Encoder.TemplateWithoutComments | review.go:212-260 | with an empty index the diff part of the template is the diff itself |
| Encoder.CountsEveryHunkLine | review.go:247 | after the first hunk, a run of non-header lines moves the position by its length |
| Encoder.HeaderThreadId | review.go:251-254 | a header line carries a thread id only for a root comment, and the id is the comment's own |
| Encoder.HeaderIsStarLine | review.go:251-255 | for a comment whose login and formatted time hold no newline, the header line starts with `*`, is one line, and its thread id fits an `int` |
| Encoder.WrappedLinesAreStarLines | review.go:256 | every line of a wrapped comment body, continuations included, starts with `*` |
| Encoder.MarkerIsStarLine | review.go:249 | the marker lines are lines the decoder skips |
| Encoder.BlockLinesAreStarLines | review.go:249-258 | for comments whose logins and formatted times hold no newline, every line of an inline block starts with `*`, is a complete line and carries no thread id `strconv.Atoi` rejects |
| Encoder.BlocksAreNonEmpty | review.go:248 | an inline block is written only for a position that holds at least one comment, every one of them anchored at that commit, file and position, as Go's `comments != nil` test promises for an index built by `put` |
| Decoder.MakeDraftReviewComment | review.go:595-600 | a draft comment at the given path and position, without a body |
| Decoder.CloseTopLevel | review.go:497-505 | the end marker closes the region and keeps the comments |
| Decoder.AddText | review.go:572-589 | a typed line opens a draft comment when no run is open and extends the last one otherwise; the body is the text from the run's start to the newline before the current offset |
| Decoder.Step | review.go:484-589 | one line moves the offset by its length; the only error is a thread id too large for `strconv.Atoi` |
| Decoder.Scan | review.go:483-590 | the loop over lines keeps the state valid and moves the offset by their total length |
| Decoder.ParseFile | review.go:462-593 | the loop returns the fold of `Step` over the lines of `strings.SplitAfter`, stopping at the first error |
| Decoder.ParseLine | review.go:484-589 | one iteration computes `Step` |
| Decoder.ParseDiffLine | review.go:527-589 | the diff part of one iteration computes `DiffStep` |
| Decoder.AddComment | review.go:572-589 | the comment part of one iteration computes `AddText` |
| Decoder.ScanErrorSticks | review.go:519-522 | once a thread id fails to parse, no later line changes the result |
| Decoder.ScanErrorIsAtoi | review.go:516-522 | an error of the loop comes from a thread-id line whose digits do not fit an `int` |
| Decoder.DecodeErrorIsAtoi | review.go:516-522 | the only error `parseFile` returns is `strconv.Atoi` failing on a thread id of one of its lines |
| Decoder.RegionSkipped | review.go:506-508 | inside the top-level region every line other than a marker is skipped, whatever it says |
| Decoder.StartMarkerStep | review.go:494-496 | the start marker opens the region just after itself |
| Decoder.EndMarkerStep | review.go:497-505 | the end marker closes the region |
| Decoder.TopLevelBody | review.go:494-508 | between the marker lines nothing is interpreted; the body becomes the exact text from after the start marker to the newline before the end marker, with the suffix appended, and only when that span is non-empty |
| DecoderProperties.StepDiff | review.go:510-589 | a line outside the region that is not a marker or a thread-id line goes to the diff rules |
| DecoderProperties.StepPosition | review.go:527-570 | before the first hunk no line counts and no comment is made; after it exactly the lines starting with `+ - space @` move the position, and empty, `*` and tab lines do not; only typed text opens or extends a comment |
| DecoderProperties.StepOpensComment | review.go:572-585 | the first typed line of a run appends a draft comment at the current file and position, with the line as its body |
| DecoderProperties.StepExtendsComment | review.go:572-589 | a later typed line of the run only widens the last comment's body to end at this line |
| DecoderProperties.StepInlineEnd | review.go:512-514 | the inline end marker resets the thread id to 0 and changes nothing else |
| DecoderProperties.ThreadIdLineIsNoMarker | review.go:510-515 | a thread-id line is neither of the inline markers |
| DecoderProperties.StepThreadId | review.go:516-524 | a thread-id line records the id and changes nothing else; in particular it keeps the position |
| DecoderProperties.StepThreadIdOverflow | review.go:519-522 | a thread id beyond the `int` range makes the step fail with that error |
| DecoderProperties.StepCommitId | review.go:527-532 | the commit id becomes that of a commit header outside the region; every other line leaves it alone |
| DecoderProperties.OnlyFreeTextContinuesRun | review.go:484-485 | a run stays open exactly after a typed line inside a hunk; any other line ends it |
| DecoderProperties.RunOpens | review.go:572-589 | the first line of a run opens a draft comment anchored where the run begins |
| DecoderProperties.RunGrows | review.go:572-589 | each further typed line extends the same comment |
| DecoderProperties.FreeTextRun | review.go:572-589 | a maximal run of typed lines makes exactly one draft comment, at the file and position current at its first line, whose body is the text from the run's first byte to the end of its last line, without the final newline |
| DecoderProperties.StepIgnoresThreadId | review.go:516-524 | one step on two states that differ only in the recorded thread id gives results that differ only in it |
| DecoderProperties.DiffStepIgnoresThreadId | review.go:527-589 | the diff rules do not read the recorded thread id |
| DecoderProperties.ThreadIdHasNoEffect | review.go:577-584 | the recorded thread id never changes the decoded request or the error |
| RoundTrip.StarLineStep | review.go:567-569 | inside a hunk a `*` line is skipped without moving the position or touching the request |
| RoundTrip.ScanStarLines | review.go:567-569 | a sequence of such lines is skipped likewise |
| RoundTrip.CleanStep | review.go:527-566 | on a clean diff line the decoder moves its cursor as the encoder does and keeps the request |
| RoundTrip.ScanBlock | review.go:247-259 | a counted line followed by its inline block leaves the decoder where the encoder's cursor is, with the request unchanged |
| RoundTrip.ScanPiece | review.go:247-259 | each line of the template the encoder writes for one diff line is read back to the encoder's cursor, with no comment added |
| RoundTrip.ScanEncoded | review.go:212-259 | the whole annotated diff is decoded to the encoder's final cursor with the request unchanged |
| RoundTrip.HeadCursorAgrees | review.go:128-129 | when the diff is empty or opens with a `commit` line, as the pretty format of `git show` writes it, the encoder's walk is the same from any cursor outside a hunk with no file and position 0 as from the initial one, whatever commit the header named |
| RoundTrip.UntouchedTemplate | review.go:462-593 | decoding an untouched template succeeds and adds no draft comment and no top-level body to what its header holds, for any header after which the decoder is outside the region and any hunk, with no file and position 0, whatever commit it names |
| TopLevel.Less | review.go:70 | a comment is less than another exactly when it was created before it, so never when both were created at the same time |
| TopLevel.LessIsStrictWeakOrder | review.go:68-70 | `Less` is irreflexive and transitive, and incomparability is consistent, as `sort.Sort` needs |
| TopLevel.SortedIsOldestFirst | review.go:201 | after sorting, creation times never decrease |
| TopLevel.Action | review.go:325-333 | "Approved", "Changes requested" and "Draft comment" for the three review states, and "Comment" exactly for every other state |
| TopLevel.WriteComments | review.go:312-336 | the loop writes, in order, the entry of every comment that is shown: a label line, then the trimmed body wrapped under a tab |
| TopLevel.EntriesAppend | review.go:312-336 | the listing of two lists is the listing of the first followed by that of the second |
| TopLevel.EntriesSingle | review.go:313-335 | one comment prints its entry when it is shown and nothing otherwise |
| TopLevel.HiddenAddsNothing | review.go:313-320 | a comment that is only white space, or holds a Reviewable notice, adds nothing to the listing |
| TopLevel.EntryBodyIndented | review.go:335 | every line of an entry's body starts with the tab |
| LegacyDecoder.CloseTopLevel | main.go:470-477 | the end marker closes the region and keeps the comments |
| LegacyDecoder.AddText | main.go:524-533 | a line opens a draft comment when no run is open and extends the last one otherwise, with the same offsets as the newer decoder; an empty line counts as text |
| LegacyDecoder.ParseFile | main.go:440-537 | the loop returns the fold of the older `Step` over the lines of `strings.SplitAfter`; it never fails |
| LegacyDecoder.ParseLine | main.go:457-534 | one iteration computes `Step` |
| LegacyDecoder.ParseDiffLine | main.go:505-534 | the diff part of one iteration computes `DiffStep` |
| LegacyDecoder.AddComment | main.go:524-533 | the comment part of one iteration computes `AddText` |
| LegacyDecoder.StepTopLevelEnd | main.go:470-477 | the end marker sets the body to the exact text between the markers, without a suffix, when that span is non-empty |
| LegacyDecoder.StepPosition | main.go:505-533 | after the first hunk exactly the `+ - space @` lines move the position; every line but those and `*` lines, the empty line included, opens or extends a comment |
| LegacyDecoder.StepBlankOrTabIsText | main.go:513-533 | an empty line or a tab line inside a hunk is comment text, anchored at the current file and position |
| LegacyDecoder.StepOldComment | main.go:519-521 | a `*` line outside the region is skipped and ends the run |
| LegacyDecoder.StepCommitId | main.go:483-488 | the commit id becomes that of the last commit header outside the region |
| DecoderComparison.StepSimilar | main.go:456-534 | on a line both revisions read alike, the two steps keep their states alike |
| DecoderComparison.SkipSimilar | main.go:519-521 | inline markers and thread-id lines, which the newer decoder skips, are old-comment lines to the older one |
| DecoderComparison.ScanSimilar | main.go:456-534 | over such lines the two loops stay alike |
| DecoderComparison.DecodersAgree | main.go:440-537 | on a document where no line in a hunk is empty or starts with a tab and no thread id overflows, the newer `parseFile` succeeds and returns the older one's request, with the suffix appended to the top-level body |
| Menu.Decide | review.go:380-399 | `y`, `a` and `r` submit the request with the COMMENT, APPROVE and REQUEST_CHANGES event, `d` submits it with no event, `s` saves and `q` quits; the request is otherwise unchanged |
| Menu.Review | review.go:362-426 | the newer loop returns what `RunMenu` says for the answers and editing sessions, quitting when a session ends the program |
| Menu.DecisionLoop | main.go:114-174 | the older loop returns what `RunMenu` says for the older revision, quitting when a session ends the program |
| Menu.OutcomeIsFirstDecision | review.go:367-452 | the outcome is decided by the first terminal answer, applied to the request of the session opened by the re-editing answers before it; with no terminal answer, or when one of the sessions opened up to then ends the program at the parse-error prompt, the program quits |
| Menu.RevisionsAgree | main.go:132-172 | the two menus agree on every input made only of answers both recognise |
| Menu.UnknownAnswerDiffers | review.go:408-423 | after an unrecognised answer the newer menu keeps the request, while the older one opens the editor again, and quits if that session ends the program |

## Left out

- Fetching from GitHub is not modelled: the goroutines and wait groups of `makeReviewTemplate` (review.go:74-182), pagination, `postComments` and `pr.go`. They are network and concurrency code.
- Running `git`, `cp` and the editor is not modelled, nor writing temporary files or reading authentication.
- The editor and the parse retries of `parseFileUntilSuccess` and `handleParseError` are a parameter: `session(n)` is what the n-th editing session yields, `Some` request or `None` when the user answers `q` or ends the input at the "edit again?" prompt (review.go:438-451, main.go:190-204), which ends the program. The answers read at that prompt are not part of `keys`.
- `exitHappy` becomes the `Quit` and `SaveDraft` outcomes. `log.Fatal` on a failed read or a failed `cp` is not modelled, and neither is the name of the saved draft file.
- The fixed part of `printPR` is not modelled: the header (review.go:284-311) and the instructions around the top-level markers (review.go:337-351). `RoundTrip.UntouchedTemplate` takes the header as any list of complete lines after which the decoder is outside the region and any hunk, with no file and position 0; the commit the header leaves may be any, so the `commit 0000…` line that opens printPR's header (review.go:286) is covered.
- The regular expressions become hand-written matchers with the same language for the lines they are applied to.
- `time.Time` becomes an integer instant plus the formatted text.
- Strings are byte sequences. UTF-8 is not modelled.
- `sort.Sort` is the library's. The model proves that `Less` is a strict weak order and what a sorted list means.
- The `<!-- Sent from Reviewable.io -->` check (review.go:321-323) has an empty body and is not modelled.
- Printing the request on `p` and the help text on `?` are not modelled. Only their effect on re-editing is.
- Menu.Review: an answer is reduced to its first byte. A partial line read before `io.EOF` quits, as the code does.
- RoundTrip.UntouchedTemplate: proved for indexes whose comments are printable (login and formatted time without a newline, encoder.dfy's `Printable`), since a newline there would split a block line; and for diffs that are empty or open with a `commit` line, as `git show` with the pretty format of review.go:128-129 writes them, and whose counted lines start with `+`, `-`, space or `@`, contain no marker and no thread-id line, and end in a newline. The encoder counts every non-header line after the first hunk, but the decoder counts only those four kinds. On any other diff the positions differ, and the lemma applies only where they agree.
- DecoderComparison.DecodersAgree: stated only for documents without empty or tab lines in hunks and without overflowing thread ids, because the two revisions really differ on those.
- A nil `commitId`, `path`, `id` or `body` of a fetched line comment makes Go panic when it dereferences it (review.go:40-41, 253, 256). The model gives those fields plain values, so the panic is not modelled.
- Positions and offsets are unbounded integers. Go's 64-bit `int` cannot overflow on a file that fits in memory.
