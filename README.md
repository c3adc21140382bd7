# TeleCheck bulk check, modelled in Dafny

TeleCheck Bot is a client-only web page. A user types phone numbers and sees a
simulated "does this number have a Telegram account" answer for each one. This
project models the two parts of it that hold logic:

- the submit handler of the page (`handlePhoneNumberSubmit`):
  - it cuts the typed text into tokens on runs of newline, comma or semicolon,
    trims each token and drops the empty ones;
  - it refuses an empty submission and one of more than 500 tokens;
  - it checks each token against `^\+?[1-9]\d{1,14}$`, a pattern modelled on the
    15-digit limit of E.164 but looser (the `+` is optional, two digits suffice);
  - it gives a malformed token a fixed error and a well-formed one a simulated
    lookup outcome;
  - it publishes a progress list after every number and finally the results
    newest first, with the found / not found / error tallies;
- the result display (`ResultDisplay`): when nothing is shown, when a lone banner
  is shown, which placeholder entries are skipped, the title of each status and
  which alerts are destructive.

Modules:

- `ResultDisplay` (`result_display.dfy`): the `ResultState` entry, the rendering
  rules as functions, and lemmas about them.
- `BulkCheck` (`bulk_check.dfy`): the pure steps of the handler. These are the
  tokenizer, the phone-number pattern, the per-token classification and the
  tallies.
- `TeleCheckPage` (`telecheck_page.dfy`): the page as a class.
  - Its `results` field is the React `results` state.
  - A ghost `published` field records every list handed to `setResults`.
  - `HandlePhoneNumberSubmit` is the handler, with the per-number loop in `CheckEach`.
  - The lemmas relate what the handler publishes to what the display renders.

The random draw of `Math.random()` is a parameter. `draws(i)` is the percentile
bucket (0..99) of the draw for token i. A draw r is found when r < 0.6, which is
bucket < 60, and not found when r < 0.9, which is bucket < 90. Every property
holds for every sequence of draws.

## Model

| member | source | states |
|---|---|---|
| `BulkCheck.SkipSeparators` | src/components/telecheck-page.tsx:81 | drops exactly a leading run of separators: the result is a suffix of the input, every dropped character is a separator, and the result does not start with one |
| `BulkCheck.SplitOnRuns` | src/components/telecheck-page.tsx:81 | `split(/[\n,;]+/)` yields at least one piece and no piece contains a newline, comma or semicolon |
| `BulkCheck.Trim` | src/components/telecheck-page.tsx:82 | `trim()` leaves no whitespace at either end; it is empty exactly when the piece is all whitespace; it adds no separator; it leaves an already trimmed string unchanged |
| `BulkCheck.TrimIsSlice` | src/components/telecheck-page.tsx:82 | `trim()` keeps exactly the slice of the piece that starts right after its leading whitespace and is followed only by whitespace |
| `BulkCheck.Clean` | src/components/telecheck-page.tsx:82-83 | map-trim-then-filter yields no more tokens than pieces, each non-empty and trimmed |
| `BulkCheck.TrimAll` | src/components/telecheck-page.tsx:82 | `.map(num => num.trim())`: one trimmed string per piece, in order |
| `BulkCheck.NonEmpty` | src/components/telecheck-page.tsx:83 | `.filter(num => num.length > 0)` is never longer than its input; what it keeps is given by `NonEmptyContents`, and its order and repeats by `NonEmptyAppend` |
| `BulkCheck.NonEmptyContents` | src/components/telecheck-page.tsx:83 | `.filter(num => num.length > 0)` keeps only non-empty strings of its input, and every non-empty one |
| `BulkCheck.NonEmptyAppend` | src/components/telecheck-page.tsx:83 | filtering a concatenation filters each part in turn, so `.filter` keeps the order and the repeats of what it keeps |
| `BulkCheck.CleanIsTrimThenFilter` | src/components/telecheck-page.tsx:82-83 | the tokens are exactly the trimmed pieces that are not blank, in the order of their pieces |
| `BulkCheck.CleanAppend` | src/components/telecheck-page.tsx:82-83 | cleaning a concatenation of piece lists cleans each part in turn, so token order follows piece order |
| `BulkCheck.CleanNonBlankPieces` | src/components/telecheck-page.tsx:82-83 | pieces none of which is blank give one token per piece, their trimmed forms |
| `BulkCheck.Tokenize` | src/components/telecheck-page.tsx:80-83 | every token is non-empty, holds no newline, comma or semicolon, and has no whitespace at either end |
| `BulkCheck.RunsEquivalentToEach` | src/components/telecheck-page.tsx:81 | collapsing separator runs gives the same tokens as splitting on each single separator and dropping empty pieces |
| `BulkCheck.TokenizeJoin` | src/components/telecheck-page.tsx:80-83 | separator-free pieces joined by any mix of separators tokenize to the pieces trimmed, blank ones dropped, in order |
| `BulkCheck.JoinRoundTrip` | src/components/telecheck-page.tsx:80-83 | round trip: well-formed tokens joined by any mix of separators tokenize back to exactly those tokens |
| `BulkCheck.MixedSeparatorsExample` | src/components/telecheck-page.tsx:80-83 | "+1,+2;+3\n+4" is the four tokens "+1", "+2", "+3", "+4" |
| `BulkCheck.CommaSpaceList` | src/components/telecheck-page.tsx:80-83 | "a, b, c" tokenizes to [a, b, c] for well-formed a, b, c; the blanks after the commas are trimmed |
| `BulkCheck.IsValidPhone` | src/components/telecheck-page.tsx:110 | a string matching `^\+?[1-9]\d{1,14}$` is 2 to 16 characters long and starts with '+' or a digit 1-9 |
| `BulkCheck.ValidPhoneShape` | src/components/telecheck-page.tsx:110 | a number matching the pattern is all ASCII digits except a possible leading '+', so it is itself a well-formed token |
| `BulkCheck.ValidPhoneTokenizesToItself` | src/components/telecheck-page.tsx:110 | a valid number typed alone is exactly one token, itself |
| `BulkCheck.Classify` | src/components/telecheck-page.tsx:110-138 | every result carries its token; found iff well-formed and bucket < 60; not found iff well-formed and 60 <= bucket < 90; error iff malformed or bucket >= 90; invalid-format message iff malformed |
| `BulkCheck.InvalidIgnoresDraw` | src/components/telecheck-page.tsx:112-117 | a malformed token gets exactly {error, "Invalid phone number format.", token} whatever the draw |
| `BulkCheck.OutcomeSplit` | src/components/telecheck-page.tsx:119-138 | of the 100 buckets a well-formed token is found in 60, not found in 30 and an error in 10; a malformed one is an error in all 100 |
| `BulkCheck.CheckAll` | src/components/telecheck-page.tsx:106-141 | one result per token in input order: result i carries token i, and every status is found, not_found or error |
| `BulkCheck.Count` | src/components/telecheck-page.tsx:147-149 | a tally never exceeds the number of results |
| `BulkCheck.CountAppend` | src/components/telecheck-page.tsx:147-149 | the tally of a concatenation is the sum of the tallies of its parts |
| `BulkCheck.TalliesPartition` | src/components/telecheck-page.tsx:147-153 | when every status is found, not_found or error, the three tallies add up to the number of results |
| `ResultDisplay.Render` | src/components/telecheck/result-display.tsx:18-39 | nothing is rendered iff the list is empty; a lone banner iff the list is a single info/processing entry without a phone number, titled as `getTitle` titles that status and carrying its message |
| `ResultDisplay.Shown` | src/components/telecheck/result-display.tsx:44-48 | never more cards than entries, and one card per entry when placeholders are not skipped |
| `ResultDisplay.ShownAppend` | src/components/telecheck/result-display.tsx:44-48 | the cards of a concatenation are the cards of each part in turn, so list order is kept |
| `ResultDisplay.EntryVisibility` | src/components/telecheck/result-display.tsx:44-48 | in the general case entry i is rendered as its own card, in place, unless it is info/processing, has no phone number and some entry has one |
| `ResultDisplay.RealResultsAllShown` | src/components/telecheck/result-display.tsx:44-48 | entries that all carry a phone number are rendered card for card, in list order |
| `ResultDisplay.PlaceholderSuppressed` | src/components/telecheck/result-display.tsx:44-48 | a placeholder in front of real results is not rendered; exactly the real results are, in order |
| `ResultDisplay.CardOf` | src/components/telecheck/result-display.tsx:89-98 | the "For number:" line is present iff the entry has a (non-empty) phone number, and then shows that number |
| `ResultDisplay.AlertVariant` | src/components/telecheck/result-display.tsx:67-70 | `destructive` exactly for `error`, `default` for every other status |
| `ResultDisplay.Title` | src/components/telecheck/result-display.tsx:72-87 | `getTitle` gives every status, `null` included, a non-empty title; "Error" is the title of `error` alone and "Processing..." that of `processing` alone |
| `ResultDisplay.TitleInjective` | src/components/telecheck/result-display.tsx:72-87 | `getTitle` is total and gives distinct statuses distinct titles |
| `ResultDisplay.DestructiveIffErrorTitle` | src/components/telecheck/result-display.tsx:67-87 | a card is destructive exactly when its title is "Error" |
| `TeleCheckPage.NatToStringReadsBack` | src/components/telecheck-page.tsx:101 | a count interpolated into a message is a non-empty run of ASCII digits whose decimal value is the count, with no leading zero |
| `TeleCheckPage.CheckingMessageReadsBack` | src/components/telecheck-page.tsx:101 | "Checking N phone number(s)..." holds N in decimal between its fixed words |
| `TeleCheckPage.CheckedMessageReadsBack` | src/components/telecheck-page.tsx:142 | "Checked k/N numbers..." holds k and N in decimal, split at its one '/' |
| `TeleCheckPage.ProgressEntry` | src/components/telecheck-page.tsx:142 | the progress message is a processing placeholder without a phone number |
| `TeleCheckPage.ProgressList` | src/components/telecheck-page.tsx:142 | the progress list is one placeholder carrying "Checked k/N", followed by the k results so far, newest first |
| `TeleCheckPage.ProgressListShowsResults` | src/components/telecheck-page.tsx:142 | a progress list over results that all carry a number renders as exactly those results, newest first: the placeholder is hidden |
| `TeleCheckPage.Reverse` | src/components/telecheck-page.tsx:145 | `.slice().reverse()` has the same length and entry i is entry n-1-i of the input |
| `TeleCheckPage.ProgressLists` | src/components/telecheck-page.tsx:140-142 | one progress list is published per number processed |
| `TeleCheckPage.Publications` | src/components/telecheck-page.tsx:78 | the first list a submission publishes is always the empty list |
| `TeleCheckPage.SubmitOutcome` | src/components/telecheck-page.tsx:85-156 | the closing notification is "No Numbers Entered" iff there are no tokens and "Too Many Numbers" iff there are more than 500, reporting how many were entered; on completion it reports the processed count, equal to the number of tokens, and found, not-found and error tallies that add up to it |
| `TeleCheckPage.Page.constructor` | src/components/telecheck-page.tsx:24 | the page starts with an empty result list |
| `TeleCheckPage.Page.SetResults` | src/components/telecheck-page.tsx:24 | `setResults` replaces the shown list and is recorded in the history |
| `TeleCheckPage.CountReverse` | src/components/telecheck-page.tsx:147-149 | showing the results newest first does not change any status tally |
| `TeleCheckPage.OutcomeCountsShownResults` | src/components/telecheck-page.tsx:147-153 | on completion the reported found, not-found and error tallies are the numbers of results with that status in the list left on screen |
| `TeleCheckPage.Page.HandlePhoneNumberSubmit` | src/components/telecheck-page.tsx:67-159 | the handler publishes exactly `Publications`, ends showing its last list, reports `SubmitOutcome`; on completion the tallies add up to the processed count and to the length of the shown list |
| `TeleCheckPage.Page.CheckEach` | src/components/telecheck-page.tsx:103-143 | the loop keeps processedCount == i == the number of results, results so far == the first i results in input order; it publishes one progress list per number and leaves the last of them shown |
| `TeleCheckPage.RefusedIffEmptyResults` | src/components/telecheck-page.tsx:85-99 | the shown list ends empty iff there are 0 or more than 500 tokens; then only the empty list was published |
| `TeleCheckPage.FinalResultsNewestFirst` | src/components/telecheck-page.tsx:145 | the final list has one entry per token; entry j is the result of token n-1-j and carries it; no entry is a placeholder |
| `TeleCheckPage.ProgressPublished` | src/components/telecheck-page.tsx:140-142 | the list published after the k-th number is the progress list over the first k results |
| `TeleCheckPage.ProgressListRendering` | src/components/telecheck-page.tsx:142 | the k-th progress list is "Checked k/N" followed by the first k results newest first, and it renders as exactly those k cards: the placeholder never shows beside real results |
| `TeleCheckPage.CheckingBannerShown` | src/components/telecheck-page.tsx:101 | before any number is checked the display shows the lone "Processing..." banner "Checking N phone number(s)..." |
| `TeleCheckPage.ThreeNumberRun` | src/components/telecheck-page.tsx:80-153 | "a, b, c" with b malformed ends showing [c's result, b's invalid-format error, a's result], with tallies adding up to 3 |

## Left out

- React plumbing is not modelled: `isLoading`, `useToast` and JSX markup. The
  closing notification is modelled only by the counts it reports (`Outcome`),
  not by its text.
- Icons (`getIcon`) and CSS classes are not modelled; they are presentation only.
- The `key` of each alert is not modelled. result-display.tsx:90 keys a card by
  its phone number, and tokenizing keeps repeated numbers, so a number entered
  twice gives two sibling cards with the same key. React does not support equal
  sibling keys, and each progress list and the final list replace the previous
  one. `Render`, `ProgressListRendering` and `ProgressListShowsResults` describe
  the list the component returns, not what React keeps on screen when a number
  is entered twice.
- The 750 ms `await` between numbers only animates the progress. The loop is
  plain sequential iteration.
- `Math.random()` and its floating-point thresholds are replaced by the bucket
  parameter. The probability of each outcome appears only as a count of buckets
  (`OutcomeSplit`).
- The `!results` null test of `ResultDisplay` is not modelled; a Dafny sequence
  cannot be null.
- `phone-input-form.tsx` (a zod schema on one field) is not part of this model.
  That form submits `{phoneNumber}` (phone-input-form.tsx:21-22, 26, 49), but the
  handler reads `data.phoneNumbers`, which is then `undefined`. As wired, the
  handler has already run `setIsLoading(true)` and `setResults([])` (lines 77-78)
  when `.split` throws a TypeError (lines 80-81). The "No Numbers Entered" branch
  is never reached, and the button stays in its loading state. The model gives
  the handler the raw text directly, as its declared `phoneNumbers: string`
  parameter says, and does not model the thrown error.
- `request-access-form.tsx`, `pending-approval-message.tsx` and
  `api-credentials-form.tsx` are not modelled. They hold an e-mail validator
  from a library, or static markup that is no longer used.
- Access control, the user roster and the spreadsheet export are not in these
  source files, and they are not modelled. This code enforces the 500-number cap
  unconditionally, and the model follows it.
- `BulkCheck.Clean`: its own contract states only a length bound and the shape
  of each token. What the tokens are and their order are stated by
  `CleanIsTrimThenFilter`, `NonEmptyContents`, `NonEmptyAppend` and `CleanAppend`.
- `BulkCheck.Trim`: its own contract states the shape of the result. That the
  result is the piece with its surrounding whitespace cut off is stated by
  `TrimIsSlice`.
- `TeleCheckPage.CheckingMessage` and `TeleCheckPage.CheckedMessage` carry no
  contract of their own. Their content is stated by `CheckingMessageReadsBack`
  and `CheckedMessageReadsBack`, and decimal rendering by `NatToStringReadsBack`.
- `TeleCheckPage.NatToString`: the `${…}` rendering of a count (lines 94, 101,
  142 and 153) carries no contract of its own. That it is the count in decimal,
  with no leading zero, is stated by `NatToStringReadsBack`.
- `TeleCheckPage.SubmitOutcome`: its own contract says only that the tallies add
  up to the processed count. That each one counts the results of its status is
  stated by `OutcomeCountsShownResults`.
- `ResultDisplay.Shown`: its own contract states only lengths. Its order and
  which entries it keeps are stated by `ShownAppend`, `EntryVisibility` and
  `RealResultsAllShown`.
