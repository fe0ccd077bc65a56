# Kyrgyz street-name translator: a Dafny model of its core

`add_kyrgyz_names.py` walks an OpenStreetMap document. For every way that has a `name`
tag, it asks a translation service for a Kyrgyz name and rewrites the way's tags:
`name:ky` and `name` get the translation, and `name:ru` keeps the original Russian name.
It runs in one of two modes:

- a **batch pass** handles every street unattended;
- a **review pass** asks an operator to accept (`y`), reject (`n`), edit (`e`), quit (`q`)
  or lift the limit (`c`) for each proposal. It stops after a limit of requested
  translations and remembers in a progress file where the next run resumes.

A small command-line scanner picks the mode, the limit and the input path. After the pass,
the driver writes the document out only when something was translated or failed.

This project models that core as pure functions over immutable data:

- A way is a sequence of `Tag(key, value)` pairs.
- The translation service is a function `string -> Option<string>`.
- Operator input is a sequence of already normalised commands.
- Ctrl+C is a sequence of flags, one per place where a loop consults the flag.

Modules follow the program's structure:

| module | contents |
|---|---|
| `Tags` (tags.dfy) | tag upsert, lookup of the first tag with a key, the "already processed" test |
| `Streets` (streets.dfy) | the list of named ways both passes iterate over |
| `Translation` (translation.dfy) | the service type and when a proposal is used |
| `Session` (session.dfy) | the counters, the interruption flag, the write-or-discard decision |
| `Batch` (batch.dfy) | the batch pass as a fold over the street list |
| `Review` (review.dfy) | the review pass as a state machine over streets and commands |
| `Cli` (cli.dfy) | the argument scan, and a positional reading it is proved equal to |
| `Driver` (driver.dfy) | a whole run: parse, pass, write or discard |
| `Wrappers` (wrappers.dfy) | `Option` and `Result` |

Behaviour of the code kept as written, where a reader might expect otherwise:

- **Quit skips the current street.** `q` in review mode persists the position *after* the
  current street, not the street itself. Line 196 saves `i`, but line 209 overwrites it
  with `i + 1`. The next run therefore never asks about the street that was being looked
  at when the operator quit (`Review.QuitSkipsStreet`, `Review.ReviewLoopQuitsAt`).
- **Limit stop at the last street removes the progress file.** When the limit stops the
  review loop at the last street, the file is removed as if the review were complete, so
  the next run starts over from the first street (`Review.LimitAtLastStreetRemovesProgress`).
- **No named ways usually means a crash.** With no named way, review mode reads the
  unbound loop variable after the loop and the run ends with an exception
  (`Review.NoStreetsAborts`). The exception is avoided only when the interruption flag is
  already set, for example by a Ctrl+C while the document loads. Then the test on line 214
  stops before reading the variable, and the pass returns zero counters
  (`Review.NoStreetsInterruptedReturns`).
- **Running out of input is a crash.** Operator input can run out at a prompt, or right
  after `e` where the edited name is read. Either way the run ends with an exception
  (`Review.EndOfInputAborts`). In every crash nothing is written.
- **Failed review translations leave the way alone.** A failed translation in review mode
  adds no tag. The batch pass records `name:ru` in the same situation.
- **A batch failure does not always leave the way unprocessed.** After a failure the way
  is "already processed" exactly when it already had a `name:ky` tag, because the pass then
  adds `name:ru`.
- **`c` does not apply the proposal.** It only lifts the limit.
- **A number right after `--review` is always the limit.** So `--review 2024` has no input
  path, while `2024 --review` does.
- **An empty first argument hides later paths.** It is recorded as the path, and the run
  then stops with the usage message.
- **A discarded run deletes the checkpoint it resumed from.** A run may load the temporary
  output file of an earlier interrupted run (lines 312-314). If it then translates nothing
  and no translation fails, lines 334-335 delete that file, and the earlier run's
  checkpointed translations are lost. This happens, for example, after a Ctrl+C before the
  first street or with `--review 0`. The model shows only that the run's own pass changed
  nothing (`Driver.RunDiscardChangedNothing`); the file itself is outside the model.

## Model

| member | source | states |
|---|---|---|
| `Tags.HasKeyMeaning` | add_kyrgyz_names.py:116-120 | the key test used by the processed check is true exactly when some tag of the way carries the key |
| `Tags.Lookup` | add_kyrgyz_names.py:125-127 | looking a key up finds nothing exactly when no tag carries the key |
| `Tags.LookupFindsFirst` | add_kyrgyz_names.py:125-127 | a found value is the value of the first tag carrying the key, as `find` on the `k` attribute returns |
| `Tags.SetOrUpdateTagShape` | add_kyrgyz_names.py:55-63 | with the key present only the first tag carrying it gets the new value and everything else, length included, is unchanged; with the key absent exactly one `(key, value)` tag is appended at the end |
| `Tags.SetOrUpdateTagLookup` | add_kyrgyz_names.py:55-63 | after the upsert the key reads back the new value, every other key reads back what it did, and the set of keys gains exactly this key |
| `Tags.SetOrUpdateTagSameValue` | add_kyrgyz_names.py:55-60 | re-writing the value a key already has changes nothing |
| `Tags.ApplyTranslationEffect` | add_kyrgyz_names.py:241-245 | the three upserts leave `name:ky` = `name` = translation and `name:ru` = original, make the way already processed, keep every other key's value and add no other key |
| `Tags.ApplyTranslationIdempotent` | add_kyrgyz_names.py:241-245 | applying the same translation twice is the same as once |
| `Tags.SetOrUpdateTagKeepsUnique` | add_kyrgyz_names.py:55-63 | on a way with one tag per key, the upsert never creates a second tag for a key |
| `Tags.ApplyTranslationKeepsUnique` | add_kyrgyz_names.py:241-245 | the three upserts of a translation keep one tag per key |
| `Streets.StreetsUpTo` | add_kyrgyz_names.py:125-128 | the street list holds exactly the named ways, in document order, each once, each with the value of its first `name` tag; its length is the number of named ways |
| `Batch.Step` | add_kyrgyz_names.py:227-250 | the branch an iteration takes is decided by the processed test and the usability of the proposal, and a skipped way is left untouched |
| `Batch.StepEffect` | add_kyrgyz_names.py:227-250 | skipped iff processed; translated iff unprocessed with a usable proposal, then `name:ky` = `name` = translation, `name:ru` = original and processed; on failure only `name:ru` = original changes, and the way is processed afterwards only if it had `name:ky`; no other key changes or disappears |
| `Batch.StopIndex` | add_kyrgyz_names.py:221-224 | the loop stops at the first iteration that sees the interruption flag, or runs to the end |
| `Batch.Loop` | add_kyrgyz_names.py:221-250 | the loop keeps the document's length and the total, never lowers a counter, and adds one to exactly one counter per iteration run |
| `Batch.Pass` | add_kyrgyz_names.py:221-258 | the reported total is the number of named ways; processed + errors + skipped is the number of iterations run, which is the total when no interruption is seen |
| `Batch.LoopPointwise` | add_kyrgyz_names.py:221-250 | each listed way ends as one iteration made it if the loop reached it and keeps its tags otherwise; unlisted ways are untouched |
| `Batch.PassVisits` | add_kyrgyz_names.py:221-250 | over a whole pass, the way of the m-th street is the result of one iteration on its original tags when the loop got that far, and unchanged otherwise |
| `Batch.PassKeepsUnnamed` | add_kyrgyz_names.py:125-128 | a way without a `name` tag is never modified |
| `Batch.StepStable` | add_kyrgyz_names.py:227-250 | running an iteration again on its own result, with the name it now carries, changes nothing |
| `Batch.PassKeepsProcessed` | add_kyrgyz_names.py:227-233 | a batch pass leaves every already processed way as it was, whatever the service answers |
| `Batch.PassKeepsUniqueKeys` | add_kyrgyz_names.py:221-250 | a batch pass never gives a key of a way a second tag |
| `Batch.RerunWithOtherService` | add_kyrgyz_names.py:221-250 | in a second batch pass with any service, every way the first pass left processed stays as it is, and no key gains a second tag over the two passes |
| `Batch.RerunRetriesFailure` | add_kyrgyz_names.py:238-250 | a street that failed in the first pass on a way without `name:ky` stays unprocessed under its original name, and an uninterrupted second pass retries it with its own service |
| `Batch.RerunChangesNothing` | add_kyrgyz_names.py:221-258 | a second batch pass over the output of an uninterrupted one, with the same service, returns it unchanged: nothing is translated twice and no tag is duplicated |
| `Batch.LoopDiscardKeepsWays` | add_kyrgyz_names.py:221-250 | a stretch of the loop that neither translates nor fails leaves every way as it was |
| `Batch.DiscardKeepsDocument` | add_kyrgyz_names.py:328-335 | when the driver discards the result of a batch pass, that pass had changed no way |
| `Batch.LoopCounts` | add_kyrgyz_names.py:227-250 | each counter grows by the number of iterations run whose way took that counter's branch |
| `Batch.PassCounts` | add_kyrgyz_names.py:221-258 | `skipped`, `processed` and `errors` count exactly the iterations run whose way was already processed, was translated, or failed |
| `Review.Prompt` | add_kyrgyz_names.py:170-204 | input holding only invalid commands ends the prompt without a decision; a settled prompt consumes at least one command, and an accepted name is never empty |
| `Review.PromptSettlesAtFirstValid` | add_kyrgyz_names.py:170-204 | the prompt fails exactly when no valid command arrives or the first one is `e` whose edited name never arrives; otherwise the first valid command decides, the invalid ones before it are consumed without effect, and the rest of the input is what follows that command |
| `Review.ReviewStep` | add_kyrgyz_names.py:144-212 | an iteration that does not crash keeps the number of ways |
| `Review.ReviewLoop` | add_kyrgyz_names.py:144-219 | a finished loop keeps the number of ways and never lowers the processed count |
| `Review.ReviewLoopBounds` | add_kyrgyz_names.py:144-219 | processed + errors + skipped never exceeds the reported total, which never exceeds the street count; the persisted cursor is 0, the start, or a later position within the list (its exact value is stated by `Review.ReviewPassCursor`); a crash leaves the start or a street not yet decided |
| `Review.PromptKeepsLimit` | add_kyrgyz_names.py:199-202 | without a `c` command, no prompt lifts the limit |
| `Review.ReviewLoopLimit` | add_kyrgyz_names.py:151-161 | without a `c` command, the loop requests no more translations than the limit |
| `Review.ReviewLoopPointwise` | add_kyrgyz_names.py:144-212 | ways before the resume point and unlisted ways keep their tags; every other way keeps its tags or, if it was unprocessed and got a usable proposal, gets the three-tag upsert with some non-empty approved name |
| `Review.ReviewLoopKeepsWithoutApprovals` | add_kyrgyz_names.py:173-207 | if nothing is approved, no way changes |
| `Review.ReviewPassBounds` | add_kyrgyz_names.py:135-219 | a finished review pass keeps the document's length, its counters fit within the total and the total within the street count, and the cursor it persists is removed, the start, or later within the list |
| `Review.ReviewLoopPrefix` | add_kyrgyz_names.py:144-149 | the streets before the resume point only add their already processed ways to `skipped`, changing nothing else |
| `Review.ReviewLoopCursor` | add_kyrgyz_names.py:151-216 | from the resume point on, the persisted cursor moves one street per street the loop settles; the progress file is removed only once that position is at or next to the end of the list |
| `Review.ReviewPassCursor` | add_kyrgyz_names.py:135-219 | a finished pass persists the resume point plus the number of streets from it on that the pass settled (its total less the processed streets before the resume point), or removes the file only when that position is at or next to the end of the list |
| `Review.ReviewLoopStopsAt` | add_kyrgyz_names.py:151-153 | a stop by interruption or limit at a street from the resume point on changes no way and persists that street, except that a limit stop at the last street removes the progress file |
| `Review.ReviewLoopQuitsAt` | add_kyrgyz_names.py:194-212 | a `q` at a street changes no way and persists the street after it |
| `Review.ReviewPassKeepsUniqueKeys` | add_kyrgyz_names.py:173-190 | a review pass never gives a key of a way a second tag |
| `Review.ReviewPassLimit` | add_kyrgyz_names.py:151-161 | without a `c` command a review pass requests at most `limit` translations |
| `Review.ReviewPassVisits` | add_kyrgyz_names.py:144-207 | a street before the resume point is untouched, and any other street ends untouched or with one approved translation applied |
| `Review.ReviewPassKeepsUnnamed` | add_kyrgyz_names.py:125-128 | a review pass never modifies a way without a `name` tag |
| `Review.ReviewDiscardKeepsDocument` | add_kyrgyz_names.py:328-335 | when the driver discards the result of a review pass, that pass had changed no way |
| `Review.ReviewStepControl` | add_kyrgyz_names.py:145-159 | an iteration that requests nothing reads no command and changes no way, limit or counter other than `skipped`, which grows exactly when the way is already processed; it stops the loop exactly when it is at or after the resume point and sees the flag or a reached limit |
| `Review.ReviewStepFailure` | add_kyrgyz_names.py:205-209 | a missing, empty or unchanged proposal counts an error, adds no tag and moves the cursor past the street |
| `Review.ReviewStepCommand` | add_kyrgyz_names.py:170-209 | `y` and non-empty `e` write `name:ky` = `name` = the approved name and `name:ru` = original, leaving the way processed, and count it; `n` and empty `e` change nothing; `q` stops as interrupted; `c` lifts the limit; every command is consumed and moves the cursor past the street; `e` without its second line ends in an exception |
| `Review.NoStreetsAborts` | add_kyrgyz_names.py:144-214 | with no named way and the flag clear, the review pass ends with an exception |
| `Review.NoStreetsInterruptedReturns` | add_kyrgyz_names.py:214-219 | with no named way and the flag already set, the review pass returns zero counters, the document unchanged and the cursor untouched |
| `Review.QuitSkipsStreet` | add_kyrgyz_names.py:194-209 | quitting at a street persists the position after it, with the way left untouched |
| `Review.LimitAtLastStreetRemovesProgress` | add_kyrgyz_names.py:151-216 | a limit stop at the last street leaves that street unreviewed yet removes the progress file |
| `Review.EndOfInputAborts` | add_kyrgyz_names.py:170-184 | input running out at a prompt, or after `e` before the edited name, ends the pass with an exception, keeping the cursor persisted before it |
| `Cli.ScanArgs` | add_kyrgyz_names.py:272-291 | the scan fails only on an unknown dashed argument; review mode is on exactly when `--review` occurs; a path once set is kept, and a path it sets is a non-dashed argument (which one, the first not taken as a limit, is stated by `Cli.ScanMatchesRoles`); the limit changes only together with review mode |
| `Cli.ParseArgs` | add_kyrgyz_names.py:264-300 | a successful parse yields a non-empty, non-dashed path taken from the arguments, review mode exactly when `--review` is present, and the default limit without it; an unknown flag error names a dashed argument other than `--review` |
| `Cli.ScanMatchesRoles` | add_kyrgyz_names.py:272-291 | from any position the loop reaches, the loop's result equals the positional reading of the remaining arguments |
| `Cli.ParseMatchesReference` | add_kyrgyz_names.py:264-300 | the argument loop equals the positional reading: first unknown flag, else first path, `--review` anywhere, limit from the last number after a `--review` |
| `Cli.ReviewBeforeOrAfterPath` | add_kyrgyz_names.py:272-299 | `path --review N` and `--review N path` give the same settings |
| `Cli.BareReviewBeforeOrAfterPath` | add_kyrgyz_names.py:272-297 | `path --review` and `--review path` both give review mode with the default limit, and `path` alone gives batch mode |
| `Cli.NumericPathOrderMatters` | add_kyrgyz_names.py:275-287 | a numeric path right after `--review` is read as the limit |
| `Cli.EmptyPathHidesLaterPath` | add_kyrgyz_names.py:283-294 | an empty first argument becomes the path and the run stops with the usage message |
| `Cli.FirstUnknownFlagWins` | add_kyrgyz_names.py:288-291 | the first unknown flag ends the scan whatever follows |
| `Driver.RunDiscardChangedNothing` | add_kyrgyz_names.py:320-335 | a run that does not write had changed no way of the document it loaded |
| `Driver.RunRespectsLimit` | add_kyrgyz_names.py:264-320 | a completed run keeps the document's length, and in review mode without `c` it requests at most the parsed limit |

## Left out

- Translation service (add_kyrgyz_names.py:21-47, 65-79): the Gemini call and its prompt are not modelled. The service is a parameter, and a given name always gets the same answer; a real service may answer differently on each call.
- XML: parsing, serialisation and the `.//way` search are not modelled. The document is a flat sequence of ways in document order, and every tag is assumed to have both its `k` and `v` attributes.
- Way ids and console output: `print` lines, counters shown only on screen, and the throttling of skip messages are not modelled.
- Checkpoints (add_kyrgyz_names.py:81-91, 252-256): `save_progress`, `SAVE_INTERVAL` and the clock do not affect the tags, so they are not modelled.
- Resuming from the temporary output file (add_kyrgyz_names.py:312-317): the loaded document is a parameter of a run.
- The progress file (add_kyrgyz_names.py:93-114): the cursor is a natural number. Removing the file reads as cursor 0, and unreadable contents are not modelled.
- Signals (add_kyrgyz_names.py:49-53): modelled only as a flag sequence, consulted where the loops check it. The handler installed at line 345 turns Ctrl+C into setting the flag, also while a prompt waits. A signal during a review iteration is read at the next check; the check on line 211 and the one on line 151 give the same result.
- Commands are given already stripped and lower-cased, and the edit text already stripped.
- `str.isdigit` is modelled as ASCII digits only. In the source, `--review ５ streets.osm` sets the limit to 5, because `isdigit` and `int()` both accept Unicode decimal digits; the model reads "５" as the path instead. Digits that are not decimal, such as '²', pass `isdigit` but make `int()` raise. That exception is not caught, because line 279 is outside the driver's `try`; the model does not have this exit either.
- Checkpoint file: that a discarding run deletes the checkpoint it resumed from (add_kyrgyz_names.py:334-335) is described above but not modelled.
- File errors: the `IOError` and `XMLSyntaxError` handlers of the driver (add_kyrgyz_names.py:337-342).
- Review.ReviewStep: its own contract states only that the number of ways is kept. What each branch does is stated by `Review.ReviewStepControl`, `Review.ReviewStepFailure` and `Review.ReviewStepCommand`.
- Review.ReviewLoopLimit: bounds the number of requests only when no `c` command is given. After `c` the loop is unbounded, as in the source.
