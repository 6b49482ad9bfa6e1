# LeiaSP mass reader — the task engine, verified

LeiaSP-Mass-Reader is a browser page. It takes a list of `login:senha` accounts and, for each account in turn:

- logs in to a book service;
- chooses a book (recommended, indicated, first search hit, or a slug typed in);
- draws reading targets;
- asks the service to start a reading task.

A polling timer then follows the tasks until they reach a final status. A stop button cancels whatever is still open.

This project models the page's in-memory task engine in Dafny and proves its contracts. The engine has these parts:

- the registry of task records (`allTasksData`);
- the set of ids still worth polling (`activeTaskIds`);
- the cooperative stop flag (`stopSignal`);
- whether the polling timer is set (`progressPollIntervalId`).

It is modelled as the pure state `Registry.Engine`. Every handler of the page becomes a function from one engine to the next, and the outside world becomes parameters:

- the replies of the remote calls;
- the `Math.random()` draws, taken as exact reals in [0, 1);
- the clock readings;
- the point at which the stop button is pressed.

Modules follow the parts of `script.js`:

| module | models |
|---|---|
| `Values` | optional values and JavaScript's `||` on strings |
| `Text` | `trim`, `toLowerCase`, `split`/`join` on one character, `substring`, integer rendering |
| `Randomizer` | the correlated draw of reading percentage, reading time and question count |
| `Config` | the book-selection modes and the batch settings |
| `Registry` | task records, `updateTaskStatus`, `updateSummaryAndPolling`, the polling-timer switch |
| `Combo` | parsing the account list, task ids, creation of the pending records |
| `Validator` | `validateInputs` |
| `ApiErrors` | the error messages taken from failed login and book-service responses |
| `Poller` | one tick of `fetchProgress` |
| `StopHandlers` | the stop button and the batch loop's sweep of pending records |
| `Orchestrator` | `processSingleUserTask` for one account |
| `Batch` | the start handler's sequential loop over the created ids |
| `Start` | the start button's click handler, end to end |

The statuses keep their Portuguese names (`pendente`, `concluido`, `erro`, `falha`, `cancelado`, ...). The source has two distinct "final" lists:

- six statuses (`Registry.FinalStates`) used by the summary and the poller;
- four statuses (`Registry.GuardedStates`) that the catch block of `processSingleUserTask` and the stop button refuse to overwrite.

Where the validator and the start handler disagree, the model follows the code:

- The list `:` passes the account-list checks but yields no account (`Validator.NoLoginListAccepted`, `Validator.NoLoginListEmpty`). The start handler's second check catches it (`Start.RanKeepsInv`: no account, no run).
- The start handler's own "URL not defined" branch can never be reached, because the validator already rejects a blank address (`Start.RefusedIffInvalid`).

A refused click (`Start.Refused`) carries the message of every failed check, in check order. That is what `validateInputs` logs. The error span shows less: each `showValidationError` overwrites it (script.js:65-67), so only the last message stays on screen.

## Model

| member | source | states |
|---|---|---|
| Values.Or | script.js:722-725 | `o \|\| fallback` on an optional string: the value when present and non-empty, the fallback otherwise |
| Values.OrElse | script.js:691 | `s \|\| fallback` on a string that is always present: `s` unless it is empty |
| Values.OrOption | script.js:725 | `o \|\| other` on two optional strings: `o` when truthy, `other` (possibly falsy) otherwise |
| Text.Trim | script.js:856-863 | `trim` never lengthens the text, leaves a result that neither starts nor ends with whitespace, is empty exactly when the text is all whitespace, and adds no character |
| Text.TrimInfix | script.js:856-863 | `trim` removes only whitespace and only at the two ends: the result is a contiguous piece of the text with nothing but whitespace before and after it |
| Text.TrimTrimmed | script.js:859 | trimming text that already has no surrounding whitespace gives it back |
| Text.Lower | script.js:340 | `toLowerCase` maps every character to its lower case and keeps the length |
| Text.LowerIdempotent | script.js:340 | lower-casing twice is lower-casing once |
| Text.Split | script.js:856 | `split` on a character yields at least one part, and no part contains the separator |
| Text.JoinSplit | script.js:861-862 | joining the parts of a split with the same separator gives the text back |
| Text.SplitJoin | script.js:861-862 | splitting parts joined with a separator that none of them contains gives the parts back |
| Text.Before | script.js:861 | the part before the first occurrence of a character: a prefix without that character, followed in the text by the character when there is one |
| Text.After | script.js:861-862 | the rest after the first occurrence: text == before + separator + rest, so later separators are kept |
| Text.Take | script.js:431 | `substring(0, n)`: a prefix of at most `n` characters, the whole text when it is short enough, exactly `n` otherwise |
| Text.IntToString | script.js:408 | decimal rendering of an integer, with `-` for negatives |
| Text.ParseNatToString | script.js:883 | a rendered natural number reads back as itself |
| Randomizer.DrawOffset | script.js:595 | `Math.floor(Math.random() * n)` is an index in [0, n) |
| Randomizer.DrawOffsetCovers | script.js:595 | every index in [0, n) is produced by some draw, so a draw is as general as an index |
| Randomizer.DrawBetween | script.js:627 | a draw between `lo` and `hi` inclusive stays between them |
| Randomizer.RelativePosition | script.js:630 | the percentage's position in its range is in [0, 1], and 0.5 for a one-point range instead of a division by zero |
| Randomizer.TargetTime | script.js:631 | the target time that tracks the percentage lies within the time range |
| Randomizer.WindowHigh | script.js:639-641 | the rounded window never ends below its start |
| Randomizer.Randomize | script.js:624-646 | with ranges the validator accepts, the percentage, the clamped time and the question count fall in their ranges; a one-point time range fixes the time, a one-point percentage range fixes the percentage |
| Randomizer.CorrelationWindow | script.js:630-644 | for a time range wider than a point, the pre-clamp time lies in [ceil(max(minTime, t-h)), max(lo, floor(min(maxTime, t+h)))], inside the time range, so the clamp is a no-op |
| Randomizer.TimeTracksPercentage | script.js:627-644 | the drawn time t' satisfies t - h <= t' < t + h + 1, where t is the time the drawn percentage targets and h the half window |
| Randomizer.FullReadWindow | script.js:624-646 | with times 10..60 and percentages 0..100, a full read yields a time between 53 and 60 |
| Registry.BucketOfSpec | script.js:340-349 | each summary bucket stated both ways: `concluido` completed, `pendente` pending, the other five final statuses errors, everything else running (blank reads as `desconhecido`) |
| Registry.ActiveOf | script.js:337-349 | the rebuilt active set holds exactly the registered ids whose status is running |
| Registry.SummaryPartition | script.js:335-350 | every record is counted once: total = pending + running + completed + error, and running = the size of the active set |
| Registry.ComputeSummary | script.js:334-350 | the one-pass counting loop yields the reference summary and the reference active set |
| Registry.StartProgressPolling | script.js:771-788 | the timer ends up set exactly when it was already set or some task is active and no stop is signalled; an immediate fetch happens exactly when the timer is newly set |
| Registry.StopProgressPolling | script.js:790-802 | the timer is cleared, whatever it was, and nothing else changes |
| Registry.TimerIdempotent | script.js:771-802 | starting or stopping the timer twice is the same as once, and a second start fetches nothing |
| Registry.Recompute | script.js:334-372 | the registry and the signal are kept; the active set is rebuilt from the records; with the signal down, the timer runs exactly when some task is active |
| Registry.RecomputeRestoresInv | script.js:334-372 | every rebuild restores the engine invariant: active set == running records, timer set exactly when active and not stopped |
| Registry.UpdateTaskStatus | script.js:545-559 | an unknown id changes nothing. For a known id: status and progress are replaced; the book name only when a non-empty one is given; the message only when non-empty and different from the progress; login, password, id and params are kept; no other record changes; the active set is rebuilt |
| Registry.UpdateIdempotent | script.js:545-559 | repeating the same update changes nothing more |
| Registry.UpdateKeepsInv | script.js:545-559 | an update keeps the invariant, and the updated record is active exactly when its new status is running |
| Registry.UpdateKeepsKeyedById | script.js:545-553 | updates never re-key a record: each record stays under its own `refer_id` |
| Registry.UpdateKeepsWellFormed | script.js:552-553 | the sticky fields never go blank: records whose book name is non-empty and whose message, when present, is non-empty stay so after any update |
| Combo.ParseLine | script.js:859-865 | an accepted line yields a non-empty login and a non-empty password |
| Combo.ParseLineSpec | script.js:859-865 | a line is accepted exactly when its trimmed text has a `:` and both trimmed sides of the first `:` are non-empty; the password is everything after the first `:`, later colons kept, trimmed |
| Combo.ParsedAccountShape | script.js:861-864 | an accepted login has no colon, and neither side has surrounding whitespace |
| Combo.ParseLinesAppend | script.js:858-867 | parsing is line by line: the entries of two blocks of lines are the entries of each, in order |
| Combo.ParseLinesMembers | script.js:858-867 | an entry is accepted exactly when some line parses to it |
| Combo.ParseRender | script.js:859-865 | a writable entry written as `login:senha` parses back to itself |
| Combo.ParseComboRender | script.js:856-867 | entries written one per line and joined with line feeds parse back to the same entries in the same order |
| Combo.RaPart | script.js:881 | the id's user part is never empty (`user` stands in for an empty part before `@`) |
| Combo.TaskIdIndex | script.js:883 | the entry index can be read back from the id, after its last `_` |
| Combo.TaskIdsDistinct | script.js:880-883 | entries at different positions get different ids, whatever their logins and timestamps |
| Combo.NewTaskWaits | script.js:886-895 | a fresh record is in the pending bucket and not running |
| Combo.TaskOrderDistinct | script.js:880-883 | the ids of one batch are pairwise distinct |
| Combo.CreateTasksSpec | script.js:880-897 | the creation loop registers exactly the batch's ids, one per entry, each holding its own fresh `pendente` / `Na fila...` / `N/A` record |
| Combo.CreatedKeyedById | script.js:886-887 | every created record is stored under its own id |
| Combo.CreatedNoneActive | script.js:898 | after creation nothing is active, so the rebuild starts no timer |
| Validator.RangeErrorSpec | script.js:134-140 | the range checks pass exactly when all six fields are numbers and 1 <= minTime <= maxTime, 0 <= minPercent <= maxPercent <= 100, 0 <= minQuestions <= maxQuestions |
| Validator.ParseIntRender | script.js:127-132 | `parseInt` reads back a rendered integer and stops at the first non-digit after it; the one exception, `0` followed by `x` or `X`, starts a hexadecimal number |
| Validator.ParseIntHex | script.js:127-132 | `parseInt` of `0x` and hexadecimal digits, followed by a character that is not one, is the value of those digits in base sixteen |
| Validator.ParseIntBareHex | script.js:127-132 | `0x` with no hexadecimal digit after it is `NaN`, not the `0` in front of the `x` |
| Validator.ModeError | script.js:143-153 | the mode checks pass exactly when a mode is chosen, a search has a non-blank term, and a direct slug has a non-blank slug |
| Validator.ComboErrorSpec | script.js:156-166 | the account-list checks pass exactly when the trimmed list is not blank and each of its non-blank lines has a `:` |
| Validator.Validate | script.js:122-173 | a message is reported exactly when some check gives it; the messages are those of the failing checks, one per failing check and in check order, so at most four |
| Validator.ValidSpec | script.js:122-173 | `validateInputs()` holds exactly when the ranges are numeric and acceptable, the mode has what it needs, the account list passes, and the address is not blank |
| Validator.NoLoginListAccepted | script.js:156-166 | a one-line list with nothing before its first `:` passes the account-list checks |
| Validator.NoLoginListEmpty | script.js:856-869 | yet the parser keeps no entry from such a list, which is why the start handler checks again |
| ApiErrors.Extracted | script.js:413-420 | the message taken from an error body is never empty |
| ApiErrors.LoginErrorMessage | script.js:407-426 | a rejected login throws the extracted message or `Falha no Login (<status>)`; for a non-JSON body, `Falha no Login (<status> - <statusText or Erro desconhecido>)`; never empty |
| ApiErrors.ApiErrorDetail | script.js:470-484 | the book-call detail is the extracted field, else the re-serialized JSON, else the raw text when the body is not JSON |
| ApiErrors.ApiFailureMessage | script.js:465-498 | a book call throws exactly when it did not return a usable reply |
| Poller.GetProgress | script.js:535-540 | an empty id list gives an empty answer without a request; otherwise the request is made and its answer returned |
| Poller.Tick | script.js:701-769 | a tick makes a request exactly when something is active and no stop is signalled; it keeps the signal and the registered ids |
| Poller.MergeAllReference | script.js:717-749 | merging a distinct-key answer entry by entry gives the registry the reference merge asks for, record by record |
| Poller.TickReference | script.js:701-769 | a running tick on an object answer equals rebuilding the active set over the reference-merged registry, so the deletions during the merge are overridden |
| Poller.TickKeepsInv | script.js:701-769 | a running tick keeps the invariant and leaves the records that were not active untouched |
| Poller.TickKeepsUnanswered | script.js:741-747 | an active record with no entry, or with a non-object entry, stays as it was and stays active after the final rebuild |
| Poller.TickDropsFinished | script.js:718-740 | an active record whose merged status is final takes that status and leaves the active set |
| Poller.TickIdle | script.js:702-705 | with nothing active or a stop signalled, a tick makes no request and changes nothing |
| Poller.TickIgnoresFailure | script.js:757-763 | a failed or non-object answer changes nothing, although the request was made |
| StopHandlers.CancelEach | script.js:944-950 | the walk, one update per selected record, yields the reference registry with every selected record cancelled; with nothing selected the engine is unchanged, otherwise the active set is rebuilt |
| StopHandlers.StopClicked | script.js:939-953 | the stop button raises the signal, clears the timer, cancels every record not in a guarded status with `Parado pelo usuário`, and leaves nothing active |
| StopHandlers.NoneRunningAfterStop | script.js:944-952 | after the stop walk no record is running |
| StopHandlers.StopButton | script.js:939-953 | the step-by-step handler ends exactly where the all-at-once stop does |
| StopHandlers.StopIdempotent | script.js:939-953 | a second click changes nothing |
| StopHandlers.SweepPending | script.js:903-911 | the loop's sweep cancels exactly the `pendente` records with `Parado pelo usuário.`, keeps the signal, and leaves none `pendente` |
| StopHandlers.SweepPendingLoop | script.js:906-910 | the step-by-step sweep after a stop ends where the all-at-once sweep does |
| StopHandlers.SweepIsCaseSensitive | script.js:907 | a record whose status is `Pendente` is not swept, although the summary counts it as pending |
| Orchestrator.Login | script.js:378-434 | the run goes on exactly when the login returns a non-empty token |
| Orchestrator.Chosen | script.js:616-619 | a list entry is taken exactly when it has a slug; the name is its own when present, else `Livro (Slug: <slug>)` |
| Orchestrator.Listed | script.js:590-615 | a failed list call selects nothing; an empty list gives the mode's message; otherwise the chosen entry is some entry of the list, the first one when not drawn at random |
| Orchestrator.SelectBook | script.js:589-616 | a direct slug is chosen exactly when it is non-empty; a search without a term fails with its own message; a failed list call selects nothing |
| Orchestrator.Fail | script.js:686-692 | the catch block leaves a record in a guarded status alone; otherwise it writes `erro`, `Erro: ` and the first 100 characters of the message, and the book name or `N/A` |
| Orchestrator.Started | script.js:670-684 | the start succeeds exactly when the reply echoes the record's id |
| Orchestrator.ProcessTracks | script.js:561-696 | a run keeps the invariant and the keying; every other record is as it was or, once the button was pressed, as the button leaves it; the signal is up exactly when it was or the button was pressed; no stop point, or a signal already up, means no press, and a stop point at the login with the signal down means a press |
| Orchestrator.ProcessTrace | script.js:561-696 | the statuses one record goes through, first to last, equal the reference sequence for every stop point (`cancelado` alone when the signal was already up), and the record ends in the last of them |
| Orchestrator.ExpectedEndsSettled | script.js:577-692 | with no stop, the reference sequence ends in the settled status: `erro` on a failed login, book choice or start call; the reply's initial status or `iniciado` otherwise |
| Orchestrator.ExpectedEndsAfterLoginStop | script.js:577-664 | with a stop during the login call, the reference sequence ends in `erro` or `cancelado` |
| Orchestrator.ProcessSettles | script.js:561-696 | one account with the stop button left alone: its record ends in its settled status, the signal stays down, every other record is unchanged |
| Orchestrator.ProcessStopAtLogin | script.js:561-696 | one account stopped during its login call: its record ends in `erro` or `cancelado`, the signal is up, every other unguarded record is cancelled with `Parado pelo usuário` |
| Batch.Loop | script.js:902-921 | the loop processes at most all ids; it either runs to the end, or stops early with the signal up after sweeping, and then no record is `pendente` |
| Batch.LoopKeepsInv | script.js:902-921 | the loop keeps the invariant, the keying and the registered ids when each step does |
| Batch.BatchKeepsInv | script.js:902-921 | the start handler's loop keeps the invariant, the keying and the registered ids |
| Batch.LoopRunsAll | script.js:902-921 | with the stop button left alone, every account is processed and the signal stays down |
| Batch.LoopSettles | script.js:902-921 | with the stop button left alone, each account's record ends in its settled status |
| Batch.BatchUndisturbed | script.js:902-921 | a batch the stop button leaves alone processes every account, keeps the signal down, settles each account's record and touches no other |
| Batch.NothingPendingAfterStop | script.js:903-911 | after a stop during a login, no record is `pendente`, so the sweep has nothing to do |
| Batch.LoopStopAtLogin | script.js:902-921 | a stop during the login of the account at position `k` ends the loop after `k + 1` accounts with the signal up, that record in `erro` or `cancelado`, and every later record as the button left it |
| Batch.BatchStopAtLogin | script.js:902-921 | the same for the start handler's loop |
| Start.GatherSettings | script.js:837-853 | the settings carry the chosen mode and the parsed ranges, the trimmed slug in slug mode and the trimmed term in search mode |
| Start.SettingsOfValidForm | script.js:816-853 | a valid form yields ranges the randomizer accepts and a non-blank slug or search term where the mode needs one |
| Start.Settle | script.js:927-931 | the end of the handler keeps the registry and the signal, rebuilds the active set, and clears the timer when nothing is active |
| Start.RunAccounts | script.js:869-931 | a handler past the checks is never refused, and stops without a run exactly when no account was parsed |
| Start.RefusedIffInvalid | script.js:814-822 | a click is refused exactly when the form fails its checks, with the checks' messages, and then nothing changes; the missing-address branch is never taken |
| Start.ValidRuns | script.js:814-898 | past the checks, the handler runs the parsed accounts with the gathered settings, one clock reading and one run per account |
| Start.PreparedSpec | script.js:830-898 | after the reset and creation: exactly the created ids, each with its fresh record, none active, the signal down and the timer off |
| Start.RanKeepsInv | script.js:814-931 | whatever the outside world does, a run keeps the invariant, registers exactly the created ids, processes no more than were created, and an empty list yields the reset engine |
| Start.RanUndisturbed | script.js:814-931 | a run the stop button leaves alone processes every account in creation order, keeps the signal down, and settles each record |
| Start.RanStopAtLogin | script.js:814-953 | a stop during the `k`-th login processes `k + 1` accounts, leaves the signal up, sweeps exactly when accounts are left, and cancels every later record with `Parado pelo usuário` |

## Left out

- DOM rendering, logging and button/spinner visibility (`logMessage`, `addOrUpdateTaskRow`, the summary spans, row expansion, password toggle): pure presentation. The summary's counts are modelled; their display is not.
- Network transport: `fetch`, the URL and query building in `callBookApi`, JSON parsing and `JSON.stringify`. Each remote call is a reply parameter. Of the transport, only the choice of error message is modelled; a re-serialized JSON body is given as a string.
- Timers and async interleaving: `setInterval` is a boolean flag, and a poll tick is one atomic step. Poll ticks that fire while the batch loop awaits a remote call are not modelled.
- The stop button during a run: pressed while one of the three remote calls of an account is out (`Orchestrator.StopPoint`); clicks at other moments are the separate `StopHandlers.StopClicked` step.
- Floating point: `Math.random()` is an exact real in [0, 1), and the randomizer's arithmetic uses exact reals. IEEE-754 rounding is not modelled.
- `Date.now()` is the clock parameter `now(i)`; `localStorage`, the settings dialog, dark mode and the results-file export are not part of this model.
- Unicode: `trim`, the whitespace `parseInt` skips, and `toLowerCase` are the ASCII versions.
- Text.Take: lengths and cuts count Unicode scalar values, not UTF-16 code units as `substring` and `length` do. A text with characters outside the Basic Multilingual Plane is cut at a different place (`substring` can split such a character and leave a lone surrogate, which a Dafny string cannot hold). This applies to the message cuts at script.js:431 and 690 and the book-name cut at script.js:620.
- Number precision: `parseInt` reads integers exactly; JavaScript's `Number` would round those beyond 2^53.
- Object key order: `Object.keys` is taken to return the ids in creation order, and a progress answer's keys in the order given, as JavaScript does for non-numeric keys.
- Batch.StepOf: a run whose draws lie outside [0, 1) is treated as the identity; the loop never receives one.
- Batch.LoopStopAtLogin: proved for a stop during a login call only; a stop during the book-list call or the start call is covered per account by `Orchestrator.ProcessTrace`, not over the whole loop.
- Start.RanStopAtLogin: the same restriction to a stop during a login call.
