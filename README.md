# Poll-to-subscription event forwarder, modelled in Dafny

The forwarder (`src/index.js`) reads an event store's commit stream by
polling and forwards every event to a notification endpoint. It keeps a
checkpoint, `lastProcessedCommit = {sequence, index}`. This is the sequence of
the last fully processed commit and the position of the last delivered event
of the commit in flight. The checkpoint is saved to a file after every change,
so a restart resumes where processing stopped.

The model covers:

- `CursorStore`: the checkpoint as a class `Cursor` with fields `sequence`
  and `index`. A ghost field `persisted` stands for the file. Its invariant
  `Durable()` says that a restart, which loads the file, gets back the live
  cursor. `load`, `save`, `incrementSequence` and `incrementEvent` each keep it.
- `Replay`: what processing a batch of commits delivers, and where it leaves
  the cursor, stated as functions on values. This covers the skip guard, the
  `filter` on positions after the cursor's index and the `map` that tags each
  kept event. The lemmas prove how commits compose over a batch.
- `Forwarder`: the imperative pipeline. Events are objects, `Event`, tagged in
  place. The endpoint is a `Notifier` that logs every attempt and every
  accepted POST. Its `faults` list says which coming attempts fail.
  `ProcessEvent` retries until an attempt succeeds. `DeliverEvents`,
  `ProcessCommit` and `ProcessCommits` are loops over events and commits, one
  at a time. Each is proved against the `Replay` functions. `PollOnce` is one
  round of `pollCommits`.
- `Template` and `Decimal`: the poll URL built at line 78. JavaScript's
  `String.prototype.replace` with a string pattern replaces only the first
  occurrence. The cursor's sequence is rendered as `String(n)` does it.
- `LinkDiscovery`: choosing the poll URL template from the index's links.
- `Scenarios`: concrete batches, evaluated on the value model.

Behaviour of the code as written, which the model keeps:

- A commit is skipped when `commit.sequence <= cursor.sequence`. A cursor
  persisted as `(5, 2)` therefore treats commit #5 as done. Its index `2`
  trims the first commit that is not skipped, say #6. Events 3 and 4 of #6
  are posted, and the cursor ends at `(6, -1)` (`Scenarios.ResumeSkipsSameSequence`,
  `Scenarios.ResumeTrimsNextCommit`). A reader might expect a restart to
  resume inside commit #5 instead. The code does not do that, and the model
  follows the code.
- The code never checks that the first commit it does not skip has sequence
  `cursor.sequence + 1`. The stale index applies to that commit, whatever its
  sequence (`Replay.StaleIndexOnlyFirst`).
- The `index` tag of a posted event is its position in the filtered list, not
  its position in the commit. After a resume the tags start again from 0
  (`Replay.ResumeMidCommit`).

## Model

| member | source | states |
|---|---|---|
| CursorStore.Restore | src/index.js:22-35 | The cursor a load yields: the defaults (-1, -1) when there is no readable, parseable record, otherwise the persisted record's sequence and index. |
| CursorStore.Cursor.Load | src/index.js:19-36 | With no persisted record (missing, unreadable or unparseable file) the cursor is (-1, -1). Otherwise it copies the persisted sequence and index. Either way a restart would reload the same cursor (`Durable`). |
| CursorStore.Cursor.Save | src/index.js:38-42 | The persisted record becomes the live cursor, so `Durable` holds. |
| CursorStore.Cursor.IncrementSequence | src/index.js:44-50 | Afterwards `sequence == s` and `index == -1`, and the persisted record equals the live cursor. |
| CursorStore.Cursor.IncrementEvent | src/index.js:52-57 | `index` goes up by exactly one and `sequence` is unchanged. The result is persisted. |
| Decimal.NatToDecimal | src/index.js:78 | A natural number renders as a nonempty string of digits with no leading zero. It starts with '0' exactly when the number is 0. |
| Decimal.IntToDecimal | src/index.js:78 | An integer renders as a nonempty string of digits and '-'. It starts with '-' exactly when the integer is negative. |
| Decimal.NatRoundTrip | src/index.js:78 | Reading the rendered digits back gives the number. |
| Decimal.IntRoundTrip | src/index.js:78 | Parsing the rendered integer, sign included, gives the integer back. The URL therefore carries the cursor's sequence exactly. |
| Template.ReplaceFirst | src/index.js:78 | `s.replace(pat, rep)` with a string pattern: a string without the pattern is returned as it is; otherwise only the first occurrence is replaced. |
| Template.PollUrl | src/index.js:78 | The URL is the template with its first `{after}` replaced by the cursor's sequence in decimal, then its first `{limit}` replaced by `10`, in that order. |
| Template.FindFrom | src/index.js:78 | The search returns the first position at or after `from` where the pattern occurs, as `indexOf` does. It returns `None` exactly when there is no such position. |
| Template.FindFirstOccurrence | src/index.js:78 | If `i` is the first occurrence, the search from 0 returns `i`. |
| Template.ReplaceFirstAt | src/index.js:78 | Replace with a string pattern substitutes the first occurrence only. Everything before and after it is kept. |
| Template.PollUrlUsualShape | src/index.js:78 | Take a template `base{after}mid{limit}rest` with no brace in `base` or `mid`. The URL is `base`, then the decimal sequence, then `mid`, then `10`, then `rest`. |
| Template.PollUrlLimitFirst | src/index.js:78 | Take a template `base{limit}mid{after}rest` with no brace in `base` or `mid`. The URL is `base`, then `10`, then `mid`, then the decimal sequence, then `rest`. |
| Template.OccurrenceSurvives | src/index.js:78 | An occurrence of a pattern clear of the replaced span is kept by a replacement, shifted by the change in length when it lies after the span. |
| Template.AfterLimitApart | src/index.js:78 | An `{after}` and a `{limit}` never overlap in a template, so replacing one never touches the other. |
| Template.LaterAfterKept | src/index.js:78 | Replacing the first `{after}` keeps every later `{after}`, moved by the change in length. |
| Template.AfterKeptByLimit | src/index.js:78 | Replacing the first `{limit}` keeps an `{after}` somewhere in the string. |
| Template.OnlyFirstAfterReplaced | src/index.js:78 | For any template whose first `{after}` is followed by another `{after}`, the URL still holds an `{after}`: only the first one is substituted. |
| Template.MissingAfterLeftAlone | src/index.js:78 | A template without `{after}` only has its `{limit}` substituted. |
| Template.MissingLimitLeftAlone | src/index.js:78 | A template without `{limit}` only has its `{after}` substituted. Inserting the decimal sequence never creates a `{limit}`. |
| LinkDiscovery.AfterSequenceLinks | src/index.js:164 | `links.filter(link => link.rel === "after_sequence")`: the links with that relation, in their order. |
| LinkDiscovery.SelectLink | src/index.js:164 | The result is `None` exactly when no link has rel "after_sequence". Otherwise it is the href of the first link whose rel is "after_sequence". |
| LinkDiscovery.SelectLinkIsHeadOfFilter | src/index.js:164 | The chosen href is that of element 0 of the filtered links. The choice is absent exactly when the filter is empty. |
| LinkDiscovery.OtherRelationsIgnored | src/index.js:164 | Links with other relations, before or after the first "after_sequence" link, do not change the choice. |
| Replay.KeepAfter | src/index.js:114-115 | `filter((event, index) => index > cursor.index)` keeps exactly the suffix after position `cursor.index`, clamped to the list. |
| Replay.Tagged | src/index.js:116-120 | The k-th kept event is tagged with the commit's sequence and with k, its position in the filtered list. |
| Replay.CommitDeliveries | src/index.js:108-120 | What one commit posts: nothing when `commit.sequence <= cursor.sequence`, otherwise its events after `cursor.index`, each tagged with the commit's sequence and its position in the filtered list. |
| Replay.AfterCommit | src/index.js:108-130 | The cursor after one commit: unchanged for a skipped commit, otherwise (commit.sequence, -1) after all its events are delivered. |
| Replay.BatchDeliveries | src/index.js:93-101 | What a batch posts: the commits' deliveries in batch order, each commit seeing the cursor the previous ones left. |
| Replay.BatchCursor | src/index.js:93-101 | The cursor after a batch: `AfterCommit` applied commit after commit. |
| Replay.CommitDeliveriesShape | src/index.js:108-120 | A commit no newer than the cursor delivers nothing. A newer commit delivers its events after position `cursor.index`, in commit order, each tagged (commit.sequence, k). |
| Replay.BatchCursorBounds | src/index.js:93-131 | Over a batch the cursor's sequence never decreases. It ends at the largest of the start and every commit's sequence. It changes only if some commit is newer, and then the index is -1. |
| Replay.BatchSplit | src/index.js:93-101 | Processing `a + b` is processing `a`, then `b` from the cursor `a` left. Deliveries concatenate. |
| Replay.BatchSnoc | src/index.js:93-101 | One more commit appends its own deliveries, from the cursor the batch left. |
| Replay.BatchPrefixStep | src/index.js:93-101 | The same, stated on prefixes `cs[..i]` and `cs[..i + 1]` of a batch. |
| Replay.AlreadyProcessedSkipped | src/index.js:108-112 | Commits all no newer than the cursor deliver nothing and leave the cursor unchanged. |
| Replay.SkipAhead | src/index.js:93-112 | Already processed commits at the head of a batch change neither the deliveries nor the final cursor. |
| Replay.StaleIndexOnlyFirst | src/index.js:108-120 | In a batch of increasing sequences past the cursor, the cursor's index trims only the first commit. Every later commit is delivered in full, and the cursor ends at (last sequence, -1). |
| Replay.ResumeMidCommit | src/index.js:114-120 | Suppose a crash after k deliveries of a commit, with the persisted cursor at index + k. Reprocessing the commit delivers exactly the remaining bodies, with tags starting again from 0. |
| Scenarios.SkipAheadScenario | src/index.js:93-131 | Cursor (5, -1) and commits #4, #5, #6: only #6's events are posted, tagged (6, 0) and (6, 1). The cursor ends at (6, -1). |
| Scenarios.ResumeSkipsSameSequence | src/index.js:108-112 | With cursor (5, 2), commit #5 is skipped entirely. |
| Scenarios.ResumeTrimsNextCommit | src/index.js:114-130 | With cursor (5, 2), commit #6 of five events posts events 3 and 4, tagged (6, 0) and (6, 1). The cursor ends at (6, -1). |
| Forwarder.Notifier.Post | src/index.js:147-153 | One POST is always logged as an attempt. It is accepted exactly when the endpoint's next outcome is success, and one outcome is consumed. |
| Forwarder.Posted | src/index.js:152 | The POST body of an event: its payload with the `sequence` and `index` fields the `map` set on it. |
| Forwarder.FailuresAheadSpec | src/index.js:133-145 | The count of failures ahead is exact: that many next attempts fail and the one after them, if scheduled, succeeds. |
| Forwarder.AttemptLogSplit | src/index.js:93-145 | The attempts made for `a + b` are those for `a`, then those for `b` against what is left of the endpoint's schedule. |
| Forwarder.NoFaultsNoRetries | src/index.js:133-145 | An endpoint that never fails receives each body exactly once, in order: no retries. |
| Forwarder.AttemptLogLength | src/index.js:133-145 | Every body is attempted at least once, and each extra attempt consumes one scheduled failure. |
| Forwarder.ProcessEvent | src/index.js:133-145 | The event is POSTed until an attempt succeeds. It is accepted exactly once and attempted once more for each failure ahead. Then `index` goes up by one and is persisted. |
| Forwarder.TagEvents | src/index.js:116-120 | The `map` sets, in place, each kept event's `sequence` to the commit's sequence and its `index` to its position in the kept list. |
| Forwarder.DeliverEvents | src/index.js:122-130 | Events are delivered one at a time, in order. The accepted log grows by exactly their POST bodies. The attempt log grows by each body repeated once per failure ahead plus once (`AttemptLog`), and the endpoint's schedule is consumed accordingly (`FaultsAfter`). The cursor's index goes up once per event, durably. |
| Forwarder.ProcessCommit | src/index.js:103-131 | A commit no newer than the cursor changes nothing: no cursor, no notifier, no event. Otherwise the accepted log grows by the commit's tagged suffix, the attempt log by `AttemptLog` of that suffix with the consumed schedule given by `FaultsAfter`, and the cursor becomes (commit.sequence, -1), durably. |
| Forwarder.ProcessNewCommit | src/index.js:113-131 | For a commit newer than the cursor, the accepted log grows by `CommitDeliveries`, the attempt log by its `AttemptLog`, the schedule becomes its `FaultsAfter`, and the cursor ends at (commit.sequence, -1). |
| Forwarder.TagUnprocessed | src/index.js:114-120 | The kept events are those after the cursor's index, each tagged in place; posting them sends exactly what `CommitDeliveries` specifies for a newer commit. |
| Forwarder.UnprocessedEvents | src/index.js:114-115 | The kept events are distinct events of the commit. |
| Forwarder.UnprocessedPayloads | src/index.js:114-115 | Filtering events and then taking their bodies equals filtering the bodies. |
| Forwarder.TaggedAsPosted | src/index.js:116-122 | Tagged events post as their bodies tagged with the sequence and their positions. |
| Forwarder.ProcessCommits | src/index.js:93-101 | Commits are processed one at a time in batch order. The accepted log grows by `BatchDeliveries`, the attempt log by `AttemptLog` of those deliveries, the schedule becomes their `FaultsAfter`, and the cursor ends at `BatchCursor`, durably. |
| Forwarder.PollOnce | src/index.js:75-91 | The URL is built from the cursor's sequence before the batch. A failed fetch leaves cursor and notifier unchanged. A batch is processed as `ProcessCommits` states, accepted log, attempt log and schedule included. |

## Left out

- HTTP transport (`getJson`, `postJson` and the `request` library, src/index.js:169-219). A fetch is a parameter: `PollOnce` takes the parsed batch, or `None` for a failed fetch. Delivery is the `Notifier`'s fault schedule.
- The file system and JSON encoding (src/index.js:15-17, 28, 41). The file is the ghost field `persisted`. `Load` takes the parsed record or `None`.
- CursorStore.Cursor.Load: a file that parses to an object or a number lacking `sequence` or `index` yields `undefined` fields in JavaScript. A file holding `null` makes the field reads at src/index.js:34-35 throw outside the `try`, so the process stops at start. The model has neither outcome: it covers a well-formed record or none.
- Forwarder.ProcessEvent: the `.catch` at src/index.js:141 also catches a throw from inside the `.then`. That covers `incrementEvent`'s file write, and `callback()`, which runs the rest of the commit and batch synchronously, including `incrementSequence`'s write (src/index.js:127) and `commit.events.filter` (src/index.js:114) on a commit without `events`. Such a throw re-POSTs an accepted event and bumps the index twice, and async then reports "Callback was already called" every 3 seconds. The model's file writes never fail and every commit has an `events` list, so none of this is modelled.
- Timers and perpetual scheduling (src/index.js:61-73, 84-91, 143). This covers `main` with its discovery retry, the re-poll after each batch, the 3-second backoffs, and the `discoverLink.retry` counter. `PollOnce` is a single round.
- Forwarder.ProcessEvent: the endpoint's failures are a finite list, so every event is eventually accepted. An endpoint that fails forever, which stalls the source, is not modelled.
- The error branch `callback(err)` of `processCommit` (src/index.js:123-125) and the rejection in `processCommits`. `processEvent` never reports an error, so neither can run.
- `console.log` / `console.error` and the `process.argv` defaults (src/index.js:11-12).
- The `async/eachLimit` library, modelled as a sequential loop with concurrency 1.
- JavaScript number semantics. Sequences are unbounded integers. Precision loss beyond 2^53 and the exponent notation `String(n)` uses from 10^21 are not modelled. Neither are non-numeric `sequence` values in the stream.
- Event bodies are opaque payloads. A body that already has `sequence` or `index` fields has them overwritten by the tags, and the model keeps only the tags.
- A response without a `stream` field or an index without `links` throws in the source and is retried. The model treats both as a failed fetch or a failed discovery.
- Forwarder.ProcessCommit: the tags left on the event objects are stated by `TagEvents`, not repeated in `ProcessCommit`'s contract. `ProcessCommit` states what was posted, tags included.
- Forwarder.ProcessCommits: the events of one commit must be distinct objects. Parsing JSON always produces distinct objects.
