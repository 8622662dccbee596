# entitystore, modelled and proved in Dafny

This project models the parts of entitystore whose correctness is hard to see from
the code, and proves what they are for:

- **The named event consumer** (`EventLog`, `ConsumerDb`, `Protocol`, `Consumers`,
  `Deliveries`, `Offers`).
  Any number of instances share one consumer row, the event log and the dead-letter
  table. Each database call is one atomic step, each instance has a program counter,
  and time, new events, lost replies, refused writes, pauses, crashes, replays and purges
  may come between any two steps. `Consumers` holds the consumer and its tables as
  objects and proves a poll and a replay to be runs of that protocol. `Deliveries` says
  how often each single event is handled, and `Offers` what giving up does to it.
- **String similarity and the match decision** (`Levenshtein`, `Jaro`, `JaroLaws`,
  `Similarities`, `Matcher`, `Replans`, `Decisions`). The loops over mutable arrays are proved against
  plain definitions, and the definitions against what they are meant to measure;
  `Replans` carries merge plans out and plans again.
- **Graph traversal and scopes** (`Traversal`, `Limits`, `Filters`). The recursive query,
  its order and its limit, the row loop, and plain breadth-first distance.
- **The transactional entity store** (`EntityStore`, `Effects`, `Links`, `Stores`). Batches with
  preconditions, soft and hard deletes and tag edits over entities, anchors, relations
  and the event log; `EntityStore` has the transactions and their runs, `Effects`
  when each commits and what it leaves, `Links` the relations over runs, and `Stores` the
  object that carries them out statement by statement and rolls back.

`dafny verify dfyconfig.toml` checks the whole project.

## Assumptions

They are predicates or types in the model, not hidden in it:

- Instances of one consumer name have distinct holder ids and each runs one loop (an
  instance is a key of a map with one program counter). There is one database clock.
- `Protocol.AppendsInOrder`: an event becomes visible only after every event that sorts
  before it. Event timestamps are transaction start times, so the database does not give
  this by itself. `Protocol.LateEventSafeIff` says exactly which late events are harmless,
  and `Protocol.LostEventExample` is a run that loses one.
- `Protocol.TimelyRun`: every poll ends within LockTTL of its own lock step. Only the
  single-leader theorem uses it; fencing and no-skip do not.
- A failed statement aborts its transaction, so a dead-letter transaction whose inserts
  or advance failed does not commit.
- The package makes merge plans and leaves carrying them out to its callers. In
  `Replans.CarryOut` a write goes to the key under which the field would be read: the
  field's own name if the record has it, and otherwise its camel-case form.
- `Replans.RaisesLetters`: raising a letter never makes an underscore, as with Unicode.
  `Replans.CollisionsShow`: fields whose names collide have two values that the
  normalisers of both keep apart, from each other and from no value; `Replans.PlainNamesIff`
  is the case of no normalisers.
- Strings are sequences of runes, scores are exact reals, ids are natural numbers, and
  versions fit their column.

## What the code does that its documentation does not say

- `ReplayDeadLetters` is documented to raise the retry count of a letter that fails
  again; the code leaves the letter as it was (`Consumers.Consumer.ReplayDeadLetters`).
- A dead-letter transaction that has lost the lock still inserts its letters, without
  moving the cursor. Its events are then dead letters and still to be delivered, except
  those the new holder has already passed (`Protocol.DeadLetterOutcome`). What the new
  holder did with those is open: it may have had them accepted, and they are both, or
  dead-lettered them, and they have two letters (`Deliveries.StaleLetterAhead`,
  `Deliveries.StaleLetterBoth`, `Deliveries.StaleLetterTwice`).
- Polls can handle an event more than once: accept it and dead-letter it, accept it twice,
  or dead-letter it twice. `Deliveries.DeliveredOnceIff` says exactly which steps a run must
  keep to for no event to be handled again, or be left ahead of the cursor once handled
  (but for the batch the holder is about to pass). `Deliveries.HolderOnlyIff` is its plain
  form for ordered visibility: only the lock holder accepts and dead-letters, and from an
  accepting verdict to its advance it is not refused the advance, does not crash and does
  not lose the lock. For each clause there is a run from the start that breaks it and
  handles an event twice. An advance whose reply is lost does no harm of this kind, since
  the cursor has moved. (Replays hand out dead letters again, as they are asked to.)
- A database error counts as a failed attempt, so at the retry limit a batch is
  dead-lettered that the handler never saw, or the one after it. Even after a rejection
  the batch is read again: events that became visible since go with it, and if the lock was
  lost and the new holder has advanced, it is another batch altogether. `Offers.CarefulIff`
  gives the exact conditions by kind of step, `Offers.FailureDooms` what each failure leads
  to, and `Offers.ReadErrorUnseen`, `Offers.LostReplyUnseen`, `Offers.NewcomerUnseen` and
  `Offers.TakeoverUnseen` are runs.
- Failure state is said to be persisted across restarts (CHANGELOG.md:19). It is written,
  and never read back: a consumer that is restarted between its polls never reaches a
  retry limit above 1 and makes no progress, however many polls fail
  (`Offers.RestartsForget`).
  `Consumers.BacklogDrains` is about polls of one instance without restarts.
- `jaro` scores two empty strings 1 by its shortcut, where the algorithm below the
  shortcut would score 0; on all other equal strings they agree (`Jaro.ShortcutAgrees`).
- MaxResults is documented to cap the entities returned (store/traverse.go:33), but it
  limits rows of the query: several paths to one entity use it up. `Limits.CompleteIff`
  says exactly when nothing is left out, and `Limits.OneOfTwo` is a graph where one entity
  of two is. What is left out is never nearer than what is returned.
- A caller's UnlessTags can defeat the scope's ExcludeTag (`Filters.MergedIsVisibleIff`
  gives the exact condition), and the scope's ExcludeTag takes the place of the caller's
  own, so that entities the caller excluded are returned (`Filters.MergedIsWantedIff`).
- An update may carry a message type other than the stored one. The entity keeps its type
  (`EntityStore.WriteRow`), but its anchors are claimed under the new one, and a lookup of
  that type then finds an entity of another (`EntityStore.WriteKeepsTypesIff`,
  `EntityStore.RetypedExample`).
- Two planned fields whose names have one camel-case form overwrite each other when a
  plan is carried out, and planning again does not settle (`Replans.DistinctNamesIff`).
- A hard delete is commented to capture soft-deleted entities too, but the query it uses
  skips them: their event has neither type nor tags (`EntityStore.HardDeleteEvent`).
- Tag edits apply to soft-deleted entities too, and log nothing
  (`EntityStore.DeletedStaysFrozen` excepts tags for that reason).

## Model

| member | source | states |
|---|---|---|
| Protocol.NoEventSkipped | store/consumer.go:305-414 | in every run of any number of instances with ordered visibility, each event at or before the cursor was accepted in a batch, is a dead letter, or was replayed or purged from there |
| Protocol.RetryForever | store/consumer.go:222-229 | without a retry limit, in every run of any number of instances, there is never a dead letter, and with ordered visibility every event at or before the cursor was accepted |
| Protocol.InvRun | store/consumer.go:191-414 | the same, and all that it rests on, for every run in which new events sort after the frontier, the last event already claimed by the cursor or by the holder's batch |
| Protocol.LateEventStranded | store/internal/dbgen/consumer.sql.go:82-89 | an event that becomes visible at or before the frontier is left behind by a run in which nothing fails |
| Protocol.LateEventSafeIff | store/internal/dbgen/consumer.sql.go:82-89 | from any state the protocol keeps, a newly visible event is safe in all continuations if and only if it sorts after the frontier |
| Protocol.LostEventExample | store/consumer.go:305-353 | a run from the start that loses an event when visibility is out of order |
| Protocol.CursorNeverMovesBack | store/internal/dbgen/consumer.sql.go:18-27 | under any interleaving with expiries, takeovers, releases and lost replies, and no timing assumption, the cursor never moves backwards |
| Protocol.CursorMoves | store/consumer.go:342-350 | the cursor moves only for the current holder, from the very position it read to the end of the batch it fetched |
| Protocol.FenceRun | store/consumer.go:191-414 | every run keeps: what an instance has read is current for as long as it holds the lock |
| Protocol.SingleLeader | store/consumer.go:273-303 | if every poll ends within its lease, no two instances are ever between lock step and end of poll |
| Protocol.OverlapIffOverstayed | store/internal/dbgen/consumer.sql.go:211-220 | an idle instance that tries for the lock during another's poll gets it if and only if that poll has outlived its lease |
| Protocol.SafeFromStart | store/consumer.go:191-414 | both from the start: at no point of any run does the cursor move back, and a run with timely polls has one leader at most |
| Protocol.DeadLetterOutcome | store/consumer.go:376-411 | the dead-letter transaction records its whole batch; an event of it is still ahead of the cursor afterwards exactly if the writer had lost the lock and nobody had passed the event |
| Protocol.LetterStep | store/consumer.go:463-493 | listing, replaying, deleting and purging letters keep every event accounted for |
| EventLog.FetchIsBatch | store/internal/dbgen/consumer.sql.go:82-89 | the fetch returns, in order, every row after the cursor up to its own last one; an empty fetch means there is none |
| EventLog.AdvanceDropsBatch | store/consumer.go:342-350 | advancing to the last row of a batch leaves exactly the rows after it |
| ConsumerDb.InsertLettersEffect | store/internal/dbgen/deadletter.sql.go:67-70 | dead-lettering a batch appends one letter per event, under fresh ids, and changes nothing else |
| ConsumerDb.DeleteLetterMembers | store/internal/dbgen/deadletter.sql.go:27-29 | deletion removes the letter with that id and no other |
| ConsumerDb.PurgeLettersMembers | store/internal/dbgen/deadletter.sql.go:142-144 | a purge removes exactly the letters older than the cutoff |
| Consumers.PollIsRun | store/consumer.go:191-253 | a poll with a working database is a run of the protocol in which only that instance moves |
| Consumers.PollOutcome | store/consumer.go:191-253 | position, failure count and backoff (in memory and saved) and dead letters after a poll, for every verdict of the handler; it gives up exactly when a limit is set and this failure reaches it |
| Consumers.PollLetters | store/consumer.go:376-411 | the letters of a poll that gives up: one for each event of the batch in order, under fresh ids, with the clock and the number of attempts |
| Consumers.ReleaseFrees | store/consumer.go:495-508 | after a release by the holder any other idle instance can lead at once from the same position; a release by anyone else changes nothing |
| Consumers.PollShutOut | store/consumer.go:273-303 | a poll that finds the lock held by another changes nothing |
| Consumers.BacklogDrains | store/consumer.go:205-252 | with R retries, n waiting events are drained by any R * ceil(n / BatchSize) polls of one instance outside backoff, less the failures already counted, whatever the handler answers |
| Consumers.BoundIsTight | store/consumer.go:218-228 | that bound is exact: an always-failing handler leaves events after any fewer polls |
| Consumers.EveryEventHandled | store/consumer.go:191-414 | safety and progress together: from any state the protocol keeps, that many polls of a sole holder leave every event accepted, a dead letter, or replayed or purged from there |
| Consumers.Database.RenewConsumerLock | store/internal/dbgen/consumer.sql.go:195-199 | extends the lease of the holder only, expired or not |
| Consumers.Database.TryAcquireConsumerLock | store/internal/dbgen/consumer.sql.go:211-220 | takes the row if there is none, or its lease is absent or over, and otherwise nothing |
| Consumers.Database.ReleaseConsumerLock | store/internal/dbgen/consumer.sql.go:179-183 | clears holder and lease for the holder only |
| Consumers.Database.AdvanceConsumerCursor | store/internal/dbgen/consumer.sql.go:18-27 | moves the cursor and clears failures for the holder only |
| Consumers.Database.UpdateConsumerFailureState | store/internal/dbgen/consumer.sql.go:232-239 | records failures for the holder only |
| Consumers.Database.InsertDeadLetter | store/internal/dbgen/deadletter.sql.go:67-70 | appends one letter |
| Consumers.Database.DeleteDeadLetter | store/internal/dbgen/deadletter.sql.go:27-29 | afterwards a letter is there if and only if it was and has another id; no other table changes |
| Consumers.Consumer.TryAcquireOrRenew | store/consumer.go:273-303 | succeeds exactly for the holder or when the lock is free, and leaves the tables of that step |
| Consumers.Consumer.ProcessBatch | store/consumer.go:305-353 | fails exactly on a non-empty batch the handler rejects, and advances past one it accepts |
| Consumers.Consumer.DeadLetterCurrentBatch | store/consumer.go:355-431 | one letter per event of the current batch and the advance, together |
| Consumers.Consumer.RecordFailure | store/consumer.go:218-252 | at the retry limit dead-letters and resets, otherwise counts, backs off and saves |
| Consumers.Consumer.ClearFailures | store/consumer.go:205-215 | after a poll that did not fail, count and backoff are reset, in memory and in the row, if there was a count |
| Consumers.Consumer.Poll | store/consumer.go:191-253 | does nothing in backoff, and otherwise exactly the protocol's poll; backoff is set on failure and cleared when failures are |
| Consumers.Consumer.ReplayDeadLetters | store/consumer.go:441-488 | removes exactly the letters accepted on replay, leaves the others untouched, and counts both |
| Consumers.ReplayIsRun | store/consumer.go:441-488 | what the replay loop leaves is the end of a protocol run that lists, accepts and deletes, so it keeps every event accounted for |
| Consumers.ReplayLettersMembers | store/consumer.go:463-481 | the letters left are those there were, less the ones accepted on replay |
| Deliveries.DeliveredOnceIff | store/consumer.go:305-414 | in any run from the start: no poll accepts or dead-letters an event that was accepted, dead-lettered, replayed or purged before, and all that was is behind the cursor or in the batch the holder is about to pass, if and only if every step is strict: only the lock holder accepts and dead-letters, unless the cursor went past the events and nobody handled them, and a holder with an accepted batch keeps lock and life until it has advanced |
| Deliveries.HolderOnlyIff | store/consumer.go:305-414 | the same with ordered visibility, where the exception cannot occur |
| Deliveries.StrictStepIff | store/consumer.go:305-414 | the same for one step from any such state |
| Deliveries.AlwaysSettledIff | store/consumer.go:305-414 | in any run from the start, at every point each accepted event and each dead letter is behind the cursor (or in the batch the holder is about to pass) and none is both, if and only if every step is orderly: the same, but others may handle past events again in the same way |
| Deliveries.SettledStepIff | store/consumer.go:305-414 | that for one step from any such state |
| Deliveries.OfferedOnce | store/consumer.go:305-353 | while it holds, a lock holder offers or dead-letters only events that were never accepted, dead-lettered, replayed or purged |
| Deliveries.RefusedAdvanceBoth | store/consumer.go:342-352 | a run from the start, for every system that gives up at the first failure, in which the refused advance of an accepted batch makes it a dead letter too |
| Deliveries.CrashBoth | store/consumer.go:332-350 | likewise for a crash between verdict and advance |
| Deliveries.TakeoverBoth | store/consumer.go:332-350 | likewise for a lock lost between verdict and advance |
| Deliveries.LateVerdictBoth | store/consumer.go:332-350 | likewise for a verdict that comes after the new holder has dead-lettered the batch |
| Deliveries.LateVerdictTwice | store/consumer.go:332-350 | a run in which a verdict that comes after the lock was lost accepts an event the new holder has had accepted and passed |
| Deliveries.StaleLetterAhead | store/consumer.go:376-411 | a run in which a writer that has lost the lock dead-letters an event still to be delivered |
| Deliveries.StaleLetterBoth | store/consumer.go:376-411 | one in which it dead-letters an event the new holder has had accepted |
| Deliveries.StaleLetterTwice | store/consumer.go:376-411 | one in which it dead-letters again an event that nobody accepted |
| Offers.DoomedIff | store/consumer.go:217-229 | in every careful run, each dead letter was offered to the handler and rejected, if and only if that is so of every event an instance at its retry limit is about to read back |
| Offers.CarefulIff | store/consumer.go:355-374 | a step adds no event to those that was not rejected if and only if: after a last failure what will be read back was rejected; an advance brings nothing else in reach of another that has given up and not read the cursor; and a new event does not fit into a batch about to be read back |
| Offers.OfferedFirst | store/consumer.go:217-229 | from the start, the dead letters of careful runs were all rejected first |
| Offers.FailureDooms | store/consumer.go:305-374 | what the last failure dooms, by its reason and with or without the lock: the batch nobody was offered, the rejected one with what has come since, the accepted one, the next, or whatever follows the new holder's cursor |
| Offers.GiveUpResets | store/consumer.go:222-229 | an instance that has given up begins its next poll with no failures counted, whether or not its letters could be written |
| Offers.ReadErrorUnseen | store/consumer.go:305-314 | a run in which an error reading the cursor makes a dead letter no handler was given |
| Offers.LostReplyUnseen | store/consumer.go:342-350 | one in which a lost reply to the advance does so to the next batch |
| Offers.NewcomerUnseen | store/consumer.go:355-374 | one in which an event that becomes visible after the verdict is dead-lettered with the batch |
| Offers.TakeoverUnseen | store/consumer.go:355-411 | one without any failing call: after a takeover and an advance the instance that gave up dead-letters the next batch, which is still to be delivered |
| Offers.RestartsForget | store/consumer.go:217-229 | for any number n, a run of n rejected polls with restarts between them that moves neither cursor nor letters, when the retry limit is not 1 |
| Levenshtein.LevenshteinDistance | matching/similarity.go:145-189 | the two-row loop returns the recursive edit distance |
| Levenshtein.FillRow | matching/similarity.go:165-186 | one pass computes the next row of the table |
| Levenshtein.DistanceIsLeastEdits | matching/similarity.go:144-189 | the distance is the least number of insertions, deletions and substitutions, at any positions and in any order, that turn one string into the other |
| Levenshtein.DistanceTriangle | matching/similarity.go:144-189 | triangle inequality |
| Levenshtein.DistanceSymmetric | matching/similarity.go:144-189 | symmetry |
| Levenshtein.DistanceZero | matching/similarity.go:144-189 | zero exactly on equal strings |
| Levenshtein.DistanceBounds | matching/similarity.go:144-189 | between the length difference and the longer length |
| Levenshtein.ScoreProperties | matching/similarity.go:191-206 | the normalised score is in [0, 1], symmetric, 1 exactly on equal strings, and 0 exactly at the greatest distance |
| Levenshtein.ScoreValue | matching/similarity.go:191-206 | the score takes off, for each edit of a shortest script, the share of one character of the longer string |
| Levenshtein.NormalizedLevenshtein | matching/similarity.go:193-206 | returns that score |
| Jaro.MatchingIsMaximum | matching/similarity.go:65-84 | no one-to-one pairing of equal characters within the window is larger than the greedy scan's, and swapping the strings keeps its size |
| Jaro.StableUnique | matching/similarity.go:65-84 | the greedy pairing is the only one no compatible pair of positions could improve on |
| Jaro.MatchingSwap | matching/similarity.go:65-84 | swapping the strings inverts the pairing |
| Jaro.SimilarityProperties | matching/similarity.go:33-107 | Jaro is in [0, 1], symmetric, 1 exactly on equal strings, and 0 exactly when unequal strings have no compatible pair |
| JaroLaws.ValueByPairing | matching/similarity.go:105-106 | for the one pairing that no compatible pair could improve on, Jaro takes off the mean of three losses: the unmatched share of either string, and half the share of matched characters in different order |
| JaroLaws.RearrangedValue | matching/similarity.go:105-106 | if all characters can be paired within the window, Jaro is 1 less a sixth of the share of positions that differ |
| JaroLaws.ExtensionValue | matching/similarity.go:105-106 | a non-empty string scores (2 + its share of the length) / 3 against its own extension |
| JaroLaws.CompatibleIff | matching/similarity.go:49-80 | characters may be matched if equal and in one place, or less than half the longer length apart |
| Jaro.FullSymmetric | matching/similarity.go:65-106 | matches and transpositions together give the same score when the strings are swapped |
| Jaro.ShortcutAgrees | matching/similarity.go:35-37 | the equal-string shortcut agrees with the full algorithm exactly on non-empty strings |
| Jaro.MatchedSize | matching/similarity.go:57-84 | both match arrays hold one mark per match |
| Jaro.MarkAhead | matching/similarity.go:96-98 | the transposition pointer never leaves the array |
| Jaro.FindPartner | matching/similarity.go:67-83 | the window search finds the first unmarked equal character |
| Jaro.FindMatches | matching/similarity.go:57-84 | the matching loop counts and marks the greedy pairing |
| Jaro.CountTranspositions | matching/similarity.go:90-103 | the two-pointer scan counts the places where the matched characters, read in order, differ |
| Jaro.JaroSimilarity | matching/similarity.go:34-107 | returns the Jaro similarity |
| Jaro.WinklerProperties | matching/similarity.go:109-138 | Jaro-Winkler is between Jaro and 1, symmetric, and 1 exactly on equal strings |
| JaroLaws.WinklerValue | matching/similarity.go:120-137 | Jaro-Winkler makes good a tenth of what Jaro takes off for each of the first four characters on which the strings agree from the start |
| Jaro.PrefixLength | matching/similarity.go:120-134 | the loop finds the length of the longest common prefix of at most four |
| Jaro.JaroWinkler | matching/similarity.go:111-138 | returns the Jaro-Winkler similarity, with the longest common prefix of at most four |
| Similarities.TokenJaccard | matching/similarity.go:214-243 | returns shared tokens over all tokens |
| Similarities.JaccardProperties | matching/similarity.go:212-243 | in [0, 1], symmetric, 1 exactly on equal token sets, 0 exactly on different disjoint ones |
| Similarities.JaccardValue | matching/similarity.go:212-243 | times all tokens, each counted once, it is the number of common ones |
| Similarities.ComputeSimilarity | matching/similarity.go:8-27 | each name gives its own function, and an empty value or an unknown function 0 |
| Similarities.SimilarityProperties | matching/similarity.go:8-27 | every similarity is in [0, 1] and symmetric, and a value scores 1 against itself exactly when non-empty under a known function |
| Matcher.ScoreCandidate | matching/matcher.go:267-289 | returns the weighted sum over fields with positive weight |
| Matcher.ScoreTerm | matching/matcher.go:267-289 | one field counts its weight, if positive, times the similarity of the two values as its normaliser leaves them |
| Matcher.ScoreConcat | matching/matcher.go:267-289 | scores add up over the fields |
| Matcher.SameFormsScoreAlike | matching/matcher.go:267-289 | records whose fields have the same normal forms score alike |
| Matcher.ScoreRange | matching/matcher.go:265-289 | between 0 and the sum of positive weights, and the same whichever record is the new one |
| Matcher.SelfScoreIff | matching/matcher.go:265-289 | a record scores the full sum against itself if and only if every weighted field has a value after normalisation and a known function |
| Matcher.BuildMergePlan | matching/matcher.go:296-382 | one op per field with a weight or a strategy, strictly sorted, each decided by the two values and the strategy |
| Matcher.PlanFieldMeaning | matching/matcher.go:324-373 | the values, op and reason of a field, from the two values, their normal forms and the strategy |
| Matcher.PlanFields | matching/matcher.go:296-322 | there is an op for exactly the fields with a weight or a strategy |
| Matcher.LessIff | matching/matcher.go:375-381 | the order of ops: the first difference decides, and a proper prefix comes first |
| Matcher.PlanUnique | matching/matcher.go:311-381 | there is exactly one plan for two records, the one that puts the op of each field in its place in any order |
| Replans.DistinctNamesIff | matching/matcher.go:324-373 | with normalisers that tell two values of colliding fields apart, for all records and plans, each field takes the value it should and planning again settles, if and only if no two planned names have one camel-case form |
| Replans.PlainNamesIff | matching/matcher.go:324-373 | the same for every configuration without normalisers |
| Replans.SecondPlan | matching/matcher.go:324-373 | with such names, a plan made after another is carried out writes nothing, and only keeps if and only if the first had no conflict |
| Replans.CollisionBreaks | matching/resolve.go:143-151 | any two planned names with one camel-case form, whose own normalisers tell two values apart, break all of it: one of two offered values is lost and is offered again |
| Replans.ReplanCollision | matching/resolve.go:143-151 | so do "a_b" and "aB" |
| Replans.MergeOutcome | matching/matcher.go:311-374 | carrying out a plan gives a field that shares its camel-case form with no other the new value exactly when it is non-empty, differs after normalisation, and no review or confidence strategy guards a present value; otherwise the field stays; planning again finds the conflict again or keeps the field |
| Replans.ConflictIff | matching/matcher.go:346-392 | a plan has a conflict exactly when some guarded field is offered a different value |
| Replans.CamelIdempotent | matching/resolve.go:153-163 | snake-to-camel leaves its own results alone |
| Replans.CamelJoins | matching/resolve.go:153-163 | a part after an underscore joins those before it with its first letter raised |
| Decisions.RetrieveFuzzyCandidates | matching/matcher.go:200-243 | the first record of each id, token hits before embedding hits, and none found by either lookup is lost |
| Decisions.SortByScore | matching/matcher.go:136-139 | a permutation in descending order of score |
| Decisions.DecideByScore | matching/matcher.go:125-193 | picks a candidate with the highest score; below ReviewZone that means create, from AutoMatch on merge or conflict, in between review |
| Decisions.Match | matching/matcher.go:72-194 | one anchor match merges, several conflict, none falls back to the best score among the first records of the ids hit, and no hit means create |
| Decisions.BandIgnoresOrder | matching/matcher.go:153-193 | best score, band and confidence do not depend on retrieval order or on how ties are ranked |
| Decisions.MatchIgnoresOrder | matching/matcher.go:72-194 | two calls of Match with the same set of hits, from either lookup and in any order, agree on means, band, confidence and best score, and after one anchor match on the whole outcome |
| Traversal.Traverse | store/traverse.go:112-218 | distinct entities, nearest and then eldest first, each at its true shortest distance with a simple path, wherever the limit cuts; each edge of it a row of the table with the direction, type and confidence asked for, each entity entered live, of the type asked for and let through by the filter; none further than one left out; all within MaxDepth when the limit does not cut |
| Traversal.AdjacentIff | store/traverse.go:84-103 | the hops that distances count are exactly those relations and entities |
| Traversal.FollowsIff | store/traverse.go:92-103 | and so are the steps of the query |
| Traversal.Deduplicate | store/traverse.go:160-210 | the row loop keeps the first row of each entity |
| Traversal.LevelSound | store/traverse.go:84-103 | every row of the query is a connected simple walk of allowed edges from a live start through allowed entities |
| Traversal.ShortestRow | store/traverse.go:84-103 | every entity at distance n within MaxDepth has a row of depth n, whose nodes are at distances 0 to n |
| Traversal.ResultsAreBfs | store/traverse.go:105-108 | a returned depth is the breadth-first distance, for any order of ties and any limit |
| Traversal.MissingIsFurther | store/traverse.go:105-108 | an entity within reach is missing only when rows were cut, and then no result is further than it |
| Limits.CompleteIff | store/traverse.go:105-108 | however ties are broken, every entity within MaxDepth is returned if and only if for each of them fewer rows than MaxResults lead to other entities and sort at or before its first |
| Limits.NoRoomLosesOne | store/traverse.go:105-108 | otherwise there is an order of the rows in which such an entity is not returned |
| Limits.OneOfTwo | store/traverse.go:33-34 | two parallel relations and MaxResults 2: in every order one entity is returned of two in reach |
| Traversal.DirectionsAreDual | store/traverse.go:92-94 | outbound edges are inbound ones seen from the other end, and both directions are either |
| Traversal.Defaults | store/traverse.go:60-73 | depth 2 and limit 100 unless given, depth at most 10, options in range unchanged |
| Traversal.ScopedTraverse | scoped.go:172-179 | the same in the graph the merged filter leaves; every node after the start is live, visible in the scope unless the caller's filter has a loophole, and what the caller asked for unless the scope's exclusion drops the caller's |
| Filters.MergedIsVisibleIff | scoped.go:65-94 | the merged query returns only visible entities if and only if the caller's exemptions leave no loophole; none when the caller adds no UnlessTags |
| Filters.MergeNilIsVisible | scoped.go:65-94 | without a caller filter the merged query and the visibility check agree |
| Filters.MergedKeepsBoth | scoped.go:65-76 | what both the scope and the caller's filter let through, the merged filter does |
| Filters.LoopholeExample | scoped.go:71-74 | a filter through which a hidden entity is returned |
| Filters.MergedIsWantedIff | scoped.go:65-76 | the merged query returns only what the caller's own filter lets through if and only if the scope's exclusion drops none of the caller's; always when either excludes nothing |
| Filters.DroppedExample | scoped.go:71-74 | a scope in which a caller who excludes drafts is given drafts |
| EntityStore.RunRecorded | store/store_write.go:435-586 | after any run, which entities exist, their versions and whether they are deleted are the replay of the log, and every logged change named the version the entity had |
| EntityStore.VersionIsCount | store/internal/dbgen/entities.sql.go:497-501 | after any run, a version is the number of standard updates and merges logged since the creation event |
| EntityStore.OneCommitPerVersion | store/internal/dbgen/entities.sql.go:415-419 | two committed writes that named the same version of an entity have its hard delete between them |
| EntityStore.VersionsFromEmpty | store/internal/dbgen/entities.sql.go:415-419 | both for every run from the empty store |
| EntityStore.WriteEffect | store/store_write.go:435-586 | a committed write changed one row, by one version and only if live and at the version named, or created it if absent |
| EntityStore.WriteRow | store/store_write.go:504-546 | an update replaces the data, a merge overlays it field by field, tags accumulate, the type stays, and no other entity changes |
| Effects.WriteCommitsIff | store/store_write.go:435-546 | a create commits if and only if it has data, a type, no malformed id and an id not in use; an update or merge if and only if it has data and a type and names a live entity and its version |
| Effects.WriteErrors | store/store_write.go:435-546 | otherwise which error is reported |
| Effects.RelateEffect | store/store_write.go:383-433 | a relation commits if and only if both ends exist; the table then holds the row exactly as asked for, and every other but one without a URN that it stands in for |
| Links.LinkIff | store/store_write.go:159-183 | in every run from the empty store two entities are related in a way if and only if the log has the creation of that relation and after it neither its deletion nor the hard delete of either end |
| Effects.BatchCommitsIff | store/store_write.go:103-191 | a batch commits if and only if it has at most a thousand ops, all with valid tags and relation types, and each has its preconditions true and commits in the state the ones before leave |
| EntityStore.BatchTrace | store/store_write.go:143-191 | a committed batch had each op's preconditions true in the state left by earlier ops, and logged per op one standard event and then the caller's payloads in order, each with the entity and the tags it had after that op |
| EntityStore.ChecksHold | store/store_write.go:317-342 | the checks find no violation if and only if every precondition holds as documented |
| Effects.CheckErrors | store/store_write.go:317-342 | what a failed precondition is reported as |
| EntityStore.RunIndexed | store/internal/dbgen/anchors.sql.go:128-133 | after any run the anchor index gives each key to its latest claimant unless hard-deleted since, and every owner has a row |
| EntityStore.WriteOwners | store/store_write.go:588-598 | a committed write gives its entity exactly the keys it names, under its type, and no other key changes hands |
| EntityStore.FoundAreLatestClaimants | store/internal/dbgen/anchors.sql.go:25-34 | after any run an unfiltered lookup finds exactly the live entities that were the latest to claim a queried key |
| EntityStore.NoKeyReturns | store/internal/dbgen/anchors.sql.go:128-133 | a key never falls back to an earlier claimant: a new owner has claimed it in the meantime |
| EntityStore.LookupsFromEmpty | store/internal/dbgen/anchors.sql.go:25-34 | what a lookup finds, and sound relations, in every run from the empty store |
| EntityStore.WriteKeepsTypesIff | store/store_write.go:504-598 | a committed write keeps every anchor key under the type its owner is stored with if and only if it creates, claims no anchor, or names the stored type |
| EntityStore.RunKeepsTypesIff | store/store_write.go:504-598 | that holds in every state of a run, inside batches too, if and only if every committed write of the run is such a one |
| EntityStore.FoundHaveType | store/internal/dbgen/anchors.sql.go:25-34 | in such runs from the empty store, a lookup by type finds entities of that type only |
| EntityStore.RetypedExample | store/store_write.go:548-550 | a run in which it finds one of another type |
| EntityStore.DeletedStaysFrozen | store/internal/dbgen/entities.sql.go:131-133 | from a soft delete until a hard delete, in any run, nothing but tags changes in the row, and neither lookup returns the entity |
| Effects.SoftDeleteEffect | store/store_write.go:194-228 | a soft delete succeeds exactly for a live entity, stamps its row, logs one event with its tags and type, and changes nothing else |
| Effects.DeletedIsHidden | store/internal/dbgen/entities.sql.go:131-133 | after it and until a hard delete, whatever runs, no anchor lookup finds the entity |
| Effects.HardDeleteEffect | store/stats.go:135-173 | a hard delete takes the row, its anchors and its relations, and leaves every other |
| EntityStore.DeletedIsUntouchable | store/internal/dbgen/entities.sql.go:364-419 | a batch that would create, update or merge a soft-deleted entity does not commit |
| EntityStore.TagEdits | store/internal/dbgen/tags.sql.go:14-52 | a tag edit decides each tag as asked and touches no other column, no other entity and not the log |
| Effects.TagEditsIff | store/internal/dbgen/tags.sql.go:14-52 | removing a tag always succeeds, setting or adding exactly if the tags are valid; an id without a row is no error |
| EntityStore.RunJoined | store/internal/dbgen/relations.sql.go:702-708 | after any run no relation dangles, and those without a URN are unique for source, target and type |
| Stores.Store.BatchWrite | store/store_write.go:103-141 | a batch that fails leaves every table as it was; one that commits leaves exactly the specified state |
| Stores.Store.ExecuteBatchOps | store/store_write.go:143-191 | the loop applies the ops in order and stops at the first error |
| Stores.Store.ValidateOps | store/store_write.go:107-118 | reports the first op with bad tags or a bad relation type |
| Stores.Store.EvaluatePreConditions | store/store_write.go:317-342 | reports the first violation, in order |
| Stores.Store.FindByAnchors | store/store_write.go:345-371 | each live match of any anchor exactly once |
| Stores.Store.EntitiesHaveTag | store/store_write.go:374-381 | whether any of the entities carries the tag |
| Stores.Store.CreateEntity | store/store_write.go:435-502 | the create transaction, with its errors |
| Stores.Store.ChangeEntity | store/store_write.go:504-586 | the update and merge transaction, with its errors |
| Stores.Store.UpsertAnchors | store/store_write.go:588-598 | each key passes to the entity, in order |
| Stores.Store.InsertEvents | store/events.go:240-278 | appends the standard event and then the caller's, in order |
| Stores.Store.UpsertRelation | store/store_write.go:159-183 | the relation transaction, with its errors: the row as asked for is in the table and its event in the log |
| Stores.Store.DeleteEntity | store/store_write.go:194-228 | for a live entity stamps its row and logs its event, touching nothing else; otherwise reports that there is none and changes nothing |
| Stores.Store.HardDeleteEntity | store/stats.go:135-173 | the event, then the row with its anchors and relations |
| EntityStore.HardDeleteEvent | store/stats.go:143-157 | the event names the entity's type and tags exactly if the entity was live |
| Stores.DeletedIsNeverTraversed | store/traverse.go:80-96 | after a soft delete and until a hard delete, no traversal starts at the entity, passes through it or returns it |
| Stores.DeletedIsUnreachable | store/traverse.go:80-96 | so it is after every soft delete that succeeded |
| Stores.RelatedIsAdjacent | store/traverse.go:84-103 | once a relation has committed, its target is one outbound hop from its source for every traversal that admits both |
| Stores.GraphColumns | store/traverse.go:80-103 | the graph traversed has the columns of the tables |

## Left out

- PostgreSQL itself: statements are atomic steps and transactions all-or-nothing; what READ COMMITTED allows between a precondition read and the commit is not claimed.
- Tables hold one consumer name; a purge of another consumer, which also reaches these letters, is the purge step.
- The external-transaction path of `BatchWrite`, where rollback is the caller's job, and `TxStore.UpsertRelation`, which logs no event.
- Database errors inside the `Consumers.Consumer` object: they are steps of the protocol instead.
- Waking up by LISTEN/NOTIFY, tickers, logging, the size of a backoff and its jitter: a poll may start at any time, and the delay is an input.
- `ListDeadLetters` order, limit and event types: a replay is given the letters it listed.
- Columns that nothing here depends on: acquired_at, updated_at, last_error, evidence, data types, payload contents.
- Token and embedding indexes, embedding and trigram search and their ranking: lookups of the matcher are given their results.
- `buildAnchors` and `buildTokens`, JSON and protobuf encoding, Unicode case tables and white space: fields are maps, and lowercasing, splitting and raising a letter are function parameters.
- Floating-point rounding, UUID generation, the byte lengths of tags (characters are counted), and an operation that sets both an entity write and a relation.
- The order in which adding tags lists them: tags are sets.
- Auto-tagging, `ConnectedEntities` and the other scoped reads, which would only add easy members.
- Sharing of slices between a caller's filter and the merged one: filters are values.
- The code generator, UI, explorer, registries, health and statistics.
