# Verified model of the monitoring backend

A model, in Dafny, of the decision logic of the Go backend, and proofs about
it. The backend watches servers and containers, raises alerts and delivers
them, elects the main load balancer of a site, keeps an inventory of hosts,
interfaces and addresses, stores logs and draws database schemas. `dafny verify
dfyconfig.toml` checks the whole project.

One module models one component:

- `AlertModel`, `AlertMachine`, `AlertCore`, `AlertCooldown`, `AlertOvertaking`,
  `AlertTheorems`, `AlertLaws`, `AlertLateSend`, `AlertPruning` and `AlertQueue`: the alert queue. The two tables and every
  statement that changes them are functions on values; the machine takes them
  as steps that interleave freely, with claiming a batch and delivering its
  rows as separate steps; `Queue` is the same code with fields, loops and
  early exits, proved step by step against those functions. Over every run
  from empty tables: a channel receives an alert at most once per
  announcement, a key has at most one unresolved incident, recovery notices
  pair off with announced incidents, and deliveries of one incident key on one
  channel keep the cooldown.
- `SlidingWindow`: a counter in coarse buckets, exact up to one bucket width.
- `RateLimiter`: the sliding log behind the rate limits, its in-place filter,
  its table with eviction, and the wait a refused caller is told.
- `Election`: the election of the main load balancer, over whole runs.
- `RuleEngine` and `ContainerWatch`: how long a breach has persisted, when a
  container restarts in a loop, and what is told about it, over any history.
- `InterfaceMatching`: the greedy matching of reported interfaces to rows.
- `Addresses`: which server an address belongs to.
- `LogWriter`: bounded queue, batch, retry through an outage, conservation.
- `Migrations`: run-once migrations across runs that are cut off.
- `Ports`: normal form, printer, parser and classification of open ports.
- `Schema`: the most connected tables of a schema and the subgraph they span.

Besides the theorems over runs, each operation has its laws field by field:
what it does to every row, in which case, with the source's own constants.

Where the source works in loops over mutable state, the model has a method or
a class with the same loops, and the method is proved equal to a function on
values; the lemmas are about those functions. Times are integers in
nanoseconds.

Properties of the code that hold only under a condition:

- The cooldown. The dispatcher delivers a row it claimed even if the row was
  resolved in the meantime (`backend/internal/alert/fila.go:350-353`). That is
  harmless unless the key was raised again before the delivery: the new row
  does not know of it, and if it is due within the cooldown the late delivery
  overtakes it. `CooldownKept` proves the cooldown for every run without that,
  and `CooldownBreakableIff` that the condition is exact: a step makes a break
  of the cooldown possible if and only if it overtakes an incident, for a
  positive cooldown. `LateSendBreaksCooldown` is such a run from empty tables.
- The memory of the cooldown. Retention goes by the age of a row
  (`backend/internal/database/retention.go:104-120`).
  `AlertPruning.EarlierIffForgotten` says exactly when deleting rows lets the
  next incident of a key go out too early.
- Distinct interface names. `DistinctIffNoClash` gives the exact condition on
  the stored rows and the report; `InterleavedCollides` is a report of two
  interfaces that fails it. In the database the collision meets the partial
  unique index of
  `backend/internal/database/migracoes/020_telemetria_snmp.sql:22-23`, so the
  transaction would be refused; the same index, with the primary key, is what
  `RowsOk` states of the stored rows.
- The kind of a host. `StoredKindIff` says exactly when cutting the stored
  ports to 128 keeps it; `PrinterIsLost` is a host that loses it.

## Model

| member | source | states |
|---|---|---|
| AlertModel.LiveIncident | backend/internal/alert/fila.go:164-174 | the live incident is the newest unresolved row of the key seen since the cutoff; none is returned only when there is none |
| AlertModel.LastNotice | backend/internal/alert/fila.go:176-184 | the latest announcement over every row of the key, resolved ones included; it is one of theirs and none is later |
| AlertMachine.CountAppend | backend/internal/alert/entrega.go:30-40 | one pass adds exactly one delivery to the count of each channel it reached and none to any other line |
| AlertMachine.DeliveredOnMembers | backend/internal/alert/entrega.go:30-50 | a pass reaches exactly the active channels whose line was due and that answered with success, each once |
| AlertCore.TallyFlags | backend/internal/alert/entrega.go:134-168 | after the consolidation loop each flag is set exactly when some active line has that status |
| AlertCore.TallyNext | backend/internal/alert/entrega.go:157-162 | the wake-up time the loop keeps is attained by a pending active line and is no later than that of any other |
| AlertCore.StepGrows | backend/internal/alert/fila.go:186-305 | in every step a row keeps its key and creation time, never leaves the resolved state, never forgets an announcement and never loses renotifications; no line disappears |
| AlertCore.CloseDuplicatesOneLive | backend/internal/alert/fila.go:294-305 | whatever the table holds, afterwards each key has at most one unresolved row, and the unresolved rows are exactly those that had no newer unresolved row of their key |
| AlertCore.OneLiveStep | backend/internal/alert/fila.go:94-305 | every step of the machine keeps at most one unresolved row per key |
| AlertCore.SentIsAnnounced | backend/internal/alert/entrega.go:170-194 | a pass that ends with the row marked as sent either found it announced or announced it |
| AlertCore.PassQuota | backend/internal/alert/entrega.go:30-40 | a pass that reaches a channel settles its line, which was not settled before, so the entitlement grows by one |
| AlertCore.PassCount | backend/internal/alert/entrega.go:30-40 | a pass adds one delivery to the lines it reaches and none to any other |
| AlertCore.DeliverCounts | backend/internal/alert/entrega.go:15-43 | a pass keeps the deliveries of every line within its entitlement, new lines included |
| AlertCore.StepKeepsCore | backend/internal/alert/fila.go:94-509 | every kind of step keeps the whole invariant, with claim and delivery as separate steps and everything else free to happen between them |
| AlertCore.RunKeepsCore | backend/internal/alert/fila.go:94-509 | every run keeps the whole invariant |
| AlertCooldown.QuietWaits | backend/internal/alert/fila.go:229-305 | recovery, acknowledgement, resolution, dismissal, resumption, claiming and restart never shorten the wait of a row that may still be delivered, because it is open or in the batch |
| AlertCooldown.OnlyEnqueueOpens | backend/internal/alert/fila.go:94-155 | no other step makes a row that may be delivered |
| AlertCooldown.ClaimedAlone | backend/internal/alert/fila.go:480-509 | when a batch is claimed no other row of its incidents is open |
| AlertCooldown.BatchStaysApart | backend/internal/alert/fila.go:341-353 | in every step the incidents of the batch have different keys, and an open row beside one of them was raised since the claim: pending, without lines, in no batch |
| AlertCooldown.NewRowWaits | backend/internal/alert/fila.go:133-141 | a new row of a key waits out the cooldown of every earlier delivery of that key |
| AlertCooldown.RenotifiedElapsed | backend/internal/alert/fila.go:192-195 | a renotified row was last delivered at least a cooldown ago on every channel |
| AlertCooldown.OldRowWaits | backend/internal/alert/fila.go:186-227 | raising an alert does not shorten the wait of a row that was already there, open or in the batch |
| AlertCooldown.OtherRowWaits | backend/internal/alert/fila.go:133-141 | after a delivery that overtakes nothing, any other open row of its key waits out the cooldown |
| AlertCooldown.DeliverFar | backend/internal/alert/entrega.go:30-40 | when a pass reaches a channel, late or not, every earlier delivery of the same incident key there is at least the cooldown old |
| AlertCooldown.StepKeepsSpacing | backend/internal/alert/fila.go:94-509 | every step that overtakes no incident keeps deliveries of one key on one channel a cooldown apart, late sends included |
| AlertCooldown.RunKeepsSpacing | backend/internal/alert/fila.go:94-509 | every run that overtakes no incident keeps deliveries of one key on one channel a cooldown apart |
| AlertOvertaking.ClaimExists | backend/internal/alert/fila.go:480-488 | in any table there is a batch the claiming query may return |
| AlertOvertaking.FallsOut | backend/internal/alert/fila.go:465-478 | with no channel active a row of the batch falls out of the queue, sends nothing, and the row that may still break the cooldown stays deliverable |
| AlertOvertaking.StrikesTwice | backend/internal/alert/entrega.go:30-40 | a row without a line on the channel of an earlier delivery of its key, delivered there within the cooldown, breaks it |
| AlertOvertaking.ThreatBreaks | backend/internal/alert/fila.go:341-356 | an open incident that can be delivered within the cooldown on a channel of its key will be, in some continuation that overtakes nothing, however many rows are due before it |
| AlertOvertaking.BreakableIffOvertakes | backend/internal/alert/fila.go:341-356 | one step from a guarded world makes a break of the cooldown possible exactly when it overtakes an incident |
| AlertTheorems.ReachableCore | backend/internal/alert/fila.go:323-356 | the invariant holds in every world reached from empty tables |
| AlertTheorems.AtMostOncePerAnnouncement | backend/internal/alert/entrega.go:15-50 | in every run a channel receives an alert at most once, plus once per renotification; resuming after an outage never serves a served channel again |
| AlertTheorems.CooldownKept | backend/internal/alert/fila.go:133-146 | in every world reached from empty tables without overtaking, two successful deliveries for one incident key on one channel are at least the cooldown apart, across renotification, reopening, expiry, failure, resumption and late sends |
| AlertTheorems.CooldownBreakableIff | backend/internal/alert/fila.go:341-356 | the condition is exact: after a run that overtakes nothing, one more step leaves a world from which the cooldown can be broken, without overtaking anything again, if and only if that step overtakes an incident |
| AlertTheorems.OvertakingBreaksCooldown | backend/internal/alert/fila.go:341-356 | in every reachable world a late send can be followed by a second delivery of its incident on its channel at any time within the cooldown at which an open incident of the key is due |
| AlertTheorems.OneIncidentPerKey | backend/internal/alert/fila.go:124-147 | in every reachable world a key has at most one unresolved row |
| AlertTheorems.RecoveriesPairOff | backend/internal/alert/fila.go:229-284 | every paired notice belongs to an announced and resolved incident of its key, and no two to one incident |
| AlertTheorems.EveryNoticeIsPaired | backend/internal/alert/fila.go:229-284 | every notice a recovery makes is paired, through the rest of the run, with one announced and resolved incident of its key |
| AlertTheorems.ServedLinesStay | backend/internal/alert/entrega.go:220-281 | a served line stays exactly as it is in every step except the renotification of its incident, which reopens it, counts one renotification and comes at least a cooldown after the last announcement |
| AlertTheorems.RecordedWakes | backend/internal/alert/entrega.go:94-106 | a refused line that may try again wakes up strictly after now |
| AlertTheorems.PassLeavesNothingDue | backend/internal/alert/entrega.go:15-43 | after a pass every active channel has a line and no pending one of them is due |
| AlertTheorems.PassSummary | backend/internal/alert/entrega.go:134-194 | after a pass the row is the priority summary of its active lines, and its wake-up time is exactly the earliest of its pending lines, in the future |
| AlertTheorems.PassTouchesOnlyDue | backend/internal/alert/entrega.go:30-50 | a pass attempts exactly the due lines of active channels and leaves every other line as it was |
| AlertLaws.LiveIs | backend/internal/alert/fila.go:164-174 | the live incident of a key is exactly its newest unresolved row seen, or made, since the cutoff |
| AlertLaws.ReannouncedWasQuiet | backend/internal/alert/fila.go:186-227 | a row that counts one more renotification was open, sent and had its last announcement at least a cooldown ago, or none |
| AlertLaws.ReopenedWasQuiet | backend/internal/alert/entrega.go:269-281 | a served line that changes belonged to a row that was open, sent and at least a cooldown past its last announcement |
| AlertLaws.QuietIsReannounced | backend/internal/alert/fila.go:186-227 | an accepted alert that meets such an incident makes its row pending, due now, with no attempt, the new text and one more renotification, and changes no other row |
| AlertLaws.QuietIsReopened | backend/internal/alert/entrega.go:269-281 | and makes every line of it pending with no attempt and no wait, and changes no other line |
| AlertLaws.RepeatedIsSeen | backend/internal/alert/fila.go:186-214 | any other accepted alert that meets a live incident changes at most the time of its last sight, once a minute |
| AlertLaws.NeverOpenAgain | backend/internal/alert/fila.go:94-305 | no step opens a row that was acknowledged or resolved |
| AlertLaws.AcknowledgedStaysQuiet | backend/internal/alert/fila.go:192-194 | once a row is acknowledged or resolved, no run changes a served line of it or delivers it again on that channel |
| AlertLaws.RecoveryTells | backend/internal/alert/fila.go:229-284 | a recovery closes exactly the unresolved rows of the key, now; when one of them was announced, notices are on and there is text, it adds one row with the recovery key, that text, resolved, pending and due now, and otherwise none |
| AlertLaws.NoticeIsDue | backend/internal/alert/fila.go:358-362 | a pending notice is due exactly from its time on, resolved though it is |
| AlertLaws.NoticeWaitsForPass | backend/internal/alert/fila.go:415-436 | a notice stays pending with its text through every run, dismissals and restarts included, until a pass over it |
| AlertLaws.RecoveryIsNotLost | backend/internal/alert/fila.go:229-284 | both together: the notice of a recovery is there, due at once, and pending until a pass over it, in whatever way the run goes on |
| AlertLaws.NewIncidentIs | backend/internal/alert/fila.go:133-147 | when no incident of the key is live, raising closes the rows of the key as of their last sight and adds one open, pending row, due when the cooldown of the last announcement of the key is over, or now |
| AlertLaws.RefusedIsIgnored | backend/internal/alert/fila.go:94-114 | an alert without key or text, or below the minimum, changes nothing |
| AlertLaws.WaitAfterIs | backend/internal/alert/fila.go:511-520 | the wait that doubles step by step up to the cap is min(base * 2^(n-1), cap) |
| AlertLaws.RefusedIsGivenUp | backend/internal/alert/entrega.go:94-109 | a line that is refused every time waits one, two, four .. times the base, up to the cap, and is given up at exactly the last allowed attempt |
| AlertLaws.RefusalSays | backend/internal/alert/entrega.go:94-109 | one refusal counts one attempt and waits for the next, unless that was the last allowed |
| AlertLaws.AnswersSay | backend/internal/alert/entrega.go:84-116 | a success counts its attempt and clears the error; a channel that is not set up costs no attempt |
| AlertLaws.PassOnLine | backend/internal/alert/entrega.go:45-50 | a line of an active channel is attempted exactly when it is pending and its time has come or it has none |
| AlertLaws.RecoveryKeyIff | backend/internal/alert/fila.go:28 | a recovery key is a key with the suffix |
| AlertLaws.DismissalSettles | backend/internal/alert/fila.go:415-436 | dismissal settles exactly the resolved incidents still pending, and their pending lines: sent if anybody was told, dismissed if nobody was |
| AlertLaws.DismissedIsNotClaimed | backend/internal/alert/fila.go:346-350 | after dismissal no resolved incident is claimed, and what is claimed is pending and due |
| AlertLaws.ResumptionPutsBack | backend/internal/alert/fila.go:438-463 | resumption puts back exactly the open incidents seen within the window that stopped for want of a channel, or failed before the channel was last seen working, with their failed and channel-less lines as if never tried |
| AlertLaws.ClaimIsOldest | backend/internal/alert/fila.go:480-488 | a full batch leaves no due row that is older than one it took |
| AlertLaws.ClaimLeases | backend/internal/alert/fila.go:498-502 | claimed rows are attempted now and due after the lease; nothing else changes |
| AlertLaws.TallyRest | backend/internal/alert/entrega.go:147-155 | the row of a pass has the most attempts and the latest attempt of its active lines, and the first error in the order of the channels |
| AlertLaws.PassMarks | backend/internal/alert/entrega.go:183-194 | a pass that reached a channel is the announcement, any other leaves it; with no channel active the row says so; key, text, status and every other row stay |
| AlertLateSend.LateSendBreaksCooldown | backend/internal/alert/fila.go:341-353 | overtaking happens: a row is claimed, resolved and raised again before its delivery; it reaches the channel, and so does the row raised since, at any later round within the cooldown |
| AlertPruning.LastLeft | backend/internal/database/retention.go:104-120 | after rows are deleted the last announcement of a key is the last one among the rows left |
| AlertPruning.EarlierIffForgotten | backend/internal/database/retention.go:104-120 | a deletion never delays the next incident of a key, and lets it go out earlier exactly when a deleted row announced the key within the cooldown, later than every row left |
| AlertPruning.RecentNoticeIsPrunable | backend/internal/database/retention.go:104-120 | retention may delete an old resolved row announced just now, and the next incident of its key then does not wait |
| AlertQueue.RetryWait | backend/internal/alert/fila.go:511-520 | the doubling loop gives min(base * 2^(n-1), cap) for any n, on 64-bit durations and without overflow, for a cap up to half the range |
| AlertQueue.DismissInTwo | backend/internal/alert/fila.go:415-436 | the two filtered statements do not interfere: together each pending resolved row, with its pending lines, goes to dismissed if nobody was told and to sent if somebody was |
| AlertQueue.ResumeInTwo | backend/internal/alert/fila.go:438-463 | the two selections do not interfere: together they resume exactly the stuck rows, once each |
| AlertQueue.Queue.Raise | backend/internal/alert/fila.go:94-155 | the new tables are those of the step, and an alert that is not queued changes nothing but a time of last sight |
| AlertQueue.Queue.Repeat | backend/internal/alert/fila.go:186-227 | announces again exactly when the incident is open, sent and its last announcement at least a cooldown old or absent; then all its lines are pending with no attempt, otherwise no line changes |
| AlertQueue.Queue.Recover | backend/internal/alert/fila.go:229-284 | closes exactly the unresolved rows of the key; queues exactly when one of them was announced, notices are on and there is text, and then the new row has the recovery key, that text, is resolved, pending and due now |
| AlertQueue.Queue.Ack | backend/internal/api/alerts_handler.go:216-269 | accepted exactly for an existing unresolved row, which becomes acknowledged; no other row and no line changes |
| AlertQueue.Queue.ResolveOne | backend/internal/api/alerts_handler.go:216-300 | accepted exactly for an existing unresolved row, which becomes resolved now; no other row and no line changes |
| AlertQueue.Queue.CloseStale | backend/internal/alert/fila.go:294-305 | afterwards each key has at most one unresolved row, and a table in which that holds is left as it is |
| AlertQueue.Queue.Dismiss | backend/internal/alert/fila.go:415-436 | the two statements leave the tables of the dismissal step |
| AlertQueue.Queue.ResumeAll | backend/internal/alert/fila.go:438-463 | with its early exits it leaves the tables of the resumption step |
| AlertQueue.Queue.Claim | backend/internal/alert/fila.go:480-509 | no claimed row is due again before the lease is over, and when the batch is not full no row at all is due now |
| AlertQueue.Queue.OpenLines | backend/internal/alert/entrega.go:52-82 | afterwards every active channel has a line; lines that were there are unchanged |
| AlertQueue.Queue.Record | backend/internal/alert/entrega.go:84-132 | one answer changes one line: no channel, refused with or without another attempt, or served |
| AlertQueue.Queue.Consolidate | backend/internal/alert/entrega.go:134-199 | the row becomes the summary of its active lines |
| AlertQueue.Queue.AttemptLines | backend/internal/alert/entrega.go:30-40 | the loop attempts every due line of an active channel once and says which channels were reached |
| AlertQueue.Queue.DeliverAlert | backend/internal/alert/entrega.go:15-43 | the whole pass leaves the tables of the delivery step |
| SlidingWindow.Truncate | backend/internal/ssh/window.go:29 | the bucket start is not after the time and less than one width before it |
| SlidingWindow.TruncateStep | backend/internal/ssh/window.go:29-30 | two times share a bucket or their buckets are at least one width apart |
| SlidingWindow.StepOf | backend/internal/ssh/window.go:17-23 | the width is one second or at most a thirtieth of the span, and 31 widths cover the span |
| SlidingWindow.ExpireDrops | backend/internal/ssh/window.go:80-86 | what is left is a suffix, everything dropped had expired and the first bucket left has not |
| SlidingWindow.GroupOrdered | backend/internal/ssh/window.go:29-42 | the buckets of any history in order of time stay at least one width apart |
| SlidingWindow.Live | backend/internal/ssh/window.go:25-53 | the number of events in live buckets lies between the exact counts over the span and over the span plus one width |
| SlidingWindow.LiveHits | backend/internal/ssh/window.go:55-68 | the number of hits in live buckets lies between the exact counts of hits over the span and over the span plus one width |
| SlidingWindow.PushLive | backend/internal/ssh/window.go:25-53 | one event adds one to the live sums if its bucket is live, and nothing if not |
| SlidingWindow.LiveSums | backend/internal/ssh/window.go:48-52 | the live buckets of a history add up to the events whose bucket is live |
| SlidingWindow.ExpireTwice | backend/internal/ssh/window.go:80-86 | expiring after an earlier expiry gives what one expiry gives |
| SlidingWindow.StandsLater | backend/internal/ssh/window.go:70-78 | buckets that answer like the whole history keep doing so as time passes and after expiry |
| SlidingWindow.FewBuckets | backend/internal/ssh/window.go:5-23 | live buckets no later than now are at most the slots plus two |
| SlidingWindow.LiveAnswers | backend/internal/ssh/window.go:25-68 | the sums over the live buckets of a history are within one width of the exact counts |
| SlidingWindow.SweptOk | backend/internal/ssh/window.go:70-78 | sweeping changes no later answer of any key |
| SlidingWindow.Window.DropExpired | backend/internal/ssh/window.go:80-86 | the index loop is the recursive expiry |
| SlidingWindow.Window.Add | backend/internal/ssh/window.go:25-53 | counts the event and answers, for totals and for hits, between the exact counts over the span and over the span plus the larger of one second and a thirtieth of it |
| SlidingWindow.Window.Tidy | backend/internal/ssh/window.go:25-86 | at any time the buckets stored for a key are strictly ordered, at least one width apart, and at most 32 |
| SlidingWindow.PushKeepsOrder | backend/internal/ssh/window.go:29-42 | counting an event for a key keeps its stored buckets in order |
| SlidingWindow.ExpireKeepsOrder | backend/internal/ssh/window.go:80-86 | dropping expired buckets keeps the stored buckets in order |
| SlidingWindow.Window.Recent | backend/internal/ssh/window.go:55-68 | answers for hits between the exact count over the span and over the span plus the larger of one second and a thirtieth of it, without counting; a key with nothing left is dropped |
| SlidingWindow.Window.Sweep | backend/internal/ssh/window.go:70-78 | every key keeps its live buckets, keys without any are dropped, and the invariant stays |
| RateLimiter.FilterInPlace | backend/internal/api/ratelimit.go:247-252 | the in-place filter leaves exactly the live marks, in order, and does not touch the array behind them |
| RateLimiter.UsesStand | backend/internal/api/ratelimit.go:241-266 | after any uses the marks kept are, from the last use on, the grants that are live |
| RateLimiter.AtMostLimitPerWindow | backend/internal/api/ratelimit.go:241-266 | however a key is used, at most the limit of uses is granted in any interval of the span |
| RateLimiter.MarksFit | backend/internal/api/ratelimit.go:241-266 | a key never holds more marks than the limit and holds them in order |
| RateLimiter.FullUntilFirst | backend/internal/api/ratelimit.go:255-259 | a full set of live marks frees a place exactly when its first mark expires |
| RateLimiter.WaitIsExact | backend/internal/api/ratelimit.go:255-261 | a refused caller that waits the time it was given is granted, and when that time is over a second no shorter wait suffices |
| RateLimiter.StaleCountsZero | backend/internal/api/ratelimit.go:83-88 | a key is stale exactly when it counts zero, so dropping stale keys changes no count |
| RateLimiter.WithoutFirst | backend/internal/api/ratelimit.go:93-112 | without the first keys in eviction order, every key gone has fewer marks than any that stays, or as many and an older last mark |
| RateLimiter.Ordered | backend/internal/api/ratelimit.go:93-107 | the candidates are the rows of the table, one each, in eviction order |
| RateLimiter.Limiter.DropStale | backend/internal/api/ratelimit.go:83-88 | exactly the stale keys go |
| RateLimiter.Limiter.DropExcess | backend/internal/api/ratelimit.go:93-112 | exactly the excess goes, and every key gone has fewer marks than any that stays, or as many and an older last one |
| RateLimiter.Limiter.Prune | backend/internal/api/ratelimit.go:78-114 | the table ends within its cap and below it nothing is dropped; a key that still counted goes only when the table ends full and every survivor has more marks, or as many and no older last mark |
| RateLimiter.LockedOutStays | backend/internal/api/ratelimit.go:60-136 | a key that is locked out stays locked out through a pruning as long as some key that stays has fewer marks |
| RateLimiter.GrantedIff | backend/internal/api/ratelimit.go:241-266 | a use is granted exactly while fewer than the limit were granted within the span |
| RateLimiter.LiveSays | backend/internal/api/ratelimit.go:247-252 | of every mark after the cutoff all are live, and of no other any |
| RateLimiter.Limiter.TryUse | backend/internal/api/ratelimit.go:241-266 | grants exactly below the limit, tells the exact wait otherwise, and prunes only after a grant |
| RateLimiter.Limiter.KeepLive | backend/internal/api/ratelimit.go:122-129 | the filter as both callers use it |
| RateLimiter.Limiter.Count | backend/internal/api/ratelimit.go:122-136 | the live failures of a key; a key with none is forgotten |
| RateLimiter.Limiter.Allowed | backend/internal/api/ratelimit.go:54-58 | a login may be tried exactly while both its address and its account are under their limits; asking changes no count |
| RateLimiter.Limiter.Fail | backend/internal/api/ratelimit.go:60-76 | one failure is marked against the address and the account, which never share a key, and the table is pruned |
| RateLimiter.Limiter.Succeed | backend/internal/api/ratelimit.go:116-120 | afterwards the account counts no failure in any window, and no address and no other account lost a mark |
| Election.StrictLeader | backend/internal/malha/eleicao.go:72-91 | the one-pass maximum returns a member exactly when it is a candidate with traffic and strictly more of it than every other candidate |
| Election.LeaderIsUnique | backend/internal/malha/eleicao.go:72-91 | a strict leader is unique |
| Election.Survey | backend/internal/malha/eleicao.go:96-112 | the first loop gives the roles, the incumbent and the sums |
| Election.Choose | backend/internal/malha/eleicao.go:117-168 | the switch gives the verdict on every input: no candidates, no traffic, tie, invalid incumbent, margin and challenges |
| Election.Decide | backend/internal/malha/eleicao.go:93-174 | the decision is the verdict, with every member in the role it should have; without candidates nobody is named, no challenge counted and every role is none |
| Election.OneMain | backend/internal/malha/eleicao.go:252-281 | from any stored roles, after one round the stored main is the one named and there is no other |
| Election.VerdictSays | backend/internal/malha/eleicao.go:117-168 | the count of challenges grows only while the incumbent stays and is challenged, and a candidate incumbent is only replaced by a member beyond the margin |
| Election.ChallengesCount | backend/internal/malha/eleicao.go:133-166 | in every run the count of challenges is the number of consecutive rounds, up to now, that challenged the present main |
| Election.ChangeIsEarned | backend/internal/malha/eleicao.go:133-166 | a main gives way to another only after the configured number of consecutive rounds in which it was main and challenged, and the new one strictly leads |
| Election.CandidateMainStands | backend/internal/malha/eleicao.go:149-156 | a main that is a candidate is only replaced by a member with more than its traffic plus the margin in per cent |
| Election.LeaderTakesOver | backend/internal/malha/eleicao.go:140-167 | a member that strictly leads beyond the margin for the configured number of rounds is main by the last one |
| Election.LeadingMainStays | backend/internal/malha/eleicao.go:149-151 | a main stays main, with no challenges, as long as it strictly leads |
| Election.RoundsAreCovered | backend/internal/malha/eleicao.go:119-141 | every round is without candidates, without traffic, tied, or has a strict leader |
| Election.RolesSay | backend/internal/malha/eleicao.go:99-112 | after a round a member is the main, or in reserve if it is a candidate, or has no role |
| Election.NoCandidateNoMain | backend/internal/malha/eleicao.go:120-121 | without candidates nobody is main or in reserve and no challenge is counted |
| Election.NoTrafficSays | backend/internal/malha/eleicao.go:123-138 | without traffic a candidate main stays unchallenged, nobody stays nobody, and a main that is no candidate goes only with the last allowed challenge |
| Election.TieEndsInvalidTerm | backend/internal/malha/eleicao.go:143-147 | in a tie a candidate main stays and any other term ends at once, without challenges |
| Election.LeaderSays | backend/internal/malha/eleicao.go:149-166 | with a strict leader: a candidate main that is the leader or within the margin stays unchallenged; any other is challenged, and the leader takes over with the last challenge |
| Election.AbsentMainLeaves | backend/internal/malha/eleicao.go:120-166 | a member that is no candidate for the configured number of rounds in a row is not main after the last one |
| LogWriter.WrittenFates | backend/internal/logstore/store.go:135-160 | every line of a batch has exactly one fate, however the database behaves |
| LogWriter.OutageCost | backend/internal/logstore/store.go:135-185 | a total outage costs exactly the allowed number of inserts per batch, one wait fewer, and the whole batch |
| LogWriter.WaitsDouble | backend/internal/logstore/store.go:162-181 | the waits double from one second and stop at thirty |
| LogWriter.FirstAnswerSays | backend/internal/logstore/store.go:135-144 | a batch that is accepted is stored whole by one insert; without a database it is lost whole after one |
| LogWriter.RefusedIsOneByOne | backend/internal/logstore/store.go:149-160 | a refused batch is inserted line by line: each line is stored or refused by the answer to its own insert and none is lost |
| LogWriter.ShortOutageLosesNothing | backend/internal/logstore/store.go:145-185 | an outage shorter than the allowed inserts loses nothing: the batch is stored by the insert after it |
| LogWriter.FatesPartition | backend/internal/logstore/store.go:73-84 | stored, lost and refused lines add up to all lines done with |
| LogWriter.Writer.Save | backend/internal/logstore/store.go:73-80 | at any time, also while a batch is being written: a line joins the end of the queue, or is counted lost exactly when the queue is full, and nothing the writer works on is touched |
| LogWriter.Writer.InsertEach | backend/internal/logstore/store.go:149-156 | the loop over a refused batch |
| LogWriter.Writer.Write | backend/internal/logstore/store.go:135-160 | the table grows by the stored lines in order and the count of lost lines by the lost ones |
| LogWriter.Writer.Retry | backend/internal/logstore/store.go:162-181 | the retry loop stores the batch exactly when it ends in success |
| LogWriter.Writer.Resend | backend/internal/logstore/store.go:162-185 | the whole resend, with its hand-back to a fresh write |
| LogWriter.Writer.WriteOut | backend/internal/logstore/store.go:96-103 | the batch meets its fates, is emptied and loses its deadline |
| LogWriter.Writer.Take | backend/internal/logstore/store.go:104-117 | a line moves from the queue to the batch, and the 200th sends it out, while producers go on saving; no accepted line is lost from sight |
| LogWriter.Writer.Tick | backend/internal/logstore/store.go:118-119 | at the deadline the whole batch goes out, while producers go on saving |
| LogWriter.Writer.Flush | backend/internal/logstore/store.go:86-90 | when it returns every line accepted before it was called has met its fate, although producers go on saving |
| LogWriter.Writer.Conservation | backend/internal/logstore/store.go:73-185 | the lines saved, also those saved while a batch was being written, are those stored, counted lost, refused one by one, in the batch and in the queue; done lines are a prefix of the queue order |
| RuleEngine.TellsNext | backend/internal/rules/engine.go:243-298 | one round keeps the stored first and last breach those of the longest open chain |
| RuleEngine.RunTells | backend/internal/rules/engine.go:243-298 | over every history of rounds the stored first and last breach are those of the longest open chain |
| RuleEngine.LongestDecides | backend/internal/rules/engine.go:271-274 | of the chains that end now the longest decides |
| RuleEngine.FiresIffPersists | backend/internal/rules/engine.go:243-295 | the rule fires for a target exactly when a chain of breaches ends now, with no settled reading and no gap that is too long, and spans the required duration |
| RuleEngine.ActiveIffAnnounced | backend/internal/rules/engine.go:257-281 | a target is active exactly when a breach was announced since its last settled reading |
| RuleEngine.RecoversIffAnnounced | backend/internal/rules/engine.go:257-269 | recovery is told exactly when a breach announced since the last settled reading is settled |
| RuleEngine.OneRecoveryPerPeriod | backend/internal/rules/engine.go:257-269 | between two recoveries of a target a new breach was announced |
| RuleEngine.BreaksSays | backend/internal/rules/engine.go:47-55 | a reading breaks a rule strictly on its side of the threshold, and any other reading settles |
| RuleEngine.GapSays | backend/internal/rules/engine.go:78-83 | a breach continues one at most ninety seconds old, or two rounds if those are longer |
| RuleEngine.FirstBreach | backend/internal/rules/engine.go:271-274 | the first breach fires exactly when the rule asks for no duration |
| RuleEngine.SilenceChangesNothing | backend/internal/rules/engine.go:243-251 | without a reading nothing is told and nothing changes |
| RuleEngine.Engine.Consider | backend/internal/rules/engine.go:243-295 | the effect of a round on one target, in every branch |
| RuleEngine.Engine.Evaluate | backend/internal/rules/engine.go:228-308 | the collected writes give every target the state of its own round; the rule is marked as fired exactly when some target fires; with the parent down, and for targets without a reading, nothing changes |
| RuleEngine.Engine.Write | backend/internal/rules/engine.go:129-162 | breaches are written first and settled targets cleared last |
| ContainerWatch.RunTells | backend/internal/ssh/gatilhos.go:137-161 | over any samples the counters tell the first growth no quiet stretch has followed |
| ContainerWatch.LoopingIffLoops | backend/internal/ssh/gatilhos.go:137-161 | a container is taken for looping exactly when its samples show two growths with no three quiet samples in a row after the first |
| ContainerWatch.StuckInCreation | backend/internal/ssh/gatilhos.go:172-182 | the stored count is that of the created samples in a row up to now |
| ContainerWatch.CreatedIsDownFromThird | backend/internal/ssh/gatilhos.go:178-182 | a created container is down exactly from its third created sample in a row on |
| ContainerWatch.EventsJoin | backend/internal/ssh/gatilhos.go:87-98 | two legal stretches of events make one |
| ContainerWatch.Watch.Record | backend/internal/ssh/gatilhos.go:137-161 | one inspected sample changes the counters of its container as described and no other |
| ContainerWatch.Watch.Open | backend/internal/ssh/gatilhos.go:87-90 | the item is open and told |
| ContainerWatch.Watch.Close | backend/internal/ssh/gatilhos.go:92-98 | only an open item is told to be back |
| ContainerWatch.Watch.Weigh | backend/internal/ssh/gatilhos.go:176-200 | a container is up exactly when it runs and nothing speaks against it (no restart loop, no kill for memory, no failed health check), and nothing is said exactly of an unknown state or of fewer than three samples of a created one |
| ContainerWatch.Watch.ObserveOne | backend/internal/ssh/gatilhos.go:169-201 | one container is weighed against what was stored about it, and its incident opened or closed by the verdict; nothing about any other changes |
| ContainerWatch.Watch.CloseAbsent | backend/internal/ssh/gatilhos.go:218-224 | the incidents of absent names are closed, each told once |
| ContainerWatch.Watch.Forget | backend/internal/ssh/gatilhos.go:206-238 | all that was stored about an absent container is forgotten together; an empty sample forgets nothing |
| ContainerWatch.Watch.Observe | backend/internal/ssh/gatilhos.go:163-204 | every container whose id and name are its own in the sample is weighed and its incident opened or closed accordingly, absent ones are forgotten, and the told events are always legal |
| InterfaceMatching.ByName | backend/internal/api/network_metrics_ingest.go:318-323 | the row of a name, and none only if no row bears it |
| InterfaceMatching.ByIndex | backend/internal/api/network_metrics_ingest.go:319-330 | the first row of the index, among the unnamed ones or among all, and none only if there is none |
| InterfaceMatching.TakesOwnName | backend/internal/api/network_metrics_ingest.go:335-340 | an interface takes the row of its own name if nobody has |
| InterfaceMatching.TakesUnnamed | backend/internal/api/network_metrics_ingest.go:341-348 | if it cannot, it takes the first unnamed row of its index if nobody has |
| InterfaceMatching.TakesAny | backend/internal/api/network_metrics_ingest.go:341-348 | without a name, and with no unnamed row left, it takes the first row of its index if nobody has |
| InterfaceMatching.TakesNone | backend/internal/api/network_metrics_ingest.go:349-379 | with none of these free it becomes a new row |
| InterfaceMatching.SkipsIffNotAccepted | backend/internal/api/network_metrics_ingest.go:357-371 | what the loop skips is exactly what is not the first of its name, or of its valid index without a name |
| InterfaceMatching.AfterGood | backend/internal/api/network_metrics_ingest.go:357-392 | after any part of the report each accepted interface is matched or new, never both, no row is matched twice, and named interfaces only took rows of their name or unnamed ones |
| InterfaceMatching.NamesStay | backend/internal/api/network_metrics_ingest.go:425-435 | a stored non-empty name never changes |
| InterfaceMatching.AfterOwned | backend/internal/api/network_metrics_ingest.go:357-392 | after any part of the report an accepted interface of a stored name has taken that row, or an unnamed one took it before |
| InterfaceMatching.DistinctIffNotStolen | backend/internal/api/network_metrics_ingest.go:332-392 | names stay pairwise distinct exactly when no unnamed interface takes a row before the interface that bears its name |
| InterfaceMatching.TakenThen | backend/internal/api/network_metrics_ingest.go:373-378 | what an interface takes is decided against the rows used before it and never changes |
| InterfaceMatching.StolenClashes | backend/internal/api/network_metrics_ingest.go:332-392 | every theft goes back to a clash that shows in the rows and the report alone |
| InterfaceMatching.DistinctIffNoClash | backend/internal/api/network_metrics_ingest.go:311-392 | names stay pairwise distinct exactly when rows and report show no clash: an unnamed interface before the one that bears the name of the first row of its index, with no unnamed row left for it |
| InterfaceMatching.NamedFirstIsDistinct | backend/internal/api/network_metrics_ingest.go:311-392 | a report that lists its named interfaces first keeps the names distinct |
| InterfaceMatching.InterleavedCollides | backend/internal/api/network_metrics_ingest.go:311-392 | an interleaved report of two interfaces makes two rows of one name |
| InterfaceMatching.BuildIndexes | backend/internal/api/network_metrics_ingest.go:318-330 | the three indexes built in one pass answer like the look-ups |
| InterfaceMatching.Choose | backend/internal/api/network_metrics_ingest.go:335-350 | the choice through the indexes |
| InterfaceMatching.MetricsAreOnePerAccepted | backend/internal/api/network_metrics_ingest.go:403-410 | one reading per accepted interface, each under a row of its own |
| InterfaceMatching.Reconcile | backend/internal/api/network_metrics_ingest.go:311-411 | the whole pass: one reading per accepted interface with pairwise distinct rows, matched ones under the row they matched |
| Addresses.NewHolderAlone | backend/internal/database/enderecos.go:233-283 | when a server gets an address, whoever else still holds it is out of its scope |
| Addresses.CollectExclusive | backend/internal/database/enderecos.go:142-202 | a report keeps collected addresses exclusive within each scope |
| Addresses.StepExclusive | backend/internal/database/enderecos.go:85-122 | every step (report, alias, replacement of aliases, pruning, changes of servers) keeps collected addresses exclusive among the live servers of a scope |
| Addresses.RunExclusive | backend/internal/database/enderecos.go:85-361 | every run of those steps, however they interleave, keeps collected addresses exclusive |
| Addresses.DisplacedIffIdle | backend/internal/database/enderecos.go:248-283 | a row of another server goes exactly when the reporter may have the address and that server only holds it from a collection older than the window |
| Addresses.OwnerStays | backend/internal/database/enderecos.go:248-283 | an owner that is strong or was heard of within the window keeps its row, and the reporter gets none |
| Addresses.HeldIsOwned | backend/internal/database/enderecos.go:215-263 | an address is refused exactly when another live server, of the same unit or for a global address, has it as its host address (without an agent, or heard of in fifteen minutes) or in a row that is an alias or was seen in fifteen minutes |
| Addresses.ReporterRows | backend/internal/database/enderecos.go:180-201 | the reporter gets a row seen now for every address nobody else has, with origin and first sight kept; its other rows stay |
| Addresses.OtherRows | backend/internal/database/enderecos.go:266-281 | another server loses its row exactly to a reporter in conflict that may have the address, for a collected row not seen for fifteen minutes |
| Addresses.AliasRows | backend/internal/database/enderecos.go:104-106 | aliases are written over anybody: manual, seen now, with the first sight kept |
| Addresses.ReplacedRows | backend/internal/database/enderecos.go:108-122 | replacing drops exactly the aliases of the server that are not listed |
| Addresses.OwnersAreOwned | backend/internal/database/enderecos.go:215-260 | the loop over the candidate rows finds an owner exactly when the tables hold one |
| Addresses.IdlersYield | backend/internal/database/enderecos.go:215-264 | the loop over the candidate rows finds an idle holder exactly when the tables hold one |
| Addresses.Registry.Normalize | backend/internal/database/enderecos.go:147-157 | exactly the usable addresses of the report, each once |
| Addresses.CanonicalOrder | backend/internal/database/enderecos.go:147-157 | they come in the order in which they are first reported: a longer report only adds at the end |
| Addresses.Registry.Survey | backend/internal/database/enderecos.go:248-264 | owners and idle holders, from the rows of the query |
| Addresses.Registry.Divide | backend/internal/database/enderecos.go:266-282 | addresses are split by ownership and the idle rows of the accepted ones are deleted |
| Addresses.Registry.Filter | backend/internal/database/enderecos.go:233-283 | accepts exactly the addresses nobody owns and takes over exactly what only idles |
| Addresses.Registry.UpsertAll | backend/internal/database/enderecos.go:180-201 | rows are inserted or refreshed; a manual write makes a row manual and a collected one keeps its origin |
| Addresses.Registry.RecordCollected | backend/internal/database/enderecos.go:142-202 | the whole report is the step; at most 32 addresses, and nothing for an unknown server |
| Addresses.Registry.AddAliases | backend/internal/database/enderecos.go:104-106 | every usable alias is written, whoever owns it |
| Addresses.Registry.SetAliases | backend/internal/database/enderecos.go:108-122 | aliases outside the list go and the usable ones of the list are written |
| Addresses.Registry.Expire | backend/internal/database/enderecos.go:347-361 | what is left is manual or heard of since the cutoff, what is gone was neither, and exclusive ownership is kept |
| Migrations.RunCommits | backend/internal/database/migracoes.go:122-154 | what a run commits, then what is still missing, is what was missing before; a finished run leaves nothing missing |
| Migrations.DoneIsFull | backend/internal/database/migracoes.go:122-154 | a run that is not cut off is an uninterrupted one |
| Migrations.ResumeIsFull | backend/internal/database/migracoes.go:85-166 | cutting a run off anywhere and running again ends as one uninterrupted run |
| Migrations.RunsCommit | backend/internal/database/migracoes.go:122-154 | over any runs, each cut off anywhere, the commits are the missing versions from the first on, in order; once a run is done, all of them |
| Migrations.MissingAscends | backend/internal/database/migracoes.go:76-81 | the missing versions are in ascending order, none recorded, each from the list |
| Migrations.CommitsOnce | backend/internal/database/migracoes.go:122-154 | no migration but the baseline commits twice and none that was recorded commits at all |
| Migrations.RecordsStay | backend/internal/database/migracoes.go:143-148 | what is recorded never changes, except the row of the baseline |
| Migrations.RunsAreOneRun | backend/internal/database/migracoes.go:85-166 | the first run that is not cut off leaves the table and the answer of one uninterrupted run from the start |
| Migrations.DoneRecordsAll | backend/internal/database/migracoes.go:122-154 | when a run is done every migration of the list is recorded with its hash in the list |
| Migrations.RefusesIffEdited | backend/internal/database/migracoes.go:125-147 | an uninterrupted run refuses exactly when some recorded migration has another hash, the old hash of the baseline apart; it names the first such |
| Migrations.Order | backend/internal/database/migracoes.go:76-82 | the list comes out in strict order of version, or is refused because two migrations share one |
| Migrations.Database.Commit | backend/internal/database/migracoes.go:236-257 | a transaction that commits leaves its migration recorded with its own hash, so that it never clashes nor commits again unless it is the baseline, and touches no other record; one that does not commit changes nothing |
| Migrations.Database.Upgrade | backend/internal/database/migracoes.go:121-166 | the loop against the records read at the start is the run |
| Ports.StoredIff | backend/internal/discovery/worker.go:239-254 | a port is stored exactly when fewer than 128 distinct ports of the list are below it |
| Ports.NormalIsUnique | backend/internal/discovery/worker.go:239-254 | a list has one normal form |
| Ports.NormalIsStable | backend/internal/discovery/worker.go:239-254 | the normal form is its own normal form |
| Ports.NormalDependsOnPorts | backend/internal/discovery/worker.go:239-254 | the normal form depends only on the set of ports: order, repetitions and invalid numbers do not matter |
| Ports.NormalSays | backend/internal/discovery/worker.go:239-254 | only valid ports of the list are stored, at most 128, and below that all of them |
| Ports.Normalize | backend/internal/discovery/worker.go:239-254 | the result is the strictly increasing list of the smallest distinct ports, at most 128 |
| Ports.ParsedJoins | backend/internal/discovery/fingerprint.go:34-43 | two lists joined by a comma read as one list followed by the other |
| Ports.ParsedPrinted | backend/internal/discovery/worker.go:256-263 | printing any list of ports and reading it gives the list |
| Ports.PrintedIsInjective | backend/internal/discovery/worker.go:256-263 | different lists are printed differently |
| Ports.ParsedArePorts | backend/internal/discovery/fingerprint.go:38-40 | whatever the text, everything read lies between 1 and 65535 |
| Ports.PaddedReads | backend/internal/discovery/fingerprint.go:37 | blanks around a piece do not matter |
| Ports.SignedReads | backend/internal/discovery/fingerprint.go:37-40 | a plus sign does not matter, and a minus sign leaves no port |
| Ports.ZeroReads | backend/internal/discovery/fingerprint.go:37 | leading zeros do not matter |
| Ports.OutOfRangeReads | backend/internal/discovery/fingerprint.go:38-40 | zero and numbers above 65535 leave no port |
| Ports.JoinPorts | backend/internal/discovery/worker.go:256-263 | for every list of integers the text reads back as the normal form of the list, and is the text of that form |
| Ports.ParsePorts | backend/internal/discovery/fingerprint.go:34-43 | the ports in the pieces, in order; everything else is skipped |
| Ports.DeviceType | backend/internal/discovery/fingerprint.go:45-57 | the kind of the first fingerprint whose port is open |
| Ports.SinglePorts | backend/internal/discovery/fingerprint.go:17-32 | what each single port shows |
| Ports.KindStaysIff | backend/internal/discovery/fingerprint.go:45-57 | with fewer open ports the kind stays exactly when it was unknown or a port that shows it stays |
| Ports.StoredKindIff | backend/internal/discovery/worker.go:239-254 | storing the ports keeps the kind exactly when it was unknown or a port that shows it has fewer than 128 distinct ports below it |
| Ports.FewPortsKeepKind | backend/internal/discovery/worker.go:250-252 | with at most 128 distinct ports the kind always survives |
| Ports.PrinterIsLost | backend/internal/discovery/worker.go:250-252 | with 128 low ports open besides 9100 a printer is stored as something else |
| Schema.Degrees | backend/internal/api/esquema_handler.go:286-300 | the counters are the degrees: how many relations between existing tables touch a table |
| Schema.LessIff | backend/internal/api/esquema_handler.go:305-311 | texts are compared at the first place where they differ, and a text comes before its continuations |
| Schema.TouchesSays | backend/internal/api/esquema_handler.go:288-298 | a relation counts for a table it names at one end if both tables it names exist |
| Schema.Sort | backend/internal/api/esquema_handler.go:302-313 | the sort orders the tables and is stable: each key keeps its tables, in their order |
| Schema.SortIsUnique | backend/internal/api/esquema_handler.go:302-313 | a list has one stable order |
| Schema.TopTables | backend/internal/api/esquema_handler.go:302-316 | exactly the asked number of tables is chosen, chosen and omitted make up all, and no omitted one outranks a chosen one |
| Schema.CutOfSame | backend/internal/api/esquema_handler.go:370-375 | sorting the chosen tables again does not change the choice |
| Schema.KeptIsAllKeysAndFirstPlain | backend/internal/api/esquema_handler.go:318-342 | no key column is lost, the plain ones kept are exactly the first of them up to the limit, and primary keys are listed in order |
| Schema.Columns | backend/internal/api/esquema_handler.go:318-342 | the loop keeps those columns in their order, each with its name, type, nullability and primary mark, and lists the primary keys |
| Schema.KeptCounts | backend/internal/api/esquema_handler.go:323-334 | every primary and foreign key column is kept, and of the others as many as the limit allows |
| Schema.AtMostEightPlain | backend/internal/api/esquema_handler.go:323-334 | a table shows at most eight columns that are no key |
| Schema.PrimaryNamesIff | backend/internal/api/esquema_handler.go:324-326 | the keys of a table are the names of its primary columns |
| Schema.ColumnsOfIs | backend/internal/api/esquema_handler.go:361-368 | the columns of a table are those that name its schema and table |
| Schema.ColumnsOfAppend | backend/internal/api/esquema_handler.go:361-368 | the columns of a table keep the order of the payload |
| Schema.GroupColumns | backend/internal/api/esquema_handler.go:361-368 | each drawn table has the columns of its key, in their order |
| Schema.BetweenIff | backend/internal/api/esquema_handler.go:396-402 | a relation is kept exactly when both its ends are drawn |
| Schema.BetweenAppend | backend/internal/api/esquema_handler.go:396-413 | the kept relations keep the order of the payload |
| Schema.SelectRelations | backend/internal/api/esquema_handler.go:396-413 | the kept relations, in their order |
| Schema.SchemasOf | backend/internal/api/esquema_handler.go:377-394 | the schemas of the tables, each once, in order |
| Schema.Choose | backend/internal/api/esquema_handler.go:350-355 | all tables, or the most connected when there are more than the limit |
| Schema.TableViews | backend/internal/api/esquema_handler.go:380-393 | each table with its columns and primary keys |
| Schema.Assemble | backend/internal/api/esquema_handler.go:344-423 | the drawing: cut exactly above the limit, to exactly the limit; the chosen tables in order of key with their columns, the relations between them in order, and the schemas each once in order |
| Schema.OmittedAreNoMoreConnected | backend/internal/api/esquema_handler.go:302-316 | every drawn table has at least the degree of every omitted one, and of equal degree its key comes first |
| Schema.CutIsDetermined | backend/internal/api/esquema_handler.go:302-316 | an ordered choice is the beginning of the one stable order of all tables |
| Schema.DrawingIsClosed | backend/internal/api/esquema_handler.go:396-402 | a relation is drawn exactly when there are drawn tables at both ends, and without a cut exactly when both ends exist |

## Left out

Across the project:

- Statements and transactions of the database are atomic table functions, and
  bookkeeping writes succeed; the source only logs their failure. A crash
  between a channel's success and the write that records it, which repeats the
  delivery, is not modelled.
- HTTP, sessions and permissions, SSH, the channels' clients, text rendering,
  trimming and severities, logging, metrics and the fallbacks without a
  database. An alert enters with its text rendered and a flag that says whether
  it is below the minimum severity; a channel answers with an arbitrary result.
- Configuration is constant: cooldown, windows, limits, attempts and rounds.
- Go maps are iterated in any order; sorts of the standard library are
  insertions with the same result.

Alert queue:

- AlertTheorems.CooldownKept: rows are never deleted in these runs; what a
  deletion by retention does to the next incident of a key is stated apart, in
  `AlertPruning`. Recovery notices are excepted, because their rows are born
  resolved and never wait.
- AlertTheorems.OvertakingBreaksCooldown: the interval of the dispatcher's
  ticker is not modelled, so several rounds may share one instant.
- Raising an alert is one step; two concurrent raises of one key could both
  find no live incident. There is one dispatcher.
- AlertQueue.Queue.Ack: reading the status and writing the row are one step. In
  the source the write has no condition on the status
  (`backend/internal/api/alerts_handler.go:239-259`), so an acknowledgement that
  read an open row may revive it after a recovery resolved it in between.
- AlertQueue.Queue.ResolveOne: likewise one step; a late write resolves a row
  that is already resolved, at a later time.
- AlertQueue.Queue.Claim: the rows its query returns are a parameter,
  constrained to the oldest due rows up to the batch size.
- AlertQueue.RetryWait: asks that the cap is at most half the range of a
  duration; the configured cap is one hour.
- The measurement of the queue and the order of alerts below the minimum
  severity.

Windows and limits:

- SlidingWindow.Window.Add: the clock does not run backwards and times are not
  before the zero time; the source takes the clock it is given.
- SlidingWindow.Window.Recent: buckets are values, so the sharing of one backing
  array between successive slices of a key is not modelled.
- RateLimiter.AtMostLimitPerWindow: is about a key that is not evicted; what
  eviction may drop is stated by `Prune`.
- RateLimiter.Limiter.TryUse: marks are values that pass through a buffer of
  the filter's own, so the reuse of the stored slice's array is only in
  `FilterInPlace`. A limit of zero is excluded; the configuration refuses it.
- The normalisation of account names, proxies and client addresses.

Election:

- The margin is compared in integers, not in floating point.
- The announcement of a change, and the writes of single roles: a round stores
  all roles of the group. The members of a group are fixed over a run.

Rules, containers and other watchers:

- Which rules and targets are enabled, the age of metrics, and messages.
- RuleEngine.Engine.Evaluate: whether the queue accepts an alert is a function
  of the target.
- ContainerWatch.Watch.Observe: the exact state is stated of the containers whose
  id and name no other container of the sample has; that events are legal, and
  that what is absent is forgotten, for all samples.
- The brute-force detector and the health of the load balancer, which count
  through the sliding window, and the parsing of their log lines.

Interfaces and addresses:

- Fields of an interface other than index and name, and the checks of the
  report before the reconciliation.
- The unit of a server does not change and a removed server does not come back.
- A report is one step; two reports at once could both find an address free.
- Addresses.Registry.Filter: the rows of the candidate query are a parameter,
  constrained to exactly what the query selects. Which owner is named in a
  refusal, and when a refusal is told, are not modelled.
- Reading an address, and whether it means the same everywhere, are opaque
  functions.

Logs and migrations:

- LogWriter.Writer.Write: the database is a finite script of answers followed
  by one answer for ever. A database that alternates between an outage and
  another error without end would make the source's mutual recursion endless.
- LogWriter.Writer.Take: what producers save during a write comes in while its
  inserts are under way, a finite amount in all; with producers that never
  pause, a flush in the source need not end.
- Migrations.RunsAreOneRun: all runs have the same list of migrations, and a
  run is cut off before a commit; a commit whose confirmation is lost counts as
  a run cut off after it. The effect of the SQL is not modelled.

Ports and schemas:

- Ports.ParsePorts: text is a sequence of characters, so bytes that are not
  valid UTF-8 are not modelled.
- Schema.Assemble: keys are compared as the source builds them, so two tables
  whose schema and name join to one key share columns and relations, as they do
  in the source.
- Trends, tokens, and everything in the frontend.
