# DateNow: a model of the dating backend and its proofs

DateNow is a dating application: a Go backend over PostgreSQL 16 and a Flutter client. This project
models the stateful parts of it and proves what they keep over whole runs.

| file | part |
|---|---|
| `Tables.dfy` | the tables as one value, each transaction as a function, serial runs of transactions |
| `TransactionLaws.dfy` | a second account of the transactions, row by row and in plain amounts, proved of the first |
| `Store.dfy` | the same transactions as methods of a class, statement by statement, proved against `Tables` |
| `StatusRuns.dfy`, `Moderation.dfy`, `MatchHistory.dfy`, `AccountRuns.dfy`, `LocationRuns.dfy`, `Nearby.dfy`, `Ranking.dfy` | properties of serial runs and of the two discovery queries |
| `LocationRace.dfy` | location updates whose statements interleave |
| `AcceptProtocol.dfy`, `AcceptOutcomes.dfy`, `Requests.dfy` | accepting a join request as an interleaving of statements with row locks, next to joins and blocks; which acceptances can still commit |
| `Hub.dfy`, `HubHistory.dfy` | the WebSocket hub with its connections; what it does as a function of the steps alone |
| `RateLimit.dfy`, `Calendar.dfy` | the token bucket; the calendar behind the call quota and the subscriptions |
| `AuthTokens.dfy` | refresh-token rotation on the server |
| `RefreshQueue.dfy`, `RefreshHistory.dfy` | the refresh queue of the client; what becomes of its requests as a function of the steps alone |
| `Octets.dfy`, `Base64.dfy`, `Password.dfy`, `ProofOfWork.dfy` | the password string; the leading-zero count |

`Store.Database` holds the tables in fields. Each method promises that the new tables are the
transaction's function of the old ones, and `Execute` keeps `Valid()`: the tables are what the ghost
log makes of an empty database. The lemmas about `History` and `Run` therefore speak about the tables
at any time.

What a transaction, the hub or the refresh queue does is written down twice, once the way the code does
it and once as a result to be expected, without the functions that compute it: `TransactionLaws`, `HubHistory`,
`RefreshHistory`, `MatchHistory`, and the laws in plain amounts in `RateLimit`, `Nearby`, `AuthTokens`,
`Password` and `Base64`. A change to one account alone does not verify.

## What is assumed

- Time is one clock that never goes back, in microseconds and UTC. The token bucket does not need the
  order: its bound holds for timestamps in any order.
- `float64` amounts, distances and speeds are real numbers; the haversine distance is an arbitrary
  function of two positions. Only the travel bound asks something of it (the triangle inequality).
- Signing and SHA-256 are injective, so a refresh token stands for its hash. Argon2id is an arbitrary
  function that returns as many bytes as it is asked for.
- Transactions are atomic and serial, except in `AcceptProtocol` and `AcceptOutcomes`, where
  statements interleave under Read Committed (sections 13.2.1 and 13.3.2 of the PostgreSQL 16
  documentation).
- A location update opens no transaction; in the store and in `LocationRuns` its statements are taken
  together all the same. `LocationRace` says what is left of the travel bound when they interleave.
- `LEAST($1, $2)` and `GREATEST($1, $2)` (`internal/repository/postgres/discovery_repository.go:206-220`)
  compare user identifiers, as the columns do. The two parameters have no type of their own there; if
  the database took them for text, the insert would be refused. All match results rest on this reading.
- Identifiers come from a counter; only their freshness is used. A join request is named by its
  unique (status, requester) pair, which is sound because request rows are never deleted.
- The order of `ORDER BY` is completed by identifier, so that a query has one result.
- A rejected statement (missing user, missing status) leaves the tables as they were.

## What turned out not to hold

- **A status can be accepted twice.** A transaction that has seen its request pending waits for the
  row lock; the winner commits and rejects that request; the requester joins again, which turns the
  row back to pending; the waiter re-checks its own row only, not the status flag, and commits too.
  `AcceptOutcomes.SecondCommitIffWaiter` says exactly when this can follow a first commit, and
  `TwoCommitsPossible` is such a run. Inserting a first-time request cannot do it, because its
  foreign-key check waits for the lock on the status row. In serial runs it cannot happen at all.
- **A request can be accepted on a status that a block has just closed**, for the same reason:
  `AcceptOutcomes.ClosedCommitIffLooked` says exactly when, `AcceptedAfterBlock` is such a run without
  any re-join, and `AcceptProtocol.CommitIsSerial` says that this is the one way in which a commit differs
  from the transaction executed alone.
- **Two acceptances can block each other** (`AcceptOutcomes.DeadlockFrom`, `DeadlockPossible`). An
  acceptance in flight gets through without an abort of any acceptance exactly when no other is in
  flight (`CommitIffAlone`).
- **The profile query returns nobody.** Nothing writes `target_gender_preference`, and the query
  admits no candidate while it is NULL (`Nearby.NobodyNearby`).
- **A request that joins the client's queue during the replay is lost**, with everything behind the one
  being replayed (`RefreshQueue.LateJoinLosesRest`; `LossPossible` is such a run). `NoneLostIffOrderly`
  says exactly when none is lost.
- **The client's refresh can hang for good** (`RefreshQueue.RetryHangs`, `HangPossible`): a replayed
  request that is refused with 401 again takes a new turn in the interceptor, which sits on the client
  it replays with. If that turn joins the queue, or the token storage throws in it, the replay never
  returns. In the model these are the only ways: `ComesBackIffNotHung` says that otherwise the
  interceptor can always come back to idle, `MovesUnlessHung` that it always has a next step, and
  `RefreshIsBounded` that it cannot take more steps than the requests that joined call for.
- **Premium has a third reading**: the call tokens use the flag alone
  (`internal/repository/postgres/call_repository.go:31-49`), which stays set after a lapse until the
  next counted call. `AccountRuns.FlagAgrees` says exactly when it agrees with the two gates.
- **The travel bound fails between two positions that were checked against the same one**
  (`LocationRace.SiblingsOutOfReach`), which takes two updates of one user at a time;
  `InterleavedBound` is what holds in every interleaving.
- **A redeemed refresh token is still good** right afterwards exactly when it was redeemed in the second
  it was issued in (`AuthTokens.StillGoodIffSameSecond`).
- **The all-zero digest fails** every proof-of-work difficulty above zero
  (`ProofOfWork.AcceptsIffBelow`).
- The comment at `internal/service/location_service.go:20` speaks of 1000 km per second; the code
  compares kilometres per hour, and so does the model.

## Model

The rows marked **Main** are the main results; the others are what they rest on, or smaller properties.

| member | source | states |
|---|---|---|
| AcceptProtocol.AtMostOneCommit | internal/repository/postgres/status_repository.go:127-203 | **Main.** In every interleaving of any number of acceptances of one status with joins and blocks, at most one commits, as long as no request is reopened under a transaction that waits for its row. |
| AcceptProtocol.CommitIsSerial | internal/repository/postgres/status_repository.go:165-196 | **Main.** Every commit of such a run has the effect of the whole transaction executed alone at that moment exactly when no block has closed the status in between; after a block its request is accepted all the same, and the other pending rows are rejected except those reopened since. |
| AcceptProtocol.LoserOnlyAborts | internal/repository/postgres/status_repository.go:139-163 | A transaction that had locked its own request and then sees another one commit has aborted. |
| AcceptProtocol.RunKeeps | internal/repository/postgres/status_repository.go:127-203 | The protocol invariant (who holds which lock, what was written so far, whose requests are settled by whom) holds after every orderly run. |
| AcceptProtocol.NoOrphans | internal/repository/postgres/status_repository.go:128-132 | In every run each row lock belongs to a transaction that needs it, on a row that exists, so none survives its owner. |
| AcceptOutcomes.SecondCommitIffWaiter | internal/repository/postgres/status_repository.go:111-203 | **Main.** After a first commit, a second one is reachable exactly when some transaction is still waiting for its row. |
| AcceptOutcomes.ClosedCommitIffLooked | internal/service/moderation_service.go:48-79 | **Main.** In any run whatever, on a status closed by an acceptance or a block, an acceptance can still commit exactly when one got past its first look while the status was open. |
| AcceptOutcomes.CommitIffAlone | internal/repository/postgres/status_repository.go:139-196 | **Main.** After any orderly run, an acceptance in flight can commit in some continuation that aborts nothing but blocks holding a lock exactly when no other acceptance is in flight. |
| AcceptOutcomes.WayForever | internal/repository/postgres/status_repository.go:139-183 | Two acceptances that hold their own requests and have still to reject each other's stay so, and neither commits, in every continuation until one of them aborts. |
| AcceptOutcomes.InFlightInTheWay | internal/repository/postgres/status_repository.go:139-183 | After any orderly run, any two acceptances in flight are in that situation. |
| AcceptOutcomes.ReopenedWaiterCommits | internal/repository/postgres/status_repository.go:111-163 | In every reachable state with a commit and a waiter, a continuation lets the waiter commit a second acceptance. |
| AcceptOutcomes.QuietForever | internal/repository/postgres/status_repository.go:139-153 | On a closed status with nobody past the first SELECT, no continuation commits anything. |
| AcceptOutcomes.AloneCommits | internal/repository/postgres/status_repository.go:139-196 | From its first look on, a transaction left alone commits and decides the requests whatever the status flag says: no later statement reads the flag. |
| AcceptOutcomes.TwoCommitsPossible | internal/repository/postgres/status_repository.go:111-203 | A concrete run in which two acceptances of one status commit. |
| AcceptOutcomes.AcceptedAfterBlock | internal/service/moderation_service.go:48-79 | A concrete run, without any re-join, in which an acceptance commits on a status that a block has closed before. |
| AcceptOutcomes.BlockRuns | internal/service/moderation_service.go:48-83 | A block that runs alone on an open status rejects the pending request of the pair and closes the status. |
| AcceptOutcomes.DeadlockFrom | internal/repository/postgres/status_repository.go:155-183 | Any two acceptances that have seen different requests pending, with nothing locked, can come to wait for each other. |
| AcceptOutcomes.DeadlockPossible | internal/repository/postgres/status_repository.go:155-183 | Such a mutual wait is reachable from an initial state in an orderly run. |
| AcceptOutcomes.OnlyAbortEndsDeadlock | internal/repository/postgres/status_repository.go:155-183 | No continuation without an abort of one of the two ends that mutual wait. |
| TransactionLaws.AcceptTakesEffect | internal/repository/postgres/status_repository.go:139-196 | **Main.** At the end of any history an acceptance changes the tables exactly when the request is pending and the caller owns its status, which is open and has not expired; the request is then accepted. |
| TransactionLaws.AcceptLaw | internal/repository/postgres/status_repository.go:139-196 | The same from any tables, with every row: the other pending requests of the status are rejected, the status is closed, and nothing else changes. |
| TransactionLaws.JoinedCanBeAccepted | internal/repository/postgres/status_repository.go:111-163 | **Main.** Whoever joins an open status is accepted by its owner as long as its time has not run out, by nobody else and no longer. |
| TransactionLaws.JoinLaw | internal/repository/postgres/status_repository.go:111-125 | A join makes the request pending when the status and the user exist, and changes nothing else. |
| TransactionLaws.CreateStatusLaw | internal/repository/postgres/status_repository.go:22-39 | A new status is open, of its owner, at its place, for the hours asked for or 24; nothing else changes. |
| TransactionLaws.BlockRequestsLaw | internal/service/moderation_service.go:48-61 | A block rejects exactly the pending requests between the two and keeps the state of every other. |
| TransactionLaws.BlockStatusesLaw | internal/service/moderation_service.go:63-79 | **Main.** After a block a status is open exactly when it was open and no request between the two for it is rejected; it changes in no other way. |
| TransactionLaws.BlockRestLaw | internal/service/moderation_service.go:30-46 | Exactly the matches of the two go, exactly with their messages, the block is recorded, and nothing else changes. |
| TransactionLaws.BlockNeedsTwo | internal/service/moderation_service.go:20-37 | A block of oneself or with an unknown user changes nothing. |
| TransactionLaws.SendLaw | internal/service/chat_service.go:36-96 | **Main.** A message is sent exactly by a user of an existing match, as soon as either of the two has premium. |
| TransactionLaws.RegisterLaw | internal/service/auth_service.go:63-81 | The rows of a new user, with a trial of seven days; a known user is left alone. |
| TransactionLaws.TrialLasts | internal/service/chat_service.go:77-79 | A new user has premium for exactly seven days. |
| TransactionLaws.CallLaw | internal/middleware/quota.go:57-104 | A call leaves a trace exactly without premium, and with a reset due or fewer than five calls on the counter; with every column. |
| TransactionLaws.FiveCallsPass | internal/middleware/quota.go:74-104 | **Main.** Of any number of calls made at once without premium, exactly as many are let through as the month has left of its five. |
| TransactionLaws.PurchaseLaw | internal/service/billing/service.go:110-122 | A purchase adds the calendar month that begins at its moment to what is still running, or starts it. |
| TransactionLaws.MoveLaw | internal/service/location_service.go:40-104 | A position is stored exactly when there was none or the way is no faster than 1000 km an hour, and no longer than 1 km when no time has passed; otherwise the user is shadowbanned. |
| StatusRuns.AcceptedAtMostOnce | internal/repository/postgres/status_repository.go:111-203 | **Main.** Over every serial run of all transactions each status is accepted at most once, although joining turns decided requests back to pending. |
| StatusRuns.DecidedClosedRun | internal/repository/postgres/status_repository.go:165-192 | In every run a decided request belongs to an inactive status. |
| StatusRuns.BlockCloses | internal/service/moderation_service.go:48-79 | Every request that a block rejects belongs to a status the same block closes, so the invariant survives blocks. |
| StatusRuns.InactiveForever | internal/repository/postgres/status_repository.go:185-192 | No transaction makes an inactive status active again. |
| StatusRuns.RejoinReopens | internal/repository/postgres/status_repository.go:111-125 | After any run a join leaves the request pending, decided or not, and on a closed status nobody can accept it. |
| StatusRuns.AcceptDecides | internal/repository/postgres/status_repository.go:165-192 | An acceptance decides the requests of its status all at once, closes it, and touches no other status or its requests. |
| StatusRuns.BlockLeavesNoOpenStatus | internal/service/moderation_service.go:48-79 | In every reachable state a block leaves no active status of one user to which the other has a request, decided requests included. |
| StatusRuns.BlockOnOneStatus | internal/service/moderation_service.go:48-79 | On one status with a pending request of the pair, the block of the serial store does what the block of the statement-level protocol does when it runs alone. |
| StatusRuns.ProtocolStartsHere | internal/repository/postgres/status_repository.go:127-203 | Every status of every serial run is a proper starting state of the statement-level protocol. |
| MatchHistory.MatchesByHistory | internal/repository/postgres/discovery_repository.go:157-232 | **Main.** After any run two users have a match exactly when some like met the other side's standing like and no block between them came later. |
| MatchHistory.LikesByHistory | internal/repository/postgres/discovery_repository.go:168-203 | The swipes table says "like" exactly when the latest swipe of the run that reached the table was one. |
| MatchHistory.SwipesByHistory | internal/repository/postgres/discovery_repository.go:168-177 | After any run the swipes table holds the latest swipe of every pair that reached it, likes and dislikes alike, and no other. |
| MatchHistory.UsersByHistory | internal/service/auth_service.go:63-81 | Users are exactly those whose registration is in the run. |
| MatchHistory.HasMatchNext | internal/repository/postgres/discovery_repository.go:179-225 | One more event makes a match exactly by a like that meets a like, and removes one exactly by a block between the two. |
| MatchHistory.MatchesAlwaysOk | migrations/0001_init.sql:67-76 | In every run matches are canonical (smaller id first), never with oneself, between existing users, and unique for each pair. |
| MatchHistory.MatchIdStable | internal/repository/postgres/discovery_repository.go:205-225 | **Main.** Until a block comes between them, two matched users keep one and the same match id. |
| Moderation.BlockIdempotent | internal/service/moderation_service.go:19-86 | **Main.** Blocking twice equals blocking once, on all tables. |
| Moderation.BlockSymmetric | internal/service/moderation_service.go:39-79 | Apart from the block row, blocking in either direction has the same effect. |
| Moderation.BlocksCommute | internal/service/moderation_service.go:19-86 | **Main.** Any two blocks, overlapping pairs included, lead to the same tables in either order. |
| Moderation.BlockSeparates | internal/service/moderation_service.go:39-79 | **Main.** After a block the pair has no match, no message of a former match, no pending request, and no active status with a rejected request between them. |
| Moderation.BlockTouchesOnlyThePair | internal/service/moderation_service.go:39-79 | Matches, messages, requests and statuses that do not concern the pair are kept as they were. |
| Moderation.MessagesAlwaysOk | migrations/0003_billing_chat.sql:24-30 | **Main.** In every run every message belongs to an existing match, and its sender is one of the two. |
| Moderation.BlockedForever | internal/service/moderation_service.go:30-37 | No transaction takes a block back. |
| Nearby.ProfileQuery | internal/repository/postgres/discovery_repository.go:32-121 | **Main.** What the profile query returns, in full: profiles that meet every condition, with their own distance, nearest first, at most as many as asked for or 50; and every such profile within the radius unless the list is full of others no farther. |
| Nearby.StatusQuery | internal/repository/postgres/status_repository.go:42-78 | **Main.** The same for the status query: the distance is the one from the given position, and among equals the newest comes first. |
| Nearby.RadiusIsPrefix | internal/repository/postgres/discovery_repository.go:32-121 | **Main.** For every radius and limit the radius query returns the front of the unbounded query, up to the first row that is too far. |
| Nearby.NearestAreShown | internal/repository/postgres/discovery_repository.go:55-74 | Every candidate near enough is on the result, unless the list is full of candidates that come before. |
| Nearby.BlockedIsHidden | internal/repository/postgres/discovery_repository.go:49-60 | A block in either direction keeps each user out of what the other is shown, profiles and statuses, for every place, radius and limit. |
| Nearby.BlockHidesForever | internal/repository/postgres/status_repository.go:63-75 | **Main.** Once one user has blocked the other, this holds in both directions at every later state, from any starting database. |
| Nearby.SwipedNeverShown | internal/repository/postgres/discovery_repository.go:67-72 | Whoever a user has swiped, in either way, is not shown to that user in any later state. |
| Nearby.ImpossibleMoveHides | internal/service/location_service.go:80-91 | After one impossible move the profile of the user is shown to nobody in any later state; nobody is shown to themselves. |
| Nearby.OverForever | internal/repository/postgres/status_repository.go:70-75 | A closed or expired status is shown to nobody and accepts nobody in any later state, in particular not after re-joins. |
| Nearby.FreshStatusVisible | internal/repository/postgres/status_repository.go:22-39 | A fresh status is visible to exactly those not blocked, for exactly as many hours as asked for, or 24 when the number is out of range. |
| Nearby.NobodyNearby | internal/repository/postgres/discovery_repository.go:62-66 | In every reachable state the profile query is empty, because the preference column is never written. |
| Ranking.RankedIsRanking | internal/repository/postgres/status_repository.go:76-77 | The specification of ORDER BY is in order and holds exactly the selected rows. |
| Ranking.RankingUnique | internal/repository/postgres/status_repository.go:76-77 | There is only one sequence of which that is true. |
| Ranking.WithinIsPrefix | internal/repository/postgres/discovery_repository.go:106-118 | Filtering by radius before ordering equals cutting the ordered list at the radius. |
| Ranking.LimitIsTop | internal/repository/postgres/discovery_repository.go:73-74 | What LIMIT cuts off comes after everything it keeps. |
| Ranking.TiesAside | internal/repository/postgres/status_repository.go:76-77 | Whichever order the database gives to rows that tie, the result has the same length, distances and creation times as the one of the model. |
| Ranking.Collect | internal/repository/postgres/status_repository.go:84-108 | The loop that takes the rows one by one returns the first rows of the one ranking. |
| Calendar.DateOf | internal/middleware/quota.go:79 | Every day number is the number of the valid Gregorian date returned for it. |
| Calendar.DateOfDayNumber | internal/middleware/quota.go:79 | And each valid date comes back from its own day number: the two are inverse. |
| Calendar.KnownDays | internal/middleware/quota.go:79 | The lengths of the months and two known days. |
| Calendar.AfterJanuary | internal/middleware/quota.go:79 | A month after 31 January is 3 March, or 2 March in a leap year, at the same time of day. |
| Calendar.AddMonthAdvance | internal/middleware/quota.go:79 | **Main.** Adding one month moves forward by exactly the number of days of the month the instant lies in. |
| Calendar.AddMonthBounds | internal/service/billing/service.go:162 | That is between 28 and 31 days. |
| Calendar.AddMonthDay | internal/middleware/quota.go:79 | The day of the month is kept when the next month has it, and otherwise runs over into the month after; the time of day is kept. |
| AccountRuns.AccountsAlwaysOk | internal/middleware/quota.go:57-104 | In every run the call counter is at most 5, resets lie in the past, and an expiry in the future comes with the premium flag. |
| AccountRuns.GatesAgree | internal/service/chat_service.go:77-83 | **Main.** In every reachable state the quota gate, which looks at the expiry only, and the chat gate, which also looks at the flag, agree. |
| AccountRuns.FlagByHistory | internal/middleware/quota.go:69-104 | After any run the premium flag is set exactly for users who were given premium and have not made a counted call since. |
| AccountRuns.FlagAgrees | internal/repository/postgres/call_repository.go:31-49 | **Main.** In every reachable state the gates' premium implies the flag, and the flag read alone agrees with them exactly while premium has not lapsed or once a counted call has followed. |
| AccountRuns.ExpiryStep | internal/service/billing/service.go:110-122 | Only a purchase changes an expiry, and it always moves it forward. |
| AccountRuns.ExpiryNeverBack | internal/service/billing/service.go:110-122 | Over any run an expiry never moves back. |
| AccountRuns.PurchasesAddUp | internal/service/billing/service.go:110-122 | **Main.** Purchases without a lapse add up exactly to the time bought, whatever happens in between. |
| AccountRuns.TimeBoughtBounds | internal/service/billing/service.go:158-164 | The time bought is between 28 and 31 days per purchase. |
| AccountRuns.QuotaBoundRun | internal/middleware/quota.go:74-104 | Within 28 days of any moment the counter, plus one full quota if a reset fell into them, bounds the calls let through. |
| AccountRuns.TenCallsIn28Days | internal/middleware/quota.go:57-115 | **Main.** In no 28 days of any run does a user get more than ten calls through without premium. |
| AccountRuns.ResetsMonthApart | internal/middleware/quota.go:74-88 | **Main.** Any two resets of one counter are more than a calendar month apart. |
| LocationRuns.TravelBound | internal/service/location_service.go:54-104 | **Main.** Over any run two stored positions are at most 1000 km per elapsed hour apart, plus 1 km for each update in between that took no time. |
| LocationRuns.RejectedMove | internal/service/location_service.go:78-104 | A move beyond the limit changes the shadowban flag and nothing else; any other move stores the position and does not touch the flag. |
| LocationRace.InterleavedBound | internal/service/location_service.go:29-104 | **Main.** However the statements of any number of updates interleave: from a moment at which none is checked and unwritten, every later position is within 1000 km per hour of the time between them and of the time by which stored times went back, plus 1 km for each check in between that took no time. |
| LocationRace.SiblingsOutOfReach | internal/service/location_service.go:54-104 | Two updates checked against the same position can leave two stored positions 2000 km apart at the same time. |
| Store.Database.constructor | migrations/0001_init.sql:26-91 | A new database is valid, with an empty log. |
| Store.Database.Execute | internal/repository/postgres/status_repository.go:127-203 | **Main.** Whatever the event, the tables stay what the log makes of an empty database, with the event appended to the log. |
| Store.Database.RegisterUser | internal/service/auth_service.go:63-81 | The whole new state of a registration with its seven-day trial; it fails exactly on a known user. |
| Store.Database.CheckCallQuota | internal/middleware/quota.go:57-115 | The whole new state, and that a call passes exactly with premium or as a counted call within the quota. |
| Store.Database.ActivateSubscription | internal/service/billing/service.go:110-122 | The whole new state: the flag is set and the expiry extended or started. |
| Store.Database.UpdatePosition | internal/service/location_service.go:40-104 | The whole new state; success stores the position, failure leaves all positions alone. |
| Store.Database.CreateStatus | internal/repository/postgres/status_repository.go:22-39 | The whole new state, with a fresh identifier. |
| Store.Database.CreateStatusRequest | internal/repository/postgres/status_repository.go:111-125 | The whole new state; it fails exactly when the status or the user is missing. |
| Store.Database.AcceptRequestAndCloseStatus | internal/repository/postgres/status_repository.go:127-203 | The three updates together equal the serial acceptance, and it succeeds exactly when the request, its owner, the flag and the expiry allow it. |
| Store.Database.GetNearbyActiveStatuses | internal/repository/postgres/status_repository.go:41-109 | The result is the specified query for every radius and limit, defaults and caps included. |
| Store.Database.GetNearbyProfiles | internal/repository/postgres/discovery_repository.go:21-150 | Both query forms, behind the service's radius rules, equal the one specified query. |
| Store.Database.RecordSwipeAndCheckMatch | internal/repository/postgres/discovery_repository.go:157-232 | The whole new state, exactly when a match is reported, and that the reported id is that of a match of the pair. |
| Store.Database.InsertOrFindMatch | internal/repository/postgres/discovery_repository.go:205-225 | Without a match of the pair one is inserted; with one nothing changes; the id returned is a match of the pair. |
| Store.Database.BlockUser | internal/service/moderation_service.go:19-86 | The four statements together equal the specified block, on all tables. |
| Store.Database.DeleteMatches | internal/service/moderation_service.go:39-46 | Exactly the matches of the pair go, and exactly their messages with them. |
| Store.Database.RejectRequests | internal/service/moderation_service.go:48-61 | Exactly the pending requests between the two become rejected. |
| Store.Database.CloseStatuses | internal/service/moderation_service.go:63-79 | The EXISTS form of the query closes exactly the statuses with a rejected request between the two. |
| Store.Database.SendDateRequest | internal/service/chat_service.go:24-103 | The whole new state; it succeeds exactly for a party of an existing match with premium on one side. |
| HubHistory.DeliveredByHistory | internal/websocket/hub.go:49-61 | **Main.** In every run, what a client's writer has taken followed by what it still has to take is exactly what was pushed to the user while the client was registered and had fewer than 256 messages waiting, in order; told from the steps alone. |
| HubHistory.RegisteredByHistory | internal/websocket/hub.go:27-61 | In every run the map is what the connects, disconnects and drops make of it, a channel is open exactly while its client is registered, and a drop is spawned exactly for each message that found no room. |
| Hub.OpenMeansRegistered | internal/websocket/hub.go:27-61 | **Main.** In every run, re-registrations and late unregisters included, a client's channel is open exactly when the map points to it, and each user has at most one open client. |
| Hub.NoStepPanics | internal/websocket/hub.go:27-61 | **Main.** No step enabled after any run closes a closed channel or sends on one. |
| Hub.DeliveredInOrder | internal/websocket/connection.go:49-117 | **Main.** In every run a channel's accepted messages are those its writer took followed by those buffered, never more than 256 of them, and the close frame comes after all of them. |
| Hub.ClosedStep | internal/websocket/connection.go:92-99 | A closed channel accepts nothing more, and each receive of its writer shortens what is left. |
| Hub.TakesWhatIsLeft | internal/websocket/connection.go:92-109 | **Main.** In every interleaving: once its channel is closed a writer takes no more messages than were left then; while it has not failed it can take until that many are taken, and then only send the close frame. |
| Hub.WriterDrains | internal/websocket/connection.go:92-109 | Left alone, it gets to the close frame in as many steps as messages are left, plus one. |
| Hub.WsHub.Register | internal/websocket/hub.go:27-36 | The new client takes the user's place and the channel of the former client is closed, which was open. |
| Hub.WsHub.Unregister | internal/websocket/hub.go:38-47 | The user's entry goes and its channel, which was open, is closed; without an entry nothing happens. |
| Hub.WsHub.SendToUser | internal/websocket/hub.go:49-61 | The message is appended unless the channel is full or missing; an unregister is spawned exactly when it is full. |
| Hub.WsHub.DrainClosed | internal/websocket/connection.go:92-109 | The loop on a closed channel writes exactly what was buffered, in order, and ends. |
| RateLimit.AdmissionBound | internal/middleware/rate_limit.go:38-79 | **Main.** For any interleaving of refills and spends, with timestamps in any order, requests of an address admitted after some step up to an admitting step number at most the burst plus the rate times the difference of the bucket's timestamps. |
| RateLimit.NothingFromNowhere | internal/middleware/rate_limit.go:52-76 | Over any run what is left plus what was admitted is no more than what was there plus the rate times the difference of the timestamps. |
| RateLimit.FirstHalf | internal/middleware/rate_limit.go:42-57 | What the first half of a request makes of the table, in plain amounts: the burst for a new address, the rate times the elapsed time up to the burst for a known one. |
| RateLimit.SecondHalf | internal/middleware/rate_limit.go:71-76 | The second half takes exactly one token, exactly when there is one. |
| RateLimit.Independent | internal/middleware/rate_limit.go:42-50 | An address is served as if it were alone: steps of other addresses change neither its bucket nor the number of its admissions. |
| RateLimit.LazyIsLeast | internal/middleware/rate_limit.go:52-57 | **Main.** The lazily refilled bucket equals the least, over all earlier requests, of the burst plus the rate times the time since that request, less what has passed since. |
| RateLimit.PassesIffFits | internal/middleware/rate_limit.go:71-76 | Given that all before it pass, a request passes exactly when every stretch ending with it fits burst and rate. |
| RateLimit.AdmittedInFull | internal/middleware/rate_limit.go:38-79 | **Main.** A sequence of requests is admitted in full exactly when every stretch from i to j has at most burst plus rate times elapsed time requests. |
| RateLimit.OneByOneRun | internal/middleware/rate_limit.go:61-78 | The sequential reading is the interleaved machine run one request at a time. |
| RateLimit.RateLimiter.GetVisitor | internal/middleware/rate_limit.go:38-59 | The table after the first half of a request, for known and new addresses; visitors stay unshared. |
| RateLimit.RateLimiter.Spend | internal/middleware/rate_limit.go:68-76 | The second half takes one token from this address only, and admits exactly when there is one. |
| RefreshQueue.SingleFlight | mobile/lib/core/network/interceptors/refresh_interceptor.dart:36-62 | **Main.** At every await of every run the flag is set exactly while one request refreshes, which is exactly while the queue is not empty, and nothing is settled twice. |
| RefreshHistory.AnsweredByHistory | mobile/lib/core/network/interceptors/refresh_interceptor.dart:42-62 | **Main.** In every run each replayed request is settled with what its own replay brought, in the order of the queue, all with the error after a failed refresh, and dropped are exactly those that the two leave out; told from the steps alone. |
| RefreshQueue.SettledInOrder | mobile/lib/core/network/interceptors/refresh_interceptor.dart:30-62 | If nobody joins during a replay and clearing the storage does not fail, queued requests are settled once each, in the order they joined, and all of them whenever the interceptor is idle, with flag and queue reset. |
| RefreshQueue.NoneLostIffOrderly | mobile/lib/core/network/interceptors/refresh_interceptor.dart:30-62 | **Main.** When a run comes back to idle, no request was lost exactly when those two conditions held throughout. |
| RefreshQueue.LateJoinLosesRest | mobile/lib/core/network/interceptors/refresh_interceptor.dart:42-61 | A request that joins during a replay, and every request behind the one being replayed, is settled in no continuation and dropped by the time the interceptor is idle. |
| RefreshQueue.ComesBackIffNotHung | mobile/lib/core/network/interceptors/refresh_interceptor.dart:24-63 | **Main.** After any run, the interceptor can come back to idle exactly when its replay is not waiting for a retry that is in its own queue or whose turn ended in an exception of the storage. |
| RefreshQueue.MovesUnlessHung | mobile/lib/core/network/interceptors/refresh_interceptor.dart:36-63 | After any run, an await of the refresh can return, or the retry is about to read the stored token, exactly when a refresh is under way that is not hung. |
| RefreshQueue.RefreshIsBounded | mobile/lib/core/network/interceptors/refresh_interceptor.dart:36-63 | **Main.** In every run, whatever the answers are, the refresh has no more awaits of its own than one for each request that joined, three for each start, and what was left at the beginning. |
| RefreshQueue.LossPossible | mobile/lib/core/network/interceptors/refresh_interceptor.dart:42-61 | A run from the start in which a request joins during the replay and is lost. |
| RefreshQueue.HangPossible | mobile/lib/core/network/interceptors/refresh_interceptor.dart:24-48 | Two runs from the start that reach the hang, one through the queue and one through the storage. |
| RefreshQueue.RetryHangs | mobile/lib/core/network/interceptors/refresh_interceptor.dart:48-49 | Once the replayed request waits for such a retry, nothing is ever settled again and the flag stays set. |
| RefreshQueue.RetryJoinHangs | mobile/lib/core/network/dio_client.dart:37-40 | A replay that comes back with 401 gets into that state in every run, whether its new turn finds a stored token or the storage throws. |
| RefreshQueue.RefreshInterceptor.OnToken | mobile/lib/core/network/interceptors/refresh_interceptor.dart:30-37 | Joining appends to the queue and starts a refresh exactly when none is under way. |
| RefreshQueue.RefreshInterceptor.OnReplayed | mobile/lib/core/network/interceptors/refresh_interceptor.dart:42-53 | One settled replay: the iteration goes on, ends with everything reset, or throws because the queue has grown. |
| RefreshQueue.RefreshInterceptor.OnCleared | mobile/lib/core/network/interceptors/refresh_interceptor.dart:54-62 | The catch block fails the queue up to the first completer that is already complete, and everything is reset. |
| RefreshQueue.RefreshInterceptor.Reset | mobile/lib/core/network/interceptors/refresh_interceptor.dart:59-62 | The finally block empties the queue and frees the flag; unsettled requests are counted as lost. |
| AuthTokens.RedeemedForever | internal/service/auth_service.go:159-224 | **Main.** A token redeemed in a later second than its issue is never accepted again, even when several rows carry it and whatever logins and refreshes follow. |
| AuthTokens.StillGoodIffSameSecond | pkg/security/jwt.go:53-67 | **Main.** In every reachable state a redeemed token is still accepted right afterwards exactly when it was issued in that same second. |
| AuthTokens.RefreshKeepsCount | internal/service/auth_service.go:199-211 | **Main.** A refresh replaces all live copies of the token by one row, so a user's live rows never increase and stay the same exactly when there was one copy; other users' rows are untouched. |
| AuthTokens.TokenOf | pkg/security/jwt.go:53-67 | A token carries the whole second of its issue and expires seven days later, and so does its row. |
| AuthTokens.RefreshLaw | internal/service/auth_service.go:167-211 | A refresh takes effect exactly on an unexpired token with a live row of its user; it revokes exactly the rows of that token and adds one for the new token. |
| AuthTokens.FreshTokenLasts | internal/service/auth_service.go:159-179 | **Main.** A token from a login is accepted until exactly seven days after the second of its issue, in every run in which it is not redeemed. |
| AuthTokens.IssuedRun | internal/service/auth_service.go:92-98 | In every run stored tokens were issued now or before, for the user of the row, with the row's expiry being the token's. |
| AuthTokens.AuthService.Login | internal/service/auth_service.go:137-148 | Login appends one live row for the token it returns. |
| AuthTokens.AuthService.Refresh | internal/service/auth_service.go:159-224 | Check, revoke and insert together: a new token exactly when the old one is accepted, and nothing changes otherwise. |
| Base64.DecodeEncode | pkg/security/password.go:44-77 | Decoding inverts encoding for every byte string, and no encoding contains a dollar sign or a line break (sections 3.2 and 4 of RFC 4648). |
| Base64.Alphabet | pkg/security/password.go:44-45 | The symbols are those of table 1 in section 4 of RFC 4648. |
| Base64.SameBits | pkg/security/password.go:44-45 | Three bytes and their four symbols are the same 24 bits. |
| Base64.Short | pkg/security/password.go:44-45 | One or two bytes are encoded as if followed by zeros, and cut off. |
| Base64.Long | pkg/security/password.go:44-45 | Longer strings are encoded three bytes at a time. |
| Base64.DecodeFails | pkg/security/password.go:69-77 | Decoding fails exactly on a character outside the alphabet that is no line break, or on a single symbol left over. |
| Password.ScanPrintedIff | pkg/security/password.go:47-67 | Printed parameters scan back as memory, iterations and parallelism exactly when they fit 32, 32 and 8 bits, and are refused otherwise. |
| Password.PrintedParams | pkg/security/password.go:26-48 | The default configuration prints as `m=65536,t=3,p=2`. |
| Password.SplitHashString | pkg/security/password.go:47-62 | Splitting a printed hash gives its six parts back. |
| Password.ParsePrinted | pkg/security/password.go:36-79 | **Main.** Parsing a printed hash recovers all five fields, for every configuration, salt and hash. |
| Password.VerifyHashed | pkg/security/password.go:53-87 | **Main.** Verifying an attempt against a printed hash succeeds exactly when both passwords give the same key; so the same password succeeds. |
| Password.VerifyFields | pkg/security/password.go:59-86 | For any six fields: an error exactly when the parameters do not scan or salt or hash is no base64; otherwise the answer compares the key with the hash. The first three fields are not read. |
| Password.FormatNeedsFiveDollars | pkg/security/password.go:59-62 | A string is refused for its format exactly when it does not have five dollar signs. |
| ProofOfWork.VerifyDigest | pkg/security/pow.go:45-54 | **Main.** The early-exit loop with its byte counter accepts exactly the digests below 2^(256 - difficulty), and of the all-zero digest only difficulty 0. |
| ProofOfWork.AcceptsIffBelow | pkg/security/pow.go:45-54 | **Main.** The answer agrees with the numeric bound exactly on the digests that are not all zero, or at difficulty 0. |
| ProofOfWork.CountIsBound | pkg/security/pow.go:46-53 | At least so many leading zero bits means below that power of two, for digests of any length. |
| ProofOfWork.WrapsOnlyOnZero | pkg/security/pow.go:46-49 | The byte counter overflows exactly on the all-zero digest. |

## Left out

- HTTP handlers, routing, JSON binding, logging, TLS and running the migrations: input and output around what is modelled.
- Receipt verification, device attestation and push sending: their result is an input.
- The internals of HMAC, SHA-256, AES-GCM, Argon2id, JWT and the haversine formula, including Argon2's panics on zero iterations or parallelism.
- Honeypot (with its own write of the shadowban flag), tarpit, fake profiles, JSON traps, key masking, the behavioural limiter, the call countdown and the rest of the Flutter client: the same themes in an easier form, or user interface.
- Registration's age check, e-mail uniqueness and case; the credential check of a login.
- Rows that nothing in scope reads back: subscriptions, user reports, device tokens, message contents and the other profile columns.
- Time zones other than UTC and daylight saving, which `AddDate` would follow for instants read in a local zone.
- Two refreshes of one token, or two first likes of one pair, interleaved statement by statement: the code makes no promise about them, and the model treats them as serial.
- The statements of a block on other tables, and on other statuses, within the statement-level protocol: for one status they only add waits and aborts.
- The decoding of the challenge seed and the hashing in the proof of work: the model starts from the digest.
- Non-finite radii, which the service replaces by 10 km: real numbers have none.
- The blanks beyond ASCII that `Sscanf` would skip before a number.
- What the leading request of the client's queue does with its own completer once an exception has left the catch block.
- Whether the HTTP library would catch an exception that leaves the interceptor's handler: the model takes it that the request is then never answered.
- A location update that found no position and writes without a check, interleaved with another: the statement-level runs begin with a position.
- The rate limiter runs the handler while it holds the lock; the model has the two locked halves as steps and no duration.
- Store.Database.GetNearbyProfiles: rows that tie in distance come in any order in the database; here the identifier decides. `Ranking.TiesAside` says what does not depend on it.
- Store.Database.GetNearbyActiveStatuses: the same for rows that tie in distance and creation time.
- AcceptProtocol.AtMostOneCommit: the expiry test of the first SELECT is not a separate condition; an expired status is one of the reasons for which a transaction aborts.
