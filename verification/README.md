# megaParser: protocols, pacing, crawl, batching and codecs

megaParser runs a pool of worker coroutines over a task table, shares a pool of Telegram accounts
between them under a per-account rate limiter, and crawls from group to group along links found in
messages. This project models the five parts whose behaviour spans functions and interleavings, and
proves what they guarantee over every run.

- **Tasks** (`Tasks`, `TaskProtocol`, `TaskGuarantees`, `Errors`, `Runner`, `Outcomes`). The
  `parser_tasks` table, its unconditional writes, and a transition system of one poller, W workers holding
  in-memory copies of rows, stale resets, lost copies, crashes and a clock, in any order. `Runner` is the
  stateful code: each method is one stretch without interleaving, proved to be exactly one step of the
  system. `Outcomes` says what a dispatch makes of its task, group and account, by the exception's class.
- **Accounts** (`RateLimiter`, `Grants`, `LimiterRuns`, `Pacing`, `CapTightness`, `Restarts`, `Accounts`,
  `AccountManager`, `PoolRuns`, `Rotation`, `BanMirror`). Accounts own limiter objects that update a runtime
  record in place, and the manager works on those objects; every method is proved against a function of the
  records. `Grants` says in plain arithmetic what those functions decide. They are run as machines with a
  nondecreasing clock, random choices within the configured ranges, and a history of scans, throttles and
  answered calls; `PoolRuns` carries the limiters' bounds over to the accounts that get_available hands out.
- **Crawl** (`Crawl`, `CrawlClaims`, `Discovery`). Groups, links, scans and chain walks over two tables,
  with the history of hops, claims and attempts.
- **Batching** (`Inserts`, `HistoryScan`, `MemberScan`). Streams cut into flushed batches over
  insert-if-absent tables, refined to one union.
- **Codecs** (`Base64Url`, `SessionString`, `ProxyLine`). Session strings and proxy lines, with their
  readers and printers.

`Base` holds the shared vocabulary. `dafny verify dfyconfig.toml` checks everything. Every lemma is marked
`{:induction false}`, so that its body is its whole proof.

Some of what one would like to be true is false of the code. For those the project gives a concrete run
and the exact condition or bound:

- a finished task is final exactly when no copy of it is left (`TaskGuarantees.TerminalIsFinal`; run:
  `DoneIsNotAbsorbing`);
- the retry limit of 3 grows by one per stale reset, up to 53 + W (`TaskGuarantees.RetryBound`, attained by
  `RetryBoundIsTight`);
- a clock hour holds up to cap + 2W - 1 scans (`LimiterRuns.HourlyCapBound`, attained by
  `CapTightness.HourlyBoundIsMet`), and a day with r processes up to r * (cap + W - 1) + W
  (`Restarts.RestartsBound`, attained by `RestartsBoundIsMet`);
- every shift of an account that can work is followed by a rest exactly when no passed deadline was left
  uncleared at its start and rests have a length (`Pacing.DutyCycleIff`; run: `StaleRestSkipsRest`);
- an account is handed out again without a throttle in between exactly when it is still eligible and no
  account before it has become so (`Rotation.SameAgainIff`), as it is to two workers asking at once
  (`HandedOutTwice`; run: `TwoWorkersOneAccount`);
- a claimed link can be tried later only while a running walk holds it (`CrawlClaims.TriedLaterIff`; run:
  `LinkIsLost`);
- a recovery pass can lift a ban early exactly when the ban's table write was lost over an older, shorter
  ban (`BanMirror.LostWriteLiftsEarlyIff`; run: `LostWriteLiftsEarly`);
- a session string is lossless exactly for 256-byte keys (`SessionString.LosslessIffFullKey`: every other
  length is an input that fails).

The backoff closed form, in contrast, holds in every reachable state (`Pacing.BackoffIsAPower`). A long
flood inside `handle_flood` would break it (`Pacing.ClosedFormNeedsShortFloods`), but cannot happen: the
runner classifies floods by the threshold the limiter itself uses (`Runner.Runner.Dispatch`).

Where the code and its documentation disagree, the model follows the code. The repository's README.md:65
promises an incremental resume of history scans, but `offset_id` is computed and never used
(app/services/parser_messages.py:110-112), so a scan always starts from the newest message; what holds
instead is that rescanning stores nothing twice (`HistoryScan.RescanCompletes`). `load_all` copies the
stored daily counters into memory, but the first `can_continue` zeroes them
(`LimiterRuns.LoadedDayIsForgotten`). `bulk_upsert_users` inserts and never updates.

## Model

| member | source | states |
|---|---|---|
| TaskGuarantees.HolderBound | app/services/runner.py:73-98 | in every reachable state of poller, workers, recovery and crashes, in-memory copies of a task plus one if it is pending are at most one more than its stale resets |
| TaskGuarantees.RetryBound | app/services/runner.py:317-320 | stored retry_count is at most 3 plus the smaller of the stale resets and 50 + W, although the decision uses the count read at claim time |
| TaskGuarantees.RetryBoundIsTight | app/db/repo.py:508-528 | for every pool of W workers and every number r of resets up to 50 + W some run resets a task r times and stores exactly 3 + r retries |
| TaskGuarantees.QueueNeverFull | app/services/runner.py:82-88 | queue plus fetched rows never exceed 150 of the 500 slots, so the poller's put never blocks |
| TaskGuarantees.Conservation | app/services/runner.py:200-320 | with no reset and no lost copy, a task is unfinished exactly when it is pending or has exactly one copy, never both |
| TaskGuarantees.FaultFreeRun | app/services/runner.py:73-98 | a run without crash, lost write, cancelled get or recovery leaves the reset and loss counts alone, which is Conservation's side condition |
| TaskGuarantees.OrphanWaits | app/db/repo.py:540-556 | a running task with no copy keeps its row through every run until a stale reset |
| TaskGuarantees.AbandonedComesBack | app/services/runner.py:150-167 | after a crash and any run, a recovery pass past the stale cutoff has reset every task that was running: it is pending now, or was reset before |
| TaskGuarantees.FreshIsNotReset | app/db/repo.py:540-556 | no recovery pass resets a task before the stale timeout has passed since it was claimed, whatever is done with it meanwhile |
| TaskGuarantees.TerminalIsFinal | app/db/repo.py:497-528 | a done or error task keeps its row on every continuation if and only if no copy of it is left in memory |
| TaskGuarantees.DoneIsNotAbsorbing | app/db/repo.py:531-537 | a reachable done task with one stale reset, and a run that makes it pending again |
| TaskGuarantees.Revive | app/db/repo.py:531-537 | while any copy is left, some continuation makes the task pending |
| TaskProtocol.CopiesAfter | app/services/runner.py:86-88 | how each step changes the number of copies of a task, whole or restricted to copies that may retry |
| TaskProtocol.StepKeepsInv | app/services/runner.py:73-98 | every step keeps the joint invariant of holders, retry counts, started_at, queue fill and conservation |
| TaskProtocol.ReachableInv | app/services/runner.py:52-71 | the invariant holds after every run from the empty system, for every number of workers |
| TaskProtocol.StepKeepsOutside | app/services/runner.py:78-88 | however tasks are requeued and reset, at most 51 copies of one task are ever in the poller's hand and the queue together |
| Tasks.TaskTable.CreateTask | app/db/repo.py:452-472 | a fresh id, and the table with one new pending row |
| Tasks.TaskTable.SelectPending | app/db/repo.py:479-485 | the answer holds the first unlocked pending rows by priority then age, up to the limit, and skips only locked or later rows |
| Tasks.UrgentFirst | app/db/repo.py:479-485 | what is taken is pending, unlocked, without repeats and within the limit, higher priority first and of one priority the older; what is left is behind all of it, and only if the limit is reached |
| Tasks.TaskTable.FetchPendingTasks | app/db/repo.py:475-494 | such a selection, and exactly the selected rows become running at this time |
| Tasks.TaskTable.MarkTaskDone | app/db/repo.py:497-505 | the row becomes done whatever it was; an unknown id changes nothing |
| Tasks.TaskTable.MarkTaskError | app/db/repo.py:508-528 | with retry pending, unstarted and one more retry; without, error; whatever the status was |
| Tasks.TaskTable.RequeueTask | app/db/repo.py:531-537 | the row becomes pending and unstarted whatever it was |
| Tasks.TaskTable.RecoverStaleTasks | app/db/repo.py:540-556 | exactly the running rows started before the cutoff become pending, and the answer counts them |
| Runner.Runner.PollCheck | app/services/runner.py:78-84 | the poller goes on exactly when at most 50 copies are queued |
| Runner.Runner.PollFetch | app/services/runner.py:86 | one fetch step: up to 100 rows claimed, each copy carrying the retry_count read at the claim |
| Runner.Runner.SnapshotUnchanged | app/db/base.py:23-25 | the row objects handed out after the claiming update still carry the retry counts read before it |
| Runner.Runner.PollPut | app/services/runner.py:87-88 | one put step, within the queue's capacity |
| Runner.Runner.WorkerGet | app/services/runner.py:186-191 | one get step: the head of the queue moves to the idle worker |
| Runner.Runner.HandleException | app/services/runner.py:278-320 | the row write, the group mark and the account action each error kind gets; the row write is one protocol step |
| Runner.Runner.Dispatch | app/services/runner.py:200-260 | for every task type, account, group and outcome (a lookup or work that raises included), one protocol step, the group row marked and the account action; what they are is in Outcomes; only short floods reach a limiter |
| Outcomes.DispatchRow | app/services/runner.py:200-320 | the row after a dispatch ends in error if and only if there was an account and the type is unknown, the group missing or invalid, or the retries of an unnamed error used up; done if and only if work finished or the group was private; otherwise pending, unstarted, with its count moved only by a counted retry |
| Outcomes.VerdictIs | app/services/runner.py:278-320 | which write each exception class leads to, named class by class |
| Outcomes.ActionIs | app/services/runner.py:282-303 | short floods pause the account, long ones ban it for their seconds, a peer flood for a day, a dead session takes it out, nothing else touches it |
| Outcomes.GroupsAre | app/services/runner.py:305-315 | a group row becomes scanned, private or failed exactly for a finished history scan of it, a private-group or an invalid-group exception naming it |
| Outcomes.DispatchFrame | app/db/repo.py:497-537 | a dispatch writes one row, frees one worker and leaves the rest |
| Runner.Runner.RecoveryPass | app/services/runner.py:158-162 | the stale-task half of a recovery pass is one recovery step |
| Runner.Runner.CrashAndRestart | app/services/runner.py:52-71 | memory is emptied, the table stays, every copy is counted as lost; the recovery pass that start runs first is RecoveryPass |
| RateLimiter.RateLimiter.MayContinue | app/core/rate_limiter.py:142-160 | the answer and the whole record after day roll, hour roll, ban, rest, night pause, both caps and the work/rest switch, in that order |
| Grants.AnswerIs | app/core/rate_limiter.py:142-160 | the answer as a decision on the clock's day and hour, the deadlines, the night pause, both caps and the shift, in that order, without the model's own helpers |
| Grants.NightRefuses | app/core/rate_limiter.py:81-86 | no grant in any hour of the night pause, over midnight or not |
| Grants.CountersAfter | app/core/rate_limiter.py:88-110 | each counter belongs to its day or hour and is zeroed with it; floods and backoff are forgotten only with an hour and after the reset time |
| Grants.DeadlinesAfter | app/core/rate_limiter.py:112-140 | which deadlines the call keeps, drops or sets, by its answer |
| Grants.LooksAre | app/core/rate_limiter.py:112-128 | asking about a ban or a rest alone keeps a deadline ahead, drops a passed one, and ends the shift with a passed rest |
| RateLimiter.RateLimiter.RollHourCounters | app/core/rate_limiter.py:98-110 | a new slot clears groups_hour; floods and backoff are cleared together, and only after flood_reset_hours |
| RateLimiter.RateLimiter.IsBanned | app/core/rate_limiter.py:112-118 | the answer, and a passed deadline is dropped |
| RateLimiter.RateLimiter.IsResting | app/core/rate_limiter.py:120-128 | the answer, and a passed rest ends the shift and draws a new one |
| RateLimiter.RateLimiter.BeginThrottle | app/core/rate_limiter.py:164-179 | takes the lock, starts the shift if none, and computes the wake-up time from backoff, the 120 s ceiling and the last action |
| Grants.ThrottleWaits | app/core/rate_limiter.py:169-176 | a throttle wakes when the delay (pick times backoff, at most 120 s) has passed since the last action, and no later |
| Grants.FirstThrottle | app/core/rate_limiter.py:177-179 | the first action waits for a random part of at most a second and of the delay |
| Grants.DelaysAre | app/core/rate_limiter.py:183-190 | which setting each operation draws its delay from |
| RateLimiter.RateLimiter.EndThrottle | app/core/rate_limiter.py:181 | stamps the action and frees the lock, nothing else |
| RateLimiter.RateLimiter.Bump | app/core/rate_limiter.py:194-198 | the named counter grows; groups_today also moves groups_hour |
| RateLimiter.RateLimiter.HandleFlood | app/core/rate_limiter.py:202-228 | the record after a short flood (backoff raised, pause at the maximum) and after a long one (ban, backoff untouched), and a sleep of 1 to 3 seconds over the asked time, at most 120 |
| Grants.FloodEffect | app/core/rate_limiter.py:202-224 | a short flood is counted, raises the backoff and pauses for an hour exactly from the maximum on; a long one is counted and bans; nothing else moves |
| Grants.BumpEffect | app/core/rate_limiter.py:194-198 | a bump moves its own counter, and the hour's with the groups |
| RateLimiter.RateLimiter.MarkLongBan | app/core/rate_limiter.py:230-232 | the deadline is overwritten, even by an earlier one |
| LimiterRuns.HourlyCapBound | app/core/rate_limiter.py:142-160 | for W workers on one account, groups_hour is at most cap + W - 1 and any clock hour holds at most cap + 2W - 1 ended scans |
| CapTightness.HourlyBoundIsMet | app/core/rate_limiter.py:98-103 | for every W and cap some run ends cap + 2W - 1 scans in one hour and leaves groups_hour at cap + W - 1: both bounds are exact |
| CapTightness.DailyBoundIsMet | app/core/rate_limiter.py:88-96 | the same for the daily cap |
| LimiterRuns.DailyCapBound | app/core/rate_limiter.py:88-96 | the same two bounds for the daily cap within one process run |
| Restarts.OneProcess | app/core/rate_limiter.py:88-96 | what one process ends in a day: cap + W - 1 scans if it started that day, W more if it was running at midnight, none before it started or after it ended |
| Restarts.RestartsBound | app/core/account_manager.py:68-78 | r processes one after another end at most r * (cap + W - 1) + W scans in any one day |
| Restarts.RestartsBoundIsMet | app/core/account_manager.py:68-78 | for every W, cap and r that number is attained, although each process loads the counters the one before it stored |
| LimiterRuns.StepKeepsCaps | app/core/rate_limiter.py:194-198 | every step keeps the joint invariant of counters, holders and true history for hour and day |
| Pacing.RestHolds | app/core/rate_limiter.py:120-140 | a rest of at most an hour is not shortened by any later grant, throttle, flood, roll, ban or recovery |
| Pacing.NoGrantAfterStartRest | app/core/rate_limiter.py:136-160 | no grant within min(shortest rest, 60 minutes) of a start_rest, over any run |
| Pacing.FloodPause | app/core/rate_limiter.py:217-218 | a short flood reaching the maximum stops every grant for 60 minutes, over any run |
| Pacing.DutyCycle | app/core/rate_limiter.py:120-140 | if a throttle starts at w while no passed rest is left uncleared, and the account is granted at w plus the longest shift or later, a rest is in force (set and not yet over) at some state in between |
| Pacing.DutyCycleIff | app/core/rate_limiter.py:142-160 | for any reachable throttle, every such grant has a rest in force before it if and only if a rest is in force at the throttle, or none is set and rests have a positive length, or the caps and night pause never let the account work |
| Pacing.StaleRestSkipsRest | app/core/rate_limiter.py:217-218 | the failing case is reachable: a flood pause passes while a scan runs, and the next shift ends without any rest |
| Pacing.ThrottleSpacing | app/core/rate_limiter.py:164-190 | any n completed group throttles span at least (n - 1) * min(lo, 120) seconds, whoever shares the limiter |
| Pacing.PaceStep | app/core/rate_limiter.py:164-181 | every step keeps backoff at least 1, the sleeper's wake-up after the last action, and the spacing of the history |
| Pacing.HistoriesAre | app/core/rate_limiter.py:181-198 | the histories the bounds speak of record every completed group throttle and every ended scan at its time, and nothing else |
| Pacing.BackoffIsAPower | app/core/rate_limiter.py:202-228 | with floods delivered by the runner, backoff is multiplier^floods_hour in every reachable state; a loaded flood count is discounted until the first reset |
| Pacing.ClosedFormNeedsShortFloods | app/core/rate_limiter.py:208-215 | one flood keeps the closed form if and only if it is short or the multiplier is 1 |
| Pacing.NoGrantWhileBanned | app/core/rate_limiter.py:230-232 | until the next ban or recovery, a ban of n seconds refuses every grant for n seconds |
| AccountManager.AccountManager.GetAvailable | app/core/account_manager.py:136-154 | the account handed out has the role, is connected and was granted by its own limiter at that moment, and precedes every other that would do; with no answer every account of the role is refused by its limiter or cannot connect; and accounts, limiters and status rows after the side effects |
| Accounts.EachTouched | app/core/account_manager.py:136-154 | one call leaves each limiter untouched, looked at, asked, or asked and granted; the last exactly for the account handed out |
| Accounts.StatusRows | app/core/account_manager.py:106-154 | after a call each account's row says idle if the call connected it, disconnected if it tried in vain, and is otherwise as before |
| Accounts.OrderIs | app/core/account_manager.py:144 | accounts that never acted come first, then by last action, then by pool position |
| PoolRuns.GetIsLocal | app/services/runner.py:204-208 | to each limiter a call of the pool is a step of its own run, and handing the account to a worker is that worker's granted can_continue |
| PoolRuns.PoolCapBounds | app/core/account_manager.py:136-154 | over every run of the pool the hourly and daily bounds hold of every account that get_available hands out |
| Accounts.SortedOrderIsLRU | app/core/account_manager.py:144-153 | trying candidates in sort order answers with the least recently used eligible account, although trying changes accounts |
| Accounts.RankingIsUnique | app/core/account_manager.py:144 | the sort order of the candidates is forced, ties included |
| Accounts.FirstThatWorks | app/core/account_manager.py:145-153 | the loop returns the first candidate that can continue and connects, judged on the pool before the loop |
| AccountManager.AccountManager.SortByLastAction | app/core/account_manager.py:144 | the same candidates, ordered by last action or the epoch, ties in their given order |
| AccountManager.AccountManager.CollectCandidates | app/core/account_manager.py:137-141 | the free accounts of the role in pool order, with the side effects of both checks on their limiters |
| AccountManager.PooledAccount.Try | app/core/account_manager.py:145-153 | one candidate: its limiter asked, and if needed a connection with its status write |
| AccountManager.AccountManager.LoadAll | app/core/account_manager.py:56-93 | late counters reset, expired bans lifted, missing rows added, and one new account with its own limiter per enabled model, built from its row, with unknown roles read as scanner |
| Accounts.LoadedFields | app/core/account_manager.py:68-78 | which fields a load restores from the row, the ban included, and which start afresh |
| Accounts.RolesAre | app/core/account_manager.py:81-83 | roles are read without regard to case or surrounding white space, and anything else scans |
| Accounts.EnabledModelsAre | app/db/repo.py:34-39 | exactly the accounts not disabled are loaded |
| AccountManager.AccountManager.ConnectFirst | app/core/account_manager.py:95-125 | the first accounts are connected or charged a failure, each with its status write, and the others are untouched |
| Accounts.FirstConnections | app/core/account_manager.py:95-125 | each of the first accounts is connected or charged one failure and its row says which; the others and all limiters stay |
| AccountManager.AccountManager.MarkBanned | app/core/account_manager.py:156-158 | limiter and table get the same deadline |
| AccountManager.AccountManager.MarkDead | app/core/account_manager.py:161-168 | the row is marked dead, the account disabled for later loads and disconnected, but it stays in the pool with its limiter |
| AccountManager.AccountManager.CheckRecoveries | app/core/account_manager.py:171-180 | exactly the expired rows are lifted, in the table and in memory |
| AccountManager.AccountStates.ExpireBans | app/db/repo.py:162-182 | exactly the banned rows past their deadline become idle, and their ids are returned |
| AccountManager.AccountStates.MarkAccountBanned | app/db/repo.py:123-143 | the row is banned until now plus the seconds and counts one more ban |
| AccountManager.AccountStates.ResetDailyCounters | app/db/repo.py:185-199 | exactly the rows of an earlier day lose their counters |
| Accounts.DailyReset | app/db/repo.py:185-199 | rows of earlier days lose counters and floods and nothing else; bans stay |
| Accounts.RowsAdded | app/db/repo.py:83-90 | ensure_account_state keeps every existing row and leaves a fresh one for every other account |
| Rotation.ReturnedWithinN | app/core/account_manager.py:136-154 | over any run of calls, throttles, clock ticks and other changes in which each returned account is throttled, later than its return, before the next call of the role: with n accounts of the role, one that stays eligible and is throttled only after its own returns is returned within n answers |
| Rotation.NoRepeatWhileOneWaits | app/core/account_manager.py:144 | over any such run no account is returned twice while another one of the role, eligible at the second call, was neither returned nor throttled |
| Rotation.SameAgainIff | app/core/account_manager.py:136-154 | after a call answers i, over any run without a throttle, the next call answers i again if and only if i is eligible then and no account before i has become eligible |
| Rotation.TwoWorkersOneAccount | app/services/runner.py:204-208 | a fresh account serves two calls at the same moment |
| Rotation.HandedOutTwice | app/services/runner.py:204-208 | two calls for a role at the same moment, with the same connections succeeding, hand out the same account, if rests have a length |
| Rotation.StepKeepsRun | app/core/rate_limiter.py:181 | every step keeps last-action times behind the clock and each answered call fair and after the one before |
| BanMirror.RecoveryIsNeverEarly | app/core/account_manager.py:171-180 | over any run from any table with no lost ban write, memory's deadline is backed by one no earlier in the table, and recovery lifts it only after it passed |
| BanMirror.BanLasts | app/core/account_manager.py:156-180 | a ban of n seconds keeps every account with its id banned for n seconds through recovery passes, connections, deaths and restarts, unless it is banned again or its write was lost |
| BanMirror.BanEnds | app/core/account_manager.py:171-180 | the first recovery pass after the deadline makes a banned row idle and frees the limiter, and changes nothing else of them |
| BanMirror.RecoverySpares | app/db/repo.py:162-182 | rows not banned, or banned to this moment or later, and their limiters stay |
| BanMirror.LoadedBans | app/core/account_manager.py:76 | after a load every account's deadline equals its row's, and no deadline still ahead was dropped from the table |
| BanMirror.BanWrites | app/db/repo.py:123-143 | a ban writes status, deadline and one more ban into one row, and the same deadline into one limiter |
| BanMirror.ConnectingHidesBan | app/core/account_manager.py:106-125 | a connection made during a ban changes the status, so no recovery pass frees the limiter, but keeps the deadline |
| BanMirror.DeathWrites | app/db/repo.py:146-154 | a death marks one row dead, keeps its deadline, and leaves the account in the pool, disconnected |
| BanMirror.StepKeepsMirror | app/core/account_manager.py:56-78 | bans, recoveries, checks, connections, deaths and restarts keep the mirror |
| BanMirror.LostWriteLiftsEarlyIff | app/core/account_manager.py:171-180 | after a ban of account i whose table write raised, some run without another lost write leads to a recovery pass lifting an active ban if and only if the ban has a length and the table still holds an older ban of i that ends before it |
| BanMirror.LostWriteKeepsMirrorIff | app/core/account_manager.py:156-158 | a ban whose table write raised keeps the mirror if and only if the table already holds a deadline at least as late |
| BanMirror.LostWriteLiftsEarly | app/core/account_manager.py:156-158 | from an empty table: an account is loaded, banned 60 s, banned 1000 s with the write lost, and a recovery pass after 61 s lifts the long ban |
| Crawl.DepthBounds | app/services/discovery.py:119-132 | in every reachable database group depths are even, at most max_depth and twice the length of a chain of hops from a seed; link depths are odd and at most max_depth + 1 |
| Crawl.OneRowPerChat | app/db/repo.py:260-279 | in every reachable database the index finds exactly the row with a chat id, and no two rows share one |
| Crawl.UpsertWrites | app/db/repo.py:264-279 | a stored chat has its row overwritten and none added; anything else adds one row and keeps the rest |
| Crawl.RetargetMoves | app/services/parser_messages.py:59-104 | a scan whose chat has another row goes on under it, at its depth; otherwise its own row takes the chat id |
| Crawl.ShallowFirst | app/db/repo.py:431-437 | what is claimed is unresolved, unlocked, without repeats and within the limit, shallow first and of one depth the older; what is left is behind all of it, and only if the limit is reached |
| Crawl.EarlierFoundFirst | app/db/repo.py:414-424 | in every run a link found earlier has the smaller id |
| Crawl.StepKeepsDepth | app/services/parser_messages.py:180-189 | every step keeps those bounds for groups, links, running scans and running walks, despite overwrites on upsert and rows changing their chat id |
| Crawl.InsertLinksFrame | app/db/repo.py:414-424 | inserting links keeps old ones whole, adds exactly the new names with this source and depth, and touches nothing else |
| CrawlClaims.AtMostOnce | app/db/repo.py:427-446 | over interleaved walks a link is resolved exactly when claimed, keeps its walk forever, no username is tried twice, and attempts are at most the link rows |
| CrawlClaims.TriedLaterIff | app/db/repo.py:439-445 | a claimed link not tried yet can still be tried on some continuation if and only if a running walk holds it below max_depth: what a stopped walk leaves behind is lost |
| CrawlClaims.LinkIsLost | app/services/discovery.py:119-124 | a run in which a scan finds a link, a walk claims it and is cut off: the link is claimed and resolved, and no continuation ever tries it |
| CrawlClaims.StepKeepsClaims | app/services/discovery.py:113-133 | every step keeps claims and attempts disjoint and permanent |
| CrawlClaims.CrawlRunsDry | app/services/discovery.py:106-136 | in a finite universe U of usernames at most 2 times its size many steps insert or claim a link, and attempts are at most its size |
| CrawlClaims.StepWork | app/db/repo.py:414-446 | the measure 2 * unseen + unresolved falls with each inserting or claiming step and never rises |
| Discovery.Crawler.UpsertTargetGroup | app/db/repo.py:260-279 | a known chat id overwrites its row, depth included; anything else is a new row |
| Discovery.Crawler.BulkInsertLinks | app/db/repo.py:414-424 | the loop equals the insert function, and the answer counts the new rows |
| Discovery.Crawler.SelectUnresolved | app/db/repo.py:431-437 | the answer is the shallowest, oldest unlocked unresolved links up to the limit |
| Discovery.Crawler.FetchUnresolvedLinksLocked | app/db/repo.py:427-446 | one start-walk step: the selected links are claimed and resolved at once |
| Discovery.Crawler.ResolveUsername | app/services/discovery.py:12-46 | one resolve step, with short and reserved names turned down |
| Discovery.RefusedIs | app/services/discovery.py:19-23 | exactly names of up to three characters and five reserved ones, in any case, are turned down |
| Discovery.Crawler.ResolveOutcome | app/services/discovery.py:24-46 | a try writes one group, one deeper than its link, exactly if the name is accepted and the client answers |
| Discovery.Crawler.ChainWalkPhase | app/services/discovery.py:106-136 | the call is exactly the start of a walk, its plan, and the walk's end; the answer counts the tries |
| Discovery.WalkTriesExactly | app/services/discovery.py:119-133 | a walk tries exactly the claimed links below max_depth before the first such link without an account, in order, and leaves the rest claimed and untried |
| Discovery.TriesAreShallow | app/services/discovery.py:133-136 | the number returned is the number of those links |
| Inserts.InsertIsUnion | app/db/repo.py:361-371 | inserting rows one by one is one union: old rows kept, each new key with the first row offered for it |
| Inserts.InsertConcat | app/db/repo.py:361-371 | two inserts in a row equal one insert of both lists |
| Inserts.RerunCompletes | app/db/repo.py:361-371 | inserting a list of which any prefix was stored ends where one insert ends |
| Inserts.WholeIsMultiple | app/services/parser_messages.py:155 | what has been flushed is the largest multiple of the batch size; a size below 1 acts as 1 |
| Inserts.FirstFaultIs | app/services/parser_messages.py:155-156 | the flush that ends a scan is the least full batch whose flush raises |
| HistoryScan.Scanner.ParseHistory | app/services/parser_messages.py:106-198 | what a scan leaves and returns for every way it ends: complete (one union of the first min(n, limit) messages, each of their links once, counted exactly), the stream broken, or any write or throttle raising |
| HistoryScan.CutOffScan | app/services/parser_messages.py:155-178 | however a scan ends it has stored a prefix of what it read and a rerun completes it; cut off, it has stored whole batches only, inserted no link and counted no group |
| HistoryScan.EndIs | app/services/parser_messages.py:106-198 | how a scan ends: the first call that raises decides, and it is complete only if no call made raised |
| HistoryScan.CountsAre | app/services/parser_messages.py:157-191 | the messages counted are those of flushes that got as far as the count, the group counts only when complete, no other counter moves |
| HistoryScan.StoredRow | app/services/parser_messages.py:139-152 | a row keeps the first 10000 characters, the date, the sender and the keywords, and is flagged exactly if it has links |
| HistoryScan.LastIdIsMax | app/services/parser_messages.py:153 | the cursor is the largest id seen, from the stored cursor or 0 on |
| HistoryScan.CursorAt | app/services/parser_messages.py:167-172 | the j-th cursor persisted is the largest id of the first j full batches |
| HistoryScan.LinksAreStored | app/services/parser_messages.py:180-189 | each link of the messages is stored from the group's row, one deeper than the group, unless the name was known |
| HistoryScan.ScanIsCrawlStep | app/services/parser_messages.py:180-189 | the links a finished scan inserts are one finish step of the crawl |
| HistoryScan.ScanIsUnion | app/services/parser_messages.py:139-156 | stored keys are the old keys plus the streamed ones, old rows are unchanged, a new key has the row of its first message |
| HistoryScan.RescanCompletes | app/services/parser_messages.py:110-112 | rerunning a scan, whole or cut off anywhere, ends with the table of a single full scan |
| HistoryScan.CursorsGrow | app/services/parser_messages.py:153-172 | the cursors persisted during a scan never decrease and stay between the starting cursor and the final one |
| HistoryScan.AfterNext | app/services/parser_messages.py:139-173 | one message more either joins the batch or completes it, and completing it equals one larger insert |
| MemberScan.MemberParser.ConsumeAlphabet | app/services/parser_members.py:31-41 | members are read on demand: each new id over all queries, failing ones included, is handled once until the cap, and reaching the cap stops the asking |
| MemberScan.MemberParser.Read | app/services/parser_members.py:34-38 | one streamed member is handled exactly if its id is present and new |
| MemberScan.UnseenOnce | app/services/parser_members.py:31-41 | every id met is yielded exactly once, and no other |
| MemberScan.MemberParser.ParseMembers | app/services/parser_members.py:44-116 | complete, users and memberships are one union of the old rows and the handled members and members_today grows by the returned total; batches never exceed 100; and what is left for every other end, the listing or a write raising |
| MemberScan.CutOffScan | app/services/parser_members.py:101-112 | however a scan ends, memberships hold a prefix of the handled members, exactly that prefix is counted, and users hold at least it; cut off, the memberships are whole batches |
| MemberScan.AlphabetScan | app/services/parser_members.py:31-41 | on the alphabet path min(max(cap, 1), distinct ids) members are handled, and membership keys become the old ones plus the handled ones |
| MemberScan.SmallGroupScan | app/services/parser_members.py:26-29 | a group with a known size below the threshold is listed once, as it is, and its failure ends the scan |
| MemberScan.FirstIsStored | app/services/parser_members.py:83-98 | a new membership has the role of the first member with its id, creator for owners, admin for administrators; a new user its name and bot flag |
| MemberScan.EndIs | app/services/parser_members.py:59-112 | how a scan ends: the first flush that raises below the cap, the listing, the last write, or complete |
| MemberScan.MemberParser.Offer | app/services/parser_members.py:69-108 | one turn of the loop: both lists grow together, the cap stops it, full lists are written and cleared, or the write raises |
| MemberScan.MemberParser.BulkInsertMemberships | app/db/repo.py:398-408 | the insert-if-absent loop equals the insert function |
| MemberScan.MemberParser.BulkUpsertUsers | app/db/repo.py:385-395 | despite the name, existing users are kept as they are |
| Base64Url.DecodeEncode | app/core/session_loader.py:67 | decoding an encoding returns the bytes, for every length |
| Base64Url.UnpaddedIsLossless | app/core/session_loader.py:67 | stripping the padding loses nothing, and what is left has the expected length over the URL-safe alphabet |
| Base64Url.AlphabetIs | app/core/session_loader.py:67 | the alphabet of RFC 4648 section 5, value by value |
| Base64Url.QuadIsTheNumber | app/core/session_loader.py:67 | four characters and three bytes are the same 24-bit number, most significant first |
| Base64Url.TestVectors | app/core/session_loader.py:67 | the encodings of RFC 4648 section 10 |
| SessionString.ReadWrite | app/core/session_loader.py:45-67 | exactly fields within one, four and eight bytes give 362 URL-safe characters from which re-padding, decoding and unpacking return them, the key fitted to 256 bytes |
| SessionString.LosslessIffFullKey | app/core/session_loader.py:58-66 | the same six fields come back if and only if the key has 256 bytes |
| SessionString.SameStringIff | app/core/session_loader.py:58-67 | two sessions share a string if and only if they agree up to fitting the key; on full keys the encoding is injective |
| SessionString.UnpackPack | app/core/session_loader.py:50-66 | unpacking the 271 bytes returns every field from its place |
| SessionString.Layout | app/core/session_loader.py:50-66 | the 271 bytes one by one: numbers most significant byte first, flags 0 or 1, the key in its place, cut or filled with zeros |
| ProxyLine.MatchIsGreedy | app/cli/proxy_pool.py:23-27 | the matcher answers exactly when the line has a spelling in the grammar, and its answer is the unique spelling that uses the optional groups most greedily |
| ProxyLine.RoundTripIff | app/cli/proxy_pool.py:30-44 | parsing the printed URL returns the proxy if and only if the proxy is well formed |
| ProxyLine.RoundTrip | app/cli/proxy_pool.py:91-94 | every well-formed proxy survives printing and parsing, whatever the default scheme and whatever ':' or '//' the password holds |
| ProxyLine.ParsedIsWellFormed | app/cli/proxy_pool.py:37-44 | whatever a line parses to is well formed |
| ProxyLine.PrintedLineParsesTheSame | app/cli/proxy_pool.py:91-94 | an accepted line, printed and parsed again, gives the same proxy |
| ProxyLine.LineIff | app/cli/proxy_pool.py:30-36 | a line is a proxy exactly when, stripped, it is not empty, no comment, and has a spelling in the grammar |
| ProxyLine.CommentIsSkipped | app/cli/proxy_pool.py:31-33 | a comment is no proxy, even one that would match, whatever space or byte order marks precede it |
| ProxyLine.FieldsAre | app/cli/proxy_pool.py:37-44 | the fields are those of the preferred spelling, the scheme lower-cased and defaulted |
| ProxyLine.NoSchemeLine | app/cli/proxy_pool.py:1-8 | login:password@host:port and host:port parse to those fields with the default scheme, unless the password begins with "//" |
| ProxyLine.NumberGrows | app/cli/proxy_pool.py:41 | the port is read in base ten |
| ProxyLine.ClassesAre | app/cli/proxy_pool.py:23-27 | the characters each class of the grammar admits |
| ProxyLine.NoEmptyCredentials | app/cli/proxy_pool.py:93 | credentials are printed only if both are present and not empty |

## Left out

Members stated with less than their source does:

- LimiterRuns.DailyCapBound: holds per process run only, because the loaded counters are zeroed by the first can_continue; Restarts.RestartsBound says what holds over several runs of an account whose premium flag does not change.
- Rotation.ReturnedWithinN: assumes each returned account is throttled before the next call of its role, and that the waiting one is throttled only after its own returns; the code does not reserve accounts, and Rotation.SameAgainIff says when the same one is handed out again.
- AccountManager.AccountManager.GetAvailable: the call is one atomic step; the source awaits while connecting, so other coroutines may run between candidates.
- AccountManager.AccountManager.LoadAll: building clients is not modelled.
- BanMirror.StepKeepsMirror: MarkBanned, CheckRecoveries and loading are atomic steps; a recovery pass interleaved between the two halves of a ban is not modelled, a lost second half is.
- HistoryScan.Scanner.ParseHistory: the sender's names are not part of the stored row, and the final cursor written by mark_group_scanned is not part of the scan. How long the throttle inside the loop takes is in LimiterRuns; here it may only raise.
- MemberScan.MemberParser.ParseMembers: a user row keeps one name instead of three and no last-seen time. The number of alphabet queries is any number, 36 in the source.
- Discovery.Crawler.ResolveUsername: only the head of a walk; direct resolve_link tasks and seeds are Seed steps of the crawl. Stripping '@' and spaces is left out, because stored link names contain neither. Title, type and counts are dropped from the row.
- Discovery.Crawler.UpsertTargetGroup: the username look-up after a conflicting insert is left out, because tg_id is the only unique column beside the key and an insert without it cannot conflict. Title, type, counts and description are dropped from the row.
- ProxyLine.MatchIsGreedy: \w and \d are the ASCII classes, \s is Python's own; its Unicode words and digits and the digit limit of int() are not modelled. ProxyLine.RoundTrip does not depend on this: user and password may hold any character the grammar admits.
- SessionString.ReadWrite: the reader is the inverse of the format; the client library's own reader is not part of this model.
- Runner.Runner.Dispatch: the scan itself appears only through its outcome, and a group mark that raises through the outcome too; the protocol's steps may interleave between its start and its ending write.
- Runner.Runner.RecoveryPass: the account half of the pass is AccountManager.AccountManager.CheckRecoveries.

Not modelled:

- Ambiguous commits: a write that raised did not happen.
- Postgres itself: row locks are a parameter of the selecting calls, and each repository function is one atomic step on maps.
- Wall clock against loop clock: one nondecreasing clock, one reading per atomic step; sleeps last at least as long as asked. Random choices and client answers are parameters.
- Floating point: delays, backoff and times are reals; the premium multiplier is 3/2, truncated by int().
- Daily counter persistence (`persist_counters`).
- The choice of which groups become tasks (`_seed_tasks_from_groups`) beyond creating tasks at any time.
- Link and keyword extraction from text, sender fields, and message dates: each message carries them.
- Keyword search beyond inserting its results as depth-0 groups.
- The hop graph of the crawl names group rows by their database id, because a scan may give a row another chat id.
- Realtime monitor, importer, proxy assignment and pinging, session-kind detection, sqlite reading, Fernet encryption, settings, bot, command line, deployment: wiring or easy members.
