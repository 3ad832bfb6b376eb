# The remote-ping engine of smokeping_prober, modelled and proved

The prober can ping hosts *through* Huawei VRP routers. For each router it keeps
a pool of SSH shell sessions; every target (a host and an uplink of the router)
has a timer that puts it into a bounded queue; workers take targets from the
queue, run the router's `ping` command on their session, parse its output, and
record replies and sent packets in Prometheus vectors. This project models that
engine, together with the configuration it starts from and the reload cycle of
the process around it, and proves what the parts guarantee to each other.

`dafny verify dfyconfig.toml` checks everything.

## How the model is laid out

- `Machine`, `Wrappers`, `Text`, `Sums`: int64 arithmetic, options and results,
  the string functions of Go that the engine uses, sums.
- `Huawei`, `PingOutput`, `PingReports`: the command printer and the output parser
  of `remote/huawei.go`. The regular expressions are scanners over strings; the
  parser is a method with its loop, tied to a specification, and inverted by a
  printer of router reports in the layouts of both families.
- `Patterns`, `Samples`: the scanners find exactly what the regular expressions of
  `remote/huawei.go` and `remote/session.go` match, both ways; and outputs and a
  command as `huawei_test.go` spells them out.
- `Framing`, `Session`, `Exchange`, `Dialogue`, `Logins`: `remote/session.go`.
  `Session` is a class with the source's fields and loops; its methods are tied to
  functions on the byte chunks that arrive. The other modules prove what those
  functions do against a device: one wait, one command, whole dialogues with
  commands that hang, and the login.
- `Scheduler`, `Tokens`, `Accounts`, `Outcomes`, `Ownership`, `Stopping`, `Backlog`, `Fairness`,
  `Goroutines`, `Splay`: `remote/scheduler.go`. The goroutines interleave, so the
  scheduler is a transition system in which the compare-and-swap, the channel
  send, the dequeue, the check of the context, each counter and the clearing of
  the flag are separate steps. All invariants hold for any number of targets and
  workers and any interleaving. `Goroutines` has the code of `schedule`, `enqueue`,
  `worker` and `runJob` with their loops and local variables, interrupted by any
  steps of the other goroutines between any two atomic actions; what it does is a
  run of the transition system.
- `Echoes`, `Engine`, `Delivery`: the composition. Any sequence of pings over one
  session, through any split of the byte stream and any wrapping of the echo, is
  counted as exactly what the router reported; and in a scheduler over any number of
  such sessions, what is recorded for a target is exactly what the routers reported
  to its command.
- `TestDevice`, `DeviceRuns`: the router that the repository's own tests talk to is
  an instance of the devices these results are about.
- `Config`, `Targets`, `Validated`, `Labels`, `Series`, `Metrics`, `Prober`:
  validation, expansion of hosts and links to targets, label tuples, vectors, and the
  `prepare`/`start`/`stop` of `main.go`, as methods with the source's loops.
- `Lifecycle`: start-up and reloads, with running schedulers recording results at
  any moment in between.

Bytes are characters. A dial succeeds or fails at will; a timer is a number of
receives it outlasts; address parsing, DNS and credential files are functions
given from outside, and the lemmas say what they rely on of them.

## What the proofs turned up

- A reload whose configuration is fine but whose `prepare` then fails, or that
  finds no targets, has already replaced the registered histogram
  (`main.go:417-433`). The old schedulers keep running and their sent packets
  stay exported, but their replies go to a vector that is no longer registered:
  this reads as total loss until a reload succeeds.
  `Lifecycle.ResultsAreSeenIff` gives the exact condition,
  `Lifecycle.FailedReloadExample` the run.
- `Stop` does not empty the queue, although the design document says so
  (`docs/superpowers/specs/2026-09-24-remote-ping-huawei-design.md:180`). Every
  scheduler with a target has a run from its start that ends with a target in the queue
  (`Backlog.StopCanLeaveBacklog`). If selects heed the closed Done channel, the queue
  is certain to be empty when `Stop` returns if and only if, at cancellation, nothing is
  queued and no timer is between its tick and its send
  (`Backlog.StopEmptiesExactly`); if they may choose a tick or a target first, if and
  only if nothing is queued and all timers have returned
  (`Backlog.StopEmptiesSurely`). At most one target per worker leaves the queue after
  cancellation (`Stopping.BacklogStays`); what stays behind keeps its pending flag,
  which is why a target must not be reused (`Tokens.StaleTargetNeverRuns`).
- The queue-full branch of `enqueue` is never taken (`Tokens.TokenInvariant`).
- The start offset of a target is the intended one if and only if interval times
  index does not overflow an int64 (`Splay.OffsetExact`); with an hour's interval
  that happens at target 2,562,048 (`Splay.OffsetOverflows`).
- A valid configuration can still fail to build its targets with "no link", but only
  for a host name on network `ip`. Its family is that of the address the resolver
  prefers: IPv4 if the answer has any IPv4 address, even where only an IPv6 address
  of it could be reached over a link (`Validated.ValidatedName`,
  `Validated.NamesCanLackALink`).
- Validation accepts a host listed twice in a group, and groups that ping a common
  host over links of the same name and source; the label tuples of a configuration
  are distinct if and only if neither happens (`Series.ConfigTuplesDistinct`;
  `Series.RepeatedHostIsValid` and `Series.AlikeGroupsAreValid` are instances).
- What the login learns does not depend on how the login text is cut into chunks if
  and only if no beginning of that text looks like a prompt or a question of its own
  (`Logins.LoginExactly`): a banner line such as `<n>` can be learned as the
  prompt (`Logins.BannerMisleads`).

## Model

| member | source | states |
|---|---|---|
| `Huawei.CommandIsItsWords` | remote/huawei.go:66-83 | the printed command is exactly its words, separated by single spaces, in both families, with and without a VPN instance |
| `Huawei.MillisecondsExact` | remote/huawei.go:80-82 | a duration is cut towards zero to whole milliseconds of 1,000,000 nanoseconds |
| `Huawei.CommandInFull` | remote/huawei.go:66-83 | the words of the command, flag by flag, for durations in nanoseconds, in all four cases |
| `Huawei.CommandRoundTrip` | remote/huawei.go:66-83 | an independent positional reader recovers every field of the job from its command, durations up to whole milliseconds |
| `Huawei.CommandInjective` | remote/huawei.go:66-83 | two jobs print the same command if and only if they agree up to that truncation |
| `Patterns.ReplyPattern` | remote/huawei.go:59 | both ways: a reply is found exactly where the expression matches, with the numbers it captures, the time in nanoseconds, and the place where the match ends |
| `Patterns.CountPattern` | remote/huawei.go:60-61 | both ways for the two counts |
| `Patterns.RepliesFromTheLeft` | remote/huawei.go:98 | the first reply found is the leftmost match, and the search goes on behind it |
| `Patterns.CountFromTheLeft` | remote/huawei.go:92 | the count found is that of the leftmost match |
| `Patterns.TimeoutsFromTheLeft` | remote/huawei.go:104 | lost requests are the occurrences of `Request time out`, counted from the left |
| `Text.AtoiExact` | remote/huawei.go:96-101 | the value of a run of digits, or the largest int64 |
| `PingOutput.FirstNonEmpty` | remote/huawei.go:117-124 | the first line that is not blank, trimmed, or the placeholder |
| `PingOutput.CollectReplies` | remote/huawei.go:98-103 | the loop returns the non-overlapping matches from the left, in order |
| `PingOutput.ParseOutput` | remote/huawei.go:91-115 | the parse specification; a result is returned only when the router's received count equals the replies parsed |
| `PingOutput.ErrorsQuote` | remote/huawei.go:91-124 | which of the three errors it is, with the counts or the first line that is not blank |
| `PingReports.DamagedReplyIsSilent` | remote/huawei.go:57-63 | a reply line whose time is printed in an unknown way contributes neither a reply nor a timeout |
| `PingReports.CutReplyIsMatchless` | remote/huawei.go:57-63 | nor does a reply line cut off at any place before its end, in front of a line that does not go on with it |
| `PingReports.ParsePrinted` | remote/huawei.go:91-115 | parsing any printed report of replies, timeouts, lines that do not match and silent text, with a footer that holds no `q`, returns its replies, its timeouts and its sent count, or only an error when the received count differs |
| `PingReports.RunRoundTrip` | remote/huawei.go:91-115 | for every list of replies, losses and reply lines damaged in any way that no longer matches, in the line structure of either family, under any header and trailer, LF or CRLF: an undamaged run parses back exactly, a damaged one is rejected whole |
| `PingReports.RepliesAsPrinted` | remote/huawei.go:98-115 | number by number: an error exactly for a damaged report; else the printed replies in order, with sequence number, TTL and the time in nanoseconds, wrapped like an int64 |
| `PingReports.VrpRoundTrip` | remote/huawei_test.go:24-68 | so do the reports in the layouts of the real IPv4 and IPv6 outputs |
| `PingReports.LeadingSpaceIgnored` | remote/huawei.go:57-63 | white space in front of an output changes nothing the parser finds |
| `Samples.OutputWithLoss` | remote/huawei_test.go:37-48 | the real IPv4 output with a lost request parses to two replies of 55 and 57 ms, one timeout and three sent |
| `Samples.RefusalIsQuoted` | remote/huawei_test.go:68-69 | a refusal of the router is an error that quotes it |
| `Samples.SampleCommand` | remote/huawei_test.go:144-151 | the command of the test, word by word |
| `Patterns.CsiPattern` | remote/session.go:50 | both ways: a control sequence is found exactly where the expression matches |
| `Patterns.StrippedFromTheLeft` | remote/session.go:212 | stripping keeps what stands in front of the first match and goes on behind it |
| `Patterns.PromptPattern` | remote/session.go:46 | both ways: a prompt is what the group of the expression matches |
| `Patterns.QuestionExactly` | remote/session.go:224 | both ways: a question is `[Y/N]` in any case with nothing but spaces, line ends and colons behind it |
| `Patterns.BlanksTrimmed` | remote/session.go:313 | exactly the spaces and newlines at the end are trimmed before the prompt is looked for |
| `Text.TrimmedExactly` | remote/session.go:333 | exactly the white space at both ends of a response is trimmed |
| `Framing.StripSplits` | remote/session.go:48-50 | stripping escapes of a prefix that leaves no escape open and of the rest is stripping the whole |
| `Framing.VisibleAppend` | remote/session.go:211-214 | what is visible of two pieces is what is visible of their concatenation, when the first leaves no escape open |
| `Framing.OpenEscapeShows` | remote/session.go:48-50 | while an escape is open the visible text ends in one of its bytes, so it cannot end in a prompt |
| `Framing.PromptAtEndExact` | remote/session.go:45-46 | a prompt is found at the end of a text if and only if the text is something, that prompt, and white space |
| `Session.ReadLoop` | remote/session.go:197-209 | no byte is lost, reordered or invented up to the first read error, and no chunk is empty |
| `Session.Session.LearnPrompt` | remote/session.go:216-246 | the loop computes the login specification; only success changes the prompt |
| `Session.LearnedIsPrompt` | remote/session.go:216-246 | a learned prompt has the shape of a prompt and never contains Y/N |
| `Session.LoginEndsAt` | remote/session.go:216-246 | a login ends at the first boundary at which the text decides something, if that comes in time; else the timer fires or the stream ends, told apart exactly |
| `Session.Session.StartShell` | remote/session.go:163-195 | a session is handed out open and with a prompt that is no question, or closed; nothing is sent before the prompt is learned, then `screen-length 0 temporary`, and success is its success |
| `Session.Session.Drain` | remote/session.go:279-291 | the buffer and the chunks that have arrived are dropped, and nothing else changes |
| `Session.Session.WaitPrompt` | remote/session.go:293-326 | the loop computes the wait specification on buffer and chunks |
| `Session.WaitExactly` | remote/session.go:293-326 | waiting succeeds at the first boundary at which the text is complete, if that comes in time; else the timer fires or the stream ends, told apart exactly, with what is left over in each case |
| `Session.Session.Run` | remote/session.go:248-277 | result, new state and bytes sent are those of the step specification, on a closed session too: nothing is sent if it was closed or the write failed, else the command, and byte 3 (Ctrl-C) behind it exactly after a timeout; the session is open afterwards exactly after success and after a timeout that Ctrl-C recovered |
| `Session.RunSends` | remote/session.go:248-277 | what a Run writes, in terms of the first wait: Ctrl-C exactly when its timer fired |
| `Session.LastTokenExactly` | remote/session.go:336-344 | the anchor is the last word of the command; a command of white space is its own |
| `Exchange.WaitIndependentOfChunks` | remote/session.go:293-326 | for every split into chunks, inside an escape or a CRLF too, waiting returns the same text and leaves only blanks unread |
| `Exchange.PromptOnlyAtEnd` | remote/session.go:305-316 | behind any text without the prompt, the prompt occurs only where it stands |
| `Exchange.AnswerIsFramed` | remote/session.go:248-277 | in the answer of a device with strays in front, the first anchor is the answer's own and the prompt comes only at the end |
| `Exchange.ResponseCleaned` | remote/session.go:328-334 | with the echo on one line, what is returned is the trimmed response without the echo |
| `Exchange.CleanedExactly` | remote/session.go:328-334 | for any output: the first line goes if and only if it holds the anchor, and the rest is trimmed |
| `Exchange.RunReturnsResponse` | remote/session.go:248-277 | one Run against an answering device returns exactly the cleaned answer, keeps the session open, and leaves nothing but blanks unread |
| `Dialogue.AnsweredTurn` | remote/session.go:248-277 | the same over raw bytes, with what is left from before the command in front; only bytes behind the prompt are left for the next one |
| `Dialogue.InterruptedTurn` | remote/session.go:261-272 | a command that hangs, against a device that shows no prompt behind the anchor before the timer fires and comes back with it after Ctrl-C, is a timeout that leaves the session open, with only late output unread |
| `Dialogue.DialogueExact` | remote/session.go:248-344 | over whole sequences of commands, interrupted ones among them, each answered command returns its own response and no other |
| `Dialogue.DialogueSends` | remote/session.go:248-277 | over whole dialogues the bytes sent are the commands in order, each on its line, with one byte 3 behind each interrupted one |
| `Dialogue.HonestDialogueExact` | remote/session.go:248-344 | conditions on the device alone are enough, in dialogues with and without interrupted commands: every command returns exactly its response or its timeout, and the bytes sent are those |
| `Dialogue.QuietDialogueExact` | remote/session.go:248-344 | against a device that leaves nothing but blanks behind its prompts, conditions on each step by itself are enough for that |
| `Dialogue.IdleForgotten` | remote/session.go:279-326 | late output that ends in a prompt or a blank and does not hold the next anchor spoils nothing, wherever a drain cuts it |
| `Dialogue.WaitSucceedsIff` | remote/session.go:293-326 | waiting succeeds if and only if the text is complete at a chunk boundary reached in time; with no anchor, the recovery after Ctrl-C |
| `Logins.LoginExactly` | remote/session.go:216-246 | a login decides the same for every split of its bytes if and only if no beginning of what it shows looks like something else |
| `Logins.PromptIsLearned` | remote/session.go:216-246 | so after a banner without a closing bracket the device's own prompt is learned, for every split |
| `Logins.BannerMisleads` | remote/session.go:216-246 | a banner and a split for which a line of the banner is learned instead |
| `Logins.QuestionIsRefused` | remote/session.go:221-231 | and a `[Y/N]` question, in any case, with or without a colon, is refused for every split |
| `Logins.LoginThenDialogue` | remote/session.go:163-195 | after the login only bytes behind the prompt are unread, and every step of a following dialogue gives exactly its result |
| `TestDevice.ShellIsHonest` | remote/fakevrp_test.go:153-231 | the repository's test device satisfies what the dialogue lemmas ask of an answering device, at every wrap width |
| `TestDevice.ShellAnswers` | remote/fakevrp_test.go:191-203 | echoed on one line, the response is the device's own text, trimmed |
| `TestDevice.ShellHangs` | remote/fakevrp_test.go:168-196 | its hanging commands satisfy what they ask of a device that comes back after Ctrl-C, with one prompt or two |
| `TestDevice.LatePromptForgotten` | remote/fakevrp_test.go:168-180 | its second prompt spoils no later command whose destination does not occur in it |
| `Tokens.RoomToSend` | remote/scheduler.go:85 | a timer that is about to send finds room: the queue holds at most one token per other target |
| `Tokens.SendFits` | remote/scheduler.go:85 | a send finds room exactly while the channel holds fewer than one target each, or none |
| `Tokens.TokensKept` | remote/scheduler.go:147-211 | every step of every goroutine keeps the balance of tokens and flags |
| `Tokens.TokenInvariant` | remote/scheduler.go:147-211 | in every state of every run the flag is set exactly while one timer, queue slot or worker holds the target, never two; the queue-full branch is not reached |
| `Tokens.StaleTargetNeverRuns` | remote/scheduler.go:48-49 | a target whose flag is left from an earlier scheduler is never enqueued again |
| `Accounts.BooksKept` | remote/scheduler.go:147-238 | every step keeps the books of every target |
| `Accounts.BooksAlways` | remote/scheduler.go:147-238 | in every state: fires are skips plus enqueues; enqueues are outcomes plus drops plus the live token; sent is the sum over parsed runs modulo 2^64; recorded results are the parsed runs in order |
| `Accounts.SettledBooks` | remote/scheduler.go:210-238 | for a target nobody holds these balances are exact, with nothing pending |
| `Accounts.OneLiveRun` | remote/scheduler.go:147-211 | at most one run of a target is queued or running |
| `Accounts.MetricsAlways` | remote/metrics.go:28-49 | the router's counters are the sums of its targets' histories plus failed dials: no error becomes loss, and no loss an error |
| `Accounts.SessionsUpBounded` | remote/metrics.go:29-34 | sessions_up stays within 0 and the number of sessions |
| `Outcomes.HistoryOfResults` | remote/scheduler.go:215-238 | in every state a target's timeouts are its Runs that returned a timeout, whether or not the session was lost with it; its failures those with any other error; parse errors and runs the outputs, by what they parse to |
| `Outcomes.AccountMoves` | remote/scheduler.go:215-238 | for each result: the one counter that moves, what is added to sent, and whether the session is kept |
| `Outcomes.CountersOfResults` | remote/scheduler.go:215-231 | in every state each error counter is the number of such results accounted for, plus the failed dials for connect |
| `Ownership.ReuseIsExact` | remote/scheduler.go:210-238 | runJob says a session can be reused if and only if Run left it open |
| `Ownership.OwnershipAlways` | remote/scheduler.go:160-208 | in every state no session is shared, none is leaked, and each worker knows whether its session is open |
| `Ownership.RunsOnOpenSessions` | remote/scheduler.go:200-204 | Run is only called on an open session that no other worker holds |
| `Ownership.BackoffClosedForm` | remote/scheduler.go:169-187 | after n failed dials in a row a worker waits min(minBackoff * 2^(n-1), maxBackoff), within the bounds, from the minimum again after a success |
| `Ownership.WaitsDouble` | remote/scheduler.go:169-187 | each failure doubles the wait up to the maximum; after a lost session it starts from the minimum |
| `Stopping.WorkAfterCancel` | remote/scheduler.go:188-204 | after cancellation a worker finishes at most the job it was running, takes at most one more target and drops at most one |
| `Stopping.NothingStartsAfterCancel` | remote/scheduler.go:192-199 | a command running after cancellation was already running then |
| `Stopping.BacklogStays` | remote/scheduler.go:192-199 | at most one target per worker leaves the queue after cancellation |
| `Stopping.StoppingIsBounded` | remote/scheduler.go:117-208 | a run after cancellation has at most 5 steps per timer, 13 per worker, and 7 for each select that ignores the closed Done channel |
| `Stopping.NeverStopsOnlyIfUnfair` | remote/scheduler.go:117-208 | an infinite run after cancellation has, after every point, a select that ignores the closed Done channel; under fair selects all goroutines return |
| `Stopping.StopNeverStuck` | remote/scheduler.go:117-208 | until every goroutine has returned, and only until then, one of them can take a step towards the end |
| `Stopping.StopReturns` | remote/scheduler.go:116-123 | when all have returned: every dialled session is closed, sessions_up is 0, all counters are exact, and the flag is set for the targets left in the queue and no others |
| `Backlog.StopEmptiesExactly` | remote/scheduler.go:116-145 | from any cancelled state of a run: under selects that heed Done, every way to the end leaves the queue empty if and only if nothing is queued and every timer is waiting, counting a skip, or has returned |
| `Backlog.StopEmptiesSurely` | remote/scheduler.go:116-199 | under any selects, if and only if nothing is queued and every timer has returned |
| `Backlog.StopCanLeaveBacklog` | remote/scheduler.go:104-123 | every scheduler with a target has a run from its start in which all goroutines return and a target stays in the queue |
| `Fairness.FirstInFirstOut` | remote/scheduler.go:85 | what was queued plus what was put in is what was taken out plus what is still queued, in order |
| `Fairness.BoundedOvertaking` | remote/scheduler.go:188-204 | a queued target is served after at most (targets - 1) others, each of them once |
| `Splay.Offsets` | remote/scheduler.go:108-113 | the loop gives every target its offset |
| `Splay.OffsetExact` | remote/scheduler.go:110 | the offset is the rounded i-th share of the interval if and only if the product does not overflow |
| `Splay.OffsetOverflows` | remote/scheduler.go:110 | an interval and an index for which it does: the offset is negative |
| `Splay.OffsetInInterval` | remote/scheduler.go:108-113 | without overflow the offset lies in the interval, from 0 |
| `Splay.OffsetGap` | remote/scheduler.go:108-113 | neighbouring offsets of equal intervals differ by the rounded share or one more |
| `Splay.LastGap` | remote/scheduler.go:108-113 | so do the last offset and the end of the interval |
| `Splay.StartPauses` | main.go:136-156 | the start loop of the local pingers sleeps at most the longest interval, and falls short of it by less than one nanosecond per pinger |
| `Goroutines.Live.Others` | remote/scheduler.go:95-208 | any steps of the other goroutines leave a goroutine where it stands in its code, keep the context cancelled and closed sessions closed, and extend a run of the protocol |
| `Goroutines.Live.Enqueue` | remote/scheduler.go:147-158 | with the others in between, the code of enqueue is part of a run, and the send always finds room |
| `Goroutines.Live.Schedule` | remote/scheduler.go:125-145 | for any number of rounds, the loop of schedule is part of a run; it returns only when the context is cancelled, and otherwise stands in a select |
| `Goroutines.Live.RunJob` | remote/scheduler.go:210-238 | with the others in between, the session it calls Run on is open, it tells to reuse the session exactly when it is still open, each kind of result moves its own counter, and the flag is clear when it returns |
| `Goroutines.Live.Serve` | remote/scheduler.go:188-205 | one select with a session: stopped, the worker returns with the session closed; else it keeps it exactly when it is open, and discards it closed |
| `Goroutines.Live.Connect` | remote/scheduler.go:169-187 | one dial: an open session and the minimum backoff, or the doubled and bounded backoff, or stopped while it waits |
| `Goroutines.Live.Work` | remote/scheduler.go:160-208 | for any number of passes, the loop of worker with its variables and its deferred close is part of a run; what it holds is open, and when it returns the context is cancelled and every open session belongs to another worker |
| `Engine.AnchorIsTarget` | remote/session.go:260 | the anchor of a ping command is its destination |
| `Echoes.EchoIgnored` | remote/huawei.go:57-63 | what is left of a ping command's echo, wrapped anywhere, in front of a report changes nothing the parser finds |
| `Engine.ServedResponse` | remote/session.go:254-277 | whatever is left of the answer to a ping parses to what the router reported, under any header that names the target, whether the anchor is found in the wrapped echo or in that header |
| `Engine.PingsAreCountedExactly` | remote/scheduler.go:210-238 | every ping of every dialogue over one session, between commands that hang, is counted as exactly what the router reported for it, whatever the chunks and wherever the echo is wrapped |
| `Delivery.HistoryIsSaid` | remote/scheduler.go:188-238 | in every state of a scheduler whose sessions talk to routers that serve their pings, with sessions lost at any time, what is filed for a target is exactly what the routers said for it, in order: results are reports, parse errors damaged reports, timeouts hanging commands, failures lost sessions |
| `Delivery.ResultsAreTheReports` | remote/scheduler.go:210-238 | for a target with a command of its own, what is recorded is a beginning of the reports given to that command on all sessions, in order; all of them, with sent their sum modulo 2^64, when nobody holds the target |
| `Delivery.GoesOn` | remote/scheduler.go:200-204 | such runs go on: whenever a worker is in Run and its session has that command next, Run can return what the router said |
| `DeviceRuns.DeviceServes` | remote/fakevrp_test.go:153-231 | the test device serves pings in the sense of `Engine.PingsAreCountedExactly`, under any header that names the target and any trailer, at every wrap width |
| `DeviceRuns.VrpReportServed` | remote/huawei_test.go:24-68 | in particular those reported in the router's own layout, in both families |
| `DeviceRuns.DeviceHangs` | remote/fakevrp_test.go:168-196 | and pings that hang on it are recovered from, whatever is unread |
| `Config.FindRouter` | config/config.go:106-114 | the first router of the name; found if and only if there is one |
| `Config.SelectLinks` | config/config.go:116-128 | the eligible links in router order, all of them for no names |
| `Config.SelectedUnique` | config/config.go:116-128 | a selection of uniquely named links is uniquely named |
| `Config.SelectedInOrder` | config/config.go:116-128 | exactly the named links, all for no names, each once and in router order |
| `Config.LinkChecks` | config/config.go:224-241 | what becomes of a good link when a setting is changed: each check, and its exact limit |
| `Config.RouterChecks` | config/config.go:199-242 | the same for a router |
| `Config.GroupChecks` | config/config.go:257-275 | the same for a routed group; packet interval, timeout, size and protocol are not checked |
| `Config.GroupNamesChecked` | config/config.go:257-275 | no other network and no link the router does not have |
| `Config.LocalGroupChecks` | config/config.go:246-256 | a group without a router has none of the five settings that need one |
| `Config.ValidateRouter` | config/config.go:199-242 | no complaint only about a router that is all right; a complaint names a defect the router has |
| `Config.ValidateRouters` | config/config.go:191-244 | all routers are all right, uniquely named and in the map by name; or the error names a real defect |
| `Config.ValidateGroup` | config/config.go:257-300 | no complaint only about a group its router can serve; a complaint names a defect the group has |
| `Config.Validate` | config/config.go:190-303 | no error if and only if the configuration is well formed; an error names a real defect, and a group is blamed only after all the routers and groups before it are all right |
| `Config.DefectIsWrong` | config/config.go:190-303 | whatever an error can claim is incompatible with being well formed |
| `Config.GroupHasRouter` | main.go:229-230 | the lookup whose result prepare ignores is always a hit, on the one router of that name |
| `Config.ApplyDefaults` | config/config.go:312-341 | the assignments compute the defaulted group |
| `Config.DefaultsAre` | config/config.go:312-341 | the default of every setting in nanoseconds and packets; everything else stays as decoded |
| `Config.DefaultsAccepted` | config/config.go:312-341 | a defaulted group is accepted if and only if the numbers written down are sound, an explicit interval included, and the rest is; defaulting twice changes nothing |
| `Config.SafeConfig.constructor` | main.go:54-56 | the empty configuration is valid |
| `Config.SafeConfig.ReloadConfig` | config/config.go:130-161 | succeeds exactly for a readable, well-formed file; otherwise the configuration stays; it is well formed at all times |
| `Targets.SentIsSum` | remote/scheduler.go:53-57 | after any calls of AddSent the counter is their sum modulo 2^64, and the sum itself exactly while that is in range |
| `Targets.CountAll` | remote/scheduler.go:53-57 | a new target on which AddSent is called for each of a sequence of numbers holds that sum |
| `Targets.Resolve` | remote/targets.go:29-55 | a literal of the wrong family is refused, a name prefers IPv4 on network ip |
| `Targets.ResolvesTo` | remote/targets.go:29-55 | a literal resolves to itself or, in the wrong family, not at all; a name to the first IPv4 address on network ip if there is one, else to the first address |
| `Targets.BuildHost` | remote/targets.go:68-95 | one new target for each link with a source of the host's family, in order |
| `Targets.BuildTargets` | remote/targets.go:57-101 | succeeds exactly when every host resolves to a family some link serves; then new, distinct, unused targets as the expansion says; else an error about the first host that fails, with the right reason |
| `Targets.ProductInOrder` | remote/targets.go:57-101 | the expansion is the product of hosts and eligible links filtered by family, each pair once, in lexicographic order |
| `Targets.FieldsOfTarget` | remote/targets.go:76-94 | each field of each target, by itself: from which setting of the group, its link or its address it comes |
| `Targets.EveryHostHasTarget` | remote/targets.go:96-98 | every host of a built group has at least one target |
| `Validated.ValidatedHost` | config/config.go:277-300 | in a validated group a host can lack a link only if it is a name on network ip that resolves to a family no link serves |
| `Validated.ValidatedName` | remote/targets.go:41-54 | such a name is reachable if and only if it has an address and a link serves the family the resolver prefers, IPv4 if there is one |
| `Validated.LiteralGroupsBuild` | remote/targets.go:57-101 | for literal hosts of a validated group building fails only in Resolve, on a literal of the other family |
| `Validated.NamesCanLackALink` | remote/targets.go:96-98 | a valid configuration and a name for which building fails for want of a link |
| `Validated.TargetsAreFit` | remote/targets.go:78-94 | every target of a validated group has a positive interval, a named link, a source of its own family, and string fields that are single harmless words |
| `Labels.BuildLabelNames` | main.go:302-321 | the base names, then the groups' other label names, sorted, each once |
| `Labels.NamesAreDetermined` | main.go:302-321 | the names do not depend on the order in which maps are walked |
| `Labels.LabelValues` | collector.go:124-136 | for each name the base value, else the custom one, else the empty string |
| `Labels.LabelsInOrder` | collector.go:138-160 | the names `ip`, `host`, `source`, `tos`, `link` in front, and which value of a router target and of a local pinger stands under each |
| `Labels.LessIsBytewise` | main.go:302-321 | the order of the other names is the byte order of Go strings |
| `Labels.TupleHead` | collector.go:138-160 | the five base labels stand in front and no custom label overrides one |
| `Labels.RemoteIsNotLocal` | collector.go:138-160 | a router target's tuple never equals that of a local pinger |
| `Labels.GroupTuplesDistinct` | collector.go:152-160 | the targets of a built group have pairwise different tuples if and only if no host is listed twice |
| `Series.TupleEquality` | collector.go:124-160 | two targets have the same tuple if and only if address, host, source, ToS, link and labels agree |
| `Series.ConfigTuplesDistinct` | collector.go:262-269 | all targets of a configuration have series of their own if and only if no group lists a host twice and no two groups ping a common host alike |
| `Series.RepeatedHostIsValid` | config/config.go:246-301 | a valid configuration, buildable, for which they do not |
| `Series.AlikeGroupsAreValid` | config/config.go:246-301 | and one in which no host is listed twice, but two groups ping a host alike |
| `Metrics.RemoteRecorder.Record` | collector.go:175-183 | one observation per reply in order and the last TTL under the target's tuple; nothing for no replies; no other series changes; the i-th new sample is the i-th reply's round-trip time |
| `Metrics.RecordIsObserved` | collector.go:175-183 | on counts, recording is the step of the life cycle |
| `Metrics.Collector.UpdateProbes` | collector.go:185-245 | the histogram and the TTLs hold exactly the series of the probes and targets, the duplicates and send errors those of the probes, all empty |
| `Metrics.ResetIsReset` | collector.go:185-245 | on counts, with any local probes, that is the reset of the life cycle |
| `Metrics.Collector.Collect` | collector.go:251-270 | each probe's and each target's counter once, under its own tuple, in order |
| `Prober.ExpandGroup` | main.go:229-235 | the group's targets join those of its router, and no object is held twice |
| `Prober.PrepareGroups` | main.go:219-265 | fails exactly when a group cannot be set up, for the first problem of the first such group; else probes in order, targets by router, and the longest local interval, which ignores the intervals of router targets |
| `Prober.LongestIsLocal` | main.go:239-243 | the longest interval is one number, and changing the interval of router groups does not change it |
| `Prober.SizeChecked` | main.go:222-225 | every group's packet size is checked, from 24 to 65535 |
| `Prober.ProbeOfHost` | main.go:244-264 | each field of the pinger of each host of each group, where it stands; its interval is the local one for a group with a router and the group's for one without |
| `Prober.ProbeOfArgument` | main.go:195-217 | and of each host of the command line |
| `Prober.PrepareSchedulers` | main.go:266-278 | one new scheduler for each router with targets, in order, with all of its targets; fails exactly for unreadable credentials of such a router |
| `Prober.SchedulerOfRouter` | main.go:266-278 | each scheduler has a router's name and its number of sessions, and at least one target, all of that router |
| `Prober.SmokePingers.Prepare` | main.go:192-283 | succeeds exactly when everything can be set up, and then with these probes, distinct unused targets, schedulers and interval; otherwise what was prepared is unchanged and the error is about the first thing that is wrong |
| `Prober.SchedulersPartition` | main.go:219-278 | the schedulers together hold exactly what all groups were expanded to, each target in one scheduler |
| `Prober.SmokePingers.SizeOfPrepared` | main.go:105-111 | the local probes plus all targets of all prepared schedulers |
| `Prober.SmokePingers.RemoteTargets` | main.go:113-119 | the targets of the started schedulers, in order |
| `Prober.SmokePingers.Start` | main.go:121-135 | nothing with nothing prepared; else the old schedulers are stopped and the prepared ones are current and not yet running |
| `Prober.SmokePingers.StartRemote` | main.go:166-170 | every current scheduler has been started once and runs |
| `Prober.SmokePingers.Stop` | main.go:172-176 | every current scheduler is stopped and let go of |
| `Lifecycle.GenerationsKept` | main.go:395-446 | every step of start-up, reload and recording keeps the generations apart |
| `Lifecycle.OneGeneration` | main.go:121-190 | in every state at most one generation runs, no scheduler is started twice, and between reloads exactly the current one runs and is exported |
| `Lifecycle.NothingIsWiped` | collector.go:185-245 | in every state each vector holds for each tuple exactly the replies recorded into it: no reset ever wipes one |
| `Lifecycle.ResultsAreSeenIff` | main.go:417-433 | between reloads a running scheduler writes to the registered vector if and only if the last reload with a usable configuration went through |
| `Lifecycle.FailedReloadHidesReplies` | main.go:417-433 | after one that did not, the registered vector is empty while the old schedulers run and stay exported |
| `Lifecycle.FailedReloadExample` | main.go:423-428 | from any state with a running scheduler there is such a run |

## Left out

- SSH dialling, host keys, authentication and reading credential files: a dial succeeds or fails, a credential file can be read or not.
- Real time: timers fire at any moment, and `Run`'s timers are given as a number of receives. `CommandDeadline` and the three session timeouts are numbers nothing here depends on.
- UTF-8: bytes are characters, and white space is the ASCII one; `strings.ToUpper` changes ASCII letters only.
- `net.ParseIP` and DNS: parameters. An address is its text and whether it has a 4-byte form.
- YAML decoding: `ApplyDefaults` starts from the decoded group and the keys that were present.
- The local pingers' own work, and their metric callbacks, which write to the vectors that are current when a packet arrives: label arity across a reload is claimed for the recorder of router results only.
- Prometheus registration, buckets and native histograms: a vector maps label tuples to what was written; the last vector made is the registered one.
- Starting and stopping the local pingers themselves (`main.go:130-155`, `main.go:177-189`): `Prober` keeps which ones are current, and `Splay.StartPauses` has the pauses between their starts.
- HTTP server, flags, landing page, logging. `parseBuckets` and the exit codes of `main` are not modelled; a failure at start-up ends the process.
- Goroutines: the loops run for any given number of rounds, since they need not end; that they do end after cancellation under fair selects is in `Stopping`.
- Scheduler: the transition system works on values, not on objects; that targets are distinct objects is what `Prober.SmokePingers.Prepare` establishes.
- Lifecycle: the schedulers of a generation are started and stopped one by one, but what happens inside each is the matter of the scheduler's own modules.
- Delivery: the sessions are given with the bytes they exchange; that a login hands one out ready for that is `Logins.LoginThenDialogue`. What a target's lost sessions do to the rest of the scheduler is in `Accounts` and `Ownership`.
- Config.Validate: which of several defects of one router or of one group is reported first is not stated, only that the reported one is real.
- Prober.SmokePingers.Start: does not start the local pingers themselves, only makes the prepared ones current.
- Prober.SmokePingers.Stop: does not stop and wait for the local pingers, whose errors are only logged.
- Metrics.Collector.UpdateProbes: does not set the local pingers' callbacks.
- PingReports.DamagedReplyIsSilent: one kind of damage, behind the word `time`; with PingReports.CutReplyIsMatchless for lines cut off anywhere it gives instances of what PingReports.RunRoundTrip allows in general.
- Session.Session.Close: its whole effect is that the session is not open afterwards.
- Targets.Target.AddSent: one assignment; what follows from it for sequences of calls is Targets.CountAll.
- Replies of a report may exceed `sent`: the code only logs that the counters do not add up, and nothing is claimed about it.
- Dashboards, alert rules, Makefiles and the Dockerfile.
