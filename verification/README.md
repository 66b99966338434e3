# Verified models of the broker

This project models the stateful core of the ssoc broker in Dafny 4.11 and proves properties of the
model for all inputs and, where several goroutines or brokers share state, for all interleavings.
Check it with `dafny verify dfyconfig.toml`.

| file | what it models |
|---|---|
| `MinionPresence.dfy` | agent presence over many brokers: `Auth`, `Join` with its deferred undo, `Knockout`, broker restart |
| `AgentServer.dfy` | the second presence protocol, which relies on its in-memory hubs and ignores affected rows |
| `MinionTable.dfy` | the table both protocols share |
| `PipeLogTail.dfy` | the history read of the console log: backwards block-wise tail, and the full read |
| `PipeLogSubscribe.dfy` | registration, piecewise history read, append, truncation and notification as interleaved steps |
| `LimitedFile.dfy` | the size-bounded log file with idle close, resize and removal |
| `TaskSync.dfy` | the configuration diff, the bounded synchronisation loop, the status table |
| `SegmentMap.dfy` | FNV-1 sharding and the segmented put-if-absent map of connections |
| `BucketMap.dfy` | the sharded overwrite map with `Range` and its callback |
| `SharedStrings.dfy` | optimistic, version-checked updates of one shared string |
| `ElkeidFS.dfy` | single-writer download, publication and claims |
| `TableScan.dfy` | the keyset-paged scan and the completion of its tasks |
| `BrokerClient.dfy` | session ownership in the reconnecting client, address normalisation |
| `FrameCodec.dfy` | masked frames |
| `Basics.dfy` | optional values and set sizes used by the others |
| `Decimal.dfy`, `MinionToken.dfy` | 64-bit decimal formatting and parsing; tokens signed for an id |

How the concurrent parts are modelled: a `State`, the atomic `Event`s that the code performs on shared
state (one map operation under its lock, or one SQL statement), `Apply` for what an event does,
and `Legal`/`Run` for arbitrary traces of enabled events. Every theorem about runs quantifies over
all traces; the concrete runs below only show that something can happen. Beside it, a class performs the same operations step by step on mutable fields. In
`MinionPresence`, `AgentServer`, `LimitedFile` and `ElkeidFS` each method's contract says that its new
state is the event (or run of events) applied to the old one. `SharedStrings.Table` has only the row,
and what its `Request` does to it is proved to be what the uninterrupted run of its events does
(`RequestIsRun`); `PipeLogSubscribe.PipeFS` has the subscribers of many files, and its `NotifyAll` is
matched by `NotifyAllIsRun`. Database tables are maps or sequences with atomic
conditional updates; an update whose caller sees an error may or may not have been applied
(`Failed(applied)`), and the history variable `lost` collects the rows that such an update left
online. Outcomes that come from outside (network, disk, clock, response codes) are parameters. What
each event does to each column and field is also written out once more, independently of the functions
that `Apply` uses, in the lemmas named `...Effect`, and which events can happen when in `NextStep`.

## What the proofs found

- **Knockout can hide a successor** (`MinionPresence.KnockoutCanHideServingSession`): `section.Del`
  takes only the id, so the deferred `Del` of a knocked-out session can remove the entry of a session
  of the same agent that has come online meanwhile. That session serves and is online in the table but
  cannot be dialled. `EntrySurvivesIff` says exactly which steps remove an entry, and
  `WithoutKnockoutEntryIsOwn` that without a Knockout of the agent it never happens. The table-level
  exclusion does not depend on the hub and always holds (`AtMostOneServing`).
- **Inactive agents are served without being online** (`AgentServer.InactiveAgentIsServed`): the status
  check admits inactive rows, the conditional update does not match them, and its row count is
  ignored. `ServingOnlineIff` and `OnlineUpdateHitsIff` give the exact conditions.
- **Two brokers can serve one agent** (`AgentServer.TwoBrokersServeOneAgent`): each hub excludes only on
  its own broker (`AtMostOneHolding`), and across brokers only the ignored row count could exclude
  (`AtMostOneOwner`). Leaving aside inactive rows and lost updates, at most one session of an agent is
  up (joined and not yet taken offline) in every state of a run if and only if every online update for
  it that answered changed its row (`OneUpIff`, `OneServedIff`). One miss is enough: the session that
  missed keeps running when the other goes offline, so a later update that does change the row can
  again put two brokers on the agent (`LaterHitServesTwice`). `ServedTwiceIff` is the step at which the first pair arises. On a
  single broker no such miss can happen (`SingleBrokerHitsIff`).
- **A lost auth response locks an agent out** (`AgentServer.LostResponseLocksOut`, `AbandonedLocksOut`):
  the hub entry and the online row have no owner then, and the hub has that entry exactly until the
  broker restarts (`AbandonedHoldsIff`).
- **A failed download request keeps its claim** (`ElkeidFS.FailedRequestBlocksName`,
  `LeakedClaimStays`): `Open` returns without releasing the name, which is then never cached again; a
  name is left claimed exactly then (`QuiescentClaims`).
- **A reader that reads on after a failed copy can publish an incomplete file**
  (`ElkeidFS.CarelessReaderPublishesPart`): what is published is
  complete if and only if every write to the temporary file was (`PublishedIsCompleteIff`), which holds
  if readers stop at their first error (`StoppingReadersPublishAll`). The only present caller,
  `app/agtapi/reverse.go:40-53`, hands the file to the `Stream` of the web framework, which is not in
  this repository: it is such a reader if it copies as `io.Copy` does, which returns at the first error.
- **A version is not enough across a deletion** (`SharedStrings.DeletionBreaksTheCount`): a deleted
  and re-created row starts at version 1 again, so an old snapshot can match it. On every run the count
  is exact if and only if the snapshots of the matched increments were off by nothing in sum
  (`CountExactIff`), and the whole row has always been what its updates give one after the other if and
  only if each was harmless when it matched (`SequentialIff`, step by step `UpdateActsOnRowIff`): any
  Store, a Set with its own lifetime or the row's, an Incr that also has the row's count.
- **Expiry can delete a fresh row** (`SharedStrings.ExpiryDeletesFreshRow`): of two requests that find
  the same expired row, the later deletes the replacement of the earlier, whose version is 1: a `Set`
  or `Store` if and only if the expired row was also at version 1, an `Incr` always
  (`PurgeDeletesIff`).
- **A failed Stat lets a log file outgrow its bound** (`LimitedFile.UnmeasuredFileOutgrows`). On every
  run, whichever calls fail, `BoundFailsIff` says exactly when a write leaves maxsize bytes or more, in
  terms of the bytes the recorded size does not have; `UnmeasuredOpenIff` is the first write.
- **Repeated substance ids never settle** (`TaskSync.RepeatedIdsNeverSettle`): `Diff` sends the second
  occurrence every time, so the loop uses up all its rounds. No present caller of `rsync` produces such
  a list: `app/mgtsvc/minion.go:64-78` takes the substances from one query on their table.
- **The full history read drops line ends** (`PipeLogTail.TailAll`), while the last-n read keeps them; it
  reproduces the file if and only if that has none (`StripKeepsAllIff`).

## Model

| member | source | states |
|---|---|---|
| `MinionPresence.AtMostOneServing` | bridge/mlink/hub.go:148-257 | on every run of any number of brokers, with Knockouts, restarts and lost updates, one agent has at most one serving session, and its row is online under that session's own broker |
| `MinionPresence.DialPicksLiveSession` | bridge/mlink/hub.go:350-366 | whatever `dialContext` picks is an unfinished session of that agent on that broker, between Put and its own Del, whose mux the broker has not closed |
| `MinionPresence.QuiescentState` | bridge/mlink/hub.go:169-215 | when all sessions are done every hub is empty, every mux closed, and a row is online exactly if an update for it was lost |
| `MinionPresence.AnsweredRunsEndOffline` | bridge/mlink/hub.go:203-215 | from a table with no row online, if every update answers, no row is online once all sessions are done |
| `MinionPresence.StepKeepsInv` | bridge/mlink/hub.go:103-318 | every atomic step keeps the protocol invariant: entries belong to live sessions, owners are unique and their rows online under them, online rows are explained, no session of a deleted agent exists |
| `MinionPresence.RunKeepsInv` | bridge/mlink/hub.go:103-318 | so does every run |
| `MinionPresence.WithoutKnockoutEntryIsOwn` | bridge/mlink/hub.go:169-173 | while an agent is not knocked out on a broker, its session between Put and Del is always the hub entry, so the deferred Del removes its own |
| `MinionPresence.EntrySurvivesIff` | bridge/mlink/hub.go:309-318 | an entry outlives a run if and only if no step of it knocks the agent out, runs a Del for that agent, or restarts the broker |
| `MinionPresence.LostEntryNeverReturns` | bridge/mlink/hub.go:169-173 | a session that lost its entry never gets it back |
| `MinionPresence.KnockoutCanHideServingSession` | bridge/mlink/hub.go:309-318 | a concrete run after which a session serves, is online in the table, and cannot be dialled |
| `MinionPresence.KnockoutEffect` | bridge/mlink/hub.go:309-318 | ignores id 0 and agents without an entry; otherwise the entry goes, the mux of the session it named is closed in whatever phase that is, and nothing else changes |
| `MinionPresence.KnockedOutForGood` | bridge/mlink/hub.go:309-318 | on every run a knocked-out session has a closed mux from then on |
| `MinionPresence.ServingIsDialled` | bridge/mlink/hub.go:350-366 | on every run `dialContext` finds a serving session that was not knocked out |
| `MinionPresence.FrozenStays` | bridge/mlink/hub.go:148-275 | no step of any run changes an inactive, deleted or abnormal row, or makes one |
| `MinionPresence.RestartEffect` | bridge/mlink/hub.go:263-275 | the broker's sessions end, its hub is empty, exactly its online rows go offline, every other row, session and entry stays |
| `MinionPresence.AuthEffect` | bridge/mlink/hub.go:103-143 | which identities are refused, which rows are created, and which row lets a session begin |
| `MinionPresence.PutEffect` | bridge/mlink/hub.go:169-173 | the entry is this session's if there was none, and otherwise stays and the session is closing |
| `MinionPresence.GoOnlineEffect` | bridge/mlink/hub.go:178-202 | only an offline row changes, to online under this broker; the session serves exactly if it did and the update answered |
| `MinionPresence.GoOfflineEffect` | bridge/mlink/hub.go:203-215 | only a row online under the session's own broker changes, to offline |
| `MinionPresence.DelEffect` | bridge/mlink/hub.go:173 | exactly the id's entry goes; no mux is closed |
| `MinionPresence.EndEffect` | bridge/mlink/hub.go:157-253 | the end of serving changes nothing shared; the deferred close ends the session with a closed mux |
| `MinionPresence.NextStep` | bridge/mlink/hub.go:148-257 | in every phase exactly the next call of Auth and Join, deferred ones last-in first-out, can be taken |
| `MinionPresence.JoinUndoesItself` | bridge/mlink/hub.go:148-257 | an undisturbed Join leaves the hub as it was, finishes its session, touches only its own row and leaves it offline unless an update was lost |
| `MinionPresence.Cluster.Auth` | bridge/mlink/hub.go:103-143 | answers 400 for an unacceptable identity, 500 if a missing row cannot be created, 403 for a deleted and 409 for an online row, 202 otherwise; only 202 creates a session |
| `MinionPresence.Cluster.Put` | bridge/mlink/hub.go:169-173 | put-if-absent |
| `MinionPresence.Cluster.GoOnline` | bridge/mlink/hub.go:178-202 | the conditional update; an error or no affected row leads to the deferred Del without an offline update |
| `MinionPresence.Cluster.GoOffline` | bridge/mlink/hub.go:203-215 | the broker-qualified update |
| `MinionPresence.Cluster.Del` | bridge/mlink/hub.go:173 | removes whatever entry the id has |
| `MinionPresence.Cluster.Knockout` | bridge/mlink/hub.go:309-318 | ignores id 0; otherwise removes the entry and closes the mux of the session in it |
| `MinionPresence.Cluster.Join` | bridge/mlink/hub.go:148-257 | runs the deferred calls last-in first-out; returns the already-online error exactly if the key was taken, an error if the update failed, and nil when no row matched |
| `MinionPresence.Cluster.ResetDB` | bridge/mlink/hub.go:263-275 | sets exactly the broker's online rows offline |
| `AgentServer.AtMostOneHolding` | channel/serverd/server.go:135-140 | on any number of brokers two sessions of one agent on one broker are never both between Put and DelByID |
| `AgentServer.AtMostOneOwner` | channel/serverd/server.go:162-169 | of the sessions of one agent that are up, on any brokers, at most one had changed the row, which is online under that one's broker |
| `AgentServer.OnlineUpdateHitsIff` | channel/serverd/server.go:162-164 | after a successful Put the online update changes its row if and only if the row is not inactive, not left over from a lost update and not owned by a session of another broker |
| `AgentServer.OneUpIff` | channel/serverd/server.go:162-169 | on any number of brokers, with neither of the first two, at most one session of an agent is up in every state of a run if and only if every answered online update for it changed its row, which join does not check |
| `AgentServer.OneServedIff` | channel/serverd/server.go:110-169 | in particular on every run from a table in which the row is neither online nor inactive, if every update answers |
| `AgentServer.ServedTwiceIff` | channel/serverd/server.go:162-169 | as a step: an answered update leaves an owner on another broker beside its session exactly when it changed no row |
| `AgentServer.TwoBrokersServeOneAgent` | channel/serverd/server.go:120-164 | a concrete run in which two brokers serve one agent at once |
| `AgentServer.LaterHitServesTwice` | channel/serverd/server.go:270-284 | that run goes on so that an update which does change the row puts a third session beside the one that had missed it |
| `AgentServer.SingleBrokerHitsIff` | channel/serverd/server.go:162-164 | on a single broker the update after a successful Put changes its row if and only if that is neither inactive nor left over from a lost update, which is when ignoring the row count is sound |
| `AgentServer.ServingOnlineIff` | channel/serverd/server.go:120-169 | on a single broker a serving session's row is online under it if and only if it was not inactive at the start |
| `AgentServer.DelByIDRemovesOwn` | channel/serverd/server.go:270-284 | the entry removed by id at disconnect or on a failed join is always the session's own, and the row is then online only if an update was lost or another broker's session owns it |
| `AgentServer.QuiescentState` | channel/serverd/server.go:81-108 | with no session under way each hub holds exactly the agents whose auth response was lost there, and the online rows are those of lost updates and of such sessions that had changed them |
| `AgentServer.CleanRunsEndClean` | channel/serverd/server.go:45-79 | if everything answers, a run from an offline table ends with empty hubs and no row online |
| `AgentServer.AbandonedHoldsIff` | channel/serverd/server.go:99-105 | a session whose response could not be written stays, and has its hub entry, exactly until its broker restarts |
| `AgentServer.AbandonedAdmitsNone` | channel/serverd/server.go:120-127 | until then its row stays online and no new session of that agent is admitted on any broker |
| `AgentServer.AbandonedLocksOut` | channel/serverd/server.go:99-105 | until then no session of that agent is served on that broker |
| `AgentServer.LostResponseLocksOut` | channel/serverd/server.go:55-61 | a concrete run to that point, and what holds however it goes on |
| `AgentServer.InactiveAgentIsServed` | channel/serverd/server.go:120-164 | a concrete run in which an inactive agent is served without being online |
| `AgentServer.StepKeepsInv` | channel/serverd/server.go:81-284 | every step of any broker keeps the invariant: exact possession of the hubs, owners' rows online under them, online rows explained |
| `AgentServer.RunKeepsInv` | channel/serverd/server.go:81-284 | so does every run |
| `AgentServer.RunKeepsSingle` | channel/serverd/server.go:81-284 | on runs of one broker every session that is up has its row online under that broker or inactive |
| `AgentServer.InactiveStays` | channel/serverd/server.go:162-164 | no step activates or deactivates a row |
| `AgentServer.FrozenStays` | channel/serverd/server.go:110-284 | no step of any run changes an inactive, deleted or abnormal row, or makes one |
| `AgentServer.FindEffect` | channel/serverd/server.go:112-133 | the row that findOrCreate creates, and which rows let a session begin |
| `AgentServer.PutEffect` | channel/serverd/server.go:135-140 | the entry is this session's if there was none, and otherwise stays and the session is over |
| `AgentServer.UpdateEffect` | channel/serverd/server.go:162-169 | only an offline row changes, to online under this broker; the session goes on exactly if the update answered |
| `AgentServer.RespondEffect` | channel/serverd/server.go:99-105 | a written response serves the session, a lost one abandons it and undoes nothing |
| `AgentServer.ServeEndEffect` | channel/serverd/server.go:74-79 | the end of serving changes nothing shared |
| `AgentServer.GoOfflineEffect` | channel/serverd/server.go:277-281 | only a row online under the session's own broker changes, to offline |
| `AgentServer.DelByIDEffect` | channel/serverd/server.go:282 | exactly the id's entry goes |
| `AgentServer.RestartEffect` | application/current/broker.go:36-58 | the broker's sessions end, its hub is empty, exactly its online rows go offline, every other row, session and entry stays |
| `AgentServer.NextStep` | channel/serverd/server.go:45-189 | in every phase exactly the next step can be taken, and an abandoned session has none |
| `AgentServer.Servers.Find` | channel/serverd/server.go:112-133 | findOrCreate and the status check: server error if lookup or creation fails, conflict for online, forbidden for deleted and abnormal rows |
| `AgentServer.Servers.Join` | channel/serverd/server.go:110-189 | exactly when each code is returned; on success the session holds the hub entry and the row is online under its broker or inactive; on any error the hub is as before |
| `AgentServer.Servers.Disconnect` | channel/serverd/server.go:270-284 | the row goes offline if it was this broker's, and exactly the id's entry is removed |
| `AgentServer.Servers.ResetAgents` | application/current/broker.go:36-58 | sets exactly the broker's online rows offline |
| `PipeLogTail.ReadTail` | library/pipelog/fs.go:184-219 | for every file and n, also while the file is appended to, the block-wise backwards read yields exactly the last n lines of the content at Stat |
| `PipeLogTail.ReadBlock` | library/pipelog/fs.go:197-210 | reading one block of at most 4096 bytes just before `pos` and putting it in front keeps the buffer equal to the suffix of the file from the new `pos` |
| `PipeLogTail.TailN` | library/pipelog/fs.go:184-228 | writes exactly those lines in order, up to the first write that fails |
| `PipeLogTail.PrependKeepsLaterLines` | library/pipelog/fs.go:210-215 | putting bytes in front of a non-empty text changes no line but its first |
| `PipeLogTail.EnoughRead` | library/pipelog/fs.go:195-220 | when the loop stops, what has been read determines the last n lines |
| `PipeLogTail.LastNIs` | library/pipelog/fs.go:217-220 | the last n lines are the last min(n, all) ones, in order |
| `PipeLogTail.SplitLines` | library/pipelog/fs.go:212-214 | the loop over `bytes.Lines` yields the lines of the buffer |
| `PipeLogTail.LinesConcat` | library/pipelog/fs.go:212-214 | the lines of a text put together are the text |
| `PipeLogTail.LinesShape` | library/pipelog/fs.go:212-214 | every line ends at its only line feed; only the last may have none |
| `PipeLogTail.ReadLine` | library/pipelog/fs.go:170 | one buffered ReadLine consumes at least a byte and returns its part of the text without line ends, never separating CR from LF |
| `PipeLogTail.CopyLine` | library/pipelog/fs.go:169-181 | one round: the line written and what is left of the file together are still what was to be written |
| `PipeLogTail.TailAll` | library/pipelog/fs.go:167-182 | writes the whole file without its line ends, wherever the 4096-byte buffer cuts it; if a write fails, a beginning of that |
| `PipeLogTail.StripKeepsAllIff` | library/pipelog/fs.go:170 | that is the file itself if and only if it has no line feed |
| `PipeLogTail.StripIsTrimmedLines` | library/pipelog/fs.go:170 | what the full read writes is the file's lines, each without its LF and a CR before it |
| `PipeLogTail.ReadN` | library/pipelog/fs.go:149-165 | n = 0 reads nothing, n > 0 the last n lines, n < 0 everything; nothing and an error if the file does not open, a beginning of it if a write fails |
| `PipeLogSubscribe.NoGap` | library/pipelog/fs.go:67-88 | on every interleaving, with the openings, writes and truncations of appends, and resizes and removals, between the pieces of the history read, each record from the oldest the file held when the read ended is in that history, at its place, or was appended after registration, and the complete ones of the latter are notified exactly once or their notification is due |
| `PipeLogSubscribe.AllNotified` | library/pipelog/fs.go:133-147 | once nothing is due the notifications since registration are exactly the complete records appended since, each once, plus earlier ones at most once each |
| `PipeLogSubscribe.NotNotifiedAfterUnregister` | library/pipelog/fs.go:90-99 | each notification that copies its targets after Unsubscriber never reaches the subscriber, whatever others were in flight, until it registers again |
| `PipeLogSubscribe.FileHoldsLog` | library/pipelog/file.go:72-166 | on every run, whichever file operations fail or write only a part, the size-bounded file holds exactly the records the log keeps, byte for byte |
| `PipeLogSubscribe.HistoryIsWholeFile` | library/pipelog/fs.go:167-182 | a history read that ends on a file neither truncated nor removed since it was opened has read the whole file as it is then |
| `PipeLogSubscribe.ReadingEnds` | library/pipelog/fs.go:167-182 | on a file that nobody changes meanwhile a reader at offset p sees the end after at most size - p + 1 reads and then has the whole content |
| `PipeLogSubscribe.ReadBlockEffect` | library/pipelog/fs.go:167-182 | one read takes the next bytes, as many as there are up to the buffer's size, and at the end of the file ends the history |
| `PipeLogSubscribe.ReadOpenEffect` | library/pipelog/fs.go:149-165 | the history starts at offset 0 of the file then under the name |
| `PipeLogSubscribe.ReadFailEffect` | library/pipelog/fs.go:173-177 | a read error gives the history up |
| `PipeLogSubscribe.RegisterEffect` | library/pipelog/fs.go:67-88 | a new subscriber starts with nothing received, one already registered keeps what it has |
| `PipeLogSubscribe.UnregisterEffect` | library/pipelog/fs.go:90-99 | exactly the one subscriber goes; its history read and notifications in flight go on |
| `PipeLogSubscribe.NotifyEffect` | library/pipelog/fs.go:133-147 | the targets are the subscribers of that moment, and each write delivers the record once to one of them |
| `PipeLogSubscribe.WriteOpenEffect` | library/pipelog/file.go:92-118 | the file is open, or nothing has changed |
| `PipeLogSubscribe.WriteBytesEffect` | library/pipelog/file.go:63-90 | the bytes taken are appended to file and log; a complete record is to be notified, a partial one never |
| `PipeLogSubscribe.WriteTruncateEffect` | library/pipelog/file.go:120-133 | the file is emptied exactly if its recorded size is not below maxsize and Truncate works |
| `PipeLogSubscribe.FileEffect` | library/pipelog/file.go:34-166 | what resizing, closing and removing do to the file and to what it holds |
| `PipeLogSubscribe.NextStep` | library/pipelog/fs.go:67-147 | a notification waits only for the lock of its own write, readers and copied subscribers for nothing |
| `PipeLogSubscribe.WriteKeepsReader` | library/pipelog/file.go:82 | a write between two pieces leaves what was read the beginning of the file |
| `PipeLogSubscribe.WriteIsRun` | library/pipelog/file.go:72-90 | opening, writing and truncating without interruption do to the file what the whole write does |
| `PipeLogSubscribe.RunKeepsInv` | library/pipelog/fs.go:67-147 | every run keeps: seen plus due is one for each complete record appended since registration, none for a partial one and at most one for older ones; readers have the beginning of the file or only later records are left |
| `PipeLogSubscribe.ProcessStarts` | library/pipelog/fs.go:25-31 | runs start from any file whose content is any records |
| `PipeLogSubscribe.NotifyAllIsRun` | library/pipelog/fs.go:133-147 | copying the subscribers and notifying each, in any order, gives each of them the record once and leaves nothing due |
| `PipeLogSubscribe.PipeFS.Register` | library/pipelog/fs.go:67-82 | registers the writer under that name only; a nil writer is ignored |
| `PipeLogSubscribe.PipeFS.Unsubscriber` | library/pipelog/fs.go:90-99 | removes the writer from that name only |
| `PipeLogSubscribe.PipeFS.NotifyAll` | library/pipelog/fs.go:133-147 | each subscriber of the name gets the record once, nobody else anything |
| `LimitedFile.RunKeepsSize` | library/pipelog/file.go:72-166 | over all operation sequences, if Stat and Seek do not fail the recorded size of an open file is its real size, and if Truncate does not fail either it is below a positive maxsize |
| `LimitedFile.OpenContentBounded` | library/pipelog/file.go:120-133 | so an open file's content stays below a positive maxsize |
| `LimitedFile.WriteAppendsOrEmpties` | library/pipelog/file.go:72-90 | a write leaves old content plus the bytes taken, or nothing, exactly when together they are not below maxsize |
| `LimitedFile.CloseKeepsContent` | library/pipelog/file.go:139-154 | an idle close before a write makes no difference to it |
| `LimitedFile.RemovedFileStartsEmpty` | library/pipelog/file.go:156-166 | after a removal the next write starts from an empty file |
| `LimitedFile.WriteEffect` | library/pipelog/file.go:72-133 | the whole state after a write, however open, Stat, the write, Truncate and Seek answer |
| `LimitedFile.ResizeEffect` | library/pipelog/file.go:34-44 | a positive size takes effect at once, larger or smaller, and empties an open file that is not below it |
| `LimitedFile.CloseAndRemoveEffect` | library/pipelog/file.go:139-166 | closing keeps what is on disk and forgets the recorded size; removing takes the name as well |
| `LimitedFile.HiddenIsExact` | library/pipelog/file.go:72-166 | on every run, whichever calls fail, recorded size and the history of failed Stat and Seek calls together give the real size |
| `LimitedFile.BoundFailsIff` | library/pipelog/file.go:120-133 | after a write or resize on any run an open file has maxsize bytes or more if and only if old and new bytes reach maxsize and Truncate fails or the recorded size falls short of it |
| `LimitedFile.UnmeasuredOpenIff` | library/pipelog/file.go:108-110 | if Stat fails on opening, the recorded size is right only for an empty file, and the first write leaves the file below maxsize if and only if its bytes alone reach maxsize or all together do not |
| `LimitedFile.UnmeasuredFileOutgrows` | library/pipelog/file.go:108-110 | a concrete file that exceeds maxsize that way |
| `LimitedFile.File.Write` | library/pipelog/file.go:63-90 | the new state, the bytes taken, and that only complete non-empty writes are notified |
| `LimitedFile.File.Open` | library/pipelog/file.go:92-118 | keeps an open file, or opens or creates it and measures it |
| `LimitedFile.File.Truncate` | library/pipelog/file.go:120-133 | empties an open file that is not below maxsize |
| `LimitedFile.File.Resize` | library/pipelog/file.go:34-44 | ignores non-positive sizes |
| `LimitedFile.File.Remove` | library/pipelog/file.go:156-166 | closes, then removes the name |
| `TaskSync.IDMap` | app/internal/param/diff.go:77-84 | the report by id, the last entry of an id winning |
| `TaskSync.Diff` | app/internal/param/diff.go:118-154 | the map-consuming walk computes the specified updates in order, and removes without repetition in some order |
| `TaskSync.Consume` | app/internal/param/diff.go:123-140 | the first loop: the updates, and what is left of the map |
| `TaskSync.UpdatesAreUnmatched` | app/internal/param/diff.go:123-140 | with distinct ids the updates are exactly the substances without a same-hash entry, in order |
| `TaskSync.NoUpdatesIff` | app/internal/param/diff.go:123-140 | no updates exactly if the ids are distinct and every substance is matched |
| `TaskSync.EmptyDiffIff` | app/internal/param/diff.go:49-52 | a diff is empty if and only if the ids are distinct, every substance has a same-hash entry and every tunnel entry is wanted |
| `TaskSync.SentIff` | app/internal/param/diff.go:123-140 | with distinct ids a substance is sent, as a chunk with exactly its columns, if and only if the report's last entry of its id is missing or has another hash; nothing else is sent |
| `TaskSync.RemovedIff` | app/internal/param/diff.go:142-146 | an id is removed, once, if and only if its last entry came through the tunnel and no substance has it |
| `TaskSync.NotModifiedIff` | app/internal/param/diff.go:49-52 | a diff is empty if and only if the ids are distinct, each one's last entry has the substance's hash, and each last entry from the tunnel is wanted |
| `TaskSync.IdMapIsLast` | app/internal/param/diff.go:77-84 | the map has the last entry of each id |
| `TaskSync.RemovesAndUpdatesApart` | app/internal/param/diff.go:118-154 | only unwanted tunnel tasks are removed, only wanted ones updated, no id is in both |
| `TaskSync.CarriedDiffSuffices` | app/internal/param/diff.go:118-154 | any report in which the diff has been carried out is in sync |
| `TaskSync.AppliedDiffSyncs` | app/internal/param/diff.go:118-154 | applying the diff to the report makes the next diff empty |
| `TaskSync.OutstandingIsDiffSize` | app/internal/param/diff.go:20-23 | the number of ids still in disagreement is the size of the diff |
| `TaskSync.SpinRsync` | app/mgtsvc/agent_rsync.go:56-72 | at most `cycle` fetches; the result is the last answer, clean unless all rounds were used, and absent exactly if that fetch failed |
| `TaskSync.SpinOutcomeUnique` | app/mgtsvc/agent_rsync.go:56-72 | that determines result and number of fetches |
| `TaskSync.ProgressConverges` | app/mgtsvc/agent_rsync.go:56-72 | an agent that settles something and breaks nothing in each round converges whenever the initial mismatch is at most `cycle`, in at most that many fetches |
| `TaskSync.FaithfulAgentOneFetch` | app/mgtsvc/agent_rsync.go:61-69 | a faithful agent converges in one fetch |
| `TaskSync.RepeatedIdsNeverSettle` | app/mgtsvc/agent_rsync.go:61-69 | with repeated substance ids every round is used unless a fetch fails |
| `TaskSync.ToModels` | app/internal/param/diff.go:86-116 | the image of the report, entry by entry |
| `TaskSync.ModelOf` | app/internal/param/diff.go:86-116 | the status row, field by field; a zero start time reads as now, a cause means failed |
| `TaskSync.StatusTable.Rsync` | app/mgtsvc/agent_rsync.go:29-54 | after the spin the agent's rows are exactly the image of the final report, none if it failed, and all others are unchanged |
| `Fnv.Fnv32` | bridge/mlink/map.go:126-134 | multiply, then xor, modulo 2^32, over all bytes |
| `Fnv.FnvVectors` | bridge/mlink/map.go:126-134 | agrees with the FNV-1 values of the empty string, of `a` and of `foobar` |
| `Fnv.HashSnoc` | bridge/mlink/map.go:126-134 | the bytes are absorbed one after the other from the offset basis |
| `Fnv.SlotIs` | bridge/mlink/map.go:119-122 | the slot is the hash, read as a non-negative number, modulo the size |
| `SegmentMap.SegmentMap.constructor` | bridge/mlink/map.go:72-85 | an empty map; a non-positive slot count means 8 |
| `SegmentMap.SegmentMap.GetSlot` | bridge/mlink/map.go:118-122 | the slot of a key |
| `SegmentMap.SegmentMap.Put` | bridge/mlink/map.go:92-94 | put-if-absent on one plain map, for every slot count |
| `SegmentMap.SegmentMap.Get` | bridge/mlink/map.go:96-98 | lookup in that map |
| `SegmentMap.SegmentMap.Del` | bridge/mlink/map.go:100-102 | removal from it, returning what was there |
| `SegmentMap.SegmentMap.IDs` | bridge/mlink/map.go:104-115 | lists each stored connection's id exactly once |
| `SegmentMap.SafeMap.Connections` | bridge/mlink/map.go:59-70 | every entry once, in some order |
| `SegmentMap.ListedOnce` | bridge/mlink/map.go:104-115 | a listing without repetition has as many ids as there are connections, and every id among them |
| `SegmentMap.ListingExtends` | bridge/mlink/map.go:106-113 | listing one more slot keeps the listing exact |
| `SegmentMap.SegmentMap.IDsAmid` | bridge/mlink/map.go:104-115 | the enumeration when any sequence of other operations runs before each slot is copied: each slot is listed as the whole map has it at that moment |
| `SegmentMap.AfterSnoc` | bridge/mlink/map.go:33-57 | the other operations are put-if-absent and removal, in their order |
| `SegmentMap.ConcurrentIDs` | bridge/mlink/map.go:104-115 | for such a listing no key is listed twice, a key present at every copying is listed, and a listed one was present with that id |
| `BucketMap.BucketMap.Load` | app/temporary/linkhub/concurrent/bucket.go:19-21 | lookup in one plain map, for string, int64 and named key types |
| `BucketMap.BucketMap.Store` | app/temporary/linkhub/concurrent/bucket.go:23-25 | overwrite in it |
| `BucketMap.BucketMap.Delete` | app/temporary/linkhub/concurrent/bucket.go:27-29 | removal from it |
| `BucketMap.BucketMap.LoadAndDelete` | app/temporary/linkhub/concurrent/bucket.go:31-33 | removal returning what was there |
| `BucketMap.HashIs` | app/temporary/linkhub/concurrent/bucket.go:46-75 | string keys hash by FNV-1, int64 keys as their decimal form, others to 0; the bucket is that modulo the size |
| `BucketMap.BytesAre` | app/temporary/linkhub/concurrent/bucket.go:58-61 | the bytes hashed for an int64 key are its decimal characters |
| `BucketMap.AfterSnoc` | app/temporary/linkhub/concurrent/bucket.go:23-29 | the callback's operations overwrite and remove, in their order |
| `BucketMap.BucketMap.Range` | app/temporary/linkhub/concurrent/bucket.go:40-44 | the visited entries are those of each bucket at the moment it was cloned, and the map changes by exactly what the callback does on each visited entry, in order, seeing the map as it is then |
| `BucketMap.BucketMap.RangeBucket` | app/temporary/linkhub/concurrent/map.go:46-64 | clone one bucket, then call back on each cloned entry |
| `BucketMap.RangeCovers` | app/temporary/linkhub/concurrent/bucket.go:40-44 | so no key is visited twice, every key present throughout is visited, and only entries that were in the map at some moment |
| `SharedStrings.CountExactIff` | app/agtsvc/shared_strings.go:51-268 | on every interleaving, deletions included, the version counts the matched updates since creation, the value is the last one set, and the count has every increment plus what their snapshots were off by, so it is exact if and only if that is nothing |
| `SharedStrings.ColumnsAreLast` | app/agtsvc/shared_strings.go:51-254 | on every run value, expiry and lifetime are those of the last request that writes them, and version and count start from what the creating request wrote, every column of which is given |
| `SharedStrings.CreateEffect` | app/agtsvc/shared_strings.go:78-88 | every column of a row that a Set, Store or Incr creates, and that none is created beside another |
| `SharedStrings.UpdateEffect` | app/agtsvc/shared_strings.go:94-99 | every column after a matched update by a Set, Store or Incr, and that an unmatched one writes nothing |
| `SharedStrings.LookEffect` | app/agtsvc/shared_strings.go:270-277 | what a request does next depends on the row it reads |
| `SharedStrings.PurgeEffect` | app/agtsvc/shared_strings.go:206-213 | what the expiry path deletes, and the lifetime an Incr keeps |
| `SharedStrings.DelEffect` | app/agtsvc/shared_strings.go:256-268 | the row goes, requests under way stay |
| `SharedStrings.NextStep` | app/agtsvc/shared_strings.go:51-254 | each request can always take its next step |
| `SharedStrings.SequentialIff` | app/agtsvc/shared_strings.go:51-268 | the row has at every moment since its creation been what its matched updates give one after the other if and only if each was harmless when it matched |
| `SharedStrings.UpdateActsOnRowIff` | app/agtsvc/shared_strings.go:227-236 | on every reachable state an update changes the row exactly if the versions agree, and then does what its request does to the present row if and only if it is harmless; only an update that crossed a deletion can meet a row it did not read |
| `SharedStrings.WrittenSameIff` | app/agtsvc/shared_strings.go:94-99 | what harmless means, kind by kind of request |
| `SharedStrings.InTurnIff` | app/agtsvc/shared_strings.go:51-237 | the same for any sequence of matched updates |
| `SharedStrings.CounterIsExact` | app/agtsvc/shared_strings.go:187-237 | without deletion, version, count and value are exactly the number of matched updates, the sum of their increments and the last value set |
| `SharedStrings.PurgeDeletesIff` | app/agtsvc/shared_strings.go:206-213 | on expiry Set and Store delete the row exactly if it has the version they read, Incr any; a row they did not read only across a deletion |
| `SharedStrings.DeletionBreaksTheCount` | app/agtsvc/shared_strings.go:256-268 | a concrete run in which an old snapshot matches a re-created row |
| `SharedStrings.ExpiryDeletesFreshRow` | app/agtsvc/shared_strings.go:69-76 | a concrete run in which a request on the expiry path deletes the row that replaced the one it read |
| `SharedStrings.RunKeepsInv` | app/agtsvc/shared_strings.go:51-268 | snapshots since the last deletion are never ahead of the row, and equal to it if the versions agree; the row is its matched updates replayed |
| `SharedStrings.InTurnCounts` | app/agtsvc/shared_strings.go:227-236 | carried out in turn, updates raise the version by one each and the count by their increments |
| `SharedStrings.RequestIsRun` | app/agtsvc/shared_strings.go:51-237 | an undisturbed request as a run of its steps: it updates a live row and replaces a missing or expired one |
| `SharedStrings.Table.UpdateWhere` | app/agtsvc/shared_strings.go:94-99 | the version-matched update writes exactly the columns of its request |
| `SharedStrings.Table.Request` | app/agtsvc/shared_strings.go:51-237 | does to the row what that run does |
| `ElkeidFS.AtMostOneCopy` | foreign/bytedance/elkeid.go:51-108 | of each name at most one copy is live, and the name is claimed |
| `ElkeidFS.ReleaseIsOwn` | foreign/bytedance/elkeid.go:161-178 | Close never removes another opener's claim, and a repeated Close does nothing |
| `ElkeidFS.PublishedIsCompleteIff` | foreign/bytedance/elkeid.go:153-171 | something is published only after EOF, and it is the complete body if and only if every write to the temporary file was complete |
| `ElkeidFS.StoppingReadersPublishAll` | foreign/bytedance/elkeid.go:153-171 | if readers stop at their first error, what is published is complete |
| `ElkeidFS.CarelessReaderPublishesPart` | foreign/bytedance/elkeid.go:153-171 | a concrete run in which a reader that goes on after a failed copy publishes an empty file |
| `ElkeidFS.LeakedClaimStays` | foreign/bytedance/elkeid.go:69-73 | a claim whose request failed stays for ever and its name is never cached again |
| `ElkeidFS.FailedRequestBlocksName` | foreign/bytedance/elkeid.go:51-73 | a concrete run to that point, after which the name is never published however the run goes on |
| `ElkeidFS.QuiescentClaims` | foreign/bytedance/elkeid.go:51-93 | when all openers are through, a name is claimed exactly if its request failed |
| `ElkeidFS.ClaimEffect` | foreign/bytedance/elkeid.go:51-56 | the name is claimed, and the opener that found it free is its owner |
| `ElkeidFS.RequestEffect` | foreign/bytedance/elkeid.go:63-84 | a failed request keeps the claim; an opener that is not the owner reads the body directly |
| `ElkeidFS.CreateTempEffect` | foreign/bytedance/elkeid.go:86-94 | the copy starts empty; the claim is released if it cannot be created |
| `ElkeidFS.ReadEffect` | foreign/bytedance/elkeid.go:153-159 | the bytes appended, the position, and the error remembered |
| `ElkeidFS.CloseEffect` | foreign/bytedance/elkeid.go:161-178 | the first Close publishes after EOF and no other error, and releases the claim; later ones do nothing |
| `ElkeidFS.CopyGoesOn` | foreign/bytedance/elkeid.go:153-171 | on every run a live copy can be read on and a closing one renamed |
| `ElkeidFS.NextStep` | foreign/bytedance/elkeid.go:45-178 | in every phase exactly the opener's next step can be taken |
| `ElkeidFS.RunKeepsInv` | foreign/bytedance/elkeid.go:45-178 | claims are exactly the names held by one opener, and temporary files hold what was read |
| `ElkeidFS.FS.Open` | foreign/bytedance/elkeid.go:45-108 | which of file, body, copy or error is returned; the state changes as by the steps of one opener |
| `ElkeidFS.CopyFile.Read` | foreign/bytedance/elkeid.go:153-159 | the bytes copied, the error returned and the error remembered, as the step of the protocol; a read after Close copies nothing |
| `ElkeidFS.CopyFile.Close` | foreign/bytedance/elkeid.go:161-178 | the first call is the run of closing, renaming after EOF and releasing, later ones do nothing |
| `TableScan.ScanTableTask` | app/mgtsvc/agent_table.go:16-47 | terminates; submitted ids strictly increase, are positive and initially eligible; every positive id that stays eligible is submitted unless a query failed before reaching it |
| `TableScan.ScanAll` | app/mgtsvc/agent_table.go:16-47 | if queries answer and only submitted ids complete, exactly the positive initially eligible ids are submitted, each once |
| `TableScan.Query` | app/mgtsvc/agent_table.go:21-30 | one page: ascending, distinct, above the last id, the smallest ones, at most 200 |
| `TableScan.PageShrinks` | app/mgtsvc/agent_table.go:27-35 | each non-empty page leaves fewer ids to come |
| `TableScan.Complete` | app/mgtsvc/agent_table.go:66-81 | exactly the open rows of its minion, task and broker become executed, with the error's text as the reason if there was one |
| `TableScan.CompletionRemovesOne` | app/mgtsvc/agent_table.go:66-81 | completion takes exactly its minion out of that scan and nothing out of others |
| `TableScan.EligibleIs` | app/mgtsvc/agent_table.go:21-26 | the scan can select the minions of the task's open rows of this broker |
| `BrokerClient.Client.Connect` | channel/clientd/open.go:87-109 | keeps the session it opened if and only if the response is accepted |
| `BrokerClient.Client.Connects` | channel/clientd/open.go:74-85 | uses the first accepting address and leaves nothing else open; success without a session exactly for an empty list |
| `BrokerClient.Client.Open` | channel/clientd/open.go:43-72 | leaves exactly one new session, the one in safeMuxer, or none; succeeds if and only if some pass before cancellation has an accepting address, and keeps the boot configuration of the first |
| `BrokerClient.Client.Serve` | channel/clientd/open.go:159-178 | exactly one session is open during each spell of serving, a newer one each time, none at the start of each reconnection, none when it gives up |
| `BrokerClient.Start` | channel/clientd/open.go:15-33 | for every configuration, starts if and only if it is complete and one of its addresses is accepted in time; no session is open if it does not start or gives up, and otherwise exactly the one in safeMuxer |
| `BrokerClient.Config.Preparse` | channel/clientd/data.go:16-41 | error cases, and normalised addresses without repetition; success means a non-empty list |
| `BrokerClient.UniqueCovers` | channel/clientd/data.go:24-34 | normalising drops no address and repeats none |
| `BrokerClient.NormalIs` | channel/clientd/data.go:26-28 | an address with a port stays, another gets port 443, in brackets if it has a colon |
| `BrokerClient.SucceedsIs` | channel/clientd/open.go:74-85 | a pass succeeds exactly if some answer is a response with a 2xx code, and the first one counts |
| `BrokerClient.FirstSuccessIs` | channel/clientd/open.go:48-53 | the boot configuration kept is that of the first 2xx response of the first pass that has one |
| `FrameCodec.DecodeEncode` | app/temporary/message.go:15-37 | decoding an encoded message gives back opcode and payload, for every mask |
| `FrameCodec.EncodeDecode` | app/temporary/receive.go:39-55 | encoding what was decoded from a frame of at least two bytes gives back the frame |
| `FrameCodec.BigEndianHeader` | app/temporary/message.go:19-27 | the opcode's high byte comes first |
| `FrameCodec.PayloadMasked` | app/temporary/message.go:29-34 | every payload byte is masked and stays in its place after the opcode |
| `FrameCodec.WrongMaskMisreads` | app/temporary/receive.go:44-48 | any other mask misreads the opcode of every frame |
| `FrameCodec.Marshal` | app/temporary/message.go:15-37 | the bytes of the frame, big-endian opcode first, masked in place |
| `FrameCodec.Receive.Unmarshal` | app/temporary/receive.go:39-55 | unmasks the buffer in place and decodes it; a short frame changes nothing and is an error |
| `Decimal.ParseFormat` | app/temporary/linkhub/linkhub.go:226-227 | parsing a formatted 64-bit integer gives it back |
| `Decimal.FormatInjective` | bridge/mlink/hub.go:161 | different agent ids have different hub keys |
| `Decimal.FormatParseIff` | bridge/mlink/hub.go:161 | a string is the key of an agent id, the one it parses to, if and only if it is canonical: in range, no plus, no leading zero, no minus zero |
| `Decimal.FormatIs` | app/temporary/linkhub/linkhub.go:323-328 | the decimal form, digit by digit |
| `Decimal.ParseIs` | app/temporary/linkhub/linkhub.go:226-227 | leading zeros and a plus do not matter, out of range reads as the nearest bound |
| `Decimal.ParseJunk` | app/temporary/linkhub/linkhub.go:226-227 | anything but an optional sign and digits reads as 0 |
| `MinionToken.SignToken` | app/temporary/linkhub/linkhub.go:323-328 | id, separator, hexadecimal random bytes |
| `MinionToken.ParseID` | app/temporary/linkhub/linkhub.go:331-336 | what stands before the first separator |
| `MinionToken.SignedIdReadsBack` | app/temporary/linkhub/linkhub.go:323-336 | the id read from a signed token is the one it was signed for |
| `MinionToken.SignInjective` | app/temporary/linkhub/linkhub.go:323-328 | two signed tokens are equal only if id and random bytes are |
| `MinionToken.SignIs` | app/temporary/linkhub/linkhub.go:323-328 | id, a dot, hexadecimal |
| `MinionToken.HexIs` | app/temporary/linkhub/linkhub.go:323-328 | two lower-case digits a byte, high digit first |
| `MinionToken.NoSeparator` | app/temporary/linkhub/linkhub.go:331-336 | a token without a dot is looked up as id 0 |
| `MinionToken.LookupIff` | app/temporary/linkhub/linkhub.go:225-234 | a token finds a connection if and only if that is the current entry of its id and holds the token |
| `MinionToken.Hub.Connect` | app/temporary/linkhub/linkhub.go:147-160 | stores the connection under its id, replacing any other |
| `MinionToken.Hub.TokenLookup` | app/temporary/linkhub/linkhub.go:225-234 | computes that lookup |

## Left out

- HTTP routing, parameter binding, REST wrappers, start-up wiring, logging and configuration reading.
- smux, websocket, TLS, gridfs, ciphertext, gorm query building, validators and the packages outside this repository (`ssoc-common`, `ssoc-common-mb`, `vela-common-mba`): the `minion` table is a map with atomic conditional updates, `linkhub.Huber` is put-if-absent and delete-by-id, `KVData.Expired` is a parameter.
- Other writers of the `minion` row (an administrator deleting or activating an agent) are not part of the presence runs; columns other than status and broker id and the tags are not modelled, nor is the lookup by machine id or address (the id found or created is a parameter); the broker's identity is assumed not to change after start, so the id used by the online update and the one used by the offline update are the same.
- Shutdown `ResetDB` and `ResetAgents` while sessions still run: the reset is one step with the death and restart of its broker.
- The v1 `linkhub` endpoint in the presence proofs: it stores unconditionally; only its token lookup and map effects are modelled.
- The rate limiter and the request framing of `channel/serverd/server.go`.
- `sharedStringsService.Get` and the audit rows; database errors in shared strings.
- Read and Stat errors of the file in `tailN`. While it reads the file may be appended to; when it is truncated meanwhile the missing bytes are read as zeros, as the code does, and nothing is promised of the lines. `tailN` may be called here with any n, not only positive ones.
- Write errors of a subscriber during notification, which the code ignores. The subscription protocol is about one file name.
- The `files` table of `pipeFS` (`Open`, `Close`) and stale `limitedFile` handles used after `Remove`: one handle per name.
- The read lock that `concurrent.Map.Store` takes: each map operation is atomic here.
- The order of Go's map iteration: it is arbitrary in `Diff`, `connections`, `Range` and `notifyAll`, and the contracts hold for every order.
- `subs.Sort()`, whose definition is not in this repository: the results hold for every order of the substances.
- The order in which `RsyncTask` and table tasks run on the pool.
- JSON encoding: payloads are opaque byte sequences. Back-off times, `isConflict`, `randMask` and string forms, which would only add easy members.
- BucketMap.BucketMap.constructor: requires a positive size, because with size 0 every later operation of the original panics on the modulus.
- TableScan.ScanTableTask: the table is assumed to lose eligible rows only (no new open rows of the task while the scan runs); the original bounds such a scan by its one-hour context.
