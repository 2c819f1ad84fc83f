# Verified core of the office server

A Dafny model of the parts of the office server in which the order of steps, the
shape of a text or a chain of earlier states decides what happens:

- **Codex configuration** (`Text`, `Json`, `CodexSyntax`, `CodexServers`, `CodexKeys`,
  `CodexWriter`, `CodexLimits`, `CodexByHand`, `CodexLoops`): the comment and quote scanner, the table-header splitter,
  the value parser, the line-driven reader, the table remover and the writer of Codex's
  `config.toml` (a subset of TOML v1.0.0, sections "Comment", "String", "Array",
  "Inline Table" and "Table"). `CodexByHand` says what files that people write are read
  as. `CodexLoops` is the code in its own form, byte and line
  loops; each loop is proved to compute the function the laws are about.
- **Proposals** (`Proposals`, `Decisions`): the card an agent's proposal gets, and any
  number of concurrent `Decide`, `Queue` and `DecideAlways` calls on one action.
- **Handshakes** (`GitJobs`, `Follows`, `Automations`): a background git job, the follow
  registries of the event stream, and automations with the chat bots they share, as step
  relations with invariants over every interleaving.
- **Agent history** (`AgentHistory`): the backwards walk over team snapshots and `Restore`,
  which recomputes the agent's key from the walk's output.
- **Logins** (`Throttles`, `Auth`, `Logins`): the failure map pruned in place against a log that is
  never pruned, the rate bound that follows, logins that overlap, and sessions.
- **JSON** (`MergePatch`, `Redaction`): `mergeInto` against section 2 of RFC 7396, what an
  approved settings change sends, and the paired redaction of audit snapshots.
- **Supervisor** (`Supervisor`): the loop that keeps one server process alive.
- **Lists** (`Approvals`, `Facets`): the order of waiting cards, and library search counts.

Where a law the code is meant to keep fails on some inputs, the lemma says exactly when it
holds ("exactly when" is an if-and-only-if) and a lemma gives the failing inputs.

## Model

| member | source | states |
|---|---|---|
| CodexSyntax.HeaderIgnoresComment | internal/automation/codex.go:18-66 | a raw line (remover) and the same line without its comment (reader) get the same answer from the header test, for every line |
| CodexSyntax.HeaderBefore | internal/automation/codex.go:18-28 | only the text before the first '#' decides whether a line is a table header and which keys it has |
| CodexSyntax.QuoteRead | internal/automation/codex.go:69-92 | a string quoted by the writer is read back whole by `codexString`, whatever text follows it; that text is left over with the white space at its end trimmed, as the code trims it |
| CodexSyntax.KeptQuote | internal/automation/codex.go:50-66 | no '#' or quote inside a quoted string makes the comment stripper cut it |
| CodexServers.ReaderFindsTables | internal/automation/codex.go:157-275 | `codexServer` finds a server exactly when `removeCodexServer` would find one of its tables |
| CodexServers.RemovedUnreadable | internal/automation/codex.go:248-275 | after a removal the server cannot be read, whatever the file holds, closed arrays or not |
| CodexServers.RemovesWhatIsRead | internal/automation/codex.go:157-275 | a server can be removed exactly when it can be read |
| CodexServers.RemovedExactly | internal/automation/codex.go:253-274 | what a removal writes is exactly the lines that stand in no table of the server, in their order; a line stands in the table of the last header before it |
| CodexServers.RemovalExact | internal/automation/codex.go:157-275 | for any file: a removal leaves the entries taken for another server as they were exactly when no array opened while reading that server runs over a header of the removed one |
| CodexServers.RemovalFrame | internal/automation/codex.go:157-275 | under that condition what `codexServer` returns for the other name is unchanged |
| CodexServers.FrameScan | internal/automation/codex.go:164-211 | the exact frame for the line machine itself, from any state inside the file, skipping or not |
| CodexServers.ReadsDecide | internal/automation/codex.go:164-211 | the entries taken (section, key, text of the value) decide what the reader ends with |
| CodexServers.KeepReadOn | internal/automation/codex.go:188-193 | the lines a multi-line array is read over survive the remover and are read the same, when none is a header of the removed server |
| CodexServers.SwallowedReadOn | internal/automation/codex.go:188-193 | an array that runs over a header taken out is always read differently without it |
| CodexServers.AddedScan | internal/automation/codex.go:164-211 | tables of other servers added at the end of any file leave the entries taken as they were exactly when no array runs to the end of the file |
| CodexServers.NoTableAppend | internal/automation/codex.go:164-211 | a file without the server's tables says nothing about it: what is appended is read as if it stood alone |
| CodexWriter.WriteRead | internal/automation/moveout.go:166-218 | for any file, valid name and config: reading after an append gives back exactly the config if and only if the name has no dot and the config is plain: url and command non-empty strings, args, env and headers absent or non-empty and of strings, plain table keys, type http exactly when there is a url, nothing else |
| CodexWriter.DottedUnread | internal/automation/moveout.go:166-176 | a dotted name is accepted but lands in the server named by the part before the dot: it is never found again, a retry writes it a second time, and it cannot be removed |
| CodexWriter.AppendOutcome | internal/automation/moveout.go:166-174 | an append is refused for a bad name and, writing nothing, when the file has a table of the name; otherwise it writes behind the old text |
| CodexWriter.BlockRead | internal/automation/moveout.go:175-204 | the written block alone, of any config whose table keys have no '=', is read as its non-empty strings, its items and its rows |
| CodexWriter.EqualNotReturned | internal/automation/moveout.go:200-203 | a config with an '=' in a table key, whatever its row does to the lines after it, is never read back |
| CodexWriter.RowsOfTable | internal/automation/moveout.go:200-203 | the rows of a new table, in the writer's sorted order, are read into one table under the keys the reader cuts out |
| CodexWriter.RowsExact | internal/automation/moveout.go:200-203 | those rows are exactly the map's entries if and only if every value is a string and every key plain |
| CodexKeys.KeysReturn | internal/automation/moveout.go:200-203 | if the keys read back are the keys written, none of them is changed by quoting and trimming |
| CodexWriter.ItemsRead | internal/automation/moveout.go:183-189 | a written array is read back item by item in order |
| CodexWriter.PutBackAgain | internal/automation/moveout.go:97-150 | after a plain config was put back, a second put-back is done exactly for the same config; any other config under the name is refused; neither writes anything |
| CodexWriter.RetryExact | internal/automation/moveout.go:97-150 | for any config, a retry of the put-back that wrote it is accepted exactly when the config is plain, else refused; it writes nothing |
| CodexWriter.AppendRemove | internal/automation/codex.go:248-275 | removing a server just appended gives back the original file byte for byte, exactly when its name has no dot |
| CodexWriter.AppendExact | internal/automation/moveout.go:166-218 | an append leaves the entries taken for a server other than the one it writes to as they were exactly when none of that server's arrays runs to the end of the old file |
| CodexWriter.AppendFrame | internal/automation/moveout.go:166-218 | under that condition what is read for it is unchanged, for dotted names too |
| CodexWriter.MoveRoundTrip | internal/automation/moveout.go:40-122 | moving any server out and putting it back: it reads as before exactly when its name has no dot and its config is plain, and can be moved out again to the same text exactly when its name has no dot; every other server none of whose arrays runs over its headers or to the end of the file reads as before; a bad name is refused |
| CodexLimits.TableReadExact | internal/automation/moveout.go:200-203 | any non-empty table is read back as written exactly when every value is a string and no key has an '=', anything that quoting escapes, or a single quote at either end |
| CodexLimits.OpenArrayBreaksFrame | internal/automation/codex.go:188-193 | files where an array of one server runs over another's header: removing that one changes what is read for the first |
| CodexLimits.OpenEndBreaksAppend | internal/automation/moveout.go:166-218 | files where an array of one server runs to the end: writing another server changes what is read for the first |
| CodexByHand.WrittenRead | internal/automation/codex.go:69-92 | a string in double quotes, escaped, or in single quotes, as it is, is read as what stands between its quotes, whatever follows |
| CodexByHand.HexAnyCase | internal/automation/codex.go:82-83 | a byte's `\x` escape is read with its digits in either case |
| CodexByHand.ArrayRead | internal/automation/codex.go:105-118 | a written array of strings in either quotes is read as those strings in order |
| CodexByHand.InlineTableRead | internal/automation/codex.go:119-150 | for any keys, bare or quoted, and any values: the inline table that writes them is read as the map with exactly those keys, each with the value of its last pair |
| CodexByHand.HandServer | internal/automation/codex.go:157-244 | a server's table written by hand, with strings, arrays and inline tables, comments behind them and keys said twice, in any order: its command, args, env and url are what the last line of that key says, or absent; type is http exactly when there is a url |
| CodexByHand.HandHeaders | internal/automation/codex.go:224-239 | its headers are those of its `http_headers`, and Authorization the bearer token of the environment, or the variable left to fill in when that is not set |
| CodexByHand.ManyLinesRead | internal/automation/codex.go:188-199 | an array with an item on each line is read up to the first item with a closing bracket in it, so whole exactly when no item but the last has one |
| CodexByHand.ManyLinesFile | internal/automation/codex.go:157-244 | such an array as a server's args, on a file's text |
| CodexByHand.QuotedName | internal/automation/codex.go:18-47 | a quoted name is one key of the header, dots and all |
| CodexByHand.DoubledBrackets | internal/automation/codex.go:18-21 | an array-of-tables line is no header: reader and remover go on in the table they were in |
| CodexByHand.DeepTableSilent | internal/automation/codex.go:170-186 | lines in a table below a sub-table of the server say nothing |
| CodexByHand.OtherValueSilent | internal/automation/codex.go:96-153 | a value that is no string, array or table says nothing |
| CodexByHand.EmptyArgsBack | internal/automation/moveout.go:97-150 | a server with an empty args array is put back, unchanged, as null args, and refused as an empty array |
| CodexLoops.StripLine | internal/automation/codex.go:50-66 | the byte loop with its `quote` variable keeps exactly the prefix the specification keeps |
| CodexLoops.TableKeys | internal/automation/codex.go:18-47 | the header loop returns the keys of the specification, or refuses where it does |
| CodexLoops.StringAtStart | internal/automation/codex.go:69-92 | the string loop returns the string at the start and the rest, or refuses |
| CodexLoops.ArrayItems | internal/automation/codex.go:106-119 | the array loop returns the items in order, or refuses |
| CodexLoops.TableFields | internal/automation/codex.go:120-151 | the inline-table loop returns the fields, a later key replacing an earlier one, or refuses |
| CodexLoops.ValueAtStart | internal/automation/codex.go:96-153 | the value parser agrees with its specification on every text |
| CodexLoops.ReadArrayOn | internal/automation/codex.go:188-193 | the read-on loop joins the same lines and ends at the same one |
| CodexLoops.ScanLines | internal/automation/codex.go:164-211 | the line loop ends in the state of the recursive reader |
| CodexLoops.ReadServer | internal/automation/codex.go:157-244 | the whole reader, on a file's text |
| CodexLoops.KeepLines | internal/automation/codex.go:253-262 | the remover's loop keeps exactly the lines of the specification and finds a table exactly when there is one |
| CodexLoops.RemoveServer | internal/automation/codex.go:248-275 | the whole remover, on a file's text |
| CodexLoops.AppendServer | internal/automation/moveout.go:166-218 | the string builder writes exactly the block's lines after the old text, or refuses a bad or taken name and writes nothing |
| Decisions.CarriedOutOnce | internal/actions/actions.go:450-541 | over every interleaving the effect runs at most once, never when the action ends rejected, not yet while an undecided action is unclaimed, and it is stored as done only when the stored decider ran it |
| Decisions.ApprovalCarriedOut | internal/actions/actions.go:481-541 | over every interleaving an approval that stands has run the effect, once and by its own call, unless it could not be run; it is stored as done exactly when the effect succeeded |
| Decisions.CallDecides | internal/actions/actions.go:450-563 | a call that finds the claim free and the action pending, or queued if it is no call to queue, can go on by its own steps until what it asks for is stored, with the effect run if it approves |
| Decisions.OkStores | internal/actions/actions.go:450-563 | a call is answered without an error, or changes the row, only under the claim and by storing its own decision in a pending or queued row; one to queue only in a pending row |
| Decisions.AlwaysDecides | internal/actions/actions.go:570-602 | an always-decision of a pending command that may be always allowed can go on until it is stored and its permission saved |
| Decisions.NeverAlways | internal/actions/actions.go:578-584 | an always-decision of any other command, or without a known proposer, is refused before anything runs |
| Decisions.LateAlways | internal/actions/actions.go:575-577 | over every interleaving, an always-decision that comes once the action is not pending is refused, even while it is queued and could be approved |
| Decisions.TerminalStays | internal/actions/actions.go:450-541 | a done, failed or rejected action keeps its status, its decider and its effect count |
| Decisions.QueuedOnce | internal/actions/actions.go:545-563 | queued is entered only from pending, and never again once left |
| Decisions.StepOfRow | internal/actions/actions.go:450-602 | what any single step of any caller may do to the stored row |
| Decisions.OneDecision | internal/actions/actions.go:450-476 | at most one decision is answered without an error, and it is the stored one; rejected exactly when that call rejects |
| Decisions.PermissionOfDecider | internal/actions/actions.go:570-602 | an always-permission is saved only by the call whose own approval is the stored decision |
| Decisions.ClaimIsReleased | internal/deciding/deciding.go:36-48 | the claim's holder can always go on and lets it go within four of its own steps |
| Proposals.Board.Propose | internal/actions/actions.go:327-349 | the caller gets the oldest waiting card that stands for its proposal, or else a new one; no card ever waits beside an earlier one that stands for it |
| Proposals.AddingOne | internal/actions/actions.go:327-349 | adding a card keeps twins out exactly when none that waits stands for it |
| Proposals.FoundAgain | internal/actions/actions.go:327-349 | proposed again while it waits, a proposal gets the same card |
| Proposals.SecondProposal | internal/actions/actions.go:327-345 | when a second proposal gets the waiting card of a first: exactly when it has a chat or task and is no tool call or message, is made in the same chat, or without one for the same task, and has the same kind, target, files if a commit and folder if a command |
| Proposals.TwinsExactly | internal/actions/actions.go:327-349 | over any interleaving of looks, card creations and decisions there are never twins exactly when no card is created after another one standing for its proposal was created since its look |
| Proposals.OverlapTwins | internal/actions/actions.go:327-349 | the run of two overlapping proposals that ends with twins |
| Proposals.SameFiles | internal/actions/actions.go:697-706 | two file lists are the same exactly when each file is in both equally often, in any order |
| Proposals.AsSets | internal/actions/actions.go:697-706 | the comment's "as sets" agrees with the code, lengths being equal, when one list repeats no file |
| GitJobs.OneJobAKey | internal/api/git.go:163-170 | at most one fetch and one push of a project runs at a time |
| GitJobs.MarkedWhileRunning | internal/api/git.go:163-170 | `errGitBusy` is answered exactly while a job of that project and kind runs |
| GitJobs.OutcomeOnce | internal/api/git.go:171-207 | in every interleaving of worker, timeout and request the outcome reaches exactly one of the request and the event path, once, and it is that job's own |
| GitJobs.NeverStuck | internal/api/git.go:171-207 | once git ended neither side waits for ever |
| GitJobs.WorkDecreases | internal/api/git.go:171-207 | a job takes at most six steps |
| GitJobs.JobAnswers | internal/api/git.go:163-207 | a job whose key is free can be started; when git ends while its request waits, the request is answered with git's outcome and the key is free again |
| GitJobs.JobTells | internal/api/git.go:171-207 | when git ends after its request has left, the event path tells the outcome |
| Follows.ClosedOnce | internal/api/eventlogs.go:41-118 | each stop channel is closed at most once, and only one request is ever about to close it |
| Follows.AbsentIsStopped | internal/api/eventlogs.go:79-118 | a follower not in the map has ended, has been stopped, or has a pending closer |
| Follows.RegisteredIsOpen | internal/api/events.go:87-134 | the follower in the map for a key is that key's, not stopped and not over |
| Follows.EntryHeld | internal/api/events.go:100-134 | a worker's end never removes the one that replaced it: an entry stays until a request on its key or its own worker takes it out |
| Follows.OneFollowerAKey | internal/api/eventlogs.go:79-118 | with all requests done at most one unstopped follower lives for a key |
| Follows.FollowTakesOver | internal/api/eventlogs.go:79-118 | a follow can be carried through: its worker then follows for the key and the one before is stopped |
| Follows.UnfollowStops | internal/api/events.go:87-98 | an unfollow can be carried through: the key's worker is out of the map and stopped |
| Follows.EndTakesOut | internal/api/events.go:100-134 | a worker that ends on its own takes itself, and only itself, out of the map |
| AgentHistory.UndoReaches | internal/agentinfo/agentinfo.go:336-369 | undoing the listed entries down to a restorable revision gives exactly the state of an agent of that revision's snapshot, the first of its key there, skipped undecodable snapshots included |
| AgentHistory.UndoDiff | internal/agentinfo/agentinfo.go:401-421 | undoing a difference gives back the earlier state in every tracked field |
| AgentHistory.DiffExactly | internal/agentinfo/agentinfo.go:401-421 | a difference names exactly the fields whose settings differ; legacy permissions and whatever is not tracked are not among them |
| AgentHistory.HistoryLists | internal/agentinfo/agentinfo.go:327-369 | which entries a history has, over every list of revisions: there is a path of the agent back through the decodable revisions, each step to the first agent of its key or to the only one renamed away, down to the revision before which it was not there; every revision on it where the agent then looked different is listed with exactly those fields, nothing else is, and the creation comes last |
| AgentHistory.HistoryWalk | internal/agentinfo/agentinfo.go:340-369 | the same from any point of the walk |
| AgentHistory.RenameListed | internal/agentinfo/agentinfo.go:374-393 | at a rename the revision is listed as restorable with the change from the old key to the new one, and the history goes on below it under the old key |
| AgentHistory.SpecIsWas | internal/agentinfo/agentinfo.go:374-393 | the match in a snapshot is the first agent of the key; with none, and only for an update of that key, the one agent whose key is gone afterwards; else none |
| AgentHistory.NewestEndsNow | internal/agentinfo/agentinfo.go:336-369 | the newest listed change of a field ends at its value now |
| AgentHistory.ChangesMeet | internal/agentinfo/agentinfo.go:336-369 | two neighbouring changes of a field meet: older "after" is newer "before" |
| AgentHistory.ChangeMeetsNewer | internal/agentinfo/agentinfo.go:336-369 | a listed change is a real change, and starts from what undoing the newer entries leaves |
| AgentHistory.RestoreAgrees | internal/agentinfo/agentinfo.go:460-502 | Restore of a listed revision takes the last agent of the key the history's agent had there, through any renames, and never the second "not found" exit; it agrees with undoing the listed changes exactly when the first and the last agent of that key look alike, so always when keys are unique |
| AgentHistory.UnlistedRefused | internal/agentinfo/agentinfo.go:460-502 | a revision the history does not list is refused |
| AgentHistory.SameKeyDisagrees | internal/agentinfo/agentinfo.go:374-393 | with two agents of one key in a snapshot the history shows the first and Restore takes the last |
| AgentHistory.DiffLoop | internal/agentinfo/agentinfo.go:412-421 | the loop over the fields lists the changed ones in order |
| AgentHistory.SpecByKeyLoop | internal/agentinfo/agentinfo.go:374-393 | the first agent of the key, or the one renamed away when the revision is an update of that key and only one candidate is left |
| AgentHistory.HistoryLoop | internal/agentinfo/agentinfo.go:327-369 | the loop over revisions returns the history the laws are about |
| AgentHistory.RestoreLoop | internal/agentinfo/agentinfo.go:460-502 | the loops of Restore find the same key and agent, or the same refusal |
| Throttles.Throttle.Prune | internal/auth/throttle.go:40-53 | the key keeps exactly its live failures, in order, and goes with the last |
| Throttles.Throttle.PruneAll | internal/auth/throttle.go:25-31 | every key pruned, whatever order the map is ranged over |
| Throttles.Throttle.Shrink | internal/auth/throttle.go:25-38 | room for one more key; a key is given up only when nothing expired |
| Throttles.Throttle.Locked | internal/auth/throttle.go:55-59 | true exactly when the unpruned log of the key holds at least max failures younger than the window |
| Throttles.Throttle.Fail | internal/auth/throttle.go:61-68 | the log gains one failure; at most 10000 keys; a key with live failures is evicted only when all 10000 have live ones |
| Throttles.Throttle.Reset | internal/auth/throttle.go:76-80 | only that key's failures are forgotten |
| Throttles.LiveLater | internal/auth/throttle.go:40-53 | pruning early never changes what a later prune leaves |
| Throttles.LiveExactly | internal/auth/throttle.go:40-53 | what a prune leaves is exactly the failures younger than the window, in order |
| Throttles.FailSpaced | internal/auth/service.go:257-260 | a failure recorded after the key was found not locked keeps any max+1 in a row a window apart |
| Auth.Service.Login | internal/auth/service.go:257-303 | what each outcome of a login does to both logs and to the sessions; throttled exactly when the email's or the IP's log is full; a failure costs another key its failures only when 10000 keys have live ones |
| Auth.Service.Fail | internal/auth/service.go:444-450 | one failure more for the email, and for the IP when known, both still a window apart; at most one other key evicted in each, and only when 10000 keys have live failures |
| Auth.Service.RateBound | internal/auth/service.go:257-303 | any MaxFailures+1 recorded failures in a row of one email (no success or eviction between) span at least FailureWindow; so do MaxIPFailures+1 of one IP |
| Auth.Service.Authenticate | internal/auth/service.go:306-337 | LastSeenAt lags by at most a minute; a gap over IdleTimeout is always refused; up to IdleTimeout less a minute, accepted exactly when not expired and the user is enabled; a refused session is gone |
| Logins.SpacedExactly | internal/auth/service.go:257-287 | over any interleaving of checks, recorded failures, successes and evictions of one key, any max+1 recorded failures in a row span the window at every moment, if and only if no failure is recorded once the failures recorded since its check have filled the limit |
| Logins.OvertakenByOthers | internal/auth/service.go:257-287 | that takes at least as many failures recorded since the check as were then short of the limit, so at least one |
| Logins.OverlapUnspaced | internal/auth/service.go:257-287 | the run of two overlapping logins whose failures come closer than the window |
| MergePatch.MeetsRfc | internal/api/config_registry.go:486-501 | `mergeInto` is MergePatch of RFC 7396 section 2 exactly when no patch object with a null member lands on a missing or non-object member |
| MergePatch.MeetsRfcButNulls | internal/api/config_registry.go:486-501 | on all inputs the two results are equal once null members of objects are dropped |
| MergePatch.NullLandsOnNothing | internal/api/config_registry.go:486-501 | the input where they differ |
| MergePatch.AgainSame | internal/api/config_registry.go:486-501 | merging a patch a second time changes nothing, exactly when the first merge agreed with the RFC |
| MergePatch.UnnamedKept | internal/api/config_registry.go:486-501 | top-level keys the patch does not name keep their values |
| MergePatch.MergeInto | internal/api/config_registry.go:486-501 | the loop gives the same map whatever order the patch is ranged over |
| MergePatch.ApprovedUpdate | internal/api/config_registry.go:258-378 | an approved update, of a kind that merges or not, sends the patch, merged into the state it was proposed on where the kind merges, or is refused, exactly when that state changed; other fields of the setting do not matter, and an API key comes only from a person |
| MergePatch.ProposalRefused | internal/api/config_registry.go:258-310 | an update is refused when proposed exactly when it has an API key or its variable, a bot's token, or a field the setting's input does not have |
| Redaction.PairSafe | internal/audit/audit.go:136-142 | after `snapshotPair` no unmasked secret is left at any depth on either side, and both sides keep their keys |
| Redaction.RedactedFixed | internal/audit/audit.go:192-219 | redaction changes nothing exactly when there is nothing secret left |
| Redaction.RedactedTwice | internal/audit/audit.go:192-219 | redaction is idempotent and keeps the key set |
| Redaction.ChangeShows | internal/audit/audit.go:144-163 | two set secrets at one path through objects show different marks exactly when they differed, else the same mask |
| Redaction.OnlyChangeShows | internal/audit/audit.go:136-219 | the logged pair depends on no secret beyond which of them changed |
| Redaction.SecretSpelling | internal/audit/audit.go:223-235 | underscores and dashes in a name do not change whether it is secret |
| Redaction.SecretCase | internal/audit/audit.go:223-224 | nor does letter case |
| Redaction.SecretEndings | internal/audit/audit.go:229-235 | a name that ends in one of nine words is secret, whatever stands before |
| Redaction.SecretNames | internal/audit/audit.go:225-228 | "authorization", "cookie" and "heartbeatpath" are secret, "inputtokens" and "command" are not |
| Redaction.OpenShown | internal/audit/audit.go:192-219 | under open names redaction keeps what is there: values stay, objects keep their names and arrays their length |
| Redaction.PairShown | internal/audit/audit.go:136-163 | at a path with no secret name on the way, what the pair shows of a value is what redaction alone shows, but for two set secrets that differ |
| Redaction.Redact | internal/audit/audit.go:192-208 | the loop over the map, in any order |
| Redaction.RedactValue | internal/audit/audit.go:210-219 | the walk into objects and arrays |
| Redaction.MarkChanged | internal/audit/audit.go:144-163 | the loop rewrites both maps as specified, in any order |
| Supervisor.OneServer | cmd/office/supervise.go:189-303 | in every run at most one server is alive and it is the current one; a restart is pending exactly when the current one is the placeholder; every other one's exit code was taken once; none outlives the loop |
| Supervisor.NeverStuck | cmd/office/supervise.go:189-303 | the loop, a stop and a rollback can always go on or wait for a server that is alive; the code `healthy` took can always be put back |
| Supervisor.SixInARow | cmd/office/supervise.go:257-271 | six crashes in a row, each within a minute of the last start as the events tell it, end the loop, and fewer do not |
| Supervisor.WaitIsKept | cmd/office/supervise.go:266-271 | from any reachable state with a restart pending, no run starts a server before it is due |
| Supervisor.StepKeepsInv | cmd/office/supervise.go:189-303 | every event keeps the invariant of processes, placeholder and crash count |
| Supervisor.RestartWaits | cmd/office/supervise.go:257-271 | after any run a crash counts one more than those in a row before it if it comes within a minute of the last start, which is the initial one, a due restart, a rollback or an answering build, as the events tell; the first five make a restart due 2, 4, 8, 16 and 32 s later and no continuation starts a server before that; the sixth ends the loop |
| Supervisor.RunIsTold | cmd/office/supervise.go:189-303 | over every run the loop's start time and crash count are what the events alone tell; it gives up exactly at six crashes in a row |
| Supervisor.ExitMeans | cmd/office/supervise.go:225-271 | in every run: a clean exit ends the loop; the update code of a build from source starts the new build, to be checked, and is no crash; any other exit is a crash, after which the loop gives up or waits |
| Supervisor.StartsAgain | cmd/office/supervise.go:217-256 | a due restart starts a server in place of the placeholder; a new build that is given up is replaced by the one before once it stopped |
| Supervisor.Loop.ServerExited | cmd/office/supervise.go:225-271 | the branch for an exited server: update, clean end, crash with backoff, giving up |
| Supervisor.Loop.Handle | cmd/office/supervise.go:189-303 | each branch of the loop, on its variables, does exactly the event's step |
| Supervisor.Supervise | cmd/office/supervise.go:189-303 | the loop over any possible sequence of events ends where the state machine does |
| Approvals.OrderApprovals | internal/api/incidents.go:232-262 | the slice is rewritten in place: other incidents stay at their index and each chat's slots hold its sorted, numbered cards |
| Approvals.DownTheList | internal/api/incidents.go:229-262 | going down the list each chat's cards (approvals and patches with a chat) fill their old slots, are a permutation of its cards, each with the digits of its own number before its title or unchanged when it has none, ascend in waiting rank, and keep their old order within a rank; every other incident stays |
| Approvals.FindSlots | internal/api/incidents.go:236-241 | the map holds each chat's card indexes, ascending |
| Approvals.Place | internal/api/incidents.go:250-260 | one chat's cards are sorted into its slots and no other index changes |
| Approvals.DigitsRead | internal/api/incidents.go:256-258 | a card's #number is written in digits that read back as the number |
| Approvals.SortsStably | internal/api/incidents.go:254 | a sorted permutation that keeps ties in order |
| Automations.Lifecycle | internal/api/automations.go:396-551 | over every interleaving: one request at a time in a project's critical section; commands unique per bot; a bot an automation names is there and of its project; every other bot is minded by the lock's holder or was left by a failed update |
| Automations.AcceptedDoes | internal/api/automations.go:396-551 | over every run: between getting its lock and an ok answer a delete has taken out exactly its automation, an update has replaced it and a create has added one, with the project, command, other settings and bot asked for or a bot made for it; no other automation of the project is touched |
| Automations.AcceptsExactly | internal/api/automations.go:396-551 | with every write going well a request is answered ok exactly when it was acceptable as the office was when it got its lock: its automation is there, the bot it names is there and of its project, and no other automation has its command on that bot |
| Automations.NoBotLeft | internal/api/automation_bot.go:58-146 | over every run: at each moment every bot is named by an automation of its project or minded by the lock's holder, if and only if neither of two failures of an update happens in the run: the store refuses it, other than for a version conflict, after a new bot was made for it; or writing the bot it moves to fails when no other automation names the bot it moves from |
| Automations.FailureLeavesBot | internal/api/automations.go:502-515 | at either failure a bot of the project is left that no automation names and the request no longer minds |
| Automations.RefusedChangesNothing | internal/api/automations.go:396-551 | over every run, with any requests of other projects in between: a refused request leaves its project's automations and bots exactly as they were when it got the lock, if and only if neither failure happened to it: the store refusing its update, other than for a version conflict, after a new bot was made; or its bot not being written after it was saved with other settings |
| Automations.FailedUpdateChanges | internal/api/automations.go:502-515 | the run where an update is answered with an error and yet has changed the automation's command |
| Automations.FailedUpdateLeavesBot | internal/api/automations.go:502-510 | the run where an update the store refuses leaves the bot that was made for it |
| Automations.StepKeepsInv | internal/api/server.go:135-148 | every step of every request keeps the invariant, the lazily made per-project mutexes included |
| Automations.FrameKeeps | internal/api/server.go:135-148 | a step in one project leaves every other project's invariant alone |
| Automations.BotUsers | internal/api/automation_bot.go:125-134 | counts exactly the project's automations that name the bot |
| Automations.CommandTaken | internal/api/automations.go:288-293 | finds a taken command exactly when another automation of the project has it on the bot |
| Facets.CountPredicts | internal/api/automation.go:242-308 | the count of an area, category or risk value is the number of results with that filter set to it, whatever it was set to |
| Facets.TagPredicts | internal/api/automation.go:242-308 | a tag's count is at least the number of results, and equal exactly when no match repeats the tag up to case |
| Facets.FoundExactly | internal/api/automation.go:242-275 | an item is found exactly when the trimmed search text, case aside, stands somewhere in its name or description or is one of its tags, and each filter set has its value, case aside for a tag |
| Facets.OwnFirstParts | internal/api/automation.go:303 | the office's own items in their order, then the others in theirs |
| Facets.SortTags | internal/api/automation.go:293-302 | the at most 40 most used tags, by count and then by name; no tag left out comes before a listed one |
| Facets.TopTags | internal/api/automation.go:293-302 | of the counted tags at most 40 are listed, fewer only when there are fewer, the most used first and equals by name; each one left out is used less than every listed one, or as often with a later name |
| Facets.FilterLibrary | internal/api/automation.go:242-308 | the loops return exactly the matches and the counts the laws are about |

## Left out

- HTTP, cookies, the event stream's framing, route tables, DTOs and message texts.
- Files, backups, trash folders and permissions: a configuration file is its text, one that is not there yet is empty, and writes succeed.
- Text is a sequence of bytes with ASCII white space and ASCII case; Unicode white space and case folding are not modelled.
- Quoted strings: the one-letter and `\x` escapes are modelled and bytes above 127 stand for themselves; the escapes quoting uses for invalid or unprintable non-ASCII text, and octal and `\u`/`\U` escapes in a hand-written file, are not.
- Put-back to user, local and project configurations (internal/automation/moveout.go:83-96): only the Codex branch.
- CodexServers.RemovalExact: exact for the entries the reader takes; two different values can still read as the same config.
- Per-kind checks of `Propose` and the automatic and direct approvals after it: they end in `Decide`, which `Decisions` covers.
- Proposals.Board.Propose: one proposal at a time; `Proposals.TwinsExactly` says what overlapping ones do. The comment on `sameFiles` says "as sets"; the code compares how often each file is listed, and the model follows the code.
- Crashes of the office between an effect and its recording, and failing store updates in `Decisions`.
- The chat's `CheckOrder` and `Drain`: they are not part of this model; a queued action is decided by an ordinary `Decide`.
- An office without an event hub: `gitBackground` then drops the outcome its event would carry.
- The cursor loops of the log and turn followers, which only advance a sequence number.
- What Restore copies into the stored agent and its team-file checks.
- Auth.Service.RateBound: requests come one at a time; `Logins.SpacedExactly` says what overlapping ones do.
- Password hashing, its slots, tokens and user administration; `LastSeenAt` is assumed to be written when it is due.
- `stateHash` is taken as injective, and proposals made before it existed (compared by snapshot) are left out, as are approved changes that create or delete a setting.
- Redaction.SecretSpelling: names are ASCII.
- The dashboard process: the code can start a second one when a dashboard restart is pending as an update arrives (cmd/office/supervise.go:207-215, 226-234), so only the server side is stated.
- The supervisor's flags, pid file, source detection and the rollback of files; whether a new build answers is the event's choice.
- Automations.NoBotLeft: store reads and deletes succeed (a failed list is read as empty by the code), and the separate endpoints that create or delete a chat channel directly are left out, as are a channel's own settings and notification channels, which the code does not count as use.
- The pager of the library search and the other fields of its items.
