# A verified model of LiosTunnel's hard core

LiosTunnel sends a machine's traffic through an SSH or Shadowsocks server. To do that it edits the routing
table and the resolver file, runs a privileged helper that outlives its clients, and carries packets through
a small network stack of its own. This project models the parts where a mistake strands a machine without a
network, and proves what they promise.

`dafny verify dfyconfig.toml` checks everything.

## What is modelled

- **Routing** (`Net`, `RouteCommands`, `RouteSystem`, `RouteProperties`, `RouteSession`, `HelperTunnel`,
  `HelperRetry`). The table is a map from prefixes to next hops with longest-prefix lookup; the resolver file
  and its backup are two optional cells. A plan becomes a list of commands that install it and a list that
  undoes it, on Linux and on macOS. A run saves a record of the undo list, installs, and undoes; any run may
  be killed before any effect, lose its interface, or have an effect turned down. `Host` is the machine. Its
  `history` and `moves` tell every state it has been in and the one atomic move from each to the next, ending
  in the state it is in, so that an invariant of `history` is a statement about every intermediate state.
- **Links** (`Sequences`, `Utf8`, `Base64`, `Text`, `SsUriLinks`). `ss://` links in both forms, down to sextets, bytes and
  percent escapes.
- **The helper** (`Listener`, `Authorize`, `Daemon`). Helpers contend for one socket path under a file lock,
  as interleaved atomic steps. The daemon serves one client after another, and its methods are proved to log
  exactly what `Daemon.DaemonLog` says. `Daemon.Monitor` is an independent observer of such a log, and
  `WatchAll(log).ok` says that no rule of the protocol has been broken.
- **The data path** (`LocalStream`, `Wakeups`, `Counting`, `Engine`, `Flows`, `Shadowsocks`). A byte stream over
  chunks, the wake discipline that keeps the stack loop from sleeping over work, the loop that drains two
  channels, the counters and permit pools, the tunnel's lifecycle and its probe.
- **DNS** (`DnsPacket`, `TcpResolver`). Synthesised UDP packets and their checksums, the truncated reply, and
  queries framed over TCP with failover.

## Findings

Some things one might expect of the code do not hold in general. Each has the exact condition under which it
does.

- The comment that reverting routes that were never installed is harmless holds on Linux exactly when there
  was no host route to the server before: the pin is deleted without naming its gateway
  (`RouteSystem.UnusedRecordIsHarmlessExactlyWhen`).
- The helper recovers only when it starts. After any number of starts that failed part of the way, the record
  of the newest leads back to the baseline exactly when every pin they stranded is the one it deletes; a start
  that then works leaves them all (`HelperRetry.OverwrittenRecordRecoversExactlyWhen` and
  `SuccessLeavesEarlierPins`; `OverwrittenRecordCanLoseAPin` is a concrete case).
- A replay goes on past commands that are turned down, and its record is cleared whatever they were. It
  restores the baseline exactly when those that ran cover what was installed
  (`RouteSystem.RefusedReplayRestoresExactlyWhen`, `RouteSession.Host.RecoverIfStale`).
- The replay deletes the pin even if a half before it could not be deleted. Its server's own traffic then goes
  into the dead tunnel exactly when that half holds the server and no closer route of the baseline does
  (`RouteProperties.RefusedReplayKeepsEscapeExactlyWhen` and `ServerFallsIntoTunnelExactlyWhen`).
- Test mode has no pin. Its server is reached outside the tunnel exactly when no listed prefix holds it more
  closely than the routes already there (`RouteProperties.TestModeReachesServerExactlyWhen`). The helper's
  refusal of prefixes of length 0 and 1 does not imply that
  (`Authorize.GateAcceptsTheWholeAddressSpace`).
- The count of active flows is the number of live flow tasks exactly when no task was dropped before its
  first poll, since the guard that decrements it is only made once a flow's future runs
  (`Engine.ActiveFlowsExactWhen`).

## Model

| member | source | states |
|---|---|---|
| Net.LookupIsLongestMatch | crates/liostunnel-core/src/route/linux.rs:102-109 | the lookup used throughout is longest-prefix match, both ways: it finds a hop exactly when the longest entry holding the address leads there, and nothing exactly when no entry holds it |
| RouteCommands.RejectFullDefaultPrefixes | crates/liostunnel-core/src/route/mod.rs:149-159 | an error exactly when some prefix has length 0, naming one that does |
| RouteCommands.DnsServersNeedingHostRoutes | crates/liostunnel-core/src/route/mod.rs:176-184 | the loop yields the specification list of resolvers, which `NeedingHostRoutesAre` characterises |
| RouteProperties.NeedingHostRoutesAre | crates/liostunnel-core/src/route/mod.rs:176-184 | exactly the resolvers no listed prefix holds, without repeats if there were none |
| RouteCommands.ApplyCommands | crates/liostunnel-core/src/route/linux.rs:57-144 | the list is refused exactly for a `/0` in test mode, and is otherwise the apply list the properties below are about: what it does to the table (`DefaultApplyAdds`, `TestDestinationsAre`) and to the resolvers (`ApplySetsResolvers`); the macOS list differs in its resolver step |
| RouteCommands.RevertCommands | crates/liostunnel-core/src/route/linux.rs:146-205 | the same for the undo list: the halves, then the pin, then the resolver file |
| RouteSystem.ReplayIsAFilter | crates/liostunnel-core/src/route/state.rs:137-142 | replaying an undo list, failures ignored, is one filter of the table and one copy of the backup, whatever the order of its commands |
| RouteSystem.ReplayRestoresExactlyWhen | crates/liostunnel-core/src/route/state.rs:112-146 | a replay restores the baseline if and only if the machine is undoable by the list |
| RouteSystem.RefusedReplayRestoresExactlyWhen | crates/liostunnel-core/src/route/state.rs:137-142 | with any of its commands turned down, a replay restores the baseline if and only if those that ran cover every stranded route and the resolver file |
| RouteSystem.UndoStepKeepsUndoable | crates/liostunnel-core/src/route/state.rs:137-142 | a replay cut short at any command can be replayed again |
| RouteSystem.BaselineIsUndoable | crates/liostunnel-cli/src/commands/connect.rs:169-181 | at a baseline clear of the plan, the plan's own undo list is a way back to it |
| RouteSystem.LostInterfaceKeepsUndoable | crates/liostunnel-helper/src/session.rs:290-315 | the interface going, and its routes with it, at any moment, leaves the machine undoable |
| RouteSystem.RevertMatchesApply | crates/liostunnel-core/src/route/linux.rs:57-205 | every route either platform's apply adds is one its revert deletes, and no route clear of the plan is |
| RouteSystem.ApplyStepKeeps | crates/liostunnel-core/src/route/linux.rs:83-141 | every command of an apply, whether or not it succeeds, leaves the machine undoable by the undo list, routes and resolver file both |
| RouteSystem.UnusedRecordIsHarmlessExactlyWhen | crates/liostunnel-cli/src/commands/connect.rs:169-181 | replaying a record of routes never installed is harmless on Linux if and only if no host route to the server was there before |
| RouteProperties.AppliedTable | crates/liostunnel-core/src/route/mod.rs:236-246 | however far an apply gets, the table is what it was and, beside it, exactly the routes added so far |
| RouteProperties.DefaultApplyAdds | crates/liostunnel-core/src/route/linux.rs:83-127 | a default-mode apply adds the pin and both halves of each captured family, and nothing else |
| RouteProperties.DefaultApplyKeepsRoutes | crates/liostunnel-core/src/route/linux.rs:102-104 | after a completed default-mode apply every earlier route, the default included, is unchanged, and the server goes out the original gateway |
| RouteProperties.ApplySetsResolvers | crates/liostunnel-core/src/route/linux.rs:128-141 | a completed default-mode apply leaves the plan's servers, and nothing else, in the resolver file with the old file as its backup, or on macOS in the service's settings; test mode leaves all of it alone |
| RouteProperties.SplitDefaultCaptures | crates/liostunnel-core/src/route/linux.rs:102-127 | every address of a captured family but the server's goes where a route of length 2 or more took it before, and into the interface otherwise |
| RouteProperties.SplitDefaultLeavesIpv6 | crates/liostunnel-core/src/route/linux.rs:110-127 | on a host without IPv6, where each IPv6 address goes is unchanged |
| RouteProperties.EscapeRouteReachesServer | crates/liostunnel-core/src/route/linux.rs:84-101 | while the pin stands beside the halves, no lookup sends the server's traffic into its own tunnel |
| RouteProperties.ApplyStepKeepsEscape | crates/liostunnel-core/src/route/linux.rs:84-109 | at every command of an apply the pin is in before any half |
| RouteProperties.RevertStepKeepsEscape | crates/liostunnel-core/src/route/linux.rs:172-194 | at every command of a revert or replay, from any state an apply or loss of the interface can leave, the pin outlives the halves |
| RouteProperties.RevertOrder | crates/liostunnel-core/src/route/linux.rs:172-194 | the only undo command that deletes a host route is the pin's, and every half's comes before it |
| RouteProperties.RefusedReplayKeepsEscapeExactlyWhen | crates/liostunnel-core/src/route/state.rs:137-142 | after each command of a replay some of whose commands are turned down, the escape route stands if and only if the pin's delete has not been run or no half's delete was turned down while it stood |
| RouteProperties.ServerFallsIntoTunnelExactlyWhen | crates/liostunnel-core/src/route/state.rs:137-142 | once the pin's delete has been run, the server's own traffic goes into its tunnel if and only if the half that holds the server was so stranded and no baseline route of length 2 or more takes it elsewhere |
| RouteProperties.TestDestinationsDoNotCollide | crates/liostunnel-core/src/route/mod.rs:161-184 | with networks and resolvers each without repeats, test mode names no destination twice |
| RouteProperties.TestDestinationsAre | crates/liostunnel-core/src/route/mod.rs:161-184 | test mode routes exactly the listed networks and, with DNS capture, the resolvers that none of them holds |
| RouteProperties.CapturedResolversAreRouted | crates/liostunnel-core/src/route/mod.rs:161-184 | with DNS capture every resolver is inside a route test mode installs |
| RouteProperties.TestApplyCompletesExactlyWhen | crates/liostunnel-core/src/route/linux.rs:60-82 | a test-mode apply gets through if and only if its destinations are new to the table and named once |
| RouteProperties.ApplyCompletesExactlyWhen | crates/liostunnel-core/src/route/mod.rs:236-246 | on either platform and in either mode, an apply none of whose commands is turned down gets through if and only if its destinations are free and, on Linux, there is a resolver file to keep |
| RouteProperties.TestModeCaptures | crates/liostunnel-core/src/route/linux.rs:60-82 | after it, an address goes into the interface exactly when a destination holds it more closely than any earlier route, and elsewhere as before |
| RouteProperties.TestModeReachesServerExactlyWhen | crates/liostunnel-helper/src/session.rs:589-602 | test mode's server stays outside the tunnel if and only if no destination captures it |
| RouteProperties.TestModeUndoesItself | crates/liostunnel-core/src/route/linux.rs:149-171 | a completed test-mode apply and then its revert is the identity on the machine |
| RouteSession.Host.Execute | crates/liostunnel-core/src/route/mod.rs:82-129 | what one command does under each fate, exactly: a killed process changes nothing, a refused command fails, an interface may go just before; and the machine is safe at every outcome, or astray because an undo command that mattered was refused |
| RouteSession.Host.Save | crates/liostunnel-core/src/route/state.rs:20-29 | it works exactly when neither of its two effects is turned down or killed, and then what it leaves is exact, a record let go of away from the baseline included; otherwise the record is the old one or unreadable |
| RouteSession.Host.Clear | crates/liostunnel-core/src/route/state.rs:38-40 | the record goes or stays, and the process dies, exactly by the fate of the removal |
| RouteSession.Host.Undo | crates/liostunnel-core/src/route/state.rs:137-142 | safe after every command, going on past refused ones, and through if and only if none of its fates is to be killed; the result is exactly the commands not refused; at the baseline once through unless one that mattered was refused |
| RouteSession.Host.RecoverIfStale | crates/liostunnel-core/src/route/state.rs:112-146 | which answer for which record and pid, both ways; it dies if and only if its fates kill it; a refusal changes nothing; a recovery is exactly the commands not refused, and whatever they were its record goes if and only if the removal is not refused |
| RouteSession.Host.ReplayRecord | crates/liostunnel-core/src/route/state.rs:137-144 | the replay of a stale record and its removal get through if and only if no fate of theirs is to be killed; through it, the table and the file are exactly what the commands not refused make of them, and the record is gone if and only if its removal was not refused |
| RouteSession.Host.Note | crates/liostunnel-core/src/route/state.rs:112-146 | every change to the machine or its record is one possible atomic move, told in the history, and leaves the machine safe or astray |
| RouteSession.AstrayHasACause | crates/liostunnel-core/src/route/state.rs:137-145 | in any history, the machine goes astray only when an effective undo is turned down or a record is emptied or removed away from the baseline |
| RouteSession.NeverAstrayBefore | crates/liostunnel-core/src/route/state.rs:112-146 | a machine not astray has been so at no earlier moment |
| RouteSession.RouteGuard.Apply | crates/liostunnel-core/src/route/mod.rs:236-246 | it stops at the first failure with exactly the commands before it done; there is a guard if and only if every command is let through and succeeds on the machine its turn finds |
| RouteSession.UndisturbedGoesThrough | crates/liostunnel-core/src/route/mod.rs:236-246 | with nothing in its way an apply goes through if and only if each of its commands succeeds after those before it |
| RouteSession.RouteGuard.RevertNow | crates/liostunnel-core/src/route/mod.rs:248-265 | undoes once, as `Undo`, and gets through if and only if it is not killed; a second call changes nothing |
| RouteSession.Run | crates/liostunnel-cli/src/commands/connect.rs:103-318 | recover, save, apply, revert, clear: killed or failing anywhere, every move is in the history, no record but its own is left, and it dies only by being killed; a record that bars it changes nothing; a clean stop has had every command installed and leaves the baseline; undisturbed on a machine ready for it, it stops cleanly, or, failing late, errs at the baseline with its record kept |
| RouteSession.RunToExit | crates/liostunnel-cli/src/commands/connect.rs:162-292 | the same up to the process's end, before the kernel reclaims its interface |
| RouteSession.Prepare | crates/liostunnel-cli/src/commands/connect.rs:162-181 | recovery and the record: either the run ends there, a barred or rejected one always, or its record is on disk and the machine at its baseline, if not astray |
| RouteSession.UpAndDown | crates/liostunnel-cli/src/commands/connect.rs:183-292 | the routes of a run: let through, it ends as its undo does and, unless that is killed, at the baseline, a late failure included; not let through, it does not stop cleanly |
| RouteSession.Finish | crates/liostunnel-cli/src/commands/connect.rs:282-292 | how it ends is decided by the late failure and by whether the undo is killed; unless killed the machine is at its baseline, if not astray; the record goes only after a revert with no late failure |
| RouteSession.RunAllOf | crates/liostunnel-cli/src/commands/connect.rs:103-318 | one run after another: a run that stops cleanly was fully up at some moment, what is on disk is what was there or the record of one of them, no refusal means nothing thwarted, and runs with nothing in their way all stop cleanly and leave no record |
| RouteSession.RunsThenRecovery | crates/liostunnel-cli/src/commands/connect.rs:162-183 | any number of serial runs, each with its own fates and ending anywhere, then a recovery with fates of its own. The answer is the one that the record the runs left, its pid and the fates decide, and it died only if they kill it; with no effect refused every state in the history was safe; and with none refused and fates that carry the recovery through, the baseline routes and resolver file are back, which is a condition on the inputs alone |
| RouteSession.SafeMeansRecoverable | crates/liostunnel-core/src/route/state.rs:112-146 | a safe moment is at the baseline or has a record whose replay restores it exactly |
| RouteSession.SafeMeansServerReachable | crates/liostunnel-core/src/route/linux.rs:84-91 | at a safe moment a default-mode server is not routed into its own tunnel |
| RouteSession.MacDnsRestoredExactlyWhen | crates/liostunnel-core/src/route/macos.rs:195-199 | resolvers set through `networksetup` come back if and only if there were none: it resets, it does not restore |
| RouteSession.ResolverSurvivesEarlyCrashExactlyWhen | crates/liostunnel-core/src/route/linux.rs:128-140 | recovering from a crash before the backup is made keeps the resolver file if and only if the old backup was absent or equal to it |
| HelperTunnel.Tunnel.Start | crates/liostunnel-helper/src/session.rs:214-245 | the record before the routes, whatever state the machine is in. It is up if and only if the record is saved, every command is let through and nothing after them fails; failing after them it has undone them unless the undo is killed; failing at them it is what `HelperRetry` describes; failed, no route goes through its interface; and its record stays |
| HelperTunnel.Tunnel.Install | crates/liostunnel-helper/src/session.rs:227-245 | the routes of a start and the steps after them, exactly as above |
| HelperTunnel.ReadyStarts | crates/liostunnel-helper/src/session.rs:214-245 | on a machine ready for it and with nothing in its way a start comes up; or, if a step after the routes fails, ends at the baseline with its record kept |
| HelperTunnel.FellShortStrandsOnlyThePin | crates/liostunnel-helper/src/session.rs:227 | a start that stopped at one of its commands is an attempt as `HelperRetry` has them: its own pin is all it can have changed in the table |
| HelperTunnel.Tunnel.Drop | crates/liostunnel-helper/src/session.rs:290-315 | the routes, then the interface, then the record: it is cut short if and only if it is killed; otherwise the baseline is back, if not astray, nothing goes through the interface, and the record is gone unless its removal was refused |
| HelperTunnel.DaemonLife | crates/liostunnel-helper/src/main.rs:64-140 | from recovery on through every start, failed ones and refused recoveries included: safe at every moment unless the history tells of a record let go or an undo refused; it dies only by being killed. A stale record that nothing keeps it from replaying is gone and the baseline back before it serves anybody; and if nothing is in the way of the requests either, every tunnel comes up, those whose start then fails late too, and the machine ends at its baseline |
| HelperTunnel.ServeRequest | crates/liostunnel-helper/src/main.rs:161-186 | one connect and its disconnect: a failed start does not end the daemon, only being killed does; undisturbed, the tunnel comes up and the machine is back at its baseline, its record gone unless the start failed late |
| HelperRetry.FailedStartStrandsOnlyThePin | crates/liostunnel-helper/src/session.rs:214-225 | after a start fails at any command and its interface goes, the table is what it was but for the pin, new to it, if it got that far |
| HelperRetry.AttemptKeepsResolver | crates/liostunnel-core/src/route/linux.rs:128-140 | a failed start, or one that worked and was dropped, leaves the resolver file as it was |
| HelperRetry.OverwrittenRecordRecoversExactlyWhen | crates/liostunnel-helper/src/session.rs:214-225 | after any number of starts, failed or dropped cleanly, the newest record restores the baseline if and only if every stranded pin is the one it deletes |
| HelperRetry.AttemptsStrandOnlyPins | crates/liostunnel-helper/src/session.rs:214-225 | after any starts from any table, the table is what it was and, beside it, exactly the pins of those that failed past them |
| HelperRetry.StrandedStands | crates/liostunnel-helper/src/session.rs:214-225 | every such pin is still there as its start left it |
| HelperRetry.WorkingStartUndoesItself | crates/liostunnel-helper/src/session.rs:290-315 | a start that worked and was dropped leaves the table as it found it |
| HelperRetry.SuccessLeavesEarlierPins | crates/liostunnel-helper/src/session.rs:290-315 | a later success takes its record with it and leaves the earlier pins: the baseline is back if and only if none was stranded |
| HelperRetry.RecordRecoversTableExactlyWhen | crates/liostunnel-helper/src/main.rs:71-73 | the same from any machine, as after a refused recovery: the table comes back if and only if the newest record deletes all it had beyond the baseline and every stranded pin |
| HelperRetry.OverwrittenRecordCanLoseAPin | crates/liostunnel-helper/src/session.rs:214-225 | a concrete case in which it does not: two default-mode starts to different servers |
| HelperRetry.RetryToTheSameServerFails | crates/liostunnel-core/src/route/linux.rs:92-101 | a default-mode start gets past its first command if and only if no stranded pin is to its server |
| SsUriLinks.Sip002LinkParses | crates/liostunnel-core/src/protocols/ss_uri.rs:159-211 | every SIP002 link of a renderable record reads back as it: either alphabet, padded or not, any spelling of the port, slash, query, whitespace, any fragment |
| SsUriLinks.LegacyLinkParses | crates/liostunnel-core/src/protocols/ss_uri.rs:159-211 | every legacy link of a well-formed record reads back as it, in either alphabet, padded or not, with any spelling of the port |
| SsUriLinks.ParsesExactlyWhen | crates/liostunnel-core/src/protocols/ss_uri.rs:159-211 | a link is read as a record if and only if it is one of those ways of writing it, in one form or the other; nothing else is read as anything |
| SsUriLinks.FormsAgree | crates/liostunnel-core/src/protocols/ss_uri.rs:159-211 | the two forms of one record parse alike, however each was encoded |
| SsUriLinks.ParsedIsWellFormed | crates/liostunnel-core/src/protocols/ss_uri.rs:66-98 | whatever parses has a cipher without a colon, a password, an IPv4-or-name host, a port from 1, and no empty tag |
| SsUriLinks.HostPortParses | crates/liostunnel-core/src/protocols/ss_uri.rs:75-98 | every host and port as written is taken apart, or turned away for the reason that applies; a port is an optional plus sign, zeros and the digits of a number below 65536, and whatever is not is a bad port |
| SsUriLinks.RoundTripsExactlyWhen | crates/liostunnel-core/src/protocols/ss_uri.rs:233-247 | for every record, parsing its rendering gives it back, an empty tag read as none, if and only if it is renderable |
| SsUriLinks.ReRendersExactlyWhen | crates/liostunnel-core/src/protocols/ss_uri.rs:233-247 | any link that parses survives rendering and parsing again if and only if its host has no `#` or `?` |
| SsUriLinks.DecodeSectionOf | crates/liostunnel-core/src/protocols/ss_uri.rs:44-63 | decoding undoes encoding in either alphabet, whatever the padding |
| SsUriLinks.DecodedSection | crates/liostunnel-core/src/protocols/ss_uri.rs:44-63 | whatever decodes was written in one of the alphabets with some padding |
| Base64.DecodeEncodeText | crates/liostunnel-core/src/protocols/ss_uri.rs:44-63 | base64 decodes what it encodes, bit for bit |
| Base64.EncodeDecodeText | crates/liostunnel-core/src/protocols/ss_uri.rs:44-63 | only the one canonical encoding of some bytes decodes to them |
| Base64.AlphabetsAgree | crates/liostunnel-core/src/protocols/ss_uri.rs:44-63 | no string decodes in both alphabets to different bytes |
| Base64.SymbolsAreTabulated | crates/liostunnel-core/src/protocols/ss_uri.rs:44-63 | both alphabets are the tables of RFC 4648 |
| Base64.GroupIsTheSameBits | crates/liostunnel-core/src/protocols/ss_uri.rs:44-63 | a group of sextets is the bits of its bytes, in order |
| Utf8.DecodeEncode | crates/liostunnel-core/src/protocols/ss_uri.rs:44-63 | UTF-8 decodes what it encodes |
| Utf8.EncodeDecode | crates/liostunnel-core/src/protocols/ss_uri.rs:44-63 | bytes that decode are the encoding of what they decode to: no overlong form or surrogate gets through |
| Text.EncodeTagInPlace | crates/liostunnel-core/src/protocols/ss_uri.rs:106-117 | the loop computes the percent encoding `DecodeEncodeTag` is about |
| Text.DecodeTagInPlace | crates/liostunnel-core/src/protocols/ss_uri.rs:131-153 | the index loop computes the percent decoding, stray `%` and bad UTF-8 included |
| Text.DecodeEncodeTag | crates/liostunnel-core/src/protocols/ss_uri.rs:106-153 | every tag survives being escaped and unescaped |
| Text.EscapeIsSafe | crates/liostunnel-core/src/protocols/ss_uri.rs:106-117 | an escaped tag is ASCII with no `#` and no whitespace |
| Text.EscapesExactly | crates/liostunnel-core/src/protocols/ss_uri.rs:106-117 | the unreserved characters of RFC 3986, listed, stand for themselves and every other byte becomes two upper-case hexadecimal digits |
| Text.EscapeDecodes | crates/liostunnel-core/src/protocols/ss_uri.rs:131-147 | an escape decodes to its byte with its digits in either case, and a percent sign before anything else stays |
| Text.RawTagStays | crates/liostunnel-core/src/protocols/ss_uri.rs:119-124 | a raw tag with no percent sign is read as it stands |
| Text.BadEscapesStay | crates/liostunnel-core/src/protocols/ss_uri.rs:148-153 | a tag whose escapes do not make text is left alone, `%FF` for one |
| Text.ParseU16ExactlyWhen | crates/liostunnel-core/src/protocols/ss_uri.rs:79 | a port is read if and only if it is the spelling of a number below 65536 |
| Text.WhiteSpaceExactly | crates/liostunnel-core/src/protocols/ss_uri.rs:163 | the whitespace that is trimmed is the 25 characters of the Unicode property |
| Listener.StepKeepsInv | crates/liostunnel-helper/src/listener.rs:81-249 | every atomic step of any helper keeps the ownership invariant |
| Listener.EveryMoment | crates/liostunnel-helper/src/listener.rs:81-249 | the invariant holds at every moment of every run of any number of helpers |
| Listener.AtMostOneOwner | crates/liostunnel-helper/src/listener.rs:81-109 | at every moment of every interleaving at most one helper holds the path |
| Listener.LiveSocketIsNeverStolen | crates/liostunnel-helper/src/listener.rs:240-249 | a live helper's socket file is the one at the path, and no other helper's step changes that |
| Listener.BindSucceedsExactlyWhenUnowned | crates/liostunnel-helper/src/listener.rs:133-173 | a bind left undisturbed succeeds if and only if no helper holds the path, whatever debris is there |
| Listener.KilledOwnerNeverBlocks | crates/liostunnel-helper/src/listener.rs:112-115 | an owner killed at any stage leaves the path free to bind |
| Listener.DropCleansUp | crates/liostunnel-helper/src/listener.rs:240-249 | a drop unlinks its own file while it still has the lock, and leaves nothing |
| Listener.RemovingTheLockfileAdmitsTwoOwners | crates/liostunnel-helper/src/listener.rs:112-115 | were the lockfile removed, two helpers could be live at once |
| Listener.Kernel.Bind | crates/liostunnel-helper/src/listener.rs:133-173 | with interference before every call, and any one of its own calls failing, it ends owning the path or without the lock; it is refused only by another holder, and with neither holder nor fault it is live; a socket file it made and could not keep it has removed, and a socket bind that fails leaves what `listen` left |
| Listener.Kernel.Flock | crates/liostunnel-helper/src/listener.rs:90-106 | the lock is had, or another helper holds it, or the call failed |
| Listener.Kernel.Drop | crates/liostunnel-helper/src/listener.rs:240-249 | under interference too, it finds its own file, unlinks it, and holds no lock after: the path is empty when it lets go |
| Authorize.AuthorizeParams | crates/liostunnel-helper/src/session.rs:322-382 | the loop is the gate `GatePassesExactlyWhen` is about; a request refused for a secret is refused for the first bad one |
| Authorize.GatePassesExactlyWhen | crates/liostunnel-helper/src/session.rs:322-382 | the gate passes exactly the well-shaped requests whose every secret is a file the caller may use, and carries their very mode and contents |
| Authorize.TestModePassesExactlyWhen | crates/liostunnel-helper/src/session.rs:575-607 | test mode passes if and only if the list is not empty, all of it parses and no prefix is of length 0 or 1; then with those prefixes and the resolver flag as asked; which refusal is decided both ways |
| Authorize.OtherModes | crates/liostunnel-helper/src/session.rs:608-611 | default mode passes whatever the prefixes, and any other name is refused |
| Authorize.FirstBadSecretIsNamed | crates/liostunnel-helper/src/session.rs:350-372 | with a bad secret, the refusal is for the first of them |
| Authorize.GateAcceptsTheWholeAddressSpace | crates/liostunnel-helper/src/session.rs:589-602 | prefixes the breadth check accepts can together hold any IPv4 address |
| Daemon.Session.Handle | crates/liostunnel-helper/src/dispatch.rs:141-224 | the reply, action and new state for every line in every state; a start is asked for exactly when a greeted, unconnected client connects through the gate, with what passed it |
| Daemon.Session.ConnectFailed | crates/liostunnel-helper/src/dispatch.rs:74-129 | one error under the request's id, and not connected |
| Daemon.BlameIsWhereItBelongs | crates/liostunnel-helper/src/dispatch.rs:76-106 | which errors a client hears as a failed authentication, a refused secret, a bad request or the helper's own, both ways |
| Daemon.GateBlames | crates/liostunnel-helper/src/dispatch.rs:76-106 | a connect turned away at the gate is never blamed on the server or the helper: it is a refused secret if and only if all else is in order and the first secret not to be used is a file, and a bad request otherwise |
| Daemon.Session.ConnectSucceeded | crates/liostunnel-helper/src/dispatch.rs:68-71 | the ack, then the state event, and connected |
| Daemon.Session.TunnelStopped | crates/liostunnel-helper/src/dispatch.rs:134-137 | not connected, and the client told so |
| Daemon.Session.ResumeConnected | crates/liostunnel-helper/src/dispatch.rs:63-65 | a fresh session adopts the daemon's tunnel, ungreeted still |
| Daemon.Helper.WriteAll | crates/liostunnel-helper/src/main.rs:229-238 | exactly the lines there is room for are sent, in order |
| Daemon.Helper.ServeLine | crates/liostunnel-helper/src/main.rs:161-186 | for every line, start outcome and room, the log grows by exactly that turn, and the session mirrors the tunnel after it |
| Daemon.Helper.ServeOne | crates/liostunnel-helper/src/main.rs:143-227 | the log grows by exactly the specified log of the client, every turn of it, up to the first write that fails |
| Daemon.Helper.ServeTick | crates/liostunnel-helper/src/main.rs:187-216 | an engine that died ends the tunnel and says so; otherwise a stats frame, and only to a greeted client |
| Daemon.Helper.Serve | crates/liostunnel-helper/src/main.rs:97-140 | over any sequence of clients the log is exactly the specified one, and exit leaves no tunnel |
| Daemon.DaemonKeepsRules | crates/liostunnel-helper/src/main.rs:97-227 | whatever its clients say and however writes and starts fare, that log breaks no rule of the monitor |
| Daemon.TurnKeepsRules | crates/liostunnel-helper/src/main.rs:159-216 | each turn of the loop keeps the rules, and leaves the monitor and the daemon in agreement |
| Daemon.EveryoneIsHeardOut | crates/liostunnel-helper/src/main.rs:143-227 | when writes succeed, the inputs acted on are exactly those given, in order, each up to the next head of the loop |
| Daemon.ClientIsHeard | crates/liostunnel-helper/src/main.rs:143-227 | whatever the room, a client is heard turn by turn up to the last it survives |
| Daemon.OnlyWritesCutAClientShort | crates/liostunnel-helper/src/main.rs:143-227 | which is the last it has, or one with no room for two lines |
| Daemon.EveryLineIsAnswered | crates/liostunnel-helper/src/dispatch.rs:141-224 | when writes succeed, every line of every client is answered exactly once before the next input, under the line's id, 0 if it did not parse |
| Daemon.StartedPassedTheGate | crates/liostunnel-helper/src/session.rs:319-382 | every tunnel started answers a connect that passed the gate, and is given what passed it |
| Daemon.OnlyTheLiveTunnelEnds | crates/liostunnel-helper/src/main.rs:161-213 | what ends was started, and has not ended before |
| Daemon.SessionMirrorsTheTunnel | crates/liostunnel-helper/src/main.rs:143-158 | at every loop head the session is connected if and only if some tunnel has started and not ended |
| Daemon.SingleTunnel | crates/liostunnel-helper/src/main.rs:143-186 | between two starts there is an end, the first of them of the first tunnel |
| Daemon.ClientIsUpToDate | crates/liostunnel-helper/src/dispatch.rs:226-235 | the newest state event a client has been sent is what the session holds at the next loop head |
| Daemon.TunnelEndsOnlyWhenAsked | crates/liostunnel-helper/src/main.rs:218-227 | a tunnel ends on a disconnect, a dead engine or the daemon's exit, never on a client hanging up |
| Daemon.AnsweredExactlyOnce | crates/liostunnel-helper/src/dispatch.rs:141-224 | in any log that breaks no rule, between a line and the next loop head exactly one response is sent, with the line's id |
| Daemon.NothingBeforeHello | crates/liostunnel-helper/src/dispatch.rs:158-195 | until a client says a matching hello nothing starts for it, and it is sent errors and nothing else |
| Daemon.ConnectAckedOnlyWhenStarted | crates/liostunnel-helper/src/main.rs:165-183 | a connect is acked only after its tunnel has started |
| LocalStream.LocalStream.PollRead | crates/liostunnel-core/src/net/local_stream.rs:79-125 | the loop over chunks is the specified read step, with one wakeup for each chunk taken, the last when the slots are free |
| LocalStream.LocalStream.PollWrite | crates/liostunnel-core/src/net/local_stream.rs:127-151 | broken pipe, pending or the whole buffer as one chunk, with a wakeup only then, at which the chunk is there to see |
| LocalStream.LocalStream.PollShutdown | crates/liostunnel-core/src/net/local_stream.rs:158-163 | closed outward, and then a wakeup that sees it closed |
| LocalStream.LocalStream.Drop | crates/liostunnel-core/src/net/local_stream.rs:64-77 | both halves closed, and then one wakeup that sees both closed |
| LocalStream.ReadConserves | crates/liostunnel-core/src/net/local_stream.rs:79-125 | a read takes bytes off the front of what is left, no more than its buffer, and loses none |
| LocalStream.EmptyReadIsEof | crates/liostunnel-core/src/net/local_stream.rs:79-125 | with room, a read of nothing means the sender is gone and all is read, both ways; pending means only that all is read |
| LocalStream.ShortReadEndsAChunk | crates/liostunnel-core/src/net/local_stream.rs:79-125 | a read that leaves room in its buffer has taken all of the chunk at the front, and of no other |
| LocalStream.Fidelity | crates/liostunnel-core/src/net/local_stream.rs:79-125 | for all chunkings, closes and buffer sizes, what was read is a prefix of what was sent and the rest is still to come |
| LocalStream.EofMeansComplete | crates/liostunnel-core/src/net/local_stream.rs:79-125 | a reader that meets the end has everything |
| Wakeups.NoLostWakeup | crates/liostunnel-core/src/net/local_stream.rs:64-163 | in no interleaving is the loop asleep with no wake raised or on its way while there is a chunk, a free slot, an unseen close or a stop to act on |
| Wakeups.EveryMoment | crates/liostunnel-core/src/net/mod.rs:97-123 | what every step keeps: unseen work always has a wake raised or a task about to raise one |
| Wakeups.WakingBeforeClosingLosesTheClose | crates/liostunnel-core/src/net/local_stream.rs:64-77 | a drop that woke before it closed would leave the loop asleep over the close, from any quiet moment |
| Engine.Engine.Run | crates/liostunnel-core/src/engine.rs:169-193 | whatever the select chooses, every flow and datagram queued is spawned once and in order, the loop ends only with both channels closed and empty, and the state is the one the choices lead to |
| Engine.ClosedLoopDrainsExactlyWhen | crates/liostunnel-core/src/engine.rs:169-193 | from any state, once both channels are closed, a history ends the loop if and only if it has at least as many turns for each branch as the channel has items left and one more, in any order and among whatever else; and then everything queued is spawned, in order |
| Engine.ActiveFlowsExactWhen | crates/liostunnel-core/src/engine.rs:202-215 | active flows is the number of live tasks if and only if none was dropped before its first poll, never less; streams opened and failed are each counted once |
| Engine.HappenKeepsAccount | crates/liostunnel-core/src/engine.rs:293-316 | every event of a flow's task keeps the counters accounted for, and no decrement goes below zero |
| Flows.PermitsConserved | crates/liostunnel-core/src/protocols/shadowsocks.rs:800-871 | in every reachable state free and held permits make 64 and 8, failures counted are the failures there were, and active streams the open ones |
| Flows.HappenConserves | crates/liostunnel-core/src/protocols/shadowsocks.rs:800-871 | every event of a flow keeps the books, permits, failures and active streams |
| Flows.PermitsAreTakenExactlyWhen | crates/liostunnel-core/src/protocols/shadowsocks.rs:800-871 | while the books balance, a waiting flow can take a permit if and only if it is first in its own pool's line and that pool is not all held; and somebody in the line can if and only if it is not all held |
| Flows.DnsIsNeverStarvedByBulkTraffic | crates/liostunnel-core/src/protocols/shadowsocks.rs:103-118 | a waiting query can take a permit if and only if it is first in the queries' own line and fewer than 8 of them hold one; and while any query waits, one can if and only if fewer than 8 do, however many bulk flows there are |
| Flows.NobodyIsOvertaken | crates/liostunnel-core/src/protocols/shadowsocks.rs:103-118 | no event puts anybody ahead of a waiting flow: its place moves forward by one when someone ahead in its own line stops waiting, and is otherwise unchanged |
| Flows.NewFlowJoinsTheLine | crates/liostunnel-core/src/protocols/shadowsocks.rs:805-833 | a flow opened while connected joins the end of its pool's line and has a permit at once if and only if there is no line and one is free; opened while not connected it is over, holding and counting as nothing |
| Flows.PoolsAreIndependent | crates/liostunnel-core/src/protocols/shadowsocks.rs:747-771 | what a flow of one pool does leaves the other as it was |
| Shadowsocks.ProbeOnce | crates/liostunnel-core/src/protocols/shadowsocks.rs:504-535 | resolvers in order until one answers or a configuration error ends it; the decision is the one `DecisionIs` and `OutcomeMeans` characterise |
| Shadowsocks.DecisionIs | crates/liostunnel-core/src/protocols/shadowsocks.rs:516-534 | the loop's outcome is the first verdict not worth going on from, or the last |
| Shadowsocks.OutcomeMeans | crates/liostunnel-core/src/protocols/shadowsocks.rs:511-536 | it succeeds if and only if some resolver answers within its share and each before it was silent for its share or failed but for a configuration error; it is a configuration error in the like case; and with all passed over it is the last one's failure, silence being one |
| Shadowsocks.ProbeFitsItsBudget | crates/liostunnel-core/src/protocols/shadowsocks.rs:495-515 | however many are tried, their shares fit the probe's budget |
| Shadowsocks.ShadowsocksTunnel.Connect | crates/liostunnel-core/src/protocols/shadowsocks.rs:687-745 | connected if and only if prepared and the probe succeeds, holding exactly the new server, context and peer; failed, with nothing held, for the reason preparing or the probe gives |
| Shadowsocks.ShadowsocksTunnel.Probe | crates/liostunnel-core/src/protocols/shadowsocks.rs:444-449 | it succeeds, errs or times out as `OutcomeMeans` says of the shares that probe time gives each resolver, and never spends more than the probe time |
| Shadowsocks.ShadowsocksTunnel.Disconnect | crates/liostunnel-core/src/protocols/shadowsocks.rs:773-779 | nothing is retained |
| DnsPacket.BuildUdpPacket | crates/liostunnel-core/src/dns/mod.rs:149-208 | refused exactly for IPv6 or a payload over 65507 bytes; otherwise the bytes `ReceivedAsSent` is about, filled in place |
| DnsPacket.ReceivedAsSent | crates/liostunnel-core/src/dns/mod.rs:149-208 | a receiver by RFC 791 and RFC 768 accepts every such packet as whole, in time and with both checksums there and holding, and gets back addresses, ports and payload |
| DnsPacket.FoldIsRemainder | crates/liostunnel-core/src/dns/mod.rs:196-207 | folding carries computes the remainder modulo 65535, with zero only for zero |
| DnsPacket.ChecksumVerifies | crates/liostunnel-core/src/dns/mod.rs:196-207 | data with its complement in place sums to all ones, and a zero sent as all ones does too |
| DnsPacket.TruncateDnsReply | crates/liostunnel-core/src/dns/mod.rs:123-144 | the 12-byte header: id and flags kept, TC set, counts zero, short answers padded |
| DnsPacket.TcAlone | crates/liostunnel-core/src/dns/mod.rs:123-144 | setting TC changes that bit and no other |
| DnsPacket.OfferedMatchesTheQuery | crates/liostunnel-core/src/net/smoltcp_stack/core.rs:283-294 | whatever the answer and MTU, what the client gets has the answer's id and flags, TC exactly when it was cut, no records counted if it was, and fits |
| DnsPacket.StackCore.InjectDatagram | crates/liostunnel-core/src/net/smoltcp_stack/core.rs:283-302 | one packet the client's stack accepts, within the MTU, or one more datagram counted as dropped |
| TcpResolver.QueryOne | crates/liostunnel-core/src/dns/over_tcp.rs:87-135 | the server is sent exactly the framed query; the outcome is the one its side of the stream amounts to |
| TcpResolver.AnsweredExactlyWhen | crates/liostunnel-core/src/dns/over_tcp.rs:87-135 | an answer is accepted if and only if the server took the query and sent one whole message that is not empty |
| TcpResolver.FailureNamesItsCause | crates/liostunnel-core/src/dns/over_tcp.rs:87-135 | which failure is reported for which bytes and writes, both ways: a failed write, no length, a length of zero, or the beginning of a message cut short |
| TcpResolver.UnframeFrame | crates/liostunnel-core/src/dns/over_tcp.rs:97-125 | a framed message, whatever follows it, reads back with what follows |
| TcpResolver.FrameUnframe | crates/liostunnel-core/src/dns/over_tcp.rs:113-132 | what is read as a message was framed as it |
| TcpResolver.CutFrameIsNoMessage | crates/liostunnel-core/src/dns/over_tcp.rs:113-132 | a framed message cut short anywhere is never taken for an answer |
| TcpResolver.Query | crates/liostunnel-core/src/dns/over_tcp.rs:140-164 | an answer is the first server's in the list to give one, none that is late or out of reach, and no channel is opened to any after it; else the failure is the last server's, a timeout if it was late; no servers or an oversized query opens nothing |
| TcpResolver.Ask | crates/liostunnel-core/src/dns/over_tcp.rs:87-135 | one attempt opens one channel, to its server, and comes to what that server amounts to |
| TcpResolver.FirstAnswerIs | crates/liostunnel-core/src/dns/over_tcp.rs:149-163 | failover comes to the first answer in the list, or the last failure |

## Left out

- RouteSession.RunsThenRecovery: with an undo command that mattered turned down it promises no baseline, because `recover_if_stale` clears its record all the same; `RefusedReplayRestoresExactlyWhen` says what then comes back.
- RouteSession.Run: runs are serial and their pids fresh, since the code takes no lock and a recycled pid reads as its own record.
- RouteSession.RunToExit: a baseline with a route through the interface, or in default mode with a host route to the server, is excluded; the Linux host-route case is decided by `UnusedRecordIsHarmlessExactlyWhen`.
- RouteSession.Host.RecoverIfStale: whether the recorded pid is alive is a parameter, so `kill` and its errno are not modelled; a run that finds an unreadable record stops, as the code does, and the machine is at its baseline.
- HelperTunnel.DaemonLife: each request is a connect and its disconnect, since what clients say in between is in `Daemon`; once a record has been let go of away from the baseline it promises nothing of later moments, and `HelperRetry` says what is left and what the newest record recovers.
- Each command is atomic, and what `ip`, `route`, `cp`, `dd` and `networksetup` do is the model's assumption: adding an existing destination fails, a delete that names a hop removes only a route through it, the Linux pin's delete removes any, a copy needs its source.
- The interface's own connected route, which the kernel adds when the interface is given its address before any route is applied, is not in the table; so a listed prefix that is that very subnet, whose `add` would fail, is not told apart from any other.
- A prefix with host bits set names its network; that the platform's command may refuse such a prefix is not modelled.
- macOS resolver settings are one list for the one service the code names.
- Gateway detection, IPv6 detection, the text of commands and the JSON of records, requests and replies are not modelled; records and messages are values.
- Authorize.AuthorizeParams: reading and checking a secret file is one parameter per reference, and the parsing of profiles, prefixes and addresses another.
- Listener.Kernel.Bind: changing the socket's mode and owner is one step that may fail, and so are `bind` and `listen`; an unlink on the way out always succeeds; peer credentials and `accept` are not modelled, and pids are never reused.
- Daemon.Helper.Serve: clients' lines, ticks, start outcomes and how much can be written are parameters; the peer check and the stats' content are not modelled.
- Wakeups.NoLostWakeup: one stream and one shutdown handle against the loop; other streams, the loop's timed backstop, smoltcp's timers and its own buffering are not modelled, and the byte contents are in `LocalStream`.
- Engine.Engine.Run: a history is finite and says which branch the select takes; aborting the engine's own task, which only sets the stopped flag, is not modelled.
- Counters and permit counts are unbounded integers; the proofs show that they never go below zero, not that 64 bits suffice.
- CountingStream's byte counters, which add what each read or write returns, are left out as easy.
- Shadowsocks.ShadowsocksTunnel.Connect: preparing a session and opening a stream are parameters, the libraries behind them being opaque; clocks are numbers of units, and an attempt that ends exactly at its share counts as in time.
- Shadowsocks.ProbeOnce: a timeout is its own error here, though the code reports it as a configuration error on `auth`; what matters is that it does not end the loop.
- DnsPacket.BuildUdpPacket: how smoltcp lays out fields and sums words is taken from RFC 791, RFC 768 and RFC 1071, its source not being part of this model; the IPv4 source and destination are four bytes each.
- TcpResolver.Query: what a stream and a clock do is given per server; the length, the query and the flush are three writes that each succeed or fail whole.
- TCP through the stack, SSH, DNS over HTTPS, the crypto, the foreign-function layer and the user interfaces are left out.
- Text.DecodeTagInPlace: text is a sequence of Unicode scalar values, and `trim` uses the White_Space property as listed.
