# Nodogsplash: a verified model

Nodogsplash is a captive portal. It keeps a list of clients, moves each of them through four states
(preauthenticated, authenticated, blocked, trusted), and writes every access decision down in several
places: the client record, the MAC lists, the iptables chains, and the traffic-control classes. This
project models those stores and the operations on them, and proves that they agree in every state of
every run. It also models the byte-level algorithms of its web server: the path simplifier,
percent-encoding, base64 decoding and the template expander.

`dafny verify dfyconfig.toml` (Dafny 4.11) checks the whole project.

## The files

- `Iptables.dfy`: tables of chains of structured rules, the commands `-N -X -F -A -I -D` with the
  conditions under which the kernel accepts them, and an evaluator for packets.
- `Configuration.dfy`: the part of the configuration that the session code reads.
- `Session.dfy`: the state of the daemon as a value and each operation on it as a function.
- `Balance.dfy`: chains in which one kind of rule comes before another, one for one.
- `Mirror.dfy`: the invariant that rules, records and MAC lists agree, kept by each operation.
- `StateFile.dfy`: export and import over an abstract JSON value.
- `Runs.dfy`: runs, that is, any sequence of steps; what holds in every state they reach.
- `Identity.dfy`: which record an id stands for, in every run, imports included.
- `Expiry.dfy`: clients that the timeout check moves to blocked.
- `Records.dfy`: what each operation leaves in the records and the MAC lists.
- `Sweeps.dfy`: the timeout check and the shutdown, which change the list while walking it.
- `Marking.dfy`: the mark that a packet leaves mangle PREROUTING with.
- `FilterPolicy.dfy`: the configured rule sets compiled into ndsNET and ndsRTR.
- `Hooks.dfy`: what the built-in chains do to every packet, in every run.
- `ClientList.dfy`: the linked list on the heap.
- `Gateway.dfy`: the daemon as an object with mutable fields over that list; each method is proved
  equal to a function of `Session.dfy` or `StateFile.dfy`.
- `Lifecycle.dfy`: setting the firewall up and taking it down.
- `Recovery.dfy`: a crash during the set-up, and the destruction at the next start.
- `TrafficControl.dfy`: tc classes, filters and queueing disciplines of clients.
- `Shaping.dfy`: traffic control over whole runs.
- `Locking.dfy`: the two mutexes and threads that use them.
- `PathSimplify.dfy`, `UrlCodec.dfy`, `Base64.dfy`, `Template.dfy`: the byte-level algorithms.

## Conventions

- Marks and connection states are 32-bit words; other integers are unbounded unless a conversion of the
  source matters (the numbers in the state file, the word of the base64 decoder).
- A rule holds a MAC address in lower case, because the kernel compares bytes; the MAC lists keep the
  spelling they were given.
- Time, random tokens, counters read from listings, and whether a text is a valid MAC or IP address are
  parameters. One step reads the clock once.
- A command that the kernel refuses changes nothing. `auth_change_state` ignores return codes
  (src/auth.c:84, src/auth.c:95); the invariant shows that in every run its commands are accepted.
- Lemmas carry `{:induction false}`: their proofs are written out and do not rest on automatic induction.
- Each step of a run is atomic. This simplifies the source in two places: `authenticate_client` writes
  the session fields after the client-list lock is released (src/http_microhttpd.c:455-475), and the MAC
  commands take only the configuration lock (src/auth.c:308-417), so that in the source one of them can
  come between two iterations of a timeout check.

## Where the code and its documentation differ

- src/path.c:36 says "/" is prepended to a path that lacks it. The loop does not do that.
  `PathSimplify.RelativeExact` says for which relative paths the result is still the documented one.
- src/http_microhttpd_utils.c:25-27 says `blen` is the size of the buffer. The decoder also writes a
  terminator at `buf[len]`, behind the buffer when it is full; `UrlCodec.UrlDecode` says exactly when.
- src/state_file.c:202 says 0 means success. An array entry that is not an object ends the import with
  result 0 if a client was imported before it (`StateFile.StaleResult`).
- After an import the id counter no longer bounds the ids (src/state_file.c:176), so a later client can
  repeat an id (`Runs.ImportedIdRepeats`; exactly when: `Identity.IdsAfterStartup`). A request for the
  authentication page then authenticates the imported record and not the client that sent the token
  (`Identity.WrongRecordExample`; exactly when: `Identity.HttpAuthExactly`). The timeout check and the
  shutdown are not affected, because an authenticated record is always the first with its id
  (`Identity.RunFirst`).
- The MAC lists are searched without regard to case when changed (src/conf.c:1170), and with regard to
  case when queried (src/conf.c:1102): `Expiry.ExpiryBlocksExactly`.
- With `--or-mark` and the default marks, "blocked and trusted" reads as "authenticated":
  `Marking.OrMarkDefaults`.

## Model

| member | source | states |
|---|---|---|
| `Runs.EveryRunAgrees` | src/auth.c:76-136 | In every state of every run (add, HTTP and ndsctl authentication, deauthentication, MAC commands, counters, timeout check, shutdown, import), ndsOUT and ndsINC hold exactly the multiset of rules of the authenticated records, ndsTRU and ndsBLK exactly those of the MAC lists, the lists have no duplicates, pairs are distinct, the list is within capacity, and ndsINC marks for an address before it accepts for it |
| `Runs.RunAgrees` | src/fw_iptables.c:817-885 | The same from any state that agrees, not only from the initial one |
| `Mirror.ChangeStateKeeps` | src/auth.c:76-136 | Every change of state keeps records, rules and lists in agreement, also when two clients share an address |
| `Mirror.AddMacKeeps` | src/conf.c:1149-1183 | Adding to a list adds one rule to its chain; under the allow mechanism the catch-all blocked mark stays last |
| `Mirror.RemoveMacKeeps` | src/conf.c:1189-1230 | Removing from a list removes the rule of that entry and no other, whatever the spelling given |
| `Mirror.AddClientKeeps` | src/client_list.c:118-224 | A new record is never authenticated, repeats no pair and respects the capacity |
| `Mirror.SweepKeeps` | src/auth.c:142-206 | The timeout check keeps the agreement at every point of its walk |
| `StateFile.StartupKeeps` | src/main.c:318-334 | The import keeps the agreement, and so does the reset after an import that fails |
| `Runs.RunIds` | src/client_list.c:118-172 | Without an import, ids stay distinct, nonzero and below the counter, and an id never comes to stand for another pair |
| `Runs.DeauthHitsTheClient` | src/ndsctl_thread.c:322-350 | The control command that drops the lock between lookup and action fails or acts on the record it looked up, whatever run happens in between |
| `Identity.IdsAfterStartup` | src/client_list.c:157-168 | Whatever file is loaded at startup, ids are distinct in every state of the run that follows if and only if the counter never hands out the id of a record listed at that moment |
| `Identity.FarIdsNeverClash` | src/state_file.c:170-176 | So it is when every listed id has been handed out already or lies beyond all that the run can hand out |
| `Identity.LowIdsNeverClash` | src/client_list.c:157-168 | With all listed ids below the counter, ids stay distinct in every run that follows |
| `Identity.HighIdClashes` | src/state_file.c:170-176 | With a listed id not below the counter, and newcomers and room enough, there is a run in which ids repeat |
| `Runs.ImportedIdRepeats` | src/state_file.c:170-176 | An imported record with the id after the next one, then a new client: two records with one id |
| `Identity.HttpAuthExactly` | src/http_microhttpd.c:434-475 | The request authenticates exactly the first record with the id of the pair's record; the pair's record itself if and only if it is preauthenticated, the token is its own and no earlier record has its id; always on those terms while ids are distinct |
| `Identity.NdsctlAuthExactly` | src/ndsctl_thread.c:300-310 | The control command authenticates the record it finds if and only if that is preauthenticated, its id is not 0 and no earlier record has the id |
| `Records.HttpAuthRecord` | src/http_microhttpd.c:455-475 | With distinct ids the record of an admitted request ends with the upload and download limits of the request, its session from now for the given seconds, or without end for 0; nothing else about it and no other record changes, and the authentication is counted |
| `Records.SessionEndsOnTime` | src/http_microhttpd.c:470-475 | That session is over exactly from its end on |
| `Records.DeauthRecord` | src/client_list.c:177-197 | A deauthenticated record has no session, zero counters and the new token; its limits, everything else and every other record stay |
| `Records.StartStateExactly` | src/client_list.c:147-155 | When a new record starts blocked, trusted or preauthenticated, under both mechanisms |
| `Records.AddClientExactly` | src/client_list.c:199-224 | A client is added if and only if MAC and address are valid, the pair is new and there is room; the result is the record of the pair |
| `Records.ByAnyExactly` | src/client_list.c:232-250 | The lookup finds a record if and only if one has the token, the address or the MAC, in this precedence and the first of each |
| `Records.AddMacExactly` | src/conf.c:996-1025 | A list gets an address if and only if it is valid, the list is in use and no spelling of it is there; no other list, entry or record changes |
| `Records.RemoveMacExactly` | src/conf.c:1031-1066 | Every spelling of the address goes, and no other entry |
| `Identity.WrongRecordExample` | src/auth.c:274-294 | A startup import of one preauthenticated record, a new client with its id, and that client's token: the imported record is authenticated and the client is not |
| `Identity.NdsctlDeauthExactly` | src/ndsctl_thread.c:322-350 | With nothing between lookup and action, the control command deauthenticates the record it finds if and only if that is authenticated and its id is not 0; otherwise it deauthenticates, and reports success for, exactly an authenticated first record with the id, if there is one |
| `Identity.WrongDeauthExample` | src/ndsctl_thread.c:331-341 | An imported authenticated record and a new client with its id: the command for the new client's address ends the other session |
| `Identity.DeauthFindsTheRecord` | src/auth.c:244-265 | Deauthentication by the id of an authenticated record hits that record and succeeds, also when ids repeat |
| `Identity.RunFirst` | src/auth.c:279-288 | In every run, imports included, an authenticated record is the first one with its id, the one that a lookup by id finds |
| `Identity.NoExpiredInEveryRun` | src/auth.c:170-180 | After any run, imports included, the timeout check leaves no authenticated client past the end of its session |
| `Identity.ShutdownClearsInEveryRun` | src/auth.c:419-438 | After any run, imports included, the shutdown leaves no client authenticated and both access chains empty |
| `Runs.FinalRecordsStay` | src/auth.c:108-131 | A blocked or trusted record keeps its state and stays on the list through every run without a flush |
| `Expiry.RefreshBlocks` | src/auth.c:170-184 | The timeout check adds to the blocked list exactly the addresses of the clients it moves to blocked, in list order, as if added one by one |
| `Expiry.ExpiryBlocksExactly` | src/auth.c:98-104 | After the timeout check a new record of an address starts blocked if and only if the list held that spelling, or no spelling of it and the check put this one there |
| `Expiry.OneSpelling` | src/conf.c:1093-1109 | With one spelling of the address in use that is so for every client that goes |
| `Expiry.SpellingExample` | src/conf.c:1166-1174 | A client whose upper-case address is on the list in lower case starts unblocked again after the check |
| `Expiry.SpellingRun` | src/conf.c:1149-1183 | The run that gets there from the initial state: the client comes in, authenticates for one second and is moved to blocked |
| `Expiry.ExpiredStayOut` | src/client_list.c:147-155 | In every run, a client that the timeout check moves to blocked leaves the list; until its address is unblocked, through every further run, imports included, a new record of the address starts blocked, a record of it that is not blocked was on the list right after the check, and every record of the client's own pair is blocked |
| `Expiry.ExpiryUnderAllow` | src/auth.c:98-104 | Under the allow mechanism, in every run, a client moved to blocked leaves the list and nothing else changes: a new record of any address starts as before |
| `Sweeps.SweepIsFold` | src/auth.c:157-205 | The loop that looks records up by id and deletes from the live list is a fold over the list as it was, also with repeated ids |
| `Sweeps.SweepVisitsEachOnce` | src/auth.c:159-204 | With distinct ids each record is visited exactly once, in order, and by the first of the four cases that applies |
| `Records.RefreshExactly` | src/auth.c:166-203 | With distinct ids, from the record and the configuration alone: a preauthenticated record goes if and only if it was idle for the configured minutes and neither its session is over nor its volume used up; an authenticated one goes to blocked if and only if its session is over and that is configured, or it is not over and the incoming volume is above the limit; else it is deauthenticated if and only if its session is over or it was idle for the configured minutes, and stays unchanged otherwise; blocked and trusted records stay unchanged |
| `Records.ExpelledExactly` | src/auth.c:170-184 | The clients moved to blocked, by session end and incoming volume |
| `Sweeps.NoExpiredSurvivorExactly` | src/auth.c:162-180 | From any list, no authenticated client past its end survives the check if and only if none of them has an earlier record with its id that stays; so it is whenever authenticated records come first with their id |
| `Sweeps.DeauthAllClears` | src/auth.c:419-438 | From any state in which authenticated records come first with their id, the shutdown leaves none authenticated and both access chains empty |
| `Marking.PacketMark` | src/fw_iptables.c:447-452 | Every packet from the client network leaves the three hook rules with the mark that its record and the MAC lists call for |
| `Marking.AuthenticatedExactly` | src/fw_iptables.c:839-843 | A packet that is neither blocked nor trusted gets the authenticated mark if and only if an authenticated record has its address and MAC, with either mark operation |
| `Marking.BlkMarks` | src/fw_iptables.c:453-475 | ndsBLK marks a packet as blocked if and only if its MAC is blocked, or, under the allow mechanism, is not allowed |
| `Marking.OneChain` | src/fw_iptables.c:306-340 | When at most one marking chain applies, the packet gets that chain's mark with either operation |
| `Marking.SetMarkPrecedence` | src/fw_iptables.c:142-165 | With --set-mark, trusted beats blocked and blocked beats authenticated |
| `Marking.OrMarkDefaults` | src/conf.h:80-82 | With --or-mark and the default marks, authenticated is read if and only if the packet is authenticated, or blocked and trusted |
| `FilterPolicy.CompiledEval` | src/fw_iptables.c:222-304 | A compiled rule set decides by the first rule in file order that applies and decides; logging rules never decide |
| `FilterPolicy.RulesExactly` | src/fw_iptables.c:229-247 | A rule set accepts, drops or rejects a packet if and only if the first rule in file order that applies and decides says allow, drop or block, and rejects when there is none |
| `FilterPolicy.CompiledRule` | src/fw_iptables.c:249-283 | Every configured rule, logging ones included, becomes one rule in its place that matches exactly the packets it applies to |
| `FilterPolicy.ForeignBits` | src/fw_iptables.c:152-163 | With masking, bits outside the three marks do not change the class of a packet; without, the class needs the whole mark |
| `FilterPolicy.MssExactly` | src/fw_iptables.c:603-613 | The maximum segment size is set if and only if configured, to the configured value or the path's own |
| `FilterPolicy.NetCompiles` | src/fw_iptables.c:597-668 | For every configuration and packet, ndsNET gives the declarative policy: blocked dropped, then by class the first rule with reject by default, or the policy for an empty set |
| `FilterPolicy.RtrCompiles` | src/fw_iptables.c:544-596 | The same for ndsRTR and access to the router |
| `Lifecycle.AccessInEveryRun` | src/fw_iptables.c:361-681 | After set-up and any run, for every packet: the mark is the one its record and the lists call for, and with that mark ndsNET and ndsRTR decide as the policies do; for an unmarked packet, with --set-mark or when at most one chain applies, that is the policy for the class (trusted, blocked, authenticated or none) read off the record and the lists |
| `Hooks.HooksDecide` | src/fw_iptables.c:544-598 | FORWARD, INPUT and nat PREROUTING: for packets from the client network the access to the Internet, to the router, and the redirection, and where these decide nothing the rules from before; for all other packets exactly the rules from before |
| `Hooks.NatCompiles` | src/fw_iptables.c:500-517 | Trusted and authenticated clients pass; for the others the preauthenticated rules, then web requests go to the gateway, and all else is accepted |
| `Hooks.PreroutingMarks` | src/fw_iptables.c:447-450 | mangle PREROUTING: packets from the client network get the mark that record and lists call for, then the rules from before; all others only those |
| `Hooks.PostroutingCounts` | src/fw_iptables.c:839-843 | mangle POSTROUTING: a packet to the client network is marked and accepted if and only if an authenticated record has its destination; everything else meets the rules from before |
| `Hooks.EveryRunLive` | src/fw_iptables.c:361-681 | These hold in every state of every run after the set-up |
| `Lifecycle.Firewall.Init` | src/fw_iptables.c:361-681 | Issues exactly the commands of the set-up, in order, test rules included, with their effect on the tables; the result is 0 if and only if the marks are distinct and nonzero; the tables then hold exactly the daemon's chains with their contents and the hooks in front of the old rules; in any case the destruction can undo it |
| `Lifecycle.Firewall.DestroyMention` | src/fw_iptables.c:759-813 | Terminates, and leaves exactly the rules of the chain whose listing does not mention the word, in order |
| `Lifecycle.Firewall.DropChains` | src/fw_iptables.c:711-750 | The -F and -X commands take away exactly the daemon's chains of a table, and every -X hits an empty chain that no rule refers to |
| `Lifecycle.Firewall.Destroy` | src/fw_iptables.c:687-757 | From the old tables with any of the daemon's chains and any rules in the hooks: the chains go, and the hooks keep in order exactly the rules whose listing mentions none of the chains sought in them |
| `Lifecycle.OverDestroyed` | src/fw_iptables.c:703-748 | With only jumps to those chains at the head of the hooks, that is the old tables |
| `Recovery.BuildSafe` | src/fw_iptables.c:431-668 | After each command of the set-up behind its test rules, the old tables have only the daemon's chains and jumps at the head of the hooks on top |
| `Recovery.CrashRecovery` | src/main.c:307-308 | For every n: after the first n commands of the set-up the destruction at the next start gives the old tables back if and only if n does not fall between the insertion and the deletion of one of the two test rules |
| `Recovery.TestStays` | src/fw_iptables.c:147-157 | Otherwise the destruction leaves the test rule at the head of its chain, and everything else as it was |
| `Lifecycle.Firewall.Lifetime` | src/main.c:308-357 | Set-up, any run, destruction: the tables end as they began |
| `Lifecycle.ChainsStay` | src/fw_iptables.c:544-668 | Through every run the filter chains and the hooks stay as set up |
| `Lifecycle.Reinitialised` | src/main.c:320-331 | Destroying and setting up again after a failed import empties the access chains and refills the MAC chains from the current lists |
| `StateFile.FillRoundTrip` | src/state_file.c:21-56 | Every field of an exported record comes back, through all the conversions of width and sign |
| `StateFile.ImportExactly` | src/state_file.c:141-275 | Export, then import into an empty list, whatever the MAC lists are by then: the same records in order and field for field, each authenticated if it was and a new record would start preauthenticated, else in the state a new record starts in, and exactly the access rules of the authenticated ones |
| `StateFile.RestoredExactly` | src/client_list.c:147-155 | The list comes back unchanged if and only if the recorded states agree with the MAC lists |
| `StateFile.RoundTrip` | src/state_file.c:21-101 | So for records that agree with the MAC lists the import undoes the export |
| `StateFile.StaleResult` | src/state_file.c:247-274 | An entry that is not an object ends the import with the state reached before it; when all entries before it were good, the result is 0 if and only if there were any |
| `StateFile.StaleExample` | src/state_file.c:250-259 | One good record and a number after it: reported as read in full |
| `Records.ImportClientExactly` | src/state_file.c:141-197 | An entry is imported if and only if every member is there with its type, neither pair nor id is on the list, MAC and address are valid, and there is room |
| `Records.ImportRefuses` | src/state_file.c:205-245 | A file that is missing, unreadable, unparsable or of another version, name or shape changes nothing, with its own result |
| `ClientList.List.Find` | src/client_list.c:252-287 | Gives the first record in list order with the property, or null if and only if there is none |
| `ClientList.List.FindByAny` | src/client_list.c:232-250 | By token, then address, then MAC, the first record of the first kind found |
| `ClientList.List.Append` | src/client_list.c:118-172 | The record goes to the end of the links, every other node keeps its place, and the id counter moves on |
| `ClientList.List.Delete` | src/client_list.c:380-412 | Exactly that record leaves the list; the order and all other nodes stay |
| `ClientList.List.Flush` | src/client_list.c:88-106 | The list is empty afterwards; the id counter starts again at 1, except that an empty list keeps it |
| `Gateway.Daemon.AddMac` | src/auth.c:308-417 | The object after the command equals the function on its value, with the same result |
| `Gateway.Daemon.RemoveMac` | src/conf.c:1031-1066 | The same for removal |
| `Gateway.Daemon.AddClient` | src/client_list.c:199-224 | The same for adding a client |
| `Gateway.Daemon.ChangeState` | src/auth.c:76-136 | The same for every change of state |
| `Gateway.Daemon.AuthById` | src/auth.c:274-306 | The same for authentication by id, with the count of authentications |
| `Gateway.Daemon.DeauthById` | src/auth.c:244-265 | The same for deauthentication by id |
| `Gateway.Daemon.NdsctlAuth` | src/ndsctl_thread.c:291-320 | The object after the command equals the function: lookup by token, address or MAC, then authentication by the id found, none for id 0 |
| `Gateway.Daemon.HttpAuth` | src/http_microhttpd.c:434-482 | The object after the request equals the function: authentication by the id of the pair's record, whose session and limits are then set |
| `Gateway.Daemon.CountersUpdate` | src/fw_iptables.c:964-1060 | Each line of the two listings goes to the first record with that address, and only upwards |
| `Records.CountersExactly` | src/fw_iptables.c:1008-1050 | The first record with an address ends, per direction, with the maximum of its old value and the lines of the address, and counts as active if what it sent grew; every other record is unchanged |
| `Gateway.Daemon.Refresh` | src/auth.c:142-206 | The walk over the nodes, with the successor taken before each visit, equals the sweep by index |
| `Gateway.Daemon.DeauthAll` | src/auth.c:419-438 | The walk equals the recursive function |
| `Gateway.Daemon.ExportClients` | src/state_file.c:73-83 | Builds the exported list in order |
| `Gateway.Daemon.ImportClient` | src/state_file.c:141-197 | Equals the import of one entry, with every early exit |
| `Gateway.Daemon.ImportClients` | src/state_file.c:246-274 | Equals the import of the array, with the stale result |
| `Gateway.Daemon.Startup` | src/main.c:318-334 | The startup equals the function: the import and, when it fails, the renewed chains and the flushed list with its counter |
| `TrafficControl.TouchesNothingElse` | src/tc.c:43-125 | Whatever the device holds and whether or not commands succeed, a client's commands leave other clients and the classes 1:1 and 1:2 alone |
| `TrafficControl.AttachAdds` | src/tc.c:52-74 | On a device without the client, every command of attaching succeeds and adds exactly its classes, filters and disciplines |
| `TrafficControl.DetachRemoves` | src/tc.c:102-119 | Every command of detaching succeeds, children before parents, and what remains is the device without the client |
| `TrafficControl.ShapedExactly` | src/fw_iptables.c:833-847 | A direction is shaped if and only if the configuration limits it, whatever the client's limits, and then detaching acts on it |
| `TrafficControl.LimitExactly` | src/tc.c:48-49 | A client with both limits gets the smaller of its own and the configured one per direction, any other client the configured one |
| `TrafficControl.ClassesExactly` | src/tc.c:53-66 | Parent, guarantee and ceiling of the three classes of a client |
| `TrafficControl.FiltersExactly` | src/tc.c:59-74 | ICMP and DNS traffic of the client goes to the first leaf class, the rest to the second, no other address to either, and each leaf has its own discipline |
| `TrafficControl.DetachUndoes` | src/fw_iptables.c:869-882 | Detaching undoes attaching for all limits of the client then and now |
| `TrafficControl.RunMirrors` | src/fw_iptables.c:817-885 | After every sequence of arrivals and departures a limited device holds exactly what it held at first and what belongs to the clients now attached |
| `Shaping.ShapedInEveryRun` | src/auth.c:76-136 | In every run, imports included, short of one that fails and resets everything: a limited device holds what it held at first and the classes, filters and disciplines of exactly the authenticated records, by id and address, each with a positive limit not above the configured one; nothing attached is attached again, and nothing else detached |
| `Shaping.RequestLimitsComeLate` | src/http_microhttpd.c:455-468 | What a request for the authentication page does to the devices does not depend on the limits it brings: it attaches with those the record had before |
| `Shaping.LimitsOfTheNextSession` | src/fw_iptables.c:833-847 | The limits of a request are those of the client's next arrival on the devices, each in its direction, after any run without an import or another request of its own |
| `Shaping.FirstSessionLimits` | src/fw_iptables.c:833-836 | A record without limits of its own is attached with the configured ones |
| `TrafficControl.RunUnlimited` | src/tc.c:48-52 | In a direction without a limit nothing ever changes, though detaching may issue commands |
| `TrafficControl.Shaper.AttachClient` | src/tc.c:43-98 | The commands of both directions take effect in order, and the result is 0 if and only if all succeed |
| `TrafficControl.Shaper.DetachClient` | src/tc.c:100-125 | The counting-down loops do the deletions in order, with the same result rule |
| `TrafficControl.Shaper.Authenticate` | src/fw_iptables.c:833-847 | Without traffic control nothing changes; with it the commands of both directions take effect in order, whatever the device names, with 0 if and only if all succeed; two devices of different names each get the client |
| `TrafficControl.Shaper.Deauthenticate` | src/fw_iptables.c:869-882 | The same for taking the client off |
| `Locking.OperationsDisciplined` | src/auth.c:151-205 | From every state every operation takes the client list only when holding nothing, the configuration alone or inside it, retakes neither, and ends without a lock |
| `Locking.SweepNeutral` | src/auth.c:157-205 | The timeout check, over any list, takes and gives back only the configuration lock inside the client-list lock |
| `Locking.ChangeLocksExactly` | src/auth.c:76-136 | A change of state takes the configuration lock if and only if it happens, and changes nothing otherwise |
| `Locking.LocksCoverChanges` | src/auth.c:240-438 | Every step other than the startup import that changes the client list takes the client-list lock, and every one that changes a rule or a MAC list takes the configuration lock |
| `Locking.SomebodyCanGoOn` | src/client_list.h:99-109 | In every system of threads within the discipline some thread can go on unless all are finished |
| `Locking.NoDeadlock` | src/conf.h:243-253 | For any number of threads, operations and states, and any interleaving: no lock has two holders, some thread can go on unless all are finished, and interleavings have a fixed length |
| `PathSimplify.Simplify` | src/path.c:58-147 | In place or not, the result is the token-by-token text of the trimmed source, the normalised path if that is absolute, never longer than the source, and no cell behind it changes |
| `PathSimplify.Refines` | src/path.c:100-146 | On absolute paths the loop computes remove_dot_segments (section 5.2.4 of RFC 3986) of the collapsed path |
| `PathSimplify.NormalForm` | src/path.c:37-41 | Every result is a sequence of proper components with perhaps a "/" at the end |
| `PathSimplify.TrimmedExactly` | src/path.c:89-98 | What is skipped up front: all leading spaces and the dots of a first segment "." or ".." |
| `PathSimplify.Idempotent` | src/path.c:84-146 | Simplifying twice is simplifying once |
| `PathSimplify.RelativeExact` | src/path.c:36-36 | For a relative path the result is the documented one if and only if a later ".." takes the first segment off again |
| `PathSimplify.RelativeExample` | src/path.c:119-143 | "ab/c" does not give "/ab/c" |
| `UrlCodec.Decodes` | src/http_microhttpd_utils.c:25-76 | Decoding undoes encoding for every byte string |
| `UrlCodec.RoundTrip` | src/http_microhttpd_utils.c:35-46 | Encoded text decodes to its bytes whatever follows it |
| `UrlCodec.CanonicalExactly` | src/http_microhttpd_utils.c:61-70 | A text is an encoding if and only if it consists of unreserved characters and lower-case triples of other bytes (sections 2.1 and 2.3 of RFC 3986) |
| `UrlCodec.ItselfExactly` | src/http_microhttpd_utils.c:62-64 | A byte stands for itself if and only if it is a letter, a digit, "-", "_", "." or "~" |
| `UrlCodec.TripleExactly` | src/http_microhttpd_utils.c:41-44 | A triple is read if and only if it has two hexadecimal digits, of either case, with their value |
| `UrlCodec.ReadableIsLongest` | src/http_microhttpd_utils.c:41-42 | What is readable before a malformed triple is what the longest well-formed beginning decodes to |
| `UrlCodec.UrlEncode` | src/http_microhttpd_utils.c:52-76 | Succeeds if and only if the encoding fits into `blen` cells, and writes exactly it |
| `UrlCodec.UrlDecode` | src/http_microhttpd_utils.c:25-50 | Gives a length if and only if the text is well formed and its bytes fit, -2 if and only if a malformed triple comes before the buffer is full, and says when the terminator falls on cell `blen` |
| `Base64.GroupsIndependent` | src/http_microhttpd_utils.c:103-115 | Nothing leaks from one group into the next through the word that is never cleared |
| `Base64.EncodeDecodes` | src/http_microhttpd_utils.c:78-119 | Decoding the canonical encoding (section 4 of RFC 4648) of any bytes gives them back, zero-padded to a multiple of three |
| `Base64.Alphabet` | src/http_microhttpd_utils.c:89-101 | The alphabet and the padding of RFC 4648 |
| `Base64.Canonical` | src/http_microhttpd_utils.c:86-118 | The same for the bounded decoder, whatever character it reads beyond the text, and the whole groups that fit when the buffer is short |
| `Base64.Decode` | src/http_microhttpd_utils.c:78-119 | For every text and buffer: all bytes of the groups that fit and a terminator, which the result counts; nothing else changes |
| `Template.ExpandConcat` | src/template.c:23-26 | Texts expand independently wherever the cut does not go through a name |
| `Template.Substituted` | src/template.c:43-83 | A variable anywhere becomes its value, or its bare name when too long or unknown, and the value is not expanded again |
| `Template.NamesExactly` | src/template.c:47-55 | A name has letters, digits and "_", and is replaced up to 31 of them |
| `Template.DollarsFromValues` | src/template.c:37-50 | A "$" in the result can only come from a value |
| `Template.ExpandIdempotent` | src/template.c:27-87 | Expanding twice is expanding once for tables whose values hold no "$" |
| `Template.GetVariableValue` | src/template.c:8-21 | The loop finds the value of the first variable with the name |
| `Template.Parse` | src/template.c:27-87 | Writes exactly the first `dst_len` characters of the expansion, zero-padded, and nothing outside, for every text, table and length |

## Left out

- HTTP serving, MIME types, redirects, sockets, the ndsctl client, printing, logging, command line, daemonising, signals and memory allocation: input and output or library plumbing.
- Parsing of the configuration file, except for what its result means for the chains.
- JSON text: the state file is an abstract value, with json-c's conversions of numbers.
- Return codes of iptables, retries, version checks and the truncation of long commands: a command is an operation on the tables.
- IPv6 mode, and that the kernel sends only the first packet of a connection through the nat table.
- Overflow of the client id, of session times and of the limits in kB: these integers are unbounded here.
- The scan of a MAC address accepts short groups and trailing text; here validity is a parameter and a rule holds the whole text in lower case.
- Random tokens and the results of the binauth script are arbitrary values; the script itself is not modelled.
- Races on client fields outside the lock: steps are atomic.
- Signal handlers: the termination handler may run in a thread that holds a lock; it is not among the operations of `Locking.dfy`, only what it calls.
- Shaping.Log: gives the arrivals and departures of each step next to the functions of `Session.dfy`; an import that fails, after which the source sets the devices up anew, is left out.
- Locking.Locks: gives the lock operations of each call as a trace next to the functions of `Session.dfy`; the methods of `Gateway.dfy` do not carry the locks.
- Lifecycle.SetUpCommands: lists the commands chain by chain, where the source goes back and forth between some of its own filter chains; and only those test rules that the kernel accepts.
- Hooks.NatCompiles: takes block rules in the nat chain as the kernel takes them in the filter table, where it refuses REJECT in the nat table.
- Lifecycle.Firewall.Init: takes every rule of the preauthenticated set into the nat chain, where the kernel refuses REJECT and the source then returns an error; and says nothing about the contents of the chains when the marks are invalid, where the source leaves the mask unset.
- Lifecycle.Firewall.Lifetime: does not include traffic control, whose set-up and removal of root disciplines is not modelled; `TrafficControl.dfy` starts from a device that has the class 1:1.
- TrafficControl.Exec: takes minor numbers and priorities without bound, where tc reads them as 16-bit numbers.
- StateFile.ImportExactly: asks for distinct ids and pairs, capacity, valid addresses and representable fields; other files are covered by `StateFile.StartupKeeps`.
- Expiry.ExpiredStayOut: says nothing about the state of records that the same MAC address already had at other addresses when the check ended, because the source leaves those as they are.
