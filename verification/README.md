# Verified models of the honeypot's state machines, protocols and parsers

The hard parts of Cowrie as a Dafny project: `dafny verify dfyconfig.toml` checks all of it.
Code that changes state is modelled as classes and loops that are proved equal, step by step,
to functions on values; what the code promises over whole runs is proved about those functions.

- **Backend pool** (`GuestPool`, `PoolSystem`, `PoolLoop`, `PoolRuns`, `PoolService`, `NatService`,
  `PoolServer`, `PoolWire`, `NetworkTable`). The pool of virtual machines with its producer
  passes and consumers, the NAT bindings that keep a parallel count, and the server that steps
  both. Each message and each producer loop is one atomic step; which guests boot, answer or can
  be destroyed, the clock and the ports the system picks are parameters of the step. Addresses
  and ids are right in every run whatever the clients do, and so are the counts of bindings,
  exactly as long as no request meets a closed listener (`BindingsAgreeIff`). The counts of
  guests are right in every run whose clients give back each grant once and in which no id is
  handed out while in use; ids start again after 251, and `FreshOfThemselvesIff` shows that 252
  creations are the exact bound up to which the second condition holds of itself. The wire
  format is proved from client to server and back.
- **TFTP client** (`Tftp`). The client of RFC 1350 with a lock-step sender and a network that
  loses, duplicates and reorders. Every DATA packet k carries block k of the file, as the
  client does not check the sender's address. Block numbers do not wrap in the client, so files
  of more than 65535 blocks never succeed; this is proved as an equivalence. So is which
  datagrams make a transfer hang, and for which first senders it can succeed: ACKs go to
  whoever is heard first.
- **Response cache** (`ResponseCache`, `OrderedDict`). TTL and LRU cache against the history of
  its changes, and the comparison of two capacities. Hits never fall with capacity also when
  entries expire, although a larger cache may hold older entries.
- **Rate limiter** (`RateLimiter`, `RateRuns`). The sliding window against the history of all grants, and
  the limit on keys, which holds if and only if it is at least 19 (`LimitHoldsIff` has the other
  configurations too). The promised rate is kept for as many keys as the tracker may hold, and
  for no more (`RateHoldsIff`).
- **AbuseIPDB log book** (`AbuseIpdb`). Reports against the history of logins, for any
  tolerance, across clean-ups and sleeps that may overlap. Which logins are
  reported is exact against the whole history (`WhichLoginsReport`). Reports of one address keep their
  distance in every run with one sleep at a time. For any run there is the exact condition,
  event by event (`NextKeepsSpacingIff`, `RunKeepsSpacingIff`); it depends on the book and on
  the last reports, and two runs of overlapping sleeps break the distance in different ways.
  Which call `recall` refers to is part of the state: a sleep that begins during another finds
  it cancelled, raises, and cleans nothing.
  Also exact: when a clean-up forgets logins.
- **Discord queue** (`DiscordQueue`). The queue with one send at a time, its retries and timers:
  exactly which outcomes finish an event (`FinishedIff`);
  neither a write nor an older timer waits for the delay of a newer one (`WriteStartsIff`,
  `FiredSendsIff`).
- **Fast forms and parsers** (`Tail`, `TtyLog`, `ClientHello`, `Ja4`, `Fingerprint`). The
  backwards block scan of `tail`; the tty log's writer and reader; the ClientHello parser
  against section 4.1.2 and 4.2 of RFC 8446 and section 3.1 of RFC 7301; the JA4 fingerprint,
  alone and from the bytes on the wire.
- **CNAME resolution** (`Cname`). The recursive search over DNS as a finite map, with cycles.

Where documentation and code disagree the model follows the code. The life cycle of a guest in
the comment of `PoolService` (src/backend_pool/pool_service.py:72-80) only moves forward; by lines
450, 463-464 and 473-476 it goes back exactly in the steps of `LifeGoesBackIff`, and a guest that
was given up is served again exactly when its last client frees or reuses it
(`GivenUpReturnsIff`, with a run in `GivenUpIsServedAgain`). The limiter's documentation promises at
most max_requests per key and window (src/cowrie/core/rate_limiter.py:28); evictions break this
exactly when more keys are asked for than it holds. And `tail` with n = 0 returns all it has read
(`Tail.Tail`).

## Model

| member | source | states |
|---|---|---|
| PoolRuns.EveryRunPlaced | src/backend_pool/pool_server.py:52-186 | in every state of every run, also after double frees, with ids given out again and after a stop: ids are creation numbers modulo 252, guests stand in the order of creation, and addresses are distinct |
| PoolRuns.AtMost253 | src/backend_pool/pool_service.py:342-372 | in every state of every run the addresses are pairwise distinct and there are at most 253 guests |
| PoolRuns.IdsDistinctWithin252 | src/backend_pool/pool_service.py:368-372 | in every state of every run two guests share an id if and only if their creation numbers are congruent modulo 252, so never when fewer than 252 creations apart |
| PoolRuns.EveryRunHasStates | src/backend_pool/pool_service.py:449-477 | in every state of every run each guest has a state, and while it has a client one to go back to |
| PoolRuns.GivenUpReturnsInRunsIff | src/backend_pool/pool_service.py:456-477 | in every run a guest that was given up is served again if and only if its last client gives it back |
| PoolRuns.GivenUpIsServedAgain | src/backend_pool/pool_service.py:277-294 | the input: a guest that stops answering under its client and is not destroyed is used after a free, and available to anybody after a reuse |
| PoolRuns.BindingsAgreeIff | src/backend_pool/nat.py:96-145 | in every run with NAT on, whatever the clients do, up to a stop: the bindings count exactly the grants outstanding if and only if no request has met a binding of which a listener had closed; and they never count too many |
| PoolRuns.NoBindings | src/backend_pool/pool_server.py:111-165 | without NAT no run has a binding |
| PoolRuns.EndedForGood | src/backend_pool/pool_service.py:156-163 | once a creation has raised or the pool was stopped, whatever follows creates no guest, takes none out of the list and does not stop the pool again |
| PoolRuns.LoopFateInRuns | src/backend_pool/pool_service.py:253-398 | in every run a producer loop does to each guest what `LoopFate` says |
| PoolRuns.EveryRunNoneDestroyed | src/backend_pool/pool_service.py:312-319 | in no state of a run is a destroyed guest listed |
| PoolLoop.LoopFate | src/backend_pool/pool_service.py:253-398 | one producer loop, all six passes: a guest is given up exactly when it is used, its time is over and there are others, or when it should answer and does not; it leaves the list exactly when it was given up for its time, now or before, there are others and it could be destroyed; it becomes available exactly when it was created before, answers and no creation raised; nothing else about it changes |
| PoolLoop.LoopCreates | src/backend_pool/pool_service.py:342-372 | the loop fills the pool up to its size, or to less when a creation raises, with new guests in the order of their numbers, and those that answer are available |
| PoolLoop.CreationsStop | src/backend_pool/pool_service.py:342-372 | creations go on until there are enough, or stop at the first that gets no address |
| PoolLoop.CreatedAddress | src/backend_pool/pool_service.py:342-372 | each new guest has the address its own creation picks, of no guest before it |
| PoolLoop.BootIpMeans | src/backend_pool/libvirt/backend_service.py:101-140 | a creation gets no address exactly when its domain does not start or all 500 picks are taken |
| PoolLoop.LoopNotesUp | src/backend_pool/pool_service.py:321-340 | the pool counts as having been up exactly when it did before or a guest has become available |
| PoolLoop.LoopNoneDestroyed | src/backend_pool/pool_service.py:312-319 | no loop leaves a destroyed guest in the list |
| PoolRuns.CountsAgree | src/backend_pool/pool_server.py:89-183 | in every state before a stop of a run in which clients give each grant back once, no id in use is handed out and no request meets a closed listener, with NAT on: an id has a binding exactly when it has grants outstanding, the binding counts them, and so does `connected` of every guest listed under that id, also after unhealthy guests were removed |
| PoolRuns.ClientsAreKept | src/backend_pool/pool_service.py:253-275 | in every state before a stop of a run in which clients give each grant back once and no id in use is handed out, NAT or not, listeners closed or not: ids are distinct, `connected` is the number of outstanding grants, a guest with a client is using or unavailable and has a state to go back to, and the timeout pass marks no guest that has a client |
| PoolRuns.RunSound | src/backend_pool/pool_server.py:52-186 | this as an invariant of every such run |
| PoolRuns.FreshOfThemselvesIff | src/backend_pool/pool_service.py:368-372 | a bound on the number of creations makes ids fresh of themselves, in all runs whose clients give each grant back once, if and only if it is at most 252 |
| PoolRuns.IdsKeepUpTo252 | src/backend_pool/pool_service.py:368-372 | in a run with at most 252 creations no id in use is handed out |
| PoolRuns.StartUpReusesId | src/backend_pool/pool_service.py:342-372 | the input: a start-up with 253 guests gives the last one the id of the first, which is still listed |
| PoolSystem.NextPlaced | src/backend_pool/pool_server.py:52-186 | no message and no producer loop gives one address to two guests or takes an id out of its turn |
| PoolSystem.ProducerPlaced | src/backend_pool/pool_service.py:374-398 | the same for the six passes of a producer loop |
| PoolSystem.AddPlaced | src/backend_pool/pool_service.py:351-372 | the same for one creation with a free address |
| PoolSystem.ListedPlaced | src/backend_pool/pool_service.py:312-319 | the same for the removal of destroyed guests |
| PoolSystem.ListedMeans | src/backend_pool/pool_service.py:312-319 | the removal takes out exactly the destroyed guests |
| PoolSystem.ExistingAreListed | src/backend_pool/pool_service.py:219-220 | the size of the pool is the number of guests that are not destroyed |
| PoolSystem.NextSound | src/backend_pool/pool_server.py:52-186 | every message and every producer loop keeps counts and states of the guests in agreement with the grants, or stops the pool |
| PoolSystem.NextStatesKept | src/backend_pool/pool_service.py:449-477 | no message and no producer loop leaves a guest without a state |
| PoolSystem.LifeGoesBackIff | src/backend_pool/pool_service.py:72-80 | when the documented life of a guest goes backwards, exactly: a request takes a used guest, the last client frees a guest that was given up, or the last client reuses a guest that is further than before that client; a producer loop never moves one back |
| PoolSystem.ProducerOnward | src/backend_pool/pool_service.py:374-398 | whatever a producer loop does, the guest of a given creation is in the same state or a later one, or gone |
| PoolSystem.GivenUpReturnsIff | src/backend_pool/pool_service.py:456-477 | a guest given up is served again if and only if its last client gives it back: used after a free, what it was before that client after a reuse |
| PoolSystem.FreeVmSound | src/backend_pool/pool_service.py:456-465 | freeing a grant keeps the list sound, also when the guest was removed before |
| PoolSystem.ReuseVmSound | src/backend_pool/pool_service.py:467-477 | reusing a grant keeps the list sound, also when the guest was removed before |
| PoolSystem.ProducerSound | src/backend_pool/pool_service.py:374-398 | the six passes of a producer loop keep the soundness of the list, given ids that are in no use |
| PoolSystem.CreateSound | src/backend_pool/pool_service.py:342-372 | creations, until one raises, keep it |
| PoolSystem.AddSoundIff | src/backend_pool/pool_service.py:351-372 | one creation keeps it if and only if no guest listed has the id and no grant outstanding names it |
| PoolSystem.PassSound | src/backend_pool/pool_service.py:253-340 | a pass that keeps identities and the soundness of each guest keeps the soundness of the list |
| PoolSystem.ListedSound | src/backend_pool/pool_service.py:312-319 | taking out the destroyed guests keeps it |
| PoolSystem.TakenSound | src/backend_pool/pool_service.py:449-452 | a request keeps a guest sound with one grant more |
| PoolSystem.FreedSound | src/backend_pool/pool_service.py:456-465 | a free keeps it with one grant less |
| PoolSystem.ReusedSound | src/backend_pool/pool_service.py:467-477 | a reuse keeps it with one grant less; the state it goes back to is never None |
| PoolSystem.TimeoutSparesClients | src/backend_pool/pool_service.py:257-275 | a guest that the timeout pass marks has no client and no grant |
| PoolSystem.RequestBindingSoundIff | src/backend_pool/nat.py:96-135 | a binding request keeps count = grants if and only if the binding is new or both its listeners are open; with a closed listener the count starts again at one |
| PoolSystem.FreeBindingSoundIff | src/backend_pool/nat.py:137-145 | after freeing a binding counts equal grants if and only if they did before |
| PoolSystem.CloseListenerSoundIff | src/backend_pool/nat.py:105-111 | the same for a listener that closes |
| PoolSystem.NextBindingsAgreeIff | src/backend_pool/nat.py:96-145 | one step of the whole server, whatever the client does: counts equal grants afterwards if and only if they did before and the step is no request that meets a closed listener |
| PoolSystem.ClosedListenerLosesBinding | src/backend_pool/nat.py:113-145 | after a request that met a closed listener the first free takes the binding away under the other clients |
| PoolSystem.PortsStayIff | src/backend_pool/nat.py:96-145 | a binding goes away if and only if the last grant of its id is given back or the pool stops; until then its ports change if and only if an open listener closes, or a request meets a closed one |
| GuestPool.FirstWithClient | src/backend_pool/pool_service.py:401-408 | the guest found is used or using and lists the client |
| GuestPool.ChosenIsRight | src/backend_pool/pool_service.py:400-442 | a request is given the first used or using guest that lists the client; without one the first available guest; without one, when guests are shared, the first of the used and using guests with the fewest clients; and none exactly when there is none |
| GuestPool.RightGuestUnique | src/backend_pool/pool_service.py:400-442 | this names one guest |
| GuestPool.ClientKeepsGuest | src/backend_pool/pool_service.py:401-408 | a client that asks again is given the same guest |
| GuestPool.FreeIp | src/backend_pool/libvirt/backend_service.py:101-115 | an address handed out belongs to no guest |
| GuestPool.FreeIpMeans | src/backend_pool/libvirt/backend_service.py:101-115 | the address is the first of 500 picks that no guest has, and there is none exactly when all of them are taken |
| PoolService.GuestRecord.constructor | src/backend_pool/pool_service.py:352-365 | a created guest without clients |
| PoolService.GuestRecord.Take | src/backend_pool/pool_service.py:449-452 | the guest a request is given |
| PoolService.GuestRecord.Free | src/backend_pool/pool_service.py:460-464 | one client less at a given time |
| PoolService.GuestRecord.Reuse | src/backend_pool/pool_service.py:471-476 | one client less, back to the state before |
| PoolService.Service.constructor | src/backend_pool/pool_service.py:88-131 | an empty pool with the default configuration |
| PoolService.Service.SetConfigs | src/backend_pool/pool_service.py:206-214 | the three settings of a client, and no change of the guests |
| PoolService.Service.GetGuestIp | src/backend_pool/pool_service.py:401-408 | the loop finds the first used or using guest that lists the client |
| PoolService.Service.GetAvailableGuest | src/backend_pool/pool_service.py:410-415 | the loop finds the first available guest |
| PoolService.Service.GetAnyGuest | src/backend_pool/pool_service.py:417-426 | the loop finds the first of the usable guests with the fewest clients |
| PoolService.Service.FindGuest | src/backend_pool/pool_service.py:429-439 | finds the right guest for a request |
| PoolService.Service.RequestVm | src/backend_pool/pool_service.py:429-454 | the right guest is granted and taken, or None with nothing changed |
| PoolService.Service.FreeVm | src/backend_pool/pool_service.py:456-465 | changes the first guest of that id as specified, and nothing else |
| PoolService.Service.ReuseVm | src/backend_pool/pool_service.py:467-477 | changes the first guest of that id as specified, and nothing else |
| PoolService.Service.ExistingPoolSize | src/backend_pool/pool_service.py:219-220 | counts the guests that are not destroyed |
| PoolService.Service.ProducerMarkTimedOut | src/backend_pool/pool_service.py:253-275 | marks exactly the used guests whose time is over, in place |
| PoolService.Service.ProducerDestroyTimedOut | src/backend_pool/pool_service.py:296-310 | destroys exactly the unavailable guests whose domain could be destroyed |
| PoolService.Service.ProducerCheckHealth | src/backend_pool/pool_service.py:277-294 | marks exactly the usable guests without connectivity |
| PoolService.Service.RemoveGuest | src/backend_pool/pool_service.py:318-319 | removal by value takes out the guest meant and no other |
| PoolService.Service.ProducerRemoveDestroyed | src/backend_pool/pool_service.py:312-319 | the list without its destroyed guests, in order |
| PoolService.MinusWithout | src/backend_pool/pool_service.py:317-319 | removals one after the other take out the set of guests meant |
| PoolService.MinusDestroyed | src/backend_pool/pool_service.py:312-319 | and what is left are the guests not destroyed, in order |
| PoolService.Service.IsIpFree | src/backend_pool/pool_service.py:222-226 | true if and only if no guest has the address |
| PoolService.Service.GetMacIp | src/backend_pool/libvirt/backend_service.py:101-115 | the first free one of 500 random picks, or none |
| PoolService.Service.CreateGuest | src/backend_pool/libvirt/backend_service.py:117-140 | the address of the new guest, or none when it raises or there is no domain |
| PoolService.Service.AppendGuest | src/backend_pool/pool_service.py:351-372 | the new guest with the next id, and the counter that starts again at 252 |
| PoolService.Service.CreateUpTo | src/backend_pool/pool_service.py:348-372 | the loop: so many guests, up to the first failure |
| PoolService.Service.CreateAndAppend | src/backend_pool/pool_service.py:349-372 | one creation, with the guest appended unless it fails |
| PoolService.Service.ProducerCreateGuests | src/backend_pool/pool_service.py:342-372 | creates what is missing up to the first failure |
| PoolService.Service.ProducerMarkAvailable | src/backend_pool/pool_service.py:321-340 | makes exactly the created guests that answer available and notes that one was up |
| PoolService.Service.ProducerLoop | src/backend_pool/pool_service.py:374-398 | all passes in their order; a creation that raises skips the last one |
| NetworkTable.GenerateNetworkTable | src/backend_pool/util.py:38-66 | given 253 different draws, a table that gives each hardware address one of the host numbers 2 to 254 and none twice; it never ends if and only if there are fewer different draws |
| NetworkTable.NumberMacs | src/backend_pool/util.py:59-66 | numbers every element of the set, no number twice |
| NetworkTable.DrawMacs | src/backend_pool/util.py:50-57 | draws until 253 differ |
| NatService.Service.constructor | src/backend_pool/nat.py:90-94 | no bindings |
| NatService.Service.RequestBinding | src/backend_pool/nat.py:96-135 | the whole new table, the ports returned are those of the open binding, and the listeners of a binding replaced are closed; the listeners of other bindings are untouched |
| NatService.Service.Listen | src/backend_pool/nat.py:127-133 | a new binding with two new listeners |
| NatService.Service.Renew | src/backend_pool/nat.py:116-133 | a binding with a closed listener is replaced: both listeners are stopped, and the count starts at one |
| NatService.Service.Recount | src/backend_pool/nat.py:101-103 | changes the count of one binding |
| NatService.Service.Drop | src/backend_pool/nat.py:143-145 | closes both listeners and deletes the binding |
| NatService.Service.FreeBinding | src/backend_pool/nat.py:137-145 | the whole new table; at zero both listeners are closed; an unknown id is a KeyError that changes nothing |
| NatService.Service.FreeAll | src/backend_pool/nat.py:147-154 | closes every listener and empties the table |
| NatService.Service.CloseListener | src/backend_pool/nat.py:105-111 | one listener closes; no other binding changes |
| PoolServer.Server.constructor | src/backend_pool/pool_server.py:38-50 | the initial state of the state machine |
| PoolServer.Server.DataReceived | src/backend_pool/pool_server.py:52-186 | for data of any bytes: what is not a message, or names a client in bytes that do not decode, raises and changes nothing; any other message does to the guests, bindings and settings what its bytes say, raises exactly on a KeyError or for a request that fails, and is answered as specified |
| PoolServer.Server.HandleRequest | src/backend_pool/pool_server.py:73-147 | pool and NAT step together, and the bytes of the response; no response exactly when the pool cannot be stopped for want of a call to cancel, or a guest is granted under NAT without a public address |
| PoolServer.Server.StopPool | src/backend_pool/pool_service.py:156-184 | cancels the next producer loop, frees the bindings and closes their listeners; raises and changes nothing exactly when that call was made or cancelled before |
| PoolServer.Server.Loop | src/backend_pool/pool_service.py:374-398 | the producer loop, and whether a creation raised |
| PoolServer.Server.HandleFree | src/backend_pool/pool_server.py:149-165 | binding first, then guest; an unknown binding leaves the guest alone |
| PoolServer.Server.HandleReuse | src/backend_pool/pool_server.py:167-183 | binding first, then guest; an unknown binding leaves the guest alone |
| PoolServer.Server.Produce | src/backend_pool/pool_service.py:374-398 | the producer loop as a step of the same state machine; a loop that raised is not scheduled again |
| PoolServer.Server.CloseListener | src/backend_pool/nat.py:105-111 | a listener that closes as a step of the same state machine |
| PoolServer.GrantReachesClient | src/backend_pool/pool_server.py:73-147 | from the bytes the client sends to the bytes it reads back: there is no response if and only if the request fails, and then a guest is granted that nobody knows of, or nothing changes; otherwise the response names a guest that is listed, in use and has this client, with one grant more and, under NAT, the ports of its binding, whose count is right if and only if the request has not met a closed listener; or it is a refusal, and the pool is stopped exactly if a guest was ever up |
| PoolServer.GrantIsTrue | src/backend_pool/pool_server.py:89-141 | what the response to a granted request says holds in the state after it |
| PoolServer.BytesDoWhatTheySay | src/backend_pool/pool_server.py:52-186 | from bytes to fields: "f" and an id take one client from the first guest of that id, note the time and make it used exactly if it had one client; "u" leaves the time alone and restores the state before; "i" sets size, timeout and sharing; "r" takes the right guest or stops the pool; bindings count one less, and nothing else changes |
| PoolServer.BytesAreAnswered | src/backend_pool/pool_server.py:52-186 | for data of any bytes, whether an exception leaves the server and which bytes it answers: malformed messages, names that do not decode, an unknown id under NAT, a guest granted without a public address and a refusal that cannot stop the pool raise, and nothing else; frees and reuses are not answered |
| PoolServer.AddressReads | src/backend_pool/util.py:59-66 | the address sent is 192.168.150 with the host number in decimal |
| PoolWire.BigEndianFields | src/backend_pool/pool_server.py:61-152 | the numbers are in network byte order |
| PoolWire.MessageRoundTrip | src/cowrie/pool_interface/client.py:30-56 | the server reads back every message the client can send |
| PoolWire.ReplyRoundTrip | src/cowrie/pool_interface/client.py:58-117 | the client reads back every response the server can send, whatever bytes follow |
| PoolWire.GrantRoundTrip | src/backend_pool/pool_server.py:115-141 | the response to a granted request, with its two strings of any length, is read back field by field |
| PoolWire.GrantLayout | src/backend_pool/pool_server.py:115-141 | the bytes of a grant, field by field |
| PoolWire.MessageLayout | src/cowrie/pool_interface/client.py:30-56 | the bytes of the messages, field by field |
| Tftp.ArtifactIsPrefix | src/cowrie/commands/tftp.py:102-158 | at every step of every run against a lock-step sender and a network that loses, duplicates and reorders, the artifact is exactly blocks 1..current_block, and success is reported only for the whole file |
| Tftp.WhichFilesSucceed | src/cowrie/commands/tftp.py:137-158 | a transfer can succeed if and only if the file has at most 65535 blocks |
| Tftp.RunKeeps | src/cowrie/commands/tftp.py:102-197 | client and sender stay in step: the sender is at most one block ahead and every ACK names a block received |
| Tftp.NextKeeps | src/cowrie/commands/tftp.py:102-197 | every step keeps them in step |
| Tftp.DataKeeps | src/cowrie/commands/tftp.py:127-158 | any DATA packet of the file, new, late or repeated, keeps them in step |
| Tftp.NewBlockKeeps | src/cowrie/commands/tftp.py:137-153 | the block expected is stored, acknowledged, and ends the transfer if short |
| Tftp.OldBlockKeeps | src/cowrie/commands/tftp.py:154-158 | the block before is acknowledged again, any other block changes nothing |
| Tftp.StallsIff | src/cowrie/commands/tftp.py:115-158 | a datagram leaves a waiting client without a timer if and only if it is of four bytes or more and neither a DATA packet of the block expected or the one before nor a full ERROR packet |
| Tftp.StalledWaits | src/cowrie/commands/tftp.py:115-118 | such a client stays so without a further datagram or an interrupt |
| Tftp.Answers | src/cowrie/commands/tftp.py:88-158 | a datagram of any bytes is answered exactly when it is a DATA packet of the block expected or the one before: with one ACK of its block number to the sender of the first datagram of four bytes or more |
| Tftp.TimeoutResends | src/cowrie/commands/tftp.py:183-197 | what a timeout sends, byte by byte, and where to; the third in a row ends the transfer |
| Tftp.EndsTransfer | src/cowrie/commands/tftp.py:102-174 | which datagrams end a transfer, by their bytes: with success exactly a short DATA packet of the block expected, with an error exactly an ERROR packet of five bytes or more, whose code is the result |
| Tftp.RunRetries | src/cowrie/commands/tftp.py:112-197 | in every run the retry count is the number of timeouts since the last datagram of four bytes or more, and the transfer is given up for them exactly at the third |
| Tftp.InterruptCancels | src/cowrie/commands/tftp.py:409-432 | an interrupt cancels exactly a transfer that is not over |
| Tftp.RunAddressed | src/cowrie/commands/tftp.py:78-113 | in every run requests have gone to the port asked for and ACKs to the sender of the first datagram of four bytes or more, whoever that was |
| Tftp.NextAddressed | src/cowrie/commands/tftp.py:78-113 | every step keeps this |
| Tftp.PastFirstBlock | src/cowrie/commands/tftp.py:93-113 | the sender gets past its first block only when it is the first that the client hears |
| Tftp.WhichSendersSucceed | src/cowrie/commands/tftp.py:93-158 | for a given first sender, a transfer can succeed if and only if the file has at most 65535 blocks and the first sender has the transfer id of the real one, or the file has one block |
| Tftp.LateBlockStalls | src/cowrie/commands/tftp.py:157-158 | every file of three blocks or more has a run of the sender and the network in which the transfer hangs: a late copy of an old block |
| Tftp.TimeoutKeeps | src/cowrie/commands/tftp.py:183-197 | a timeout keeps client and sender in step |
| Tftp.AckedPosition | src/cowrie/commands/tftp.py:88-100 | a sender that hears the ACK of its block is not ahead of the client, also with wrapped block numbers |
| Tftp.StaysOrderly | src/cowrie/commands/tftp.py:115-197 | for datagrams of any bytes, timeouts and Ctrl-C in any order: the deferred fires at most once, no timer is active afterwards, at most two retransmissions follow a datagram |
| Tftp.StartsOrderly | src/cowrie/commands/tftp.py:56-86 | the state after the first request |
| Tftp.FetchOne | src/cowrie/commands/tftp.py:137-153 | when the next block arrives it is stored and acknowledged, and the sender can go on |
| Tftp.FetchInOrder | src/cowrie/commands/tftp.py:137-153 | for every file and every number of its blocks up to 65535, a run that fetches them |
| Tftp.ChunkExtends | src/cowrie/commands/tftp.py:148-153 | a block is short if and only if it is the last |
| Tftp.TftpClient.constructor | src/cowrie/commands/tftp.py:56-71 | a client that has sent its request |
| Tftp.TftpClient.SendRRQ | src/cowrie/commands/tftp.py:78-86 | sends the request packet byte by byte as specified and sets the timer |
| Tftp.TftpClient.SendACK | src/cowrie/commands/tftp.py:88-100 | acknowledges to the transfer id, or the host before there is one |
| Tftp.TftpClient.DatagramReceived | src/cowrie/commands/tftp.py:102-125 | takes the step specified for datagrams of any bytes |
| Tftp.TftpClient.HandleDATA | src/cowrie/commands/tftp.py:127-158 | the expected block, the last block, a repeated block, and any other |
| Tftp.TftpClient.Store | src/cowrie/commands/tftp.py:139-143 | stores a block |
| Tftp.TftpClient.Finish | src/cowrie/commands/tftp.py:151-153 | cancels the timer and fires the deferred |
| Tftp.TftpClient.HandleERROR | src/cowrie/commands/tftp.py:160-174 | an error packet fires the deferred; a short one does nothing |
| Tftp.TftpClient.HandleTimeout | src/cowrie/commands/tftp.py:183-197 | retransmits, or gives up at the third time in a row |
| Tftp.TftpClient.HandleCtrlC | src/cowrie/commands/tftp.py:409-432 | cancels the deferred unless it has fired |
| ResponseCache.StoreIsRecency | src/cowrie/llm/bedrock.py:48-73 | after any run of the get-then-put loop, for any capacity, expiry or not, the keys held are the last max_entries of the recency order |
| ResponseCache.NoRoomNoHits | src/cowrie/llm/bedrock.py:64-73 | a capacity of zero or less keeps nothing and has no hits |
| ResponseCache.SmallerIsSuffix | src/cowrie/llm/bedrock.py:48-73 | the smaller cache's key order is a suffix of the larger's |
| ResponseCache.HitsGrowWithCapacity | src/cowrie/llm/bedrock.py:441-485 | a larger cache never has fewer hits on the same requests, although entries expire |
| ResponseCache.LeadKept | src/cowrie/llm/bedrock.py:441-485 | one request: the lead in hits never falls below the number of entries that are younger in the small cache |
| ResponseCache.ServeIsServed | src/cowrie/llm/bedrock.py:441-476 | what one request of the loop leaves: its key last, the others as they were, one evicted at most |
| ResponseCache.PutOrders | src/cowrie/llm/bedrock.py:64-73 | a store puts its key last, known or not, with its value and time, and drops the first entry exactly when a new key is one too many |
| ResponseCache.GetOrders | src/cowrie/llm/bedrock.py:48-62 | a look-up hits exactly when the key is held for at most ttl; it then puts the key last, and takes an older entry out |
| ResponseCache.AgreesAfterGet | src/cowrie/llm/bedrock.py:48-62 | a look-up against the history of changes: a hit is the latest value stored and not taken back, at most ttl old |
| ResponseCache.AgreesAfterPut | src/cowrie/llm/bedrock.py:64-73 | the same after a store, with the balance of size and evictions |
| ResponseCache.AgreesAfterInvalidate | src/cowrie/llm/bedrock.py:75-76 | the same after an invalidation |
| ResponseCache.Cache.constructor | src/cowrie/llm/bedrock.py:40-46 | an empty cache |
| ResponseCache.Cache.Get | src/cowrie/llm/bedrock.py:48-62 | a hit is the latest value stored and not taken back, at most ttl old; while nothing was evicted for space every such value is a hit; hits + misses = gets |
| ResponseCache.Cache.LookUp | src/cowrie/llm/bedrock.py:48-62 | the three branches of a look-up |
| ResponseCache.Cache.Store | src/cowrie/llm/bedrock.py:64-73 | the branches of a store |
| ResponseCache.Cache.Put | src/cowrie/llm/bedrock.py:64-73 | the new entry is last, one is evicted exactly on overflow; entries created = size + evictions + entries taken back |
| ResponseCache.Cache.Invalidate | src/cowrie/llm/bedrock.py:75-76 | takes out this entry and counts it |
| ResponseCache.Cache.Clear | src/cowrie/llm/bedrock.py:78-79 | takes out all entries and counts them |
| ResponseCache.Cache.GetResponse | src/cowrie/llm/bedrock.py:441-485 | the cached path of the loop: the response is the latest value of the key |
| RateLimiter.CheckAgrees | src/cowrie/core/rate_limiter.py:40-77 | one check against the full history of grants: it never refuses wrongly, and for a key that lost no young stamp to an eviction, or lost its last one a window ago, it grants if and only if fewer than max_requests grants are younger than the window |
| RateLimiter.BoundedAfterGrant | src/cowrie/core/rate_limiter.py:71-76 | no window of the configured length holds more grants than allowed, unless it reaches back to such a loss |
| RateLimiter.RoomyLosesNothing | src/cowrie/core/rate_limiter.py:67-69 | a check with fewer keys than the limit before it, or no more after its clean-up, loses no young stamp |
| RateLimiter.LimitHoldsIff | src/cowrie/core/rate_limiter.py:40-117 | for every configuration, the configured number of keys is kept on every run if and only if it is at least 19; if no request is ever granted, at least 1; if the limiter is off, at least 0; and on every run whose clock never goes back a negative window also makes it 1 |
| RateRuns.RateHoldsIff | src/cowrie/core/rate_limiter.py:40-117 | the promise of max_requests per key and window, for every configuration and any number n: it is kept on every run with at most n different keys if and only if n is at most max_keys (or 0, or the window is empty, or the limiter is on and grants nothing) |
| RateRuns.SafeHolds | src/cowrie/core/rate_limiter.py:67-77 | with no more keys than that, no window holds too many grants of one key |
| RateRuns.UnsafeBreaks | src/cowrie/core/rate_limiter.py:67-117 | with one key more: a run of that many keys whose evictions let one key be granted too often |
| RateRuns.CheckSteps | src/cowrie/core/rate_limiter.py:40-77 | a check adds at most one stamp, to its own key and only when granted, and grants a key with fewer stamps than allowed |
| RateRuns.SomeDeficit | src/cowrie/core/rate_limiter.py:99-117 | when more keys are asked for than are held, the tracker forgets a grant of one of them |
| RateRuns.Overrun | src/cowrie/core/rate_limiter.py:71-77 | a key with a forgotten grant can be granted more often than the limit |
| RateLimiter.CheckBoundsKeys | src/cowrie/core/rate_limiter.py:67-117 | a check leaves at most max(max_keys, 19) keys |
| RateLimiter.RunBoundsKeys | src/cowrie/core/rate_limiter.py:40-117 | so does every run |
| RateLimiter.EvictMeans | src/cowrie/core/rate_limiter.py:99-117 | eviction takes out one key below twenty and a tenth from there on, the keys named by EvictsOldest, and leaves the others alone |
| RateLimiter.EvictsOldest | src/cowrie/core/rate_limiter.py:107-117 | every key evicted was last active no later than every key left |
| RateLimiter.CleanAllMeans | src/cowrie/core/rate_limiter.py:79-97 | the global clean-up keeps the young stamps of every key |
| RateLimiter.YoungMeans | src/cowrie/core/rate_limiter.py:61-64 | a time stamp is young exactly when it is less than a window old |
| RateLimiter.LatestStampMeans | src/cowrie/core/rate_limiter.py:107-110 | the activity of a key is its latest time stamp, or zero |
| RateLimiter.ByActivityMeans | src/cowrie/core/rate_limiter.py:112-113 | the sort by latest activity keeps the dictionary |
| RateLimiter.Limiter.constructor | src/cowrie/core/rate_limiter.py:21-38 | an empty tracker |
| RateLimiter.Limiter.CleanupAll | src/cowrie/core/rate_limiter.py:79-97 | the two loops over the dictionary do what is specified |
| RateLimiter.Limiter.DeleteKeys | src/cowrie/core/rate_limiter.py:96-97 | deletes the keys of a list one by one |
| RateLimiter.Limiter.Prepare | src/cowrie/core/rate_limiter.py:54-72 | clean-ups and eviction leave what the check examines |
| RateLimiter.Limiter.Decide | src/cowrie/core/rate_limiter.py:51-77 | the decision and the new state |
| RateLimiter.Limiter.RemoveOldestKeys | src/cowrie/core/rate_limiter.py:99-117 | the eviction does what is specified |
| RateLimiter.Limiter.Check | src/cowrie/core/rate_limiter.py:40-77 | the whole step, with the agreement with the history as class invariant |
| AbuseIpdb.RunSound | src/cowrie/output/abuseipdb.py:158-185 | in every run, however sleeps overlap, every report rests on consecutive logins of its address, as many as are needed, and within one window when they are two or more |
| AbuseIpdb.RunSpaced | src/cowrie/output/abuseipdb.py:252-302 | in every run with one sleep at a time any two reports of one address are more than rereport_after apart, no clean-up takes place during a sleep, and at most one is pending |
| AbuseIpdb.SpacedPairs | src/cowrie/output/abuseipdb.py:252-271 | what spaced means, for any two reports of one address |
| AbuseIpdb.NextSound | src/cowrie/output/abuseipdb.py:134-302 | every login, clean-up, sleep and wake-up keeps the book in agreement with the history |
| AbuseIpdb.NextKeepsSpacingIff | src/cowrie/output/abuseipdb.py:216-302 | every event keeps the spacing if and only if at the next login the last report of every address that may be reported is old enough, and its clean-up, when it is reached, frees no address whose quiet time runs until then |
| AbuseIpdb.RunKeepsSpacingIff | src/cowrie/output/abuseipdb.py:216-302 | every run, with sleeps that overlap in any way, keeps the spacing in all its states if and only if this holds of each of its events |
| AbuseIpdb.StaysSpacedIff | src/cowrie/output/abuseipdb.py:134-302 | what keeping the spacing means, exactly: whatever logins and wake-up calls follow, reports stay apart if and only if the state keeps the spacing, or its reports are spaced and the window lets nothing be reported |
| AbuseIpdb.CleanUpKeepsSpacingIff | src/cowrie/output/abuseipdb.py:283-295 | after a clean-up reports are safe for logins from a given time on if and only if they were so before and it takes no report off the book whose quiet time still runs then |
| AbuseIpdb.SleepKeepsSpacingIff | src/cowrie/output/abuseipdb.py:471-480 | a sleep keeps the spacing if and only if, at the first wake-up then pending, the last report of every address not kept as reported is old enough, and its clean-up frees no address whose quiet time still runs; during another sleep that clean-up is not reached |
| AbuseIpdb.RecallsAwakeIff | src/cowrie/output/abuseipdb.py:216-302 | in every run without a stop there is a clean-up call to cancel if and only if the plugin is awake |
| AbuseIpdb.CleanUpsEveryTenMinutes | src/cowrie/output/abuseipdb.py:216-302 | with one sleep at a time a clean-up is due ten minutes after the start, the clean-up or the wake-up before, and none during a sleep |
| AbuseIpdb.CleanUpSafeIff | src/cowrie/output/abuseipdb.py:283-295 | a clean-up is safe for every entry and history if and only if its time is not after the next login |
| AbuseIpdb.CleanedQuietIff | src/cowrie/output/abuseipdb.py:252-295 | the condition of a clean-up for one address |
| AbuseIpdb.FreedEarlyMeans | src/cowrie/output/abuseipdb.py:158-185 | after a clean-up logins can lead to two reports that are too close if and only if it frees an address early (and the window lets logins be reported at all) |
| AbuseIpdb.OverlappingSleepsBreakSpacing | src/cowrie/output/abuseipdb.py:471-480 | one input: the wake-up call of a second sleep is still pending when a third begins, whose clean-up frees an address; a report comes 104 seconds after the one before |
| AbuseIpdb.ShorterSleepBreaksSpacing | src/cowrie/output/abuseipdb.py:471-480 | another: a short sleep within a long one, which cleans nothing but moves the wake-up forward; a report comes 14 seconds after the one before |
| AbuseIpdb.HorizonGrows | src/cowrie/output/abuseipdb.py:216-219 | only a sleep can let the next login come earlier than expected |
| AbuseIpdb.NotedAgrees | src/cowrie/output/abuseipdb.py:146-185 | one login against the history of its address, for any tolerance |
| AbuseIpdb.NotedQuiet | src/cowrie/output/abuseipdb.py:146-185 | a report comes after the quiet time of the report before |
| AbuseIpdb.CleanedAgrees | src/cowrie/output/abuseipdb.py:273-295 | a clean-up keeps the agreement of an entry with its history |
| AbuseIpdb.CleanUpKeepsLogins | src/cowrie/output/abuseipdb.py:252-295 | a clean-up keeps the young logins of an address if and only if there are two at least and the second is not rereport_after old; a single login is thrown away |
| AbuseIpdb.LoginsLeadToReport | src/cowrie/output/abuseipdb.py:158-185 | logins within one window, of a new address or after its quiet time, lead to a report at the tolerance_attempts-th and not before |
| AbuseIpdb.WhichLoginsReport | src/cowrie/output/abuseipdb.py:146-185 | in every run of logins and of clean-ups that throw no young logins of the address away: a login is reported if and only if the quiet time of the last report is over and enough logins since then lie within the window |
| AbuseIpdb.StepKeepsMemory | src/cowrie/output/abuseipdb.py:146-185 | one login: the entry keeps all of the history that still matters |
| AbuseIpdb.CleanKeepsMemory | src/cowrie/output/abuseipdb.py:227-295 | a clean-up that throws no young logins of the address away changes nothing about later reports |
| AbuseIpdb.CleanIsFrom | src/cowrie/output/abuseipdb.py:227-237 | of logins in order of time the scan keeps exactly the young ones |
| AbuseIpdb.NeverDue | src/cowrie/output/abuseipdb.py:227-237 | with a negative window no login is ever due |
| AbuseIpdb.StaysReported | src/cowrie/output/abuseipdb.py:172-177 | while the quiet time of a report runs, logins change nothing |
| AbuseIpdb.CarriedLogsReport | src/cowrie/output/abuseipdb.py:252-271 | with a tolerance of one attempt or none, logins kept from a run with a higher one do not hold a report back, and a clean-up drops them |
| AbuseIpdb.RestsIsFounded | src/cowrie/output/abuseipdb.py:364-379 | the report names consecutive logins of its address |
| AbuseIpdb.LogBook.constructor | src/cowrie/output/abuseipdb.py:197-214 | the configuration with its minimum of 900 seconds |
| AbuseIpdb.LogBook.CleanExpiredTimestamps | src/cowrie/output/abuseipdb.py:227-237 | the loop drops the expired time stamps and stops at the first that is not |
| AbuseIpdb.LogBook.CleanEntries | src/cowrie/output/abuseipdb.py:288-295 | one walk that cleans and collects, then the deletions |
| AbuseIpdb.LogBook.Write | src/cowrie/output/abuseipdb.py:134-144 | a login during a sleep changes nothing; any other takes the step specified |
| AbuseIpdb.LogBook.IntolerantObserver | src/cowrie/output/abuseipdb.py:146-156 | for a tolerance of one attempt or none every login that may be reported is |
| AbuseIpdb.LogBook.TolerantObserver | src/cowrie/output/abuseipdb.py:158-185 | the branches of the observer, with the report |
| AbuseIpdb.LogBook.CleanupAndDumpState | src/cowrie/output/abuseipdb.py:273-302 | cleans with the wake-up time during a sleep and with the current time otherwise, and schedules the next one; mode 1 cancels the call of the next one, and raises and cleans nothing when that was cancelled or made before |
| AbuseIpdb.LogBook.Recall | src/cowrie/output/abuseipdb.py:273-302 | a pending clean-up is made: the step specified |
| AbuseIpdb.LogBook.StopPlugin | src/cowrie/output/abuseipdb.py:131-132 | the clean-up at the end; during a sleep it raises |
| AbuseIpdb.LogBook.FallAsleep | src/cowrie/output/abuseipdb.py:471-480 | sleeps, also while asleep, and cleans with the wake-up time; while asleep it raises and the entries stay |
| AbuseIpdb.LogBook.Wakeup | src/cowrie/output/abuseipdb.py:216-225 | any pending wake-up call ends the sleep, changes no entry and schedules a clean-up |
| DiscordQueue.ConcludedKeeps | src/cowrie/output/discord.py:124-154 | concluding a request: events written = finished + queued + in flight, and the attempts left fall strictly unless the answer is 429 |
| DiscordQueue.WrittenKeeps | src/cowrie/output/discord.py:72-77 | a write keeps the books and starts a send when idle |
| DiscordQueue.FiredKeeps | src/cowrie/output/discord.py:83-95 | a timer keeps them: at most one send is in flight, and a queue that is not empty has a send or a timer to wait for |
| DiscordQueue.RetriesBounded | src/cowrie/output/discord.py:124-154 | each event ends at most max_retries + 1 requests with anything but 429, as many as its attempts while it is pending |
| DiscordQueue.FinishedIff | src/cowrie/output/discord.py:124-154 | an event is done if and only if its last request was answered below 500 and not with 429, or max_retries + 1 of its requests have failed or were answered with 500 or more |
| DiscordQueue.ConcludedTells | src/cowrie/output/discord.py:124-154 | every conclusion keeps attempts equal to the failures so far, and settles an event exactly so |
| DiscordQueue.ConcludedSchedules | src/cowrie/output/discord.py:133-143 | the one timer a conclusion asks for, by its outcome |
| DiscordQueue.WriteStartsIff | src/cowrie/output/discord.py:72-77 | a write starts a send if and only if the plugin runs and is idle, whatever timers are pending |
| DiscordQueue.WriteResendsRefused | src/cowrie/output/discord.py:130-143 | after a 429 the next write sends the refused event again at once |
| DiscordQueue.FiredSendsIff | src/cowrie/output/discord.py:83-95 | a timer starts a send if and only if the plugin runs, is idle and has something to send, whichever delay it was set for |
| DiscordQueue.TimerResendsRefused | src/cowrie/output/discord.py:130-143 | after a 429 the timer that fires next, of any earlier delay too, sends the refused event again |
| DiscordQueue.EverythingFinishes | src/cowrie/output/discord.py:83-143 | from every sound state, when requests succeed, two steps per event finish all that is pending, in order |
| DiscordQueue.BalancedFinish | src/cowrie/output/discord.py:139-140 | an event that is done: without a retry so far events finish in the order written |
| DiscordQueue.BalancedRetry | src/cowrie/output/discord.py:133-138 | a retry goes to the end with one attempt more |
| DiscordQueue.StoppedKeeps | src/cowrie/output/discord.py:66-69 | a stop keeps a single flight |
| DiscordQueue.StoppedForGood | src/cowrie/output/discord.py:66-91 | after a stop the queue is empty, and neither a write nor a timer nor an outcome starts a request |
| DiscordQueue.Output.constructor | src/cowrie/output/discord.py:46-64 | idle |
| DiscordQueue.Output.ProcessQueue | src/cowrie/output/discord.py:83-91 | sends the head of the queue unless stopped, sending or empty |
| DiscordQueue.Output.Write | src/cowrie/output/discord.py:72-77 | the step specified, with the invariant of the run |
| DiscordQueue.Output.Fire | src/cowrie/output/discord.py:93-94 | the step specified, with the invariant of the run |
| DiscordQueue.Output.AfterResult | src/cowrie/output/discord.py:124-143 | the three branches and the delay of each |
| DiscordQueue.Output.SettleResult | src/cowrie/output/discord.py:124-143 | the same on the plugin's own fields |
| DiscordQueue.Output.SettleError | src/cowrie/output/discord.py:145-154 | a retry while attempts are left, on the plugin's own fields |
| DiscordQueue.Output.AfterError | src/cowrie/output/discord.py:145-154 | a retry while attempts are left, else done, with the invariant of the run |
| DiscordQueue.Output.Stop | src/cowrie/output/discord.py:66-69 | empties the queue; what is in flight still comes back |
| Tail.Tail | src/cowrie/core/utils.py:52-68 | the block scan from the end returns the last n lines of the file if and only if n is not 0 or the file is empty |
| Tail.SuffixHasLastLines | src/cowrie/core/utils.py:61-68 | a suffix with more than n newlines may start inside a line and still ends in the same last n lines |
| Tail.ScanBlock | src/cowrie/core/utils.py:61-65 | the newlines counted are those of the bytes scanned until the whole file has been read, in spite of the over-read of the last block |
| Tail.ScanSuffices | src/cowrie/core/utils.py:61-68 | when the loop ends the bytes scanned hold the last n lines |
| Tail.LinesSplitAfterNewline | src/cowrie/core/utils.py:67 | a file cut after a newline reads as the lines of its parts |
| Tail.LinesConcatenate | src/cowrie/core/utils.py:67 | reading line by line loses, adds and reorders nothing |
| Tail.LinesAreLines | src/cowrie/core/utils.py:67 | a line has its newline at the end and nowhere else; only the last may lack it |
| TtyLog.RecordsOfEncode | src/cowrie/core/ttylog.py:32-92 | the reader steps through exactly the records written |
| TtyLog.CutLogHashesPrefix | src/cowrie/core/ttylog.py:62-92 | of a log cut at any byte a prefix of the input is hashed |
| TtyLog.HeaderRoundTrip | src/cowrie/core/ttylog.py:24-26 | the packed header reads back |
| TtyLog.StampedMeans | src/cowrie/core/ttylog.py:27-46 | seconds and microseconds are the time stamp cut to whole microseconds; which times before 1970 can be packed |
| TtyLog.StampedPacksIff | src/cowrie/core/ttylog.py:24-47 | which records can be packed, by their fields and their time |
| TtyLog.HeaderLayout | src/cowrie/core/ttylog.py:18-29 | the bytes of a header: six fields of four bytes in the order of the format, the lowest first |
| TtyLog.SessionInputs | src/cowrie/core/ttylog.py:62-92 | of a session that is opened, written to and closed exactly what was typed is hashed, in order |
| TtyLog.RecordsCons | src/cowrie/core/ttylog.py:32-47 | one record in front of a log is the first one read back |
| TtyLog.ReadOne | src/cowrie/core/ttylog.py:66-90 | one turn of the reader's loop |
| TtyLog.LogFile.constructor | src/cowrie/core/ttylog.py:20-30 | an empty log |
| TtyLog.LogFile.Append | src/cowrie/core/ttylog.py:24-29 | the packed record, or nothing when a field does not fit |
| TtyLog.LogFile.Open | src/cowrie/core/ttylog.py:20-30 | appends the open record |
| TtyLog.LogFile.Write | src/cowrie/core/ttylog.py:32-47 | appends the record and its data; with the true length the log stays intact |
| TtyLog.LogFile.Close | src/cowrie/core/ttylog.py:50-60 | appends the close record |
| TtyLog.LogFile.InputHash | src/cowrie/core/ttylog.py:62-92 | hashes the data of all records but output ones, exactly those written when the log is intact; a length below -1 raises |
| ClientHello.ParseTlsClientHello | src/cowrie/core/fingerprint.py:40-165 | every record that carries a ClientHello of section 4.1.2 of RFC 8446 is reported faithfully: version, ciphers, extension types in order, SNI, first ALPN name, signature algorithms |
| ClientHello.MessageRead | src/cowrie/core/fingerprint.py:47-165 | the same for the parser as a function, whatever follows the message |
| ClientHello.CutRecordReports | src/cowrie/core/fingerprint.py:47-152 | of a record cut at any byte: nothing is reported before the list of extensions starts, and from there on all that comes before it and exactly the extensions that are there as a whole |
| ClientHello.ReportsOfAnyBytes | src/cowrie/core/fingerprint.py:47-152 | whatever the bytes: something is reported only of a handshake record with a ClientHello, with its version, every cipher suite that its length names, a server name exactly when that extension is listed, a protocol or signature algorithms only when theirs is |
| ClientHello.ReportsIff | src/cowrie/core/fingerprint.py:42-105 | and exactly when session id, cipher suites and compression methods all end within the data |
| ClientHello.HandshakeRead | src/cowrie/core/fingerprint.py:56-69 | the fixed part of the message |
| ClientHello.ExtensionsRead | src/cowrie/core/fingerprint.py:107-152 | any list of extensions, of any number and length |
| ClientHello.ExtensionRead | src/cowrie/core/fingerprint.py:113-152 | one extension |
| ClientHello.AddAllSni | src/cowrie/core/fingerprint.py:123-125 | the SNI flag is set if and only if a server name extension is among them |
| ClientHello.AddAllAlpn | src/cowrie/core/fingerprint.py:127-138 | the name reported is the first of the ALPN extension, wherever it stands |
| ClientHello.AddAllSchemes | src/cowrie/core/fingerprint.py:140-150 | the signature algorithms reported are those of their extension, wherever it stands |
| ClientHello.AlpnRead | src/cowrie/core/fingerprint.py:127-138 | the first protocol name |
| ClientHello.SchemesRead | src/cowrie/core/fingerprint.py:140-150 | all signature algorithms in order |
| ClientHello.WordsRead | src/cowrie/core/fingerprint.py:88-92 | all cipher suites in order |
| ClientHello.AsciiKeepsAscii | src/cowrie/core/fingerprint.py:136-138 | a name is reported unchanged if and only if it is all ASCII |
| ClientHello.ReadWords | src/cowrie/core/fingerprint.py:88-92 | the loop over 16-bit words, and when it runs past the data |
| ClientHello.ReadExtension | src/cowrie/core/fingerprint.py:121-150 | the branches for one extension |
| ClientHello.ReadExtensions | src/cowrie/core/fingerprint.py:107-152 | the loop over extensions |
| Ja4.Unchanged | src/cowrie/core/fingerprint.py:275-305 | the fingerprint does not depend on the order of ciphers or extensions nor on GREASE values in either list |
| Ja4.FingerprintReads | src/cowrie/core/fingerprint.py:263-305 | the fingerprint character by character: transport, version, server name, the numbers of ciphers and extensions that count in two digits each, the first and last character of the protocol, and the two hashes of the sorted values |
| Ja4.HexReads | src/cowrie/core/fingerprint.py:292-296 | a value is written in four hexadecimal digits |
| Ja4.TwoDigitsRead | src/cowrie/core/fingerprint.py:279-281 | a count is written in two digits, and as 99 when larger |
| Ja4.Decides | src/cowrie/core/fingerprint.py:275-305 | when the hash tells the two cipher texts apart and the two extension texts, fingerprints are equal if and only if the lists are, up to order and GREASE |
| Ja4.SameButGreaseMeans | src/cowrie/core/fingerprint.py:275-277 | lists agree up to order and GREASE if and only if the filtered lists have the same values |
| Ja4.SortForgetsOrder | src/cowrie/core/fingerprint.py:291-296 | lists with the same values sort to the same list |
| Ja4.SortPermutes | src/cowrie/core/fingerprint.py:292-296 | sorting keeps the values |
| Ja4.SortSorts | src/cowrie/core/fingerprint.py:292-296 | sorting sorts |
| Ja4.HexInjective | src/cowrie/core/fingerprint.py:292-296 | different values have different hexadecimal forms |
| Ja4.JoinInjective | src/cowrie/core/fingerprint.py:297-301 | different lists join to different texts |
| Fingerprint.ReorderedHelloSameJa4 | src/cowrie/ssh/forwarding.py:125-140 | on the wire: ClientHellos that differ only in the order of ciphers and extensions, in GREASE and in what the fingerprint does not look at have the same fingerprint |
| Fingerprint.SameJa4OnlyIfReordered | src/cowrie/ssh/forwarding.py:125-140 | and when the hash tells their cipher texts apart and their extension texts, only those do |
| Cname.Resolve | src/cowrie/core/network.py:47-87 | ends on every finite graph, asks no name twice (as the set of visited names tells names apart), finds an address if and only if one is reachable, and it is the leftmost; finding none it has asked exactly the reachable names |
| Cname.ResolveCname | src/cowrie/core/network.py:47-87 | the recursion with the shared set of visited names: what it has given up on holds no address and leads nowhere new |
| Cname.LeftmostUnique | src/cowrie/core/network.py:68-80 | there is at most one leftmost address: no record before it on the way leads to another |
| Cname.LeftmostReaches | src/cowrie/core/network.py:68-80 | the leftmost address is reached by a path of CNAMEs that repeats no name under way |
| Cname.ExhaustedIsBarren | src/cowrie/core/network.py:57-61 | names that were given up on lead to no address around the names still under way, so skipping a visited name is right also on cycles |
| Cname.Visited.Add | src/cowrie/core/network.py:57-61 | remembers the name |

## Left out

- Threads and locks: the first producer loop, which runs on a worker thread
  (src/backend_pool/pool_service.py:147), `request_vm` changing a guest outside the lock, and
  races inside `ResponseCache`. Steps are atomic.
- libvirt, nmap, Twisted transports, HTTP, DNS and boto3 clients, clocks and random numbers:
  parameters of the steps. One producer pass sees one time.
- Starting, stopping and restarting the pool beyond the release of its bindings: destroying the
  domains, `start_pool`, `restart_pool`.
- PoolServer.Server.StopPool: a libvirt error while the domains are destroyed, which also leaves the bindings, is not modelled.
- NatService.Service.CloseListener: when a listener closes on its own is a step that may come at any time; the
  data that a listener forwards is not modelled.
- PoolServer.Server.DataReceived: which bytes decode as UTF-8, and to what text, is a parameter.
- PoolWire.MessageRoundTrip: an address that is not ASCII is cut short by the client, whose length field counts characters; the model takes the bytes as the client sends them.
- PoolService.Service.CreateGuest: the hardware address, domain, snapshot and start time of a guest are not part of the record, as no
  decision depends on them. Addresses are host numbers of 192.168.150.0/24.
- NetworkTable.GenerateNetworkTable: draws come from a finite list; the code draws until it has 253 different ones.
- Tftp.TftpClient.DatagramReceived: a closed port delivers nothing more; closing the artifact file and the shell command around the client are not modelled.
- AbuseIpdb.LogBook.Write: the state file with its start-up migration, and the second try of a request after a
  Retry-After of more than 86340 seconds, are not modelled.
- AbuseIpdb.LogBook.FallAsleep: a negative Retry-After, for which no wake-up call can be made, is not modelled.
- DiscordQueue.Output.Write: events are told apart by the call that wrote them, so no event is written twice. The embeds, the HTTP request and the order in time are not modelled.
- RateLimiter.Limiter.Check: `reset` is not modelled; time stamps are real numbers.
- ResponseCache.Cache.GetResponse: latency statistics, prompts, the hash that makes the key and calls without a cache are not modelled; two requests do not overlap.
- Ja4.Unchanged: the GREASE values, the version names and the SHA-256 of src/cowrie/vendor/ja4/common.py are parameters; joining a list by commas before hashing it is modelled.
- ClientHello.ParseTlsClientHello: the message must lie in one record, as the parser does not join fragments.
- JA4H and the HTTP request parser: text splitting without state.
- Cname.Resolve: the text of a query and the name object of a record count as different names, and two names of one kind are equal when spelled alike; the library that compares name objects is not part of this model.
- Cname.ResolveCname: converting an AAAA record to text calls a method of that library; a record may raise or yield an address. `communication_allowed` is not modelled.
- TtyLog.LogFile.InputHash: SHA-256 is a parameter.
- The fake shell commands, the Scalpel router, the LLM clients, the dashboard and the other
  output plugins are not modelled.
