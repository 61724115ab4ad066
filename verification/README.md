# A model of the SNX plugin for NetworkManager

The plugin is a C service that logs in to a Check Point gateway, opens a tunnel over TLS, creates a
TUN device, sets up routes and forwards packets until NetworkManager disconnects it. This project
models the parts of it in which a mistake would be hard to see, and proves what they keep.

**The session machine** (`Session`, `Plugin`, `Conservation`, `AuthSafety`, `SessionOutcomes`,
`Reconnect`, `BypassRoute`, `BypassAddress`, `LostRoutes`, `RouteDiscipline`, `RouteWitnesses`,
`AddressWitness`). The plugin object, the cancellable workers and the main loop callbacks take steps
in any order. A worker that was cancelled keeps running until its own check, and a result whose task
was cancelled before the callback runs is dropped. A worker that adds a bypass route first reads the
gateway address from the plugin, as it is at that moment, and adds the route later. Three things are one step each, because the source relies on it: the check for
cancellation with the publication of the tunnel (`src/nm-snx-service.c:776-790`), adding a bypass
route with recording it (`src/nm-snx-service.c:386-392`), and a callback of the main loop with
everything it calls. Secrets arrive only between Connect and Disconnect;
`Conservation.SecretsAfterDisconnectEscape` shows a run after which they would do harm.

What must not happen is said in `Conservation` and `AuthSafety`. What does happen is said in
`SessionOutcomes`, callback by callback and over events, and in `Reconnect`: after any run in which
the main loop has not ended, a Connect reaches forwarding through any number of challenges, if nothing
hinders its workers.

`Plugin.SnxVpnPlugin` is the object itself, with its fields updated in place. It carries the steps
taken so far as a ghost sequence, and `Valid` says that the fields are the state the machine reaches
by them. Each entry point, of the main loop and of a worker, asks for `Valid` and that its step is
possible, and adds that step; only a code that arrives outside of an attempt can leave the runs. What is proved about runs therefore holds of the object after any calls
(`ObjectHoldsOnce`, `ObjectIsSafe`, `ObjectIsWhole`).

**The forwarding threads** (`Forwarding`, `Downlink`). Two threads, the keepalive timer and the lines
of the teardown are interleaved; every access to a shared atomic is a step of its own. A session
starts only when the threads of the last one are gone, as `Conservation.PublishesOverNothing` shows
for the machine above.

**The routing arithmetic** (`IpRange`, `IpRoutes`, `RouteSpecs`, `Ipv4Text`, `Decimal`, `Glib`). A range of
addresses is cut into CIDR blocks in 32-bit arithmetic, printed, and read back by two readers that
differ from each other.

**The wire formats** (`Sexpr`, `SexprGrammar`, `SexprLookup`, `SexprWriter`, `Obfuscate`, `Ccc`,
`Challenge`, `RequestTexts`, `AuthReplies`, `HttpBody`, `HttpReplies`, `Slim`, `SslTunnel`, `Netlink`).
Writers and readers are proved to be inverse to each other, with the exact domain where they are not
inverse on everything. What is on the wire is also said without them: the texts the reader accepts as
a grammar, the requests character by character, netlink messages and frames byte by byte.

Where the code does not do what its comments say, the code is modelled and the exact condition is
proved:

- The comment at `src/nm-snx-service.c:313-319` says that the route list keeps netlink and
  NetworkManager in agreement. On specs the service generates it does (`RouteSpecs.GeneratedSpecsAgree`).
  On a route given by the user, which `src/snx-config.c:33-47` stores without blanks around it, the
  two readers agree if and only if the address is a multiple of 2^(32 - prefix)
  (`IpRoutes.UserRoutesAgree`): NetworkManager's reader clears host bits and the netlink reader does
  not. On `10.1.2.3/16` they differ (`IpRoutes.HostBitsDisagree`). `IpRoutes.ReadersAgree` has the
  condition for every text, in terms of the text alone.
- A bypass route lives on the physical interface, so a route that no teardown deletes stays in the
  kernel. The plugin records one route only, and an add replaces the route to the same address
  (`src/snx-netlink.c:330`). Hence a route to an address is in the kernel without a record if and only
  if, after the last add for that address, another add came before any teardown
  (`LostRoutes.RoutesByEvents`), and only another add for the address removes it again
  (`LostRoutes.LeftUntilReplaced`). With one gateway a Disconnect leaves nothing in the kernel, however
  workers overlap (`LostRoutes.OneGatewayLeavesNothing`). With two, a route is lost although no two tunnel workers
  overlap (`RouteWitnesses.TakingTurnsIsNotEnough`): a worker that a Disconnect has cancelled adds its
  route after the next Connect has torn down. A route is also lost in the only attempt there is when a
  signal comes just before the worker adds it (`RouteWitnesses.SignalLosesRoute`).
  `LostRoutes.LostExactly` is the exact condition; it is enough that Connect, signals and the end of
  the main loop wait for the workers (`RouteDiscipline.DisciplinedRunsLoseNothing`).
- The address of a bypass route is not always that of the attempt that started the worker: a cancelled
  worker may read `gateway_ip` when the next attempt has stored another one
  (`AddressWitness.CancelledWorkerReadsLate`). The worker uses what its own attempt discovered,
  cancelled or not, if no Connect came between its start and its read; otherwise it uses the discovery
  of the attempt that is going on at the read (`BypassAddress.BypassAddressExactly`).
- The whole address space is the one range for which the greedy cut is not the shortest with prefix 0
  allowed: the 32-bit block size wraps (`IpRange.PrefixZeroOnlyHelpsFullRange`).

Addresses are numbers in host order. Text is a sequence of characters without NUL where C has a
string, bytes are numbers below 256.

## Model

| member | source | states |
|---|---|---|
| Conservation.HeldOnceOrReleasedOnce | src/nm-snx-service.c:566-642 | in every run, every tunnel, descriptor, thread and timer ever opened is held by exactly one field or worker, or was released exactly once |
| Conservation.AtMostOneLive | src/nm-snx-service.c:995-1016 | in every run at most one task is neither cancelled nor delivered, and it carries the cancellable the plugin still holds |
| Conservation.PublishesOverNothing | src/nm-snx-service.c:772-790 | in every run a worker that publishes finds no tunnel, descriptor, thread or timer in the fields |
| Conservation.AllOrNothing | src/nm-snx-service.c:544-642 | in every run, once no task is live, tunnel, device and both threads are all up or all gone; the timer exists only when they are up |
| Conservation.TeardownTwice | src/nm-snx-service.c:1190-1206 | after a teardown the fields hold nothing, and a second teardown takes no outside action |
| Conservation.StoppedRunHoldsNothing | src/nm-snx-service.c:1108-1128 | when the workers have ended, Disconnect or a signal leaves nothing held and everything released once |
| Conservation.SecretsAfterDisconnectEscape | src/nm-snx-service.c:1091-1106 | Connect, a challenge and Disconnect reach an idle plugin in which secrets would start a task nothing can cancel; two live tasks run after the next Connect |
| Conservation.StepKeepsInv | src/nm-snx-service.c:995-1128 | every step keeps the shape of the state: bare while logging in, published but not forwarding until delivered, idle means nothing held |
| Conservation.StepConserves | src/nm-snx-service.c:730-812 | no step opens, hands over or releases anything without the sums agreeing |
| AuthSafety.EveryRunIsSafe | src/nm-snx-service.c:900-950 | in every run and for any number of challenge rounds each challenge, tunnel and configuration is justified by the events of its own attempt |
| AuthSafety.WorkerUsesThisAttempt | src/nm-snx-service.c:814-829 | a worker that was not cancelled and opens the tunnel was given the key and port of the last event of the current attempt |
| AuthSafety.StepFollows | src/nm-snx-service.c:900-987 | port, address, session id and pending challenge in the plugin follow the history of the attempt through every step |
| AuthSafety.ConfiguredIsForwarding | src/nm-snx-service.c:700-703 | from the configuration of a session until it is stopped, tunnel, device and both threads are up |
| SessionOutcomes.DeliveredTunnel | src/nm-snx-service.c:644-704 | the callback of a live published tunnel: with a readable address of its attempt and valid settings one configuration with that address is handed on and forwarding starts, with wake descriptor and timer as asked for; otherwise everything is torn down and nothing is handed on |
| SessionOutcomes.DeliveredReply | src/nm-snx-service.c:900-949 | the callback of a live reply, after any number of challenges: the tunnel starts, with its key and the port discovered, if and only if it says "done", authenticated, and has a key; a challenge is awaited if and only if it says "continue"; else nothing starts |
| SessionOutcomes.NothingDelivered | src/nm-snx-service.c:795-812 | a cancelled result, a failed login and a failed tunnel change nothing but their task |
| SessionOutcomes.Connects | src/nm-snx-service.c:1018-1048 | Connect forgets everything about the attempt before, leaves none of its tasks live, and starts one login if there is a configuration |
| SessionOutcomes.SecretsSent | src/nm-snx-service.c:1091-1106 | during an attempt a code starts a challenge, with the session id of the reply that asked, if and only if one is awaited and the code is not empty |
| Reconnect.ReconnectReachesForwarding | src/nm-snx-service.c:1018-1106 | after any run in which the main loop has not ended, Connect, a login, any number of challenges and an unhindered worker reach forwarding, with exactly these events, the last key, the first gateway and the bypass route asked for |
| BypassAddress.BypassAddressExactly | src/nm-snx-service.c:381-392 | every bypass route, also of a cancelled worker, is for the address discovered by the attempt going on at the read; if and only if no Connect came between the start of the worker and the read that is the attempt that started it, whose discovery is unchanged |
| BypassAddress.BypassWasRead | src/nm-snx-service.c:381-386 | every worker that adds a route was started by one step and has read the address in exactly one later step |
| BypassAddress.BypassUsesThisAttempt | src/nm-snx-service.c:381-392 | a worker that was not cancelled adds its route for the address that the current attempt, its own, has discovered |
| AddressWitness.CancelledWorkerReadsLate | src/nm-snx-service.c:381-386 | for any two addresses a run in which the attempt that started a worker found one and the worker can add a route for the other |
| BypassRoute.RunsBalance | src/nm-snx-service.c:370-404 | in every run the adds issued are the deletes issued, the records overwritten, and the one record there is |
| BypassRoute.RecordLasts | src/nm-snx-service.c:574-582 | only a teardown deletes the recorded route, with its own tuple, and only another add replaces it; failure and cancellation leave it |
| BypassRoute.DeletedAtNextTeardown | src/nm-snx-service.c:574-582 | from an add to the next teardown the record stands, and that teardown deletes exactly that route once |
| LostRoutes.RecordByEvents | src/nm-snx-service.c:386-392 | a route is recorded exactly while an add waits for its teardown, and no record is overwritten exactly if a teardown lies between any two adds |
| LostRoutes.RoutesByEvents | src/nm-snx-service.c:386-392 | a route to an address is in the kernel without a record if and only if no teardown lies between the last add for it and a later add; what is recorded is in the kernel |
| LostRoutes.EntryIsLastAdd | src/snx-netlink.c:327-330 | a route in the kernel is the one added last for its address |
| LostRoutes.LeftUntilReplaced | src/nm-snx-service.c:574-582 | an unrecorded route stays in the kernel, unchanged, until another add for its address |
| LostRoutes.LostExactly | src/nm-snx-service.c:386-392 | some way to go on without further adds empties the table if and only if nothing is left behind, and a teardown has followed the last add or can still come |
| LostRoutes.OneGatewayLeavesNothing | src/nm-snx-service.c:386-392 | if all adds are for one address, a Disconnect leaves nothing in the kernel, whether or not a teardown lay between them |
| RouteDiscipline.DisciplinedRunsLoseNothing | src/nm-snx-service.c:1018-1026 | if Connect and signals wait until no worker is opening a tunnel, and the main loop ends only after all callbacks, no route stays in the kernel for good |
| RouteWitnesses.TakingTurnsIsNotEnough | src/nm-snx-service.c:762-783 | for any two routes to different addresses a run, with a Disconnect before the second Connect, in which no two workers overlap and the first route stays in the kernel |
| RouteWitnesses.SignalLosesRoute | src/nm-snx-service.c:1197-1206 | for any route a run with one attempt and one add after which nothing that can happen empties the table |
| Plugin.SnxVpnPlugin.constructor | src/nm-snx-service.c:1155-1160 | a new plugin is in the state of the empty run |
| Plugin.SnxVpnPlugin.ObjectHoldsOnce | src/nm-snx-service.c:566-642 | after any calls, everything ever opened is held by one field or worker once, or was released once |
| Plugin.SnxVpnPlugin.ObjectIsSafe | src/nm-snx-service.c:900-950 | after any calls, the events so far are justified, and the routes added are accounted for by the fields |
| Plugin.SnxVpnPlugin.ObjectIsWhole | src/nm-snx-service.c:544-642 | after any calls and with no live task, the object is wholly up or wholly down; the timer never lacks a tunnel |
| Plugin.SnxVpnPlugin.RemoveBypassRoute | src/nm-snx-service.c:574-582 | an active record is deleted with the fields it was stored in, once |
| Plugin.SnxVpnPlugin.ReleaseRuntime | src/nm-snx-service.c:584-621 | giving the fields back one by one releases exactly what they held |
| Plugin.SnxVpnPlugin.TeardownTunnel | src/nm-snx-service.c:566-626 | the object takes the teardown step |
| Plugin.SnxVpnPlugin.ResetPluginState | src/nm-snx-service.c:1004-1016 | cancels, tears down and forgets the attempt |
| Plugin.SnxVpnPlugin.Connect | src/nm-snx-service.c:1018-1048 | possible in a valid object at any time before the main loop ends: takes the Connect step, with or without a usable configuration, and leaves the object valid |
| Plugin.SnxVpnPlugin.NewSecrets | src/nm-snx-service.c:1091-1106 | accepted exactly while a challenge is awaited and there is a code; during an attempt a step of the run |
| Plugin.SnxVpnPlugin.Disconnect | src/nm-snx-service.c:1108-1128 | takes the Disconnect step and leaves the object valid |
| Plugin.SnxVpnPlugin.OnTermSignal | src/nm-snx-service.c:1197-1206 | takes the step of a signal, after which the main loop is over |
| Plugin.SnxVpnPlugin.OnPluginQuit | src/nm-snx-service.c:1178-1183 | ends the main loop and touches nothing else |
| Plugin.SnxVpnPlugin.Finalize | src/nm-snx-service.c:1130-1138 | takes the last step: everything is cancelled and torn down |
| Plugin.SnxVpnPlugin.OnTimerGivesUp | src/nm-snx-service.c:550-561 | the source id is forgotten in the step in which the timer goes |
| Plugin.SnxVpnPlugin.AuthThreadReturns | src/nm-snx-service.c:865-898 | a login worker hands on its reply or its failure |
| Plugin.SnxVpnPlugin.TunnelConnected | src/nm-snx-service.c:744-750 | the worker holds the new tunnel, or has failed |
| Plugin.SnxVpnPlugin.DeviceCreated | src/nm-snx-service.c:752-760 | the worker holds the device as well, or gives the tunnel back |
| Plugin.SnxVpnPlugin.ReadGatewayIp | src/nm-snx-service.c:381-382 | the worker reads the address as it stands in the plugin at that moment |
| Plugin.SnxVpnPlugin.InterfaceConfigured | src/nm-snx-service.c:762-770 | the worker goes on to its check, or gives tunnel and device back |
| Plugin.SnxVpnPlugin.OnAuthDone | src/nm-snx-service.c:900-921 | a cancelled result is dropped, a failure starts nothing, a reply is accepted |
| Plugin.SnxVpnPlugin.StartTunnel | src/nm-snx-service.c:814-829 | the new task carries the key given and the port stored |
| Plugin.SnxVpnPlugin.OnTunnelDone | src/nm-snx-service.c:795-812 | a cancelled result is dropped, a published tunnel is finished |
| Plugin.SnxVpnPlugin.AddBypassRoute | src/nm-snx-service.c:386-392 | the route added for the address read is the route recorded |
| Plugin.SnxVpnPlugin.CheckAndPublish | src/nm-snx-service.c:772-793 | cancelled: everything is given back; otherwise: everything is published |
| Forwarding.AtMostOneReport | src/nm-snx-service.c:423-431 | under every interleaving at most one failure is posted between a start and the end of the next teardown |
| Forwarding.ExactlyOneReport | src/nm-snx-service.c:419-431 | if both threads end by themselves, exactly one failure is posted |
| Forwarding.LateCheckPostsNothing | src/nm-snx-service.c:424-427 | a thread whose check comes after the teardown set the flag never posts in that session |
| Forwarding.TeardownIsNoFailure | src/nm-snx-service.c:566-582 | if nothing fails before a teardown has set the flag, no failure is ever posted, whatever fails because of the teardown or during it |
| Forwarding.RearmedWhenAlone | src/nm-snx-service.c:607-625 | both flags are re-armed only when neither thread runs |
| Forwarding.ThreadsRunOut | src/nm-snx-service.c:441-542 | once socket and wake descriptor are signalled each thread ends within a bound on its own steps, whoever runs when |
| Forwarding.JoinsComplete | src/nm-snx-service.c:589-614 | when the threads can take no more steps both joins go through |
| Forwarding.NeverStuck | src/nm-snx-service.c:454-542 | an unblocked thread that has not returned can always take a step |
| Forwarding.TeardownUnblocks | src/nm-snx-service.c:589-605 | in every run a teardown that waits for a thread has unblocked it, if there is a wake descriptor |
| Forwarding.OneMorePacket | src/nm-snx-service.c:454-491 | at most one more packet goes up after the wake descriptor was written |
| Forwarding.MissesBounded | src/nm-snx-service.c:544-564 | the counter of misses stays in 0..3 under every interleaving |
| Forwarding.SignsOfLife | src/nm-snx-service.c:498-542 | data handed to the device and keepalives reset the misses, nothing else that is received does |
| Forwarding.StuckOnlyAfterThree | src/nm-snx-service.c:550-554 | a stuck tunnel is reported only after three keepalives sent since the last sign of life |
| Forwarding.SilentLinkIsReported | src/nm-snx-service.c:544-564 | while the link is silent at most four ticks come, and the fourth reports and removes the timer |
| Forwarding.TimerStaysOff | src/nm-snx-service.c:550-561 | a timer that was removed does not fire again in its session |
| Forwarding.KeepaliveMonitor.OnKeepaliveTick | src/nm-snx-service.c:544-564 | an uninterrupted tick is the three steps of the machine, and stays exactly while the timer is on |
| Downlink.DownlinkThread | src/nm-snx-service.c:498-542 | the loop hands over, resets and ends as the specification says, and terminates |
| Downlink.DataReachesDevice | src/nm-snx-service.c:498-542 | for every split of the stream the device gets exactly the data packets in order, and every data packet and keepalive resets the counter, unless the receive buffer reaches its limit of 4 GiB |
| Downlink.FatalWriteStops | src/nm-snx-service.c:515-523 | a fatal write ends the loop with that packet, unless the receive buffer reaches its limit before |
| Downlink.OwnKeepaliveIsRecognised | src/snx-ssl-tunnel.c:365-384 | the keepalive this side sends passes the test the downlink applies |
| Downlink.KeepaliveExactly | src/nm-snx-service.c:528-538 | a control text counts as keepalive if and only if it is one list, in any layout, whose first item is the atom "keepalive" |
| SslTunnel.TunnelReader.ReadOnePacket | src/snx-ssl-tunnel.c:95-120 | decodes the buffer, reading more until that succeeds or fails |
| SslTunnel.ReadsFirst | src/snx-ssl-tunnel.c:95-120 | however the bytes are cut up, the first frame yields its packet and the rest is kept; only a frame within one chunk of 4 GiB can meet the limit of the buffer |
| SslTunnel.Reassembles | src/snx-ssl-tunnel.c:95-120 | for all frames under 4 GiB and every split, repeated reads return exactly the packets encoded, in order, unless the receive buffer reaches its limit; with a chunk to spare it never does |
| SslTunnel.ReassemblesAll | src/snx-ssl-tunnel.c:95-120 | after the last packet the buffer is empty and the end of the stream is reported, under the same limit |
| SslTunnel.PacketUsesBacklog | src/snx-ssl-tunnel.c:104-107 | every packet uses up at least a header, whatever the bytes are |
| SslTunnel.OutputStream.WriteAll | src/snx-ssl-tunnel.c:85-93 | partial writes put exactly a prefix on the wire, all of it on success |
| SslTunnel.OutputStream.Send | src/snx-ssl-tunnel.c:351-363 | one whole frame on success, a proper prefix of it on failure, and the lock is free afterwards |
| SslTunnel.WireIsFramed | src/snx-ssl-tunnel.c:351-384 | for all senders and pieces: until the first failed write the wire is whole frames in lock order and at most a prefix of one more, and whole frames while the lock is free |
| SslTunnel.SentIsReceived | src/snx-ssl-tunnel.c:351-390 | what any run of senders wrote, cut up in any way, is read back in the order of lock acquisition, unless the receive buffer reaches its limit |
| Slim.PutBe32 | src/snx-slim.c:43-50 | writes the four bytes and nothing else |
| Slim.SlimEncode | src/snx-slim.c:58-90 | fills the buffer with header and payload |
| Slim.SlimDecode | src/snx-slim.c:92-136 | waits, refuses an unknown type without consuming, or returns packet and size |
| Slim.DecodeInverse | src/snx-slim.c:58-136 | a frame with anything behind it is decoded as its packet and size if and only if it is under 4 GiB |
| Slim.DecodePrefix | src/snx-slim.c:102-107 | a frame that is cut short is not decoded |
| Slim.FrameBytes | src/snx-slim.c:58-90 | a frame is its payload length and 1 or 2, most significant byte first, and the payload, which for control text ends in a NUL |
| Slim.OtherTypesRefused | src/snx-slim.c:102-136 | a complete frame of any other type is refused |
| IpRange.WidestBlock | src/snx-ip4-config.c:144-187 | the inner loop in 32-bit arithmetic finds the widest aligned block that fits, up to 2^31 addresses |
| IpRange.RangeToCidrs | src/snx-ip4-config.c:144-187 | the loop prints the greedy cut and no addition wraps |
| IpRange.ExactPartition | src/snx-ip4-config.c:144-187 | the blocks are aligned, ascending and disjoint, and their union is exactly the range |
| IpRange.FewestBlocks | src/snx-ip4-config.c:144-187 | no set of blocks with prefixes 1..32 covers the range with fewer members |
| IpRange.GreedyIsCover | src/snx-ip4-config.c:144-187 | the blocks of the cut are such a set, and no two are equal |
| IpRange.PrefixZeroOnlyHelpsFullRange | src/snx-ip4-config.c:144-187 | allowing prefix 0 gives a shorter cover if and only if the range is the whole space, which yields two /1 blocks |
| IpRange.RisesThenFalls | src/snx-ip4-config.c:144-187 | sizes strictly rise and then strictly fall; only the two blocks at the peak can be equal |
| IpRange.AtMost62 | src/snx-ip4-config.c:144-187 | one range gives at most 62 blocks |
| IpRoutes.RoutesFromStrings | src/snx-ip4-config.c:123-142 | all routes in order, or none if one spec is invalid |
| IpRoutes.PrintedSpec | src/snx-ip4-config.c:27-121 | of a printed address and prefix NetworkManager keeps the network, netlink the address |
| IpRoutes.SpecExactly | src/snx-ip4-config.c:74-121 | accepted is exactly: blanks, an address, a slash, a number up to 32 with no space, tab or slash in it, blanks; the result is the network of the address |
| IpRoutes.PrintedNumber | src/nm-snx-service.c:142-158 | of any printed number netlink takes the low eight bits, NetworkManager accepts only those up to 32 |
| IpRoutes.BlockThroughText | src/nm-snx-service.c:142-158 | a printed block is read back as that block by both readers |
| IpRoutes.ReadersAgree | src/nm-snx-service.c:142-158 | for every text: on a spec NetworkManager accepts the readers agree if and only if an address without host bits stands in front of the slash; on any other if and only if no address does |
| IpRoutes.UserRoutesAgree | src/nm-snx-service.c:142-158 | on a stored route that NetworkManager accepts the readers agree if and only if the address is a multiple of 2^(32 - prefix) |
| IpRoutes.HostBitsDisagree | src/nm-snx-service.c:142-158 | 10.1.2.3/16 is 10.1.2.3/16 for netlink and 10.1.0.0/16 for NetworkManager |
| IpRoutes.NetmaskToPrefix | src/nm-snx-service.c:125-140 | counts the ones in front of a mask, 32 if there is none |
| IpRoutes.MaskToPrefix | src/nm-snx-service.c:125-140 | a proper mask is read back as its prefix and no other |
| RouteSpecs.PrivateSubnetMeaning | src/snx-ip4-config.c:189-221 | a subnet is inferred exactly for the addresses of section 3 of RFC 1918, contains the host, and is a /24 in 192.168/16 and a /16 elsewhere |
| RouteSpecs.AppendSpecs | src/nm-snx-service.c:275-311 | the loop appends what the servers in use stand for, skipping ignored servers and specs already listed |
| RouteSpecs.AppendGatewaySpecs | src/nm-snx-service.c:326-335 | the blocks of all gateway ranges, in order |
| RouteSpecs.CollectRouteSpecs | src/nm-snx-service.c:320-352 | the collected list, in order |
| RouteSpecs.ListedOnce | src/nm-snx-service.c:275-311 | the list starts with the blocks of the gateway, and no server adds a spec that is already listed |
| RouteSpecs.RouteSet | src/nm-snx-service.c:320-352 | the addresses matched after printing and reading back are exactly the gateway ranges, the DNS hosts in use, their private subnets when inferred, and the added routes |
| RouteSpecs.GeneratedSpecsAgree | src/nm-snx-service.c:313-352 | the list is the generated one with the user's routes behind it, and both readers agree on every generated spec, listed by the user or not |
| RouteSpecs.RoutesFromMatches | src/snx-ip4-config.c:123-142 | reading succeeds if and only if every spec parses, and then matches the same addresses |
| Ipv4Text.PtonOfNtop | src/snx-ip4-config.c:44-68 | a printed address is read back |
| Ipv4Text.PtonOnlyNtop | src/snx-ip4-config.c:44-68 | the reader accepts nothing but the printed form |
| Ipv4Text.NtopIsQuad | src/snx-ip4-config.c:44-68 | an address is printed as four decimal numbers, most significant first, with dots between them |
| Decimal.StrtoulOfDec | src/snx-ip4-config.c:27-42 | a printed number is read back, up to the text behind it |
| Sexpr.Parser.constructor | src/snx-sexpr.c:139-146 | the parser starts at the beginning of its input |
| Sexpr.Parser.SkipWhitespace | src/snx-sexpr.c:16-21 | the position moves past the blanks and no further |
| Sexpr.Parser.ParseQuotedAtom | src/snx-sexpr.c:35-73 | the loop unescapes up to the closing quote, or fails without one |
| Sexpr.Parser.ParseAtom | src/snx-sexpr.c:75-96 | takes the longest run of characters that are no blank and no parenthesis, which must not be empty |
| Sexpr.Parser.ParseList | src/snx-sexpr.c:98-125 | the loop collects children up to the closing parenthesis |
| Sexpr.Parser.ParseExpression | src/snx-sexpr.c:127-137 | dispatches on the first character, and always moves on when it succeeds |
| Sexpr.ParseText | src/snx-sexpr.c:139-165 | one expression and nothing but blanks behind it |
| Sexpr.FindField | src/snx-sexpr.c:248-260 | the value of the first field with the key |
| Sexpr.GetByPath | src/snx-sexpr.c:262-275 | follows the parts of a path, skipping empty ones |
| SexprGrammar.BareIsRead | src/snx-sexpr.c:75-96 | any text without blanks and parentheses that does not start with a quote is read as one atom, whatever else is in it |
| SexprGrammar.QuotedTextIsRead | src/snx-sexpr.c:35-73 | any text at all comes back from between quotes when it is escaped |
| SexprGrammar.ReaderIsGrammar | src/snx-sexpr.c:16-137 | an expression is read, with what is left behind it, if and only if the text is blanks and a well formed layout that means the expression, and the rest |
| SexprGrammar.TextIsGrammar | src/snx-sexpr.c:139-165 | a whole text is read if and only if it is one well formed layout between blanks |
| SexprLookup.FindsFirst | src/snx-sexpr.c:205-260 | a key finds a value if and only if it stands at a place for keys with the value behind it, and at no such place before |
| SexprLookup.PathLeadsDown | src/snx-sexpr.c:262-275 | a path of any length leads from field to field |
| SexprWriter.NodeStore.AddField | src/snx-sexpr-writer.c:65-72 | appends key and value to an object and leaves every other node alone |
| SexprWriter.NodeStore.SetString | src/snx-sexpr-writer.c:74-81 | a missing value is not written at all |
| SexprWriter.NodeStore.AddObject | src/snx-sexpr-writer.c:97-104 | a new empty object becomes the last field |
| SexprWriter.NodeStore.SerializeNode | src/snx-sexpr-writer.c:123-148 | appends the text of the tree the node stands for |
| SexprWriter.TreeReads | src/snx-sexpr-writer.c:106-157 | the text of a clean tree at any indent, with anything behind it, is read as exactly that tree |
| SexprWriter.RoundTrip | src/snx-sexpr-writer.c:106-157 | parsing the text of a clean tree succeeds, consumes all of it and gives the tree it denotes |
| SexprWriter.ValueRoundTripExact | src/snx-sexpr-writer.c:106-130 | a value survives if and only if it holds neither a quote nor a backslash |
| SexprWriter.FindsField | src/snx-sexpr.c:205-260 | a lookup in the tree read back finds what was written first under the key |
| Obfuscate.Translate | src/snx-obfuscate.c:35-49 | both loops together mask every byte at its place and reverse the order |
| Obfuscate.ObfuscateData | src/snx-obfuscate.c:51-62 | the hex of the translated data |
| Obfuscate.UnhexText | src/snx-obfuscate.c:80-92 | reads two digits a byte, or fails |
| Obfuscate.DeobfuscateHex | src/snx-obfuscate.c:64-108 | odd length and bad digits fail, otherwise reversed, translated and reversed again |
| Obfuscate.InverseExactly | src/snx-obfuscate.c:27-108 | decoding what was encoded succeeds, and gives the data back if and only if no byte is 0 or 255 xor its table entry |
| Obfuscate.ByteAt | src/snx-obfuscate.c:27-62 | byte i is sent, at its place from the end, as the two digits of (byte mod 255) xor entry i mod 77 of the table, with 255 for 0 |
| Obfuscate.DecodesExactly | src/snx-obfuscate.c:64-92 | what can be decoded is an even number of hexadecimal digits in either letter case |
| Obfuscate.KnownVector | src/snx-obfuscate.c:20-62 | "a" is sent as 4c, and the table starts again at the 78th place |
| Obfuscate.AsciiSurvives | src/snx-obfuscate.c:20-33 | the bytes 1..127 survive everywhere |
| Obfuscate.DecodedHasNoNul | src/snx-ccc.c:307-320 | decoded data holds no NUL, so taking it as a string never shortens it |
| Ccc.AddClientLoggingData | src/snx-ccc.c:225-235 | adds the object with the system name, and the machine id if there is one |
| Ccc.StartLogin | src/snx-ccc.c:261-269 | root, header and data in place before they are filled |
| Ccc.AddLogin | src/snx-ccc.c:271-274 | the login fields in order, the login option only if there is one |
| Ccc.AuthNodesTree | src/snx-ccc.c:258-280 | the nodes mutated step by step stand for the whole request |
| Ccc.BuildAuthRequest | src/snx-ccc.c:258-280 | the text of that request with both credentials scrambled |
| Ccc.CredentialPipeline | src/snx-ccc.c:258-320 | scrambled, written, parsed, found by path and unscrambled, a credential comes back if and only if it is not empty and all its bytes survive |
| Ccc.AsciiIsTransmissible | src/snx-ccc.c:258-320 | that holds for every non-empty ASCII credential |
| Challenge.StartChallenge | src/snx-ccc.c:285-296 | the header of a challenge is complete, with a session id only if there is one |
| Challenge.AddAnswer | src/snx-ccc.c:298-300 | the answer fields in order |
| Challenge.ChallengeNodesTree | src/snx-ccc.c:282-305 | the nodes mutated step by step stand for the whole request |
| Challenge.BuildChallengeRequest | src/snx-ccc.c:282-305 | the text of that request with the answer scrambled |
| Challenge.ChallengePipeline | src/snx-ccc.c:282-320 | the request carries the session id in both places, and the answer comes back if and only if it is not empty and all its bytes survive |
| RequestTexts.LoginRequestIs | src/snx-ccc.c:258-280 | the login request character by character, for all credentials and options |
| RequestTexts.AnswerIs | src/snx-ccc.c:282-305 | the answer to a challenge character by character |
| AuthReplies.ReplyIsRead | src/snx-ccc.c:443-468 | status, session id, user name and authentication are what the gateway wrote first under their keys |
| AuthReplies.KeyIsRead | src/snx-ccc.c:443-468 | the session key comes out of a reply if and only if it survives the scrambler |
| AuthReplies.SecretsAreRead | src/snx-ccc.c:443-468 | key, prompt and error message each come out of their own field, if and only if they survive the scrambler |
| AuthReplies.NoDataNoResult | src/snx-ccc.c:443-453 | a reply without response data has no result |
| HttpBody.Dechunk | src/snx-ccc.c:55-90 | the loop removes the framing, with its position growing on every round; sizes may have blanks, a sign or 0x in front |
| HttpBody.DechunkInverse | src/snx-ccc.c:55-90 | for every split into non-empty chunks the framing is removed exactly |
| HttpBody.CutChunks | src/snx-ccc.c:55-90 | a body cut between chunks is the body so far; cut in a size line, in the data or right behind them it is refused; one character of the last line break may be missing |
| HttpBody.ParseHttpResponse | src/snx-ccc.c:92-150 | headers, framing and status are taken apart as specified; a bad body is reported before a bad status |
| HttpReplies.ChunksOf | src/snx-ccc.c:55-90 | every split of a body into non-empty parts is a valid sequence of chunks with sizes printed in hexadecimal |
| HttpReplies.ChunkedReply | src/snx-ccc.c:92-150 | among any other header lines, one that says chunked, in any letter case, has the parts put together, or the status reported, for every code, split and tail |
| HttpReplies.PlainReply | src/snx-ccc.c:92-150 | with one length header among lines that mention neither, the body is that much of what arrived, or all of it when less arrived or the length is negative |
| HttpReplies.UnframedReply | src/snx-ccc.c:134-141 | with neither header the body is all that arrived |
| HttpReplies.BadChunksFirst | src/snx-ccc.c:129-149 | chunks that cannot be put together are reported whatever the code |
| HttpReplies.NoHeadEnd | src/snx-ccc.c:97-114 | refused for its head if and only if there is no blank line |
| HttpReplies.FramingIsTransparent | src/snx-ccc.c:92-150 | whatever the other headers, both framings of one body give the same result, whatever trails the reply |
| Netlink.PutAttr | src/snx-netlink.c:51-71 | says whether there is room, and the buffer is the one specified |
| Netlink.PutKeeps | src/snx-netlink.c:51-71 | the aligned length stays in the buffer, everything in front of the new attribute but the length field is untouched, a refused put changes nothing |
| Netlink.PutsAreWalked | src/snx-netlink.c:291-299 | after any sequence of puts the reply walk finds exactly the accepted attributes in order |
| Netlink.BuildRouteRequest | src/snx-netlink.c:309-389 | a route request always fits; its bytes and attributes are given one by one: the destination under type 1, the interface under 4, and the gateway, if there is one, under 5 |
| Netlink.AddAndDelete | src/snx-netlink.c:309-389 | both requests byte by byte: types 24 and 25, flags, the same fields and the same attributes |
| Netlink.RequestIsRead | src/snx-netlink.c:341-387 | read back, type 1 gives the destination, 4 the interface and 5 the gateway, and no other type is there |
| Netlink.RouteGateway | src/snx-netlink.c:291-299 | the loop ends with the four bytes behind the last gateway and the last interface header of the reply, however long those attributes say they are, if these bytes are inside the buffer |
| Netlink.LookupGivesLast | src/snx-netlink.c:291-299 | when those attributes have their four bytes, all that is copied lies in the reply and is the data of the last gateway and the last interface |

## Left out

- The editors, dialogs, command-line tools and packaging.
- Sockets, TLS, certificates, D-Bus, the TUN device and the kernel: their outcomes are parameters or steps. C library and GLib calls that read or print text (`inet_pton`, `inet_ntop`, `strtoul`, `%u`, `g_strsplit`, `g_strstrip`) are modelled as functions.
- Requests other than route requests (`snx_netlink_link_up`, `snx_netlink_addr_add`, the lookup itself), and sending, which adds the acknowledge flag to a request: they would add easy members only.
- Byte order: addresses are numbers in host order, netlink words are little-endian.
- Races on memory inside one step, and on the configuration a cancelled worker still reads: the steps named above are atomic here, and whether a bypass route is wanted is the choice of the worker.
- Running out of memory, and what is left when the process exits while a worker is running: the kernel takes back its descriptors, but not its routes.
- Other routes in the kernel: the table holds the bypass routes only, and a host route through the tunnel to the address of the gateway itself is not part of this model. A lookup of the physical path is a parameter of the add.
- Plugin.SnxVpnPlugin.NewSecrets: outside of an attempt the call is modelled, but no run continues behind a code accepted there; `Conservation.SecretsAfterDisconnectEscape` says why.
- `src/snx-config.c`, the client hello request, and the parsing of gateway information and hello replies: branch by branch and easy; their results are inputs. `ignore_routes` is parsed but plays no part in the code modelled here.
- Search domains and the domain normalizers: only whether there are search domains matters for routes.
- The order in which GLib runs idle callbacks after a failure was posted, and what NetworkManager does about it.
- Forwarding.ThreadsRunOut: without a wake descriptor (`eventfd` failed) nothing bounds how long the uplink waits, as the source says; signals that interrupt its poll are bounded by a number.
- HttpBody.Dechunk: a chunk size near 2^64 or with a minus sign, for which the sum with the position wraps in `gsize`, is read as too large for the data.
- HttpBody.DechunkInverse: chunk sizes are plain hexadecimal digits without extension, the canonical form of section 7.1 of RFC 9112.
- HttpReplies.FramingIsTransparent: codes below 2^31, and at most one header line with a length; further ones are read by `HttpBody.ParseHttpResponse`, which takes the first.
- Netlink.RouteGateway: what the loop reads past the end of the receive buffer, when a truncated attribute is the last thing in it, is not modelled.
- Obfuscate.TABLE and text encodings: credentials are bytes; how a desktop encodes them is not modelled.
