# proxy-gateway: verified model of the gateway core

proxy-gateway is a multi-user Hysteria2/Trojan gateway. This project models the
parts whose correctness depends on interleavings, byte-exact framing or exact
arithmetic, and proves what they promise over every input and every run.

| files | part of the gateway |
|---|---|
| `Basics`, `Decimals` | shared notions: options, bytes, 64-bit words, decimal digits |
| `Identity`, `Calendar`, `Meters`, `TrafficLedger`, `LedgerSafety`, `LedgerRuns`, `LedgerQuota`, `LedgerTimes`, `RelayQuota`, `TrafficLogger` | traffic accounting: charges, flushes, month loads, quota, stop |
| `DownloadLimiter` | the per-user download reservation timeline |
| `OutboundNodes` | outbound node workers, reconnect tokens, the connect semaphore |
| `TrojanWire`, `IPTextLaws`, `TrojanPackets`, `TrojanHandler`, `TrojanLaws`, `TrojanRelay`, `TrojanService`, `TrojanShutdown` | the Trojan inbound: framing, classification and replay, metered copies, slots and shutdown |
| `Authenticator`, `PolicyKernel` | password and Trojan authentication, hot refresh, sessions |
| `SortedNames`, `Management`, `RuntimeUsers` | the managed configuration database, its revision, and the users loaded from it |
| `SubToken`, `ByteQuantity`, `Megabytes` | base-62 tokens, byte quantities and their megabyte display |

## How it is built

Concurrent parts are step systems: one step is one critical section, one channel
operation or one transaction, and a run is any sequence of enabled steps. A
`StepKeeps` lemma shows that each step keeps the invariant, `RunKeeps` lifts it to
every state of every run, and the theorems read their guarantees off it. The code
that works in place is a class or a loop whose contract says that it performs
exactly one such step, so the run theorems apply to it. Parsers are functions of a
byte string and a position; the reader class shows that any fragmentation of the
same bytes computes those functions.

The central statements:

- The quota cache of the loaded month is always persisted plus in-flight plus
  pending bytes, whatever interleaving of charges, failed and successful flushes and
  month loads led there (`LedgerRuns.BooksExact`). Hence forwarded bytes never pass
  a fixed quota (`LedgerQuota.ForwardedWithinQuota`, for whole relays
  `RelayQuota.RelaysWithinQuota`), and once a stop has succeeded the
  database alone accounts for every byte (`LedgerRuns.DrainedForever`).
- Live reservations never overlap, so no window passes more than rate times its
  length plus one chunk (`DownloadLimiting.RateLimited`).
- No reconnect is lost, no stale failure harms a newer client, and every client has
  exactly one closer (`OutboundNodes.NodeGuarantees`).
- The website fallback changes nothing for proxy users and replays every visitor
  byte (`TrojanHandling.SameProxied`, `TrojanHandling.ReplayIsLossless`).
- Password and Trojan logins answer alike after every refresh
  (`PolicyKernel.LoginsAgree`), given the names that every store built by management
  operations provides (`RuntimeUsers.ManagedNamesOk`); the exact condition is that of
  `Authentication.PathsAgreeExactly`.
- Equal revisions mean equal topology over a run exactly when no import takes effect
  late (`Management.RevisionTellsExactly`).
- Packet streams, route ids, proofs, megabyte texts and base-62 tokens are undone by
  their readers or tied to the number they denote.

What the theorems assume of foreign code is kept small and shown to be satisfiable:
months (`Calendars.SomeCalendar`), IP text (`IPTextLaws.TextLawsMet`), and a hash
without collisions at the published credentials (`Authentication.HypothesesMet`,
`PolicyKernel.SomeRun`). The kernel's own run theorems assume nothing of the hash.

Beside the theorems that relate parts to one another, laws pin the meaning of each part
on its own terms: how a charge is answered by the books (`LedgerQuota.AnsweredByBooks`),
what bytes a parser reads (`TrojanLaws`), who is let in and when
(`Authentication.LoginExactly`), what a gateway loads after each management operation
(`RuntimeUsers`), and the alphabet, units and white space of the small cores.

## Findings

Some desirable statements do not hold without a condition; each has a concrete
input and the exact condition.

- A cancel that arrives after a wake can match the tail of the new timeline and free
  time that is still reserved. `LateCancelOverlaps` shows a run with a queued chunk in
  which two live reservations then overlap; `LateCancelExactly` says when every next
  booking is safe, `LateCancelSafe` when the timeline itself is.
- `MigrateLegacy` sets the revision to 1. After a node was saved the same revision
  then names two topologies (`LateImportReusesRevision`). From a fresh counter the
  revision is sound if and only if no import takes effect at a nonzero revision
  (`RevisionTellsExactly`); refused imports are harmless.
- An enabled user with an empty name authenticates by Trojan credential and not by
  password (`EmptyNameDisagrees`). Go visits maps in any order, so the condition is
  stated for every order: all indexes that can be built make the paths agree if and
  only if every granted route is barred by its holder's state or has nonempty,
  colon-free names (`PathsAgreeExactly`). For one built index the same holds of the
  routes that own their entry (`IndexAgreesExactly`), and on colon-free names it means
  disabled, or both names nonempty (`ColonFreeAgreement`). `isValidName`
  (internal/storage/management.go:118) keeps other names out of the managed store.
- With colons in names two routes can share one raw proof, and the iteration order
  decides which owns the credential (`ColonNamesShare`); `OrderFreeExactly` says when
  the index is independent of the order.
- `AppendPacket` encodes domains that `ReadPacket` refuses: `SpacedNameRefused` shows
  one host, `PacketRoundTrip` gives both sides for all. A v4-mapped IPv6 address comes
  back as IPv4 (`MappedBecomesV4`).
- Legacy tokens keep twelve digest bytes but only sixteen base-62 digits, so distinct
  digests can share a token (`TwelveBytesCollide`; `TokensCollide` says exactly which).
- A refused charge is still counted, so a month's total can pass the limit: with
  nothing stored and a limit of 100, one charge of 150 leaves 150
  (`RefusedChargeCounts`). The total is within a fixed limit if and only if it began
  there and no charge of the month committed while the cached usage left no room for it
  (`TotalWithinExactly`). What never passes the limit
  is baseline plus admitted bytes, unless nothing was admitted
  (`ForwardedWithinQuota`); and once baseline plus charged bytes have passed it, every
  later charge of the month is refused (`OverQuotaStaysRefused`).

## Model

| member | source | states |
|---|---|---|
| Identity.ParseJoined | internal/auth/authenticator.go:245-251 | splitting `user:node` gives back the pair it was joined from, for every colon-free user |
| Identity.JoinParsed | internal/auth/authenticator.go:245-251 | conversely every id with a colon is the join of its parts, so ids and pairs correspond one to one |
| Identity.ParseRawProof | internal/auth/authenticator.go:224-242 | a Trojan raw password splits back into user, node and password, whatever colons the password has |
| Identity.RejoinProof | internal/auth/authenticator.go:224-242 | a proof whose split names a node is exactly the join of the three parts |
| Calendars.WindowIsMonth | internal/traffic/logger.go:138-143 | the half-open window on stored seconds selects exactly the instants of one month |
| Calendars.SomeCalendar | internal/traffic/logger.go:138-143 | the assumptions on months can be met |
| Calendars.UnixKeepsMonth | internal/storage/sqlite.go:187-192 | truncating a timestamp to seconds never moves it to another month |
| Meters.BatchSumPick | internal/traffic/logger.go:247-256 | batch totals do not depend on map iteration order |
| Meters.MergeSum | internal/traffic/logger.go:266-280 | merging two batches adds their totals under every user-month, route-month and route meter |
| Meters.PersistSum | internal/storage/sqlite.go:183-199 | the rows inserted for a batch, in any order, total exactly the batch, although empty records are skipped |
| Meters.WindowIsUserMonth | internal/storage/management.go:587-603 | the SQL window sum of a month equals the user's bytes logged in that month |
| TrafficLedger.NegateSubtracts | internal/traffic/logger.go:249-250 | adding the complement of x-1 subtracts x modulo 2^64, also for x = 0 |
| TrafficLedger.UpsertExact | internal/storage/sqlite.go:169-176 | one upsert keeps a summary row equal to the sum and latest time of its log rows |
| TrafficLedger.UpsertAllExact | internal/storage/sqlite.go:183-199 | a whole flush keeps the summary table exact and never moves `updated_at` back |
| TrafficLedger.InitInv | internal/traffic/logger.go:102-113 | a fresh process over any consistent database satisfies the ledger invariant |
| LedgerSafety.CommitKeeps | internal/traffic/logger.go:331-361 | committing a charge keeps cache, conservation, deltas and record months exact |
| LedgerSafety.DetachKeeps | internal/traffic/logger.go:244-252 | detaching pending for a flush keeps the invariant and zeroes the deltas |
| LedgerSafety.PersistKeeps | internal/storage/sqlite.go:150-202 | a committed flush transaction moves the batch into the log without changing any total |
| LedgerSafety.MergeBackKeeps | internal/traffic/logger.go:262-280 | a failed flush restores the batch beside newer charges, losing and doubling nothing |
| LedgerSafety.BeginLoadKeeps | internal/traffic/logger.go:145-172 | the totals read for a month, forward or back, are the log's own |
| LedgerSafety.InstallKeeps | internal/traffic/logger.go:173-186 | installing them with the pending bytes makes the cache exact for that month |
| LedgerSafety.StepKeeps | internal/traffic/logger.go:145-361 | every step of the ledger keeps the whole invariant |
| LedgerRuns.RunKeeps | internal/traffic/logger.go:145-361 | the invariant holds in every state of every interleaving |
| LedgerRuns.BooksExact | internal/traffic/logger.go:145-361 | cache = persisted + in flight + pending; charged = the same for every meter; deltas = pending totals; summary = log |
| LedgerQuota.CommitWithinQuota | internal/traffic/logger.go:356-371 | an admitted charge saw a total that already held every byte admitted before it |
| LedgerQuota.QuotaStep | internal/traffic/logger.go:356-371 | every step keeps baseline plus admitted bytes within the fixed limit |
| LedgerQuota.QuotaInductive | internal/traffic/logger.go:331-371 | the quota bound holds in every state of every run with a fixed positive limit |
| LedgerQuota.ForwardedWithinQuota | internal/traffic/logger.go:331-371 | baseline plus admitted, and plus forwarded, bytes stay within the limit across nodes, relays and month reloads, or nothing was admitted or forwarded |
| LedgerQuota.OverQuotaStaysRefused | internal/traffic/logger.go:356-371 | once baseline plus charged bytes of a user-month pass a fixed limit, no later charge of that month is admitted, over any flushes and reloads |
| LedgerQuota.TotalWithinExactly | internal/traffic/logger.go:356-371 | the charged total is within a fixed limit if and only if it began there and no charge of the month committed while the cached usage left no room for it |
| LedgerQuota.AnsweredByBooks | internal/traffic/logger.go:340-371 | in every run a commit records its own charge, answered false if and only if the limit is positive and persisted plus in-flight plus pending bytes of the month plus the charge exceed it |
| LedgerQuota.UnlimitedNeverRefused | internal/traffic/logger.go:360-371 | a user whose limit is zero is refused no charge in any state of any run |
| LedgerTimes.CommitGenuine | internal/traffic/logger.go:350-354 | a charge leaves the pending record at the instant of a charge of its route and month |
| LedgerTimes.MergeTimes | internal/traffic/logger.go:267-276 | a merge-back keeps the later instant of every record |
| LedgerTimes.PersistShows | internal/storage/sqlite.go:183-199 | a flush stores for every charge a row no earlier than it |
| LedgerTimes.RunTimes | internal/traffic/logger.go:145-361 | in every run each charge with bytes shows at its second or later in what is pending, in flight or stored for its route and month, and every recorded instant is that of a charge |
| LedgerQuota.RefusedChargeCounts | internal/traffic/logger.go:356-371 | a four-step run in which one refused charge takes the total from 0 to 150 under a limit of 100 |
| RelayQuota.DrawnAdmitted | internal/traffic/logger.go:356-371 | charges drawn from a history, none twice, admit no more bytes than the history |
| RelayQuota.RelaysWithinQuota | internal/inbound/trojan/service.go:471-542 | whatever any number of relays forward fits the limit with the baseline, or is nothing, when their admitted charges are distinct charges of one run; charges refused without a commit may occur |
| LedgerRuns.DrainedForever | internal/traffic/logger.go:214-230 | after a successful stop nothing is pending in any later state, no charge commits, and the log holds every byte ever charged |
| LedgerRuns.SummaryMonotone | internal/storage/sqlite.go:169-176 | over a run, summary rows never disappear and their `updated_at` never moves back |
| TrafficLogging.LowerDeltas | internal/traffic/logger.go:247-251 | the loop lowers each route's counters by exactly its share of the batch modulo 2^64 |
| TrafficLogging.RaiseDeltas | internal/traffic/logger.go:277-279 | the loop raises each route's counters by exactly its share of the batch |
| TrafficLogging.Restore | internal/traffic/logger.go:267-276 | the merge-back loop yields the batch that holds the bytes and latest times of both |
| TrafficLogging.RebuildUsage | internal/traffic/logger.go:173-184 | the rebuilt cache is the loaded totals plus the pending bytes of that month, per user |
| TrafficLogging.ListBatch | internal/traffic/logger.go:253-256 | the record list enumerates the batch, each key once |
| TrafficLogging.BuildRows | internal/storage/sqlite.go:182-201 | a transaction that survives every statement inserted exactly the non-empty records and their upserts |
| TrafficLogging.SQLiteStore.FlushTraffic | internal/storage/sqlite.go:150-202 | all or nothing: both tables gain the whole batch, or neither changes |
| TrafficLogging.SQLiteStore.GetUserMonthlyUsage | internal/storage/management.go:587-603 | the result holds each user's total over the half-open window |
| TrafficLogging.TrafficLogger.CommitCharge | internal/traffic/logger.go:340-371 | the critical section is exactly the commit step, and its answer is the quota decision |
| TrafficLogging.TrafficLogger.DetachPending | internal/traffic/logger.go:244-252 | performs exactly the detach step and returns the old pending map |
| TrafficLogging.TrafficLogger.MergePending | internal/traffic/logger.go:266-281 | performs exactly the merge-back step |
| TrafficLogging.TrafficLogger.InstallMonth | internal/traffic/logger.go:173-184 | performs exactly the install step of a month load |
| TrafficLogging.TrafficLogger.WriteBatch | internal/traffic/logger.go:253-262 | persists the batch as one step, or leaves the whole state unchanged |
| DownloadLimiting.StepDisjoint | internal/traffic/logger.go:396-406 | a reservation, a cancel of a live reservation and a wake keep live reservations ordered and disjoint |
| DownloadLimiting.RunDisjoint | internal/traffic/logger.go:396-448 | in every run, live reservations since the last wake are disjoint and end by `next` |
| DownloadLimiting.WindowBound | internal/traffic/logger.go:396-406 | disjoint reservations at one pace start at most pace times length plus one chunk in any window |
| DownloadLimiting.RateLimited | internal/traffic/logger.go:378-448 | that bound for every run at a fixed rate |
| DownloadLimiting.BookedStart | internal/traffic/logger.go:397-403 | a chunk is booked at the later of the clock and the end of the queue |
| DownloadLimiting.CancelUndoes | internal/traffic/logger.go:430-436 | cancelling the chunk booked last undoes the booking |
| DownloadLimiting.WakeFrees | internal/traffic/logger.go:438-448 | after a wake the next chunk starts at once |
| DownloadLimiting.RunNoneEarly | internal/traffic/logger.go:396-448 | in every run no live chunk starts before it was asked for |
| DownloadLimiting.DeparturesLimited | internal/traffic/logger.go:378-448 | of the chunks asked for from any instant on, what has left within a span is at most rate times span plus one chunk, however late each leaves |
| DownloadLimiting.LateCancelSafe | internal/traffic/logger.go:430-436 | a cancel from before a wake keeps disjointness if and only if it misses the tail or frees no live time |
| DownloadLimiting.LateCancelExactly | internal/traffic/logger.go:396-436 | after such a cancel every possible next booking is clear of the live ones if and only if the same condition holds |
| DownloadLimiting.LateCancelOverlaps | internal/traffic/logger.go:396-448 | a concrete run with a queued chunk: wake, new booking, late cancel, and then two live reservations that overlap |
| DownloadLimiting.DownloadLimiter.ReserveChunk | internal/traffic/logger.go:396-406 | performs the reserve step and returns the booked interval, which starts at the later of the clock and the old `next` |
| DownloadLimiting.DownloadLimiter.CancelReservation | internal/traffic/logger.go:430-436 | only the tail gives time back, for a live reservation and for one from before a wake |
| DownloadLimiting.DownloadLimiter.WakeUp | internal/traffic/logger.go:438-448 | resets the timeline |
| OutboundNodes.NodeStepKeeps | internal/outbound/factory.go:181-324 | every worker, report and shutdown step keeps the node invariant |
| OutboundNodes.SlotsKeep | internal/outbound/factory.go:199-206 | semaphore occupancy is always the number of workers between acquire and release |
| OutboundNodes.StepKeeps | internal/outbound/factory.go:181-324 | a step of any node keeps every node's invariant and the semaphore's |
| OutboundNodes.RunKeeps | internal/outbound/factory.go:181-324 | the invariant holds in every state of every interleaving of any number of nodes |
| OutboundNodes.NodeGuarantees | internal/outbound/factory.go:181-324 | no lost wakeup, no dropped or doubled token, exactly one closer per client, no closed client handed out, at most eight connects |
| OutboundNodes.WaitEndsOnlyAfterFailure | internal/outbound/factory.go:217-223 | the worker leaves its wait for a token only after that very client was marked dead, and consumes its token |
| OutboundNodes.NewerClientsAreSafe | internal/outbound/factory.go:227-242 | publishing never replaces a live client; a stale failure changes nothing; a closed client never returns |
| OutboundNodes.NodeEntry.SetReady | internal/outbound/factory.go:227-242 | performs the publish step, and in reachable states there is nothing to close |
| OutboundNodes.NodeEntry.ClearClient | internal/outbound/factory.go:295-309 | the locked half of a failure report; the caller owns the close exactly when it held the current client |
| OutboundNodes.NodeEntry.OfferToken | internal/outbound/factory.go:310-313 | the non-blocking send on the one-slot channel |
| OutboundNodes.NodeEntry.CurrentClient | internal/outbound/factory.go:254-266 | answers with the client exactly when the node has one and is Ready, which before shutdown is whenever it has one, and never with one handed to a closer |
| OutboundNodes.NodeEntry.CloseClient | internal/outbound/factory.go:316-324 | takes the current client for closing and leaves the status alone |
| TrojanWire.ReadCredential | internal/inbound/trojan/protocol.go:64-77 | consumes at most 58 bytes and never runs past the stream |
| TrojanWire.ReadRequest | internal/inbound/trojan/protocol.go:95-127 | consumes at most 262 bytes, so both headers fit 320 |
| TrojanWire.ReadPacket | internal/inbound/trojan/protocol.go:144-175 | stays within the stream and always makes progress on success |
| TrojanLaws.NameLaw | internal/inbound/trojan/protocol.go:251-266 | a name is accepted exactly when nonempty and free of control bytes and of the characters of the forbidden list |
| TrojanLaws.HostLaw | internal/inbound/trojan/protocol.go:216-246 | address type 1 is four bytes, 4 sixteen, 3 a counted nonempty name, and anything else or less is an invalid address |
| TrojanLaws.CredentialLaw | internal/inbound/trojan/protocol.go:64-77 | fifty-six characters of the hex digits, 13 and 10, with the error of every other stream |
| TrojanLaws.RequestLaw | internal/inbound/trojan/protocol.go:95-127 | for every stream: command 1 or 3, address, port `p * 256 + q`, 13 and 10 are read as exactly that request ending there, and every other stream gives the stated error |
| TrojanLaws.BodyLaw | internal/inbound/trojan/protocol.go:156-174 | port, length, 13, 10 and that many payload bytes, or the stated error |
| TrojanLaws.PacketLaw | internal/inbound/trojan/protocol.go:144-175 | a packet is its address and its body; a clean end only before the first byte |
| TrojanLaws.ZoneLaw | internal/inbound/trojan/protocol.go:190-192 | a zone index is cut at the first percent sign |
| TrojanLaws.EncodeLaw | internal/inbound/trojan/protocol.go:178-214 | the bytes of an encoded packet, and exactly when there are none |
| TrojanLaws.RequestExample | internal/inbound/trojan/protocol.go:95-127 | ten bytes that ask for 127.0.0.1 port 443 |
| TrojanLaws.PacketExample | internal/inbound/trojan/protocol.go:178-214 | the thirteen bytes of a two-byte packet to the same address |
| TrojanLaws.HeaderLimit | internal/inbound/trojan/protocol.go:21 | the header limit is 320 |
| TrojanLaws.ProxiedLaw | internal/inbound/trojan/service.go:199-258 | exactly the streams with a good header and an accepted credential are proxied, on the route their first 56 bytes authenticate as, with the stream after the header left |
| TrojanPackets.HostRoundTrip | internal/inbound/trojan/protocol.go:190-246 | an encoded address read anywhere in a stream is the delivered host, ending where it ends; ATYP is domain exactly for names |
| TrojanPackets.MappedBecomesV4 | internal/inbound/trojan/protocol.go:193-200 | a v4-mapped IPv6 address is read as, and written back as, its IPv4 address |
| TrojanPackets.BodyRoundTrip | internal/inbound/trojan/protocol.go:156-174 | port, length, CRLF and payload read back exactly |
| TrojanPackets.PacketRoundTrip | internal/inbound/trojan/protocol.go:144-214 | an encoded packet anywhere in a stream reads back when the receiver accepts its domain, and otherwise fails as an invalid address |
| TrojanPackets.SpacedNameRefused | internal/inbound/trojan/protocol.go:202-206 | the host `a b` is encoded and then refused as an invalid address |
| IPTextLaws.TextLawsMet | internal/inbound/trojan/protocol.go:193-200 | the laws assumed of IP text can be met |
| TrojanPackets.SendableEncodes | internal/inbound/trojan/protocol.go:178-214 | V4, non-mapped V6 and clean domains with a nonzero port and a payload of at most 65535 bytes always encode and are delivered unchanged |
| TrojanPackets.StreamRoundTrip | internal/inbound/trojan/protocol.go:144-214 | any concatenation of encoded packets reads back as exactly that list, then a clean end of stream |
| TrojanHandling.CredentialBound | internal/inbound/trojan/protocol.go:17-21 | the 320-byte limit never changes how a credential reads |
| TrojanHandling.RequestBound | internal/inbound/trojan/protocol.go:17-21 | the 320-byte limit never changes how a request after a credential reads |
| TrojanHandling.SameProxied | internal/inbound/trojan/service.go:199-258 | with and without website fallback the same streams are proxied, with the same route, request and remainder |
| TrojanHandling.ReplayIsLossless | internal/inbound/trojan/service.go:199-258 | a connection goes to the website exactly when it sent something and its header is not both complete and authentic; prefix plus rest is then the original stream and the prefix has 1 to 320 bytes |
| TrojanHandling.SlotDecides | internal/inbound/trojan/service.go:238-255 | without a free slot exactly the website connections get the over-capacity answer |
| TrojanHandling.HeaderReader.ReadSome | internal/inbound/trojan/service.go:215-217 | every fragment read through the limited tee is recorded |
| TrojanHandling.HeaderReader.Full | internal/inbound/trojan/protocol.go:66-68 | a full read does not depend on fragmentation, and a short one consumed the rest |
| TrojanHandling.HeaderReader.Credential | internal/inbound/trojan/protocol.go:64-77 | computes the credential function from any fragmentation |
| TrojanHandling.HeaderReader.Host | internal/inbound/trojan/protocol.go:216-246 | computes the address function from any fragmentation |
| TrojanHandling.HeaderReader.RequestHeader | internal/inbound/trojan/protocol.go:95-127 | computes the request function from any fragmentation |
| TrojanHandling.HeaderReader.PacketFrame | internal/inbound/trojan/protocol.go:144-175 | computes the packet function from any fragmentation |
| TrojanHandling.ScanDomain | internal/inbound/trojan/protocol.go:251-266 | accepts exactly nonempty names without control or target-ambiguous bytes |
| TrojanHandling.ScanCredential | internal/inbound/trojan/protocol.go:268-278 | accepts exactly 56 lower-case hex characters |
| TrojanHandling.Handle | internal/inbound/trojan/service.go:199-258 | the handler's decision is the outcome function; no session is issued for a website or over-capacity connection, and one is for a proxied one |
| TrojanRelay.CopyMetered | internal/inbound/trojan/service.go:519-542 | forwards a prefix of the source, each byte under a charge answered true first; a finished copy forwarded and charged everything |
| TrojanRelay.CopyRefreshingIdle | internal/inbound/trojan/fallback.go:129-151 | forwards a prefix of the source, and all of it when it finishes |
| TrojanRelay.ServeVisitor | internal/inbound/trojan/fallback.go:98-101 | the website receives a prefix of the visitor's original bytes, and all of them when the copy finishes |
| TrojanRelay.CopyAssociationPackets | internal/inbound/trojan/service.go:497-517 | the client stream is the encodable admitted datagrams in order and reads back as them; a failed write leaves a prefix; only the last charge can be refused |
| TrojanRelay.CopyClientPackets | internal/inbound/trojan/service.go:471-495 | the packets of the stream are charged in order and written exactly when admitted; without refusal or a closed flow all of them, ending with the stream's own error |
| TrojanServing.PendingKeep | internal/inbound/trojan/service.go:155-186 | occupancy of the pending channel stays the number of flagged handlers plus the accept loop's slot |
| TrojanServing.WebsiteKeep | internal/inbound/trojan/fallback.go:20-29 | occupancy of the website channel stays the number of its holders |
| TrojanServing.OwnersKeep | internal/inbound/trojan/service.go:155-305 | after any step every open connection has the accept loop or a live handler as owner |
| TrojanServing.SnapshotKeep | internal/inbound/trojan/service.go:338-352 | after the snapshot the registry only shrinks and stays inside it |
| TrojanServing.StepKeeps | internal/inbound/trojan/service.go:155-360 | every step keeps slots, flags, registry, owners and snapshot consistent |
| TrojanServing.RunKeeps | internal/inbound/trojan/service.go:155-360 | the invariant holds in every state of every interleaving |
| TrojanServing.ReleasesNeverBlock | internal/inbound/trojan/service.go:230-263 | whoever must give a slot back finds one, and occupancy is exactly the holders, within capacity |
| TrojanServing.AnonymousBounded | internal/inbound/trojan/service.go:155-263 | unauthenticated connections never exceed the two capacities together |
| TrojanServing.SnapshotCovers | internal/inbound/trojan/service.go:328-360 | in every state after Close's snapshot the registry lies within it and every open connection has an owner |
| TrojanServing.NothingLeaks | internal/inbound/trojan/service.go:155-186 | when the accept loop and all handlers are done, nothing is open, registered or counted |
| TrojanShutdown.SetUpstreamPublishes | internal/inbound/trojan/service.go:328-336 | before Close has begun setUpstream registers the handler's upstream beside its client |
| TrojanShutdown.PublishedStays | internal/inbound/trojan/service.go:155-360 | no step but the handler's own close ends that registration |
| TrojanShutdown.RelaysAreSnapshotted | internal/inbound/trojan/service.go:328-360 | over runs, an upstream set before Close and not yet closed by its handler is in Close's snapshot with its client |
| TrojanShutdown.NothingRegisteredAfterClose | internal/inbound/trojan/service.go:155-360 | once Close has set its flag the registry only shrinks |
| TrojanShutdown.ClosedForGood | internal/inbound/trojan/service.go:353-355 | what Close closes is open in no later state |
| TrojanServing.CollectConnections | internal/inbound/trojan/service.go:345-352 | the list holds exactly the registered clients and upstreams |
| TrojanServing.Listener.TryPending | internal/inbound/trojan/service.go:155-160 | takes a slot exactly when one is free and otherwise closes the client |
| TrojanServing.Listener.RegisterClient | internal/inbound/trojan/service.go:161-171 | registers exactly when Close has not begun |
| TrojanServing.Listener.SetUpstream | internal/inbound/trojan/service.go:328-336 | stores the upstream exactly when the client is registered and Close has not begun, and otherwise sends the handler to its cleanup |
| TrojanServing.Listener.Acquire | internal/inbound/trojan/fallback.go:20-27 | takes a website slot exactly when one is free |
| TrojanServing.Listener.Release | internal/inbound/trojan/fallback.go:29 | the release is always enabled for a visitor, so it never blocks |
| TrojanServing.Listener.SnapshotForClose | internal/inbound/trojan/service.go:344-352 | performs the snapshot step and returns everything registered |
| Authentication.PasswordImpliesTrojan | internal/auth/authenticator.go:48-138 | a proof that authenticates also does so by its credential, as the same id |
| Authentication.TrojanImpliesPassword | internal/auth/authenticator.go:48-138 | a credential that authenticates belongs to a proof that does, as the same id |
| Authentication.PathsAgree | internal/auth/authenticator.go:48-138 | for every string and clock value both paths give the same answer and id, in whatever order the index was built |
| Authentication.OddRouteDisagrees | internal/auth/authenticator.go:48-138 | a route that owns its index entry and is neither barred nor has plain names is answered differently by the two paths at some instant |
| Authentication.IndexAgreesExactly | internal/auth/authenticator.go:48-138 | with the index that was built, both paths agree on every string at every instant if and only if every route that owns its entry is barred or has plain names |
| Authentication.BuiltOwning | internal/auth/authenticator.go:185-195 | for any granted route some built index has it own its entry |
| Authentication.PathsAgreeExactly | internal/auth/authenticator.go:48-195 | every index that some iteration order builds makes both paths agree on every string at every instant, if and only if every granted route is barred or has plain names |
| Authentication.ColonFreeCondition | internal/auth/authenticator.go:50-62 | on colon-free names that condition is: the user is disabled, or both names are nonempty |
| Authentication.ColonFreeAgreement | internal/auth/authenticator.go:48-195 | on colon-free names the built index makes both paths agree always if and only if every granted route is disabled or has both names |
| Authentication.HypothesesMet | internal/auth/authenticator.go:185-195 | for any one-route user a hash and an index exist that meet every assumption |
| Authentication.EmptyNameDisagrees | internal/auth/authenticator.go:50-55 | a user map, hash and index with an empty user name on which the two paths differ |
| Authentication.LoginExactly | internal/auth/authenticator.go:48-108 | a plain route is let in by password if and only if it is granted, the password is the user's, and the user is neither disabled nor expired |
| Authentication.LoginIsPlain | internal/auth/authenticator.go:48-108 | whoever is let in by password has plain names |
| Authentication.TrojanLogin | internal/auth/authenticator.go:120-138 | the credential of a plain route that owns its entry lets it in exactly while its user is neither disabled nor expired |
| Authentication.BadStandingRefused | internal/auth/authenticator.go:75-132 | a disabled or expired user is let in by neither path |
| Authentication.BuildUserEntries | internal/auth/authenticator.go:166-183 | every user keeps password, state, expiry and limits, and its routes as a set, in any iteration order |
| Authentication.CredentialsDistinct | internal/auth/authenticator.go:185-195 | two granted routes never share a credential |
| Authentication.OrderFreeExactly | internal/auth/authenticator.go:185-195 | for every hash, the index is independent of the iteration order if and only if routes that share a credential share their id |
| Authentication.IndexUnique | internal/auth/authenticator.go:185-195 | on colon-free names the index does not depend on iteration order |
| Authentication.ColonNamesShare | internal/auth/authenticator.go:185-195 | two users, one with a colon in its name, whose routes share a proof, so that the order decides |
| Authentication.BuiltIsExact | internal/auth/authenticator.go:185-195 | without colons in names no route's credential is overwritten by another's |
| Authentication.BuildTrojanCredentials | internal/auth/authenticator.go:185-195 | for every hash and user map, each granted credential is a key and each entry a granted route under its own credential |
| Authentication.Authenticator.UpdateUsers | internal/auth/authenticator.go:111-116 | both maps come from the newly published configuration |
| Authentication.Authenticator.Authenticate | internal/auth/authenticator.go:48-108 | the answer of the published configuration, and under the agreement condition the Trojan answer for the same proof |
| Authentication.Authenticator.AuthenticateTrojan | internal/auth/authenticator.go:120-138 | the indexed answer, and under the agreement condition the one a password login gives for any proof with this credential |
| PolicyKernel.RefreshSnapshot | internal/policy/kernel.go:182-195 | keeps exactly the start-up users and their routes; users in the refresh get their loaded password, state, expiry and limits; missing users are disabled |
| PolicyKernel.StepKeeps | internal/policy/kernel.go:59-151 | refreshes and logins keep the topology, the index and every issued session authorized |
| PolicyKernel.RunKeeps | internal/policy/kernel.go:59-151 | the same in every state of every run |
| PolicyKernel.SessionsAuthorized | internal/policy/kernel.go:163-169 | every session ever issued carries a route granted at start-up, and with stored names parsing it gives that node back |
| PolicyKernel.LoginsAgree | internal/policy/kernel.go:59-80 | after any refreshes both login paths answer every string alike while nothing collides with a published credential |
| PolicyKernel.SomeRun | internal/policy/kernel.go:47-80 | runs that issue sessions exist |
| PolicyKernel.MissingUserLockedOut | internal/policy/kernel.go:182-195 | a user missing from a refresh cannot log in by either path until a refresh names them again |
| PolicyKernel.LoginIssues | internal/policy/kernel.go:59-80 | a good login issues one session that carries exactly the authenticated route |
| PolicyKernel.IssueText | internal/policy/kernel.go:77-80 | the session id is the inbound's name, a slash and the decimal counter |
| PolicyKernel.LoginAfterRefresh | internal/policy/kernel.go:144-195 | over runs, after a refresh a start-up route is let in if and only if the password is the refreshed one and the refreshed user is neither disabled nor expired |
| PolicyKernel.BadStandingLockedOut | internal/policy/kernel.go:59-75 | in every run neither path issues a session to a user published as disabled or expired |
| PolicyKernel.SequenceDecides | internal/policy/kernel.go:77-80 | equal session ids have equal sequence numbers, whatever the inbound names contain |
| PolicyKernel.SessionIDsDistinct | internal/policy/kernel.go:77-80 | session ids never repeat before the counter wraps |
| PolicyKernel.GatewayKernel.constructor | internal/policy/kernel.go:47-57 | a new kernel starts a run with the start-up users published |
| PolicyKernel.GatewayKernel.NewSession | internal/policy/kernel.go:77-80 | bumps the wrapping counter and issues one session |
| PolicyKernel.GatewayKernel.Authenticate | internal/policy/kernel.go:59-65 | a login step; a session is issued exactly on success and is authorized |
| PolicyKernel.GatewayKernel.AuthenticateTrojan | internal/policy/kernel.go:69-75 | the same for Trojan credentials |
| PolicyKernel.GatewayKernel.UpdateUsers | internal/policy/kernel.go:144-151 | a refresh step that keeps every kernel guarantee |
| PolicyKernel.GatewayKernel.OutboundFor | internal/policy/kernel.go:163-169 | an issued session was granted at start-up and with stored names resolves to its granted node; only a route without a node is an error |
| SubTokens.DivideInPlace | internal/subtoken/token.go:49-54 | one pass divides the big-endian number by 62 in place, every quotient digit fitting a byte |
| SubTokens.EncodeBase62 | internal/subtoken/token.go:45-58 | the text is the sixteen base-62 digits, most significant first, of the value modulo 62^16 |
| SubTokens.DigitsUnique | internal/subtoken/token.go:45-58 | digit strings of one length are determined by their value |
| SubTokens.TokensCollide | internal/subtoken/token.go:45-58 | two inputs share a token if and only if their values agree modulo 62^16 |
| SubTokens.AlphabetLaw | internal/subtoken/token.go:15 | digit d is letter d of 0-9, A-Z, a-z |
| SubTokens.TokenLetters | internal/subtoken/token.go:45-58 | a token has sixteen characters, all from the alphabet |
| SubTokens.TwelveBytesCollide | internal/subtoken/token.go:19-24 | two different twelve-byte digests whose tokens are the same text |
| ByteQuantities.ParseExact | internal/api/byte_quantity.go:13-50 | every answer: unknown unit, blank as zero, malformed or overlong, above 2^63-1, and otherwise the exact ceiling in bytes, positive if the input is |
| ByteQuantities.Units | internal/api/byte_quantity.go:15-26 | the units and their sizes, and that there are no others |
| ByteQuantities.DecimalForms | internal/api/byte_quantity.go:10 | digits with at most one point and at least one digit are accepted, and split at the point |
| ByteQuantities.OnlyDecimalForms | internal/api/byte_quantity.go:10 | nothing else is accepted |
| ByteQuantities.TrimLaw | internal/api/byte_quantity.go:27 | trimming takes white space from both ends and nothing else |
| ByteQuantities.TrimmedEnds | internal/api/byte_quantity.go:27 | what is left begins and ends with something else |
| ByteQuantities.SpaceLaw | internal/api/byte_quantity.go:27 | which ASCII characters are white space |
| ByteQuantities.CeilingExact | internal/api/byte_quantity.go:39-44 | quotient plus rounding is the least covering whole number |
| ByteQuantities.DivisionUnique | internal/api/byte_quantity.go:40 | quotient and remainder are determined by their equation |
| Megabytes.RoundedExact | internal/api/byte_quantity.go:52-57 | twenty decimal places lose nothing for any byte count |
| Megabytes.PrintedDenotes | internal/api/byte_quantity.go:54-57 | the printed decimal denotes exactly the byte count in megabytes |
| Megabytes.TrimZeros | internal/api/byte_quantity.go:57 | trimming trailing zeros keeps the number |
| Megabytes.RoundTrip | internal/api/byte_quantity.go:13-58 | parsing the megabyte display of any count up to 2^63-1 gives that count back |
| Megabytes.DisplayShort | internal/api/byte_quantity.go:54-57 | the display has no trailing zero in its fraction and no trailing point |
| SortedNames.SortSorts | internal/storage/management.go:716 | sorting a duplicate-free list gives the ascending list of the same names |
| SortedNames.AscendingUnique | internal/storage/management.go:715-717 | a set of names has one ascending list |
| SortedNames.UniqueRoutes | internal/storage/management.go:803-814 | no duplicates, same names |
| SortedNames.EqualStrings | internal/storage/management.go:742-752 | true exactly for equal lists |
| SortedNames.RoutesChanged | internal/storage/management.go:715-717 | true exactly when the route sets differ, whatever order and duplicates the request has |
| Management.StepRevision | internal/storage/management.go:229-981 | each operation raises the revision by one or leaves revision, users, grants and nodes alone, except an import that takes effect, which sets it to 1 |
| Management.RevisionOrder | internal/storage/management.go:229-981 | revisions never fall over a run in which no import takes effect late |
| Management.RevisionTellsTopology | internal/storage/management.go:229-981 | in such a run two moments with one revision have the same users, route grants and node definitions |
| Management.LateImportBreaks | internal/storage/management.go:229-292 | any import that takes effect at a nonzero revision gives two topologies one revision |
| Management.RevisionTellsExactly | internal/storage/management.go:229-981 | from a fresh counter, revisions tell the topology if and only if no import takes effect at a nonzero revision |
| Management.NamesKeep | internal/storage/management.go:118-981 | over any operations every stored user, node and granted name is valid, and every grant belongs to a user |
| Management.GrantsKeep | internal/storage/management.go:634-981 | over any operations no grant names a node that does not exist |
| Management.GrantsEnabled | internal/storage/management.go:816-834 | outside an import a route is only granted to direct or to a node enabled at that moment |
| Management.CredentialsKeep | internal/storage/management.go:634-801 | over any operations every user has a password and a token, and no two share a token |
| Management.InputLaw | internal/storage/management.go:635-649 | what a user form must satisfy, spelled out |
| RuntimeUsers.LoadRuntimeUsers | internal/storage/management.go:384-427 | the loaded configuration holds the stored users with their fields and their granted nodes in order |
| RuntimeUsers.ManagedNamesOk | internal/storage/management.go:384-427 | whatever operations built the store, the loaded names are those that authentication and routing rely on |
| RuntimeUsers.UpdateLoads | internal/storage/management.go:675-740 | after an accepted update the gateway loads the user with the requested password, expiry, quota, speed and route set, and everyone else as before |
| RuntimeUsers.CreateLoads | internal/storage/management.go:634-670 | a created user is loaded as requested and enabled, everyone else as before |
| RuntimeUsers.FieldLoads | internal/storage/management.go:756-801 | deleting or restoring moves only the disabled flag, a reset password only the password, a reset token nothing loaded |
| RuntimeUsers.DeleteNodeLoads | internal/storage/management.go:956-981 | deleting a node takes it, and nothing else, from every user's routes |
| RuntimeUsers.ReplaceLoads | internal/storage/management.go:298-380 | a replacement loads exactly the given users, without expiry |
| RuntimeUsers.MigrateLoads | internal/storage/management.go:229-380 | an import loads exactly the given users, without expiry |
| RuntimeUsers.NodeLoads | internal/storage/management.go:892-951 | saving or updating makes a node's definition what is loaded exactly when enabled, and touches no other |
| RuntimeUsers.NodeGone | internal/storage/management.go:956-981 | a deleted node is no longer loaded |
| RuntimeUsers.UserOpsKeepNodes | internal/storage/management.go:298-801 | user operations leave the loaded nodes alone |
| RuntimeUsers.ImportedNodes | internal/storage/management.go:260-280 | an import adds its nodes, enabled |
| Management.UpdateBumpsExactly | internal/storage/management.go:675-740 | an update raises the revision by one exactly when the stored grants change, and leaves the requested route set |
| Management.LateImportReusesRevision | internal/storage/management.go:285 | a node saved before the import gives two topologies one revision |
| Management.InsertGrants | internal/storage/management.go:730-734 | adds exactly the listed grants |
| Management.SQLiteStore.CheckRoutes | internal/storage/management.go:816-834 | accepts exactly routes that are direct or existing enabled nodes |
| Management.SQLiteStore.UpdateUser | internal/storage/management.go:675-740 | performs the specified update or leaves all tables unchanged, failing exactly on invalid input or an unknown user |
| Management.SQLiteStore.CreateUser | internal/storage/management.go:634-670 | inserts user and grants and raises the revision, or changes nothing, succeeding exactly for valid input with a new name and a new token |
| Management.SQLiteStore.DeleteNode | internal/storage/management.go:956-981 | removes node and its grants and raises the revision, or changes nothing, succeeding exactly for an existing node |

## Left out

- Byte totals other than `TxDelta` and `RxDelta` are unbounded; their 64-bit wrap-around is not modelled. The display counters `TxBytes`, `RxBytes` and `LastActive` are left out.
- The ledger carries route ids as user/node pairs; `Identity` proves that pairs and `user:node` strings correspond one to one.
- Running without a store has no flush steps of its own; the checks before a charge (user exists, enabled, not expired) only decide whether a charge starts.
- Timestamps are assumed to lie after the zero time, so a pending record always carries its own instant.
- DownloadLimiting.RateLimited: uses exact rational time, because the float rounding of durations is not the point; zero-length reservations are excluded.
- Limiter waiting, timers and user changes while waiting are not modelled beyond reserve, cancel and wake.
- Retry delays, the failure counter, jitter, warm-up and `nodeUDPConn` of the outbound factory; any client failure is a report step.
- TLS, QUIC, DNS, dialing and the Hysteria2 core; connects, reads and writes are arbitrary outcomes.
- IP text parsing and printing are abstract functions with stated laws; targets are host and port pairs instead of joined text.
- SHA-224 itself; the hash is any function, and agreement results assume that no other string collides with a published credential.
- TrojanRelay.CopyMetered: a read that returns no bytes and no error is not modelled, because such a reader makes no progress.
- Deadlines, idle watchdogs and the accept back-off; a deadline is an arbitrary cut of the stream.
- The registry of the listener compares connections by identity only; what a closed connection does to its peers is not modelled.
- SQL text, SQLite internals, foreign keys beyond those stated, ambiguous commit errors and concurrent management calls; a transaction is all or nothing.
- Node validation is a flag on the definition; YAML decoding and configuration validation are not modelled.
- `ResetStats`, online counters, connection tracking, the web interface, subscription rendering, restart scheduling and the router would only add easy members.
