# Verified models of rdma-core components

This project models, in Dafny, the parts of rdma-core 55.0 in which correctness is hardest to
see by reading, and proves what they are meant to guarantee.

**The iWARP port mapper daemon (`iwpmd`).** `PortMapper` is the daemon as a transition function
over two lists: the table of mapped ports (`PortTable`) and the requests in flight
(`MapRequests`). Its inputs are netlink add, query, remove and mapinfo requests, wire messages
and timer ticks; the outcomes of allocation, bind, netlink delivery and message queueing are
part of the input, so every theorem holds for every combination of them. So is the number of
timer sweeps that run between the critical sections of a handler: they sweep what the list holds
after its update and before its filing. A request object's address, which serves as its
association handle, is also part of the input. Objects have numbers so that identity, linking and
freeing can be talked about.

- `Mappings` and `Answers` say what every input is answered, to its client and to its peer, and
  what that promises over runs.
- `DaemonRuns`, `Conservation`, `Outcomes`, `Lifetime`, `Suppression` and `Recovery` are about
  every run of one daemon.
- `Network`, `Agreement`, `RemoteAgreement`, `Handshake` and `Replies` are about every run of any
  number of daemons over a network that may lose, duplicate, delay and reorder datagrams but not
  invent them. `RecycledHandle`, `CompleteRun` and `Replies` construct runs, for any queries that
  nothing goes wrong for, in which agreement fails, everything succeeds, or a query is refused.
- `IntrusiveList`, `ListCheck`, `DaemonLists` and `DaemonImpl` are the same daemon as an object
  that updates circular doubly linked lists in place; `DaemonImpl.RunDaemon` proves that its runs
  are the runs of the transition function. `Interleaving` compares sweeps inside a handler with
  sweeps before or after it.
- `WireCodec` is the 64-byte wire message and its 48-byte short form.

**The static-library dependency pruner.** `PruneLibs` is the in-place algorithm on mutually
inverse edge sets, `Dag` the theory of transitive reduction it is proved against.

**Smaller cores.** `Ilog` is the integer logarithm in all its forms, `Hex256` the 256-bit
hexadecimal parser of the congestion-control tool, `Tracert` unicast route tracing over
directed routes.

Where code and its description differ, the model follows the code. Three such differences are
stated as theorems with their exact conditions: a zero association handle defeats duplicate
suppression (`Suppression.RedeliverySuppressedIffNonZero`), queries that share handle and local
address but not the address asked about defeat agreement (`RecycledHandle.AgreementExactly`), and
a route found in the last round of a trace is reported as missing (`Tracert.FindRoute`,
`Tracert.LastRoundIsLost`).

Check the project with `dafny verify dfyconfig.toml`.

## Model

| member | source | states |
|---|---|---|
| Sockaddr.WildcardsAreZero | dtld-ibverbs/rdma-core-55.0/iwpmd/iwarp_pm_common.c:583-610 | The wildcard addresses are exactly 0.0.0.0 and ::. |
| PortTable.FindMapping | dtld-ibverbs/rdma-core-55.0/iwpmd/iwarp_pm_helper.c:394-413 | The wildcard-aware lookup returns the first entry whose port matches and whose address is equal, or where one side is a wildcard; past the end when there is none. |
| PortTable.FindSame | dtld-ibverbs/rdma-core-55.0/iwpmd/iwarp_pm_helper.c:423-438 | The exact lookup returns the first entry with the same family, IP and port; past the end when there is none. |
| PortTable.HitIsUnique | dtld-ibverbs/rdma-core-55.0/iwpmd/iwarp_pm_helper.c:394-413 | In a consistent table a fully specified address has at most one hit. |
| PortTable.LookupIgnoresOrder | dtld-ibverbs/rdma-core-55.0/iwpmd/iwarp_pm_helper.c:394-413 | Any reordering of a consistent list finds the same object for a fully specified address. |
| PortTable.ExactImpliesLookup | dtld-ibverbs/rdma-core-55.0/iwpmd/iwarp_pm_helper.c:394-438 | What the exact lookup finds is what the wildcard-aware lookup finds. |
| PortTable.EnlistKeepsTable | dtld-ibverbs/rdma-core-55.0/iwpmd/iwarp_pm_helper.c:337-344 | Linking an entry whose address nothing answers keeps the table consistent: entries that share a port differ and none of them is a wildcard. |
| MapRequests.FindRequest | dtld-ibverbs/rdma-core-55.0/iwpmd/iwarp_pm_helper.c:125-139 | The search of the request update returns the first request with this handle, one of these types and this source address. |
| MapRequests.SweepKeeps | dtld-ibverbs/rdma-core-55.0/iwpmd/iwarp_pm_server.c:118-135 | One sweep keeps exactly the requests with time left, in order, each one tick older, at the position given by the number of survivors before it. |
| MapRequests.SweepOrigin | dtld-ibverbs/rdma-core-55.0/iwpmd/iwarp_pm_server.c:118-135 | Every request left by a sweep was there before, with one tick more. |
| MapRequests.ResentExactlyDue | dtld-ibverbs/rdma-core-55.0/iwpmd/iwarp_pm_server.c:118-135 | A sweep resends a request once if it is due (time left, not fresh, not an ACK entry) and not at all otherwise. |
| MapRequests.SweepKeepsRequests | dtld-ibverbs/rdma-core-55.0/iwpmd/iwarp_pm_server.c:118-135 | A sweep keeps the request invariant: timeout within 0 to 10, complete implies timeout 0, only ACK entries lack a message. |
| MapRequests.ListDrains | dtld-ibverbs/rdma-core-55.0/iwpmd/iwarp_pm_server.c:118-135 | With no further input any consistent request list is empty after eleven sweeps. |
| MapRequests.SweepsFuture | dtld-ibverbs/rdma-core-55.0/iwpmd/iwarp_pm_server.c:118-135 | After n sweeps a request with at least n ticks left is listed with n ticks less, and one with fewer is gone. |
| MapRequests.ResentInCount | dtld-ibverbs/rdma-core-55.0/iwpmd/iwarp_pm_server.c:118-135 | Over n sweeps a listed request is resent once for each sweep that meets it due, and an ACK entry never. |
| DaemonRuns.CommitKeeps | dtld-ibverbs/rdma-core-55.0/iwpmd/iwarp_pm_helper.c:337-344 | Committing a claimed entry keeps both lists consistent. |
| DaemonRuns.AbortRestores | dtld-ibverbs/rdma-core-55.0/iwpmd/iwarp_pm_server.c:383-389 | The error exits give back exactly the reference taken: the table is what it was before. |
| DaemonRuns.AddKeeps | dtld-ibverbs/rdma-core-55.0/iwpmd/iwarp_pm_server.c:314-398 | An add request keeps the invariant on every path. |
| DaemonRuns.QueryKeeps | dtld-ibverbs/rdma-core-55.0/iwpmd/iwarp_pm_server.c:418-531 | A query keeps the invariant on every path. |
| DaemonRuns.RemoveKeeps | dtld-ibverbs/rdma-core-55.0/iwpmd/iwarp_pm_server.c:539-578 | A remove request keeps the invariant. |
| DaemonRuns.MapinfoKeeps | dtld-ibverbs/rdma-core-55.0/iwpmd/iwarp_pm_server.c:901-957 | A mapinfo message keeps the invariant. |
| DaemonRuns.RequestKeeps | dtld-ibverbs/rdma-core-55.0/iwpmd/iwarp_pm_server.c:640-716 | A wire request keeps the invariant. |
| DaemonRuns.AcceptKeeps | dtld-ibverbs/rdma-core-55.0/iwpmd/iwarp_pm_server.c:735-796 | A wire accept keeps the invariant. |
| DaemonRuns.AnswerKeeps | dtld-ibverbs/rdma-core-55.0/iwpmd/iwarp_pm_server.c:806-882 | A wire reject or ack keeps the invariant. |
| DaemonRuns.HandlerKeeps | dtld-ibverbs/rdma-core-55.0/iwpmd/iwarp_pm_server.c:1245-1291 | Every handler keeps the invariant of table and request list. |
| DaemonRuns.StepKeeps | dtld-ibverbs/rdma-core-55.0/iwpmd/iwarp_pm_server.c:96-135 | Every step keeps it: a handler together with any number of timer sweeps that fall between its critical sections. |
| DaemonRuns.ReachableOk | dtld-ibverbs/rdma-core-55.0/iwpmd/iwarp_pm_server.c:1245-1291 | In every run, whatever clients, peers, the timer, allocation, bind and netlink do: local ports are shared only by different fully specified addresses, counts are at least 1, 0 <= timeout <= 10, complete implies timeout 0, only ACK entries lack a message, handles are not zero, object numbers are unique. |
| DaemonRuns.ReachableLookups | dtld-ibverbs/rdma-core-55.0/iwpmd/iwarp_pm_helper.c:394-438 | In every reachable table a fully specified address has at most one hit, and the two lookups agree whenever the exact one finds something. |
| Mappings.AddOutcome | dtld-ibverbs/rdma-core-55.0/iwpmd/iwarp_pm_server.c:338-397 | How every add ends: an add of a wildcard that is mapped already, or of an address nothing answers and a port can be had for, is replied to, if the reply can be delivered, with the requester's sequence number, exactly the requested address and the mapped address that the table then holds for it; an address that is taken otherwise is refused with error 12, one that no port can be had for with error 11, and a refused or undelivered add leaves the table as it was. |
| Mappings.QueryOutcome | dtld-ibverbs/rdma-core-55.0/iwpmd/iwarp_pm_server.c:446-530 | How every query ends: with error 11 for its client if its local address cannot be mapped; filed with its netlink reference, both addresses and its own address as handle, and sent to port 3935 of the remote host, if everything can be had; and otherwise with nothing, the table as it was. |
| Mappings.MapinfoOutcome | dtld-ibverbs/rdma-core-55.0/iwpmd/iwarp_pm_server.c:925-957 | How every mapinfo message ends: counted if the entry is in the table exactly or can be linked, otherwise refused with error 12 or 11 and not counted. |
| Mappings.RemoveOutcome | dtld-ibverbs/rdma-core-55.0/iwpmd/iwarp_pm_server.c:559-577 | A removal tells nobody; it changes the table if and only if its sender owns an entry with exactly this address, which loses one reference and goes with its last. |
| Mappings.CreatedFor | dtld-ibverbs/rdma-core-55.0/iwpmd/iwarp_pm_helper.c:278-299 | A new entry belongs to the requester and maps its local address to the same address with the bound port, or to itself when it is not to be mapped; there is one if and only if there is memory and, unless it is not to be mapped, an Internet family and a port to bind. |
| Mappings.ReopenedFor | dtld-ibverbs/rdma-core-55.0/iwpmd/iwarp_pm_helper.c:306-330 | A recalled entry maps its local address to the recalled one, with a bound port only where that has none. |
| Mappings.TableStep | dtld-ibverbs/rdma-core-55.0/iwpmd/iwarp_pm_server.c:1245-1291 | What any input can do to the table: count an entry up for an add of the same wildcard or for a query it answers, link a new entry in front for an address nothing answers, count down or unlink for the owner's removal; wire messages and sweeps do nothing to it. |
| Mappings.MappingStays | dtld-ibverbs/rdma-core-55.0/iwpmd/iwarp_pm_server.c:539-578 | In every run a mapping stays in the table, with its owner and both addresses, until its owner asks for its removal. |
| Mappings.GrantHolds | dtld-ibverbs/rdma-core-55.0/iwpmd/iwarp_pm_server.c:361-379 | In every run what a reply to an add names is in the table from then on until the owner asks for its removal, and the owner is the requester unless it shares a wildcard. |
| Conservation.StepConserves | dtld-ibverbs/rdma-core-55.0/iwpmd/iwarp_pm_server.c:338-389 | Every step balances the books of every mapped-port object, error paths included. |
| Conservation.ReferencesConserved | dtld-ibverbs/rdma-core-55.0/iwpmd/iwarp_pm_server.c:338-389 | In every run the count of a listed object is the references kept minus the references dropped, and an object off the list has balanced references and was freed exactly once. |
| Conservation.InputEvents | dtld-ibverbs/rdma-core-55.0/iwpmd/iwarp_pm_server.c:314-578 | A reference is kept exactly by an add that was answered, a query that was filed and a mapinfo message that added an entry, and dropped exactly by the owner's removal of the entry. |
| Conservation.CountIsRequests | dtld-ibverbs/rdma-core-55.0/iwpmd/iwarp_pm_server.c:338-575 | In every run the count of a listed object is the number of such requests for it minus the removals by its owner, and at least 1. |
| Conservation.NoDoubleFree | dtld-ibverbs/rdma-core-55.0/iwpmd/iwarp_pm_server.c:539-578 | In every run an object is linked at most once, is linked exactly while references are outstanding, and is freed exactly when they reach zero, never twice. |
| Conservation.WireKeepsPorts | dtld-ibverbs/rdma-core-55.0/iwpmd/iwarp_pm_server.c:640-882 | Wire messages never change the table of mapped ports. |
| Outcomes.StepShape | dtld-ibverbs/rdma-core-55.0/iwpmd/iwarp_pm_server.c:1245-1291 | What a step may do to the request list: service at most one matching request, then sweep as often as sweeps fall inside it, then put at most one well-described request in front; and what it resends is what these sweeps resend. |
| Outcomes.RequestOrigin | dtld-ibverbs/rdma-core-55.0/iwpmd/iwarp_pm_helper.c:48-160 | Every request listed after a step was filed by it, or was listed before and then serviced or aged by the sweeps inside the step. |
| Outcomes.RequestFuture | dtld-ibverbs/rdma-core-55.0/iwpmd/iwarp_pm_server.c:118-135 | A listed request stays listed, possibly serviced and aged by the sweeps inside the step, unless these outlast its time; then it is gone. |
| Outcomes.ReportCompletes | dtld-ibverbs/rdma-core-55.0/iwpmd/iwarp_pm_server.c:757-792 | A step that reports on a query meets it incomplete and completes it, and sends no other message to a client. |
| Outcomes.ReportCloses | dtld-ibverbs/rdma-core-55.0/iwpmd/iwarp_pm_server.c:757-792 | A connection-info message closes the query it is about, and is the only message of its step. |
| Outcomes.AtMostOneOutcome | dtld-ibverbs/rdma-core-55.0/iwpmd/iwarp_pm_server.c:735-855 | In every run, with sweeps between and inside handlers, each query object causes at most one connection-info message, so never both a success and a reject, whatever is duplicated or reordered. |
| Lifetime.UnansweredLife | dtld-ibverbs/rdma-core-55.0/iwpmd/iwarp_pm_server.c:118-135 | An unanswered QUERY or ACCEPT, among arbitrary other inputs, has been resent s - 1 times and has 10 - s ticks left after s sweeps, wherever these fall; the eleventh sweep removes it after nine retransmissions, for good. |
| Lifetime.CompletedIsNotResent | dtld-ibverbs/rdma-core-55.0/iwpmd/iwarp_pm_helper.c:140-153 | A completed request is never resent, and is gone after the next sweep. |
| Suppression.AcceptsStayUnique | dtld-ibverbs/rdma-core-55.0/iwpmd/iwarp_pm_server.c:674-715 | In every run that receives no zero handle, the list never holds two ACCEPT entries with the same handle and mapped address. |
| Suppression.DuplicateIsSilent | dtld-ibverbs/rdma-core-55.0/iwpmd/iwarp_pm_server.c:674-715 | A request delivered again at any later time while its ACCEPT entry is listed and the table answers alike files nothing, sends nothing and notifies nobody: its step does nothing but the sweeps that fall inside it. |
| Suppression.RedeliverySuppressedIffNonZero | dtld-ibverbs/rdma-core-55.0/iwpmd/iwarp_pm_helper.c:74-76 | An immediate second delivery of an accepted request is suppressed if and only if its handle is not zero; with a zero handle a second entry is filed. |
| Suppression.ZeroHandleIsAcceptedTwice | dtld-ibverbs/rdma-core-55.0/iwpmd/iwarp_pm_server.c:664-706 | Any listener accepts a request for its address with handle zero, and files and sends a second accept on its second delivery. |
| Answers.RequestOutcome | dtld-ibverbs/rdma-core-55.0/iwpmd/iwarp_pm_server.c:640-716 | How every wire request ends: if no entry answers its address, a reject goes back when it can be queued; otherwise, unless it is a copy or memory is short, it is filed and accepted with the mapped address of the entry, for a wildcard entry the requested address with the mapped port, and the owner of the entry is told who connects; in all other cases nothing happens. |
| Answers.AnsweredQuery | dtld-ibverbs/rdma-core-55.0/iwpmd/iwarp_pm_server.c:746-792 | An accept that meets an open query completes it; its client, if it can be told, is told the netlink reference, the addresses and the mapping of the query and the address the accept carries; and if then an ACK entry can be had, it is filed and the accept acknowledged. |
| Answers.RepeatedAccept | dtld-ibverbs/rdma-core-55.0/iwpmd/iwarp_pm_server.c:768-792 | An accept that meets an ACK entry is acknowledged again when that can be queued, tells nobody, and gives the entry its full time once more. |
| Answers.StrayAccept | dtld-ibverbs/rdma-core-55.0/iwpmd/iwarp_pm_server.c:750-767 | Any other accept does nothing at all. |
| Answers.AcknowledgedExactly | dtld-ibverbs/rdma-core-55.0/iwpmd/iwarp_pm_server.c:746-792 | An accept is acknowledged if and only if the message can be queued and it meets an ACK entry, or an open query whose client can be told and for which an ACK entry can be had. |
| Answers.EveryCopyIsAcknowledged | dtld-ibverbs/rdma-core-55.0/iwpmd/iwarp_pm_server.c:768-792 | In every run, after a success, every copy of the accept that arrives while the ACK entry is listed, the local address mapped and the handle not given to another query, is acknowledged again, tells nobody and renews the entry. |
| Answers.RejectedQuery | dtld-ibverbs/rdma-core-55.0/iwpmd/iwarp_pm_server.c:824-850 | A reject that meets an open query completes it, and its client, if it can be told, is told exactly once: the netlink reference and remote address of the query, owner, local and mapped address of the entry for the local address, the remote address again as its mapping, and error 16. |
| Answers.StrayReject | dtld-ibverbs/rdma-core-55.0/iwpmd/iwarp_pm_server.c:824-841 | Any other reject does nothing at all. |
| Answers.AckOutcome | dtld-ibverbs/rdma-core-55.0/iwpmd/iwarp_pm_server.c:861-882 | An ack is never answered, and completes the ACCEPT entry it meets. |
| Answers.ReportNamesQuery | dtld-ibverbs/rdma-core-55.0/iwpmd/iwarp_pm_server.c:773-850 | In every run, whenever a client is told how a query ended, an earlier input was that query, and the message carries its netlink reference, the address it asked about, its local address unless that was left open, and owner and mapping that the table has for it. |
| Network.RunsAreFaithful | dtld-ibverbs/rdma-core-55.0/iwpmd/iwarp_pm_server.c:640-796 | In every run of any number of daemons over a network that loses, duplicates and reorders but does not invent: every request was asked by a client; every accept was formed by an act of the owner of the queried address that filed it as an ACCEPT entry, with the address its table then gave; every reject was sent by an act of that owner whose table had no entry. |
| Agreement.Agreement | dtld-ibverbs/rdma-core-55.0/iwpmd/iwarp_pm_server.c:735-796 | In every run in which queries of one host that an answer cannot tell apart (same handle, same local address) ask about the same address, every success reported to a client names the address that the table of the host owning the queried address gave at an earlier act, which filed the ACCEPT entry and so formed the accept for a query with this handle and address. |
| Agreement.AgreementOnThisQuery | dtld-ibverbs/rdma-core-55.0/iwpmd/iwarp_pm_server.c:735-796 | If moreover no host uses the address of a query object as a handle twice, that act comes after the act that filed the very request the success is reported for. |
| Agreement.Rejection | dtld-ibverbs/rdma-core-55.0/iwpmd/iwarp_pm_server.c:806-855 | Under the same condition as agreement, every rejection reported to a client was preceded by an act of the host owning the queried address that had no entry for it and sent the reject for a query with this handle and address. |
| Agreement.RejectionOfThisQuery | dtld-ibverbs/rdma-core-55.0/iwpmd/iwarp_pm_server.c:806-855 | With handles used once, that act comes after the act that filed the very request the rejection is reported for. |
| Agreement.AgreementPlain | dtld-ibverbs/rdma-core-55.0/iwpmd/iwarp_pm_server.c:664-706 | For a fully specified address the address reported is the mapped address of the only entry that answered it at the act that filed the ACCEPT entry; for a wildcard listener the queried IP with its mapped port. |
| Network.FreshHandlesDoNotConfuse | dtld-ibverbs/rdma-core-55.0/iwpmd/iwarp_pm_helper.c:74-76 | If no host uses the address of a query object as a handle twice, no two queries can be confused. |
| RecycledHandle.ConfusionMisleads | dtld-ibverbs/rdma-core-55.0/iwpmd/iwarp_pm_helper.c:74-76 | Any two queries between fully specified addresses of one family that can be confused and ask about different addresses have a valid run in which no allocation fails, no handle is given out again while its query is listed, and a late copy of the accept of the first, freed query is reported as the answer to the second. |
| RecycledHandle.AgreementExactly | dtld-ibverbs/rdma-core-55.0/iwpmd/iwarp_pm_helper.c:74-76 | Some valid run with only these two queries reports an unbacked success if and only if they share handle and local address and ask about different addresses; the same holds of the runs in which no handle is given out again while its query is listed. |
| RemoteAgreement.RemoteInfoAgrees | dtld-ibverbs/rdma-core-55.0/iwpmd/iwarp_pm_server.c:640-716 | Every notice to an accepting client goes back to a query of the host the request came from; if that query used a fully specified local address of the family it asked about, the notice names exactly that address and the mapped address the connecting daemon's table then held for it. |
| RemoteAgreement.QueryOffers | dtld-ibverbs/rdma-core-55.0/iwpmd/iwarp_pm_server.c:458-512 | The request a query files carries the queried address, the local address and the mapped address its own table gives for it. |
| RemoteAgreement.NoticeFromRequest | dtld-ibverbs/rdma-core-55.0/iwpmd/iwarp_pm_server.c:694-715 | A remote-info notice passes on the addresses of the request and the owner and addresses of the entry that answers it. |
| Handshake.OpenStaysInFront | dtld-ibverbs/rdma-core-55.0/iwpmd/iwarp_pm_helper.c:74-76 | If no address is given out to a new query while a query with that handle is listed at its host, no QUERY or ACK entry with the handle of an open query ever stands in front of it. |
| Handshake.FreshHandlesAreLive | dtld-ibverbs/rdma-core-55.0/iwpmd/iwarp_pm_helper.c:74-76 | Handles that are used once meet that condition. |
| Handshake.AcceptFiled | dtld-ibverbs/rdma-core-55.0/iwpmd/iwarp_pm_server.c:664-706 | The ACCEPT entry is filed under the mapped address put in the accept, for plain and wildcard listeners alike. |
| Handshake.AckFindsEntry | dtld-ibverbs/rdma-core-55.0/iwpmd/iwarp_pm_server.c:869-881 | The mapped address an ACCEPT was filed under is found again by the lookup of its ack. |
| Handshake.AcceptMeetsOpenQuery | dtld-ibverbs/rdma-core-55.0/iwpmd/iwarp_pm_server.c:746-792 | Under that condition an accept that meets its open query completes it, and the ack echoes exactly the mapped address the ACCEPT was filed under. |
| Handshake.ConnectingSideCompletes | dtld-ibverbs/rdma-core-55.0/iwpmd/iwarp_pm_server.c:735-796 | Under that condition the QUERY of a delivered exchange is marked complete. |
| Handshake.AcceptingSideCompletes | dtld-ibverbs/rdma-core-55.0/iwpmd/iwarp_pm_server.c:861-882 | The ACCEPT of a delivered exchange is marked complete. |
| Handshake.HandshakeCompletes | dtld-ibverbs/rdma-core-55.0/iwpmd/iwarp_pm_server.c:640-882 | If request, accept and ack of one query are delivered while both tables keep their entries and within ten sweeps at either end, both sides are marked complete, among arbitrary other activity, handles recycled after their query is gone included. |
| Replies.FirstAnswerIsTold | dtld-ibverbs/rdma-core-55.0/iwpmd/iwarp_pm_server.c:735-855 | Among arbitrary other activity of any number of daemons, the first accept or reject for a query that arrives within ten sweeps completes it, and its client, if it can be told, is told exactly the outcome: netlink reference and addresses of the query, the mapping of its local address, and the address of the accept, or error 16. |
| Replies.AnswerCompletes | dtld-ibverbs/rdma-core-55.0/iwpmd/iwarp_pm_server.c:735-855 | A query to which some answer arrives in time is marked complete. |
| Replies.RequestIsRefused | dtld-ibverbs/rdma-core-55.0/iwpmd/iwarp_pm_server.c:652-661 | A host whose table has nothing for the address answers the request of a query with the very reject that refuses it. |
| Replies.RefusalHappens | dtld-ibverbs/rdma-core-55.0/iwpmd/iwarp_pm_server.c:652-850 | For any query for which nothing goes wrong but that nobody listens there is a run in which it is refused, its client told, and the query marked complete. |
| CompleteRun.ExchangeHappens | dtld-ibverbs/rdma-core-55.0/iwpmd/iwarp_pm_server.c:314-882 | For any query for which nothing goes wrong there is a run that meets all assumptions of the theorems above together: both clients are told, each end names the other's mapped address, both requests end complete. |
| Recovery.RecallStep | dtld-ibverbs/rdma-core-55.0/iwpmd/iwarp_pm_server.c:925-949 | A mapinfo message that recalls an entry of the lost table is never an error, is counted, and adds the entry or finds it again. |
| Recovery.RecoveryRebuildsTable | dtld-ibverbs/rdma-core-55.0/iwpmd/iwarp_pm_server.c:925-949 | Replaying the entries of any table reachable before a restart, in any order and with repeats, reports no error, rebuilds exactly the same local-to-mapped pairs of the same owners, and counts every message of every client. |
| Recovery.RecoveryForgetsReferences | dtld-ibverbs/rdma-core-55.0/iwpmd/iwarp_pm_server.c:559-575 | What recovery does not restore: every rebuilt entry is back at one reference, so the owner's first removal unlinks it. |
| IntrusiveList.List.AddAfter | dtld-ibverbs/rdma-core-55.0/ccan/list.h:178-188 | Inserts behind a member or the head; the ring stays well formed. |
| IntrusiveList.List.Add | dtld-ibverbs/rdma-core-55.0/ccan/list.h:204-209 | Puts a node and its entry in front of the sequence. |
| IntrusiveList.List.AddBefore | dtld-ibverbs/rdma-core-55.0/ccan/list.h:227-237 | Inserts before a member or the head. |
| IntrusiveList.List.AddTail | dtld-ibverbs/rdma-core-55.0/ccan/list.h:250-255 | Puts a node at the end of the sequence. |
| IntrusiveList.List.IsEmpty | dtld-ibverbs/rdma-core-55.0/ccan/list.h:267-271 | True exactly when the sequence is empty. |
| IntrusiveList.List.Del | dtld-ibverbs/rdma-core-55.0/ccan/list.h:324-333 | Takes out one member; its own links are left as they were. |
| IntrusiveList.List.Pop | dtld-ibverbs/rdma-core-55.0/ccan/list.h:475-484 | Takes out and returns the first member, or null from an empty list. |
| IntrusiveList.List.Swap | dtld-ibverbs/rdma-core-55.0/ccan/list.h:405-417 | Puts a new node in the place of a member. |
| IntrusiveList.List.AppendList | dtld-ibverbs/rdma-core-55.0/ccan/list.h:640-656 | Moves all members of another list to the end, either list possibly empty; the other list becomes a valid empty ring. |
| IntrusiveList.List.PrependList | dtld-ibverbs/rdma-core-55.0/ccan/list.h:672-688 | Moves all members of another list to the front; the other list becomes a valid empty ring. |
| IntrusiveList.RingSpliced | dtld-ibverbs/rdma-core-55.0/ccan/list.h:640-688 | A chain joined at both ends into a ring makes one ring, with the chain's nodes in that place. |
| IntrusiveList.RingCut | dtld-ibverbs/rdma-core-55.0/ccan/list.h:324-333 | Once the neighbours of a node are joined, the other nodes form a ring. |
| ListCheck.CheckNode | dtld-ibverbs/rdma-core-55.0/ccan/list.c:20-36 | Terminates on every finite set of linked nodes, however corrupt, and returns the node exactly when following next comes back to it with every prev on the way matching. |
| ListCheck.RingIsConsistent | dtld-ibverbs/rdma-core-55.0/ccan/list.c:20-36 | Every node of a well-formed ring passes the check. |
| ListCheck.ConsistentIsRing | dtld-ibverbs/rdma-core-55.0/ccan/list.c:20-36 | Every node that passes the check lies on a well-formed ring. |
| DaemonLists.FindPort | dtld-ibverbs/rdma-core-55.0/iwpmd/iwarp_pm_helper.c:394-413 | The pointer walk over the ring computes the wildcard-aware lookup. |
| DaemonLists.FindSamePort | dtld-ibverbs/rdma-core-55.0/iwpmd/iwarp_pm_helper.c:423-438 | The pointer walk over the ring computes the exact lookup. |
| DaemonLists.UpdateRequest | dtld-ibverbs/rdma-core-55.0/iwpmd/iwarp_pm_helper.c:125-160 | Finds, copies and services the matching request in place. |
| DaemonLists.SweepRequests | dtld-ibverbs/rdma-core-55.0/iwpmd/iwarp_pm_server.c:118-135 | The sweep over the ring, deleting as it goes, visits every request once and refines the filter-and-map on the sequence; it keeps the surviving nodes and queues exactly the due retransmissions. |
| DaemonLists.SweepTimes | dtld-ibverbs/rdma-core-55.0/iwpmd/iwarp_pm_server.c:96-135 | Several sweeps over the ring do what as many sweeps of the sequence do. |
| DaemonImpl.PortMapperDaemon.OnAdd | dtld-ibverbs/rdma-core-55.0/iwpmd/iwarp_pm_server.c:314-398 | The add handler on the linked lists does what the transition function says. |
| DaemonImpl.PortMapperDaemon.OnQuery | dtld-ibverbs/rdma-core-55.0/iwpmd/iwarp_pm_server.c:418-531 | The query handler on the linked lists, sweeps inside it included, does what the transition function says. |
| DaemonImpl.PortMapperDaemon.OnRemove | dtld-ibverbs/rdma-core-55.0/iwpmd/iwarp_pm_server.c:539-578 | The remove handler on the linked lists does what the transition function says. |
| DaemonImpl.PortMapperDaemon.OnMapinfo | dtld-ibverbs/rdma-core-55.0/iwpmd/iwarp_pm_server.c:901-957 | The mapinfo handler on the linked lists does what the transition function says. |
| DaemonImpl.PortMapperDaemon.OnRequest | dtld-ibverbs/rdma-core-55.0/iwpmd/iwarp_pm_server.c:640-716 | The wire request handler on the linked lists, with sweeps between its search and its filing, does what the transition function says. |
| DaemonImpl.PortMapperDaemon.OnAccept | dtld-ibverbs/rdma-core-55.0/iwpmd/iwarp_pm_server.c:735-796 | The wire accept handler on the linked lists, with sweeps between the update of the query and the filing of the ACK entry, does what the transition function says. |
| DaemonImpl.PortMapperDaemon.OnReject | dtld-ibverbs/rdma-core-55.0/iwpmd/iwarp_pm_server.c:806-855 | The wire reject handler on the linked lists does what the transition function says. |
| DaemonImpl.PortMapperDaemon.OnAck | dtld-ibverbs/rdma-core-55.0/iwpmd/iwarp_pm_server.c:861-882 | The wire ack handler on the linked lists does what the transition function says. |
| DaemonImpl.PortMapperDaemon.Handle | dtld-ibverbs/rdma-core-55.0/iwpmd/iwarp_pm_server.c:1245-1291 | Every step of the daemon object, which works in place on two rings of shared nodes, is the step of the transition function on its abstract state, and whatever it comes to own is fresh. |
| DaemonImpl.PortMapperDaemon.Run | dtld-ibverbs/rdma-core-55.0/iwpmd/iwarp_pm_server.c:1245-1291 | Any sequence of inputs takes the object through the states of the run of the transition function and puts out what that run puts out. |
| DaemonImpl.RunDaemon | dtld-ibverbs/rdma-core-55.0/iwpmd/iwarp_pm_server.c:1245-1291 | The same from the construction of the object on, so every theorem about runs is about it. |
| Interleaving.SweptRequestIsSequential | dtld-ibverbs/rdma-core-55.0/iwpmd/iwarp_pm_server.c:674-706 | Any number of sweeps between the search and the filing of a wire request might as well have run before or after the handler. |
| Interleaving.SweptQueryIsSequential | dtld-ibverbs/rdma-core-55.0/iwpmd/iwarp_pm_server.c:498-512 | A query does not read the request list, so sweeps inside it might as well have run before or after it. |
| Interleaving.SweptAcceptIsSequential | dtld-ibverbs/rdma-core-55.0/iwpmd/iwarp_pm_server.c:757-791 | Sweeps between the update of the query and the filing of the ACK entry send what sweeps after the handler would send and leave what they would leave, but that these would have aged the ACK entry too. |
| Interleaving.AckAges | dtld-ibverbs/rdma-core-55.0/iwpmd/iwarp_pm_server.c:118-135 | An ACK entry in front of the list ages and goes on its own, and nothing is ever sent for it. |
| PruneLibs.LinkLibs | dtld-ibverbs/rdma-core-55.0/buildlib/sanitize_static_lib.py:200-203 | The first loop links needs and needed as inverses, giving the symbol graph. |
| PruneLibs.Prune | dtld-ibverbs/rdma-core-55.0/buildlib/sanitize_static_lib.py:206-210 | Terminates and removes, on both sides, exactly the edges from the pruned library to everything below the current one; it writes to no needed set but that of the pruned library, so never to the one it iterates. |
| PruneLibs.PruneAll | dtld-ibverbs/rdma-core-55.0/buildlib/sanitize_static_lib.py:212-214 | The outer loop cuts every library down to its minimal successors, in any order, and keeps the two edge sets inverse. |
| PruneLibs.ComputeGraph | dtld-ibverbs/rdma-core-55.0/buildlib/sanitize_static_lib.py:197-214 | On every acyclic symbol graph, in whatever order sets are iterated, the result is the transitive reduction: same reachability, no edge implied by a longer path, needs and needed inverse; every library is led to from each one that provides a symbol it needs, and every edge is there for such a symbol. |
| Dag.ReductionIsTight | dtld-ibverbs/rdma-core-55.0/buildlib/sanitize_static_lib.py:197-214 | The reduction keeps reachability, and no edge of it is implied by a longer path. |
| Dag.ReductionIsLeast | dtld-ibverbs/rdma-core-55.0/buildlib/sanitize_static_lib.py:197-214 | Every graph with the same reachability contains the reduction, so it is the smallest. |
| Dag.PartialSameReach | dtld-ibverbs/rdma-core-55.0/buildlib/sanitize_static_lib.py:212-214 | After any part of the libraries has been reduced, reachability is still that of the symbol graph. |
| Ilog.Ilog32 | dtld-ibverbs/rdma-core-55.0/ccan/ilog.c:55-64 | The smear, multiply and look-up form for 32 bits gives the number of bits: 0 for 0, otherwise the k such that dropping k - 1 bits leaves just 1. |
| Ilog.IlogBounds32 | dtld-ibverbs/rdma-core-55.0/ccan/ilog.h:9-28 | For 32-bit words that number is the k with 2^(k-1) <= v < 2^k. |
| Ilog.IlogMeans64 | dtld-ibverbs/rdma-core-55.0/ccan/ilog.h:9-28 | For 64-bit words that number is the k with 2^(k-1) <= v < 2^k. |
| Ilog.BoundsUnique64 | dtld-ibverbs/rdma-core-55.0/ccan/ilog.h:9-28 | Only one k satisfies these bounds. |
| Ilog.PowerDoubles | dtld-ibverbs/rdma-core-55.0/ccan/ilog.h:9-28 | The powers in these bounds are the powers of two: each is twice the one before, the first is 1, and none overflows. |
| Ilog.Ilog64 | dtld-ibverbs/rdma-core-55.0/ccan/ilog.c:116-132 | The same for the 64-bit multiply and table. |
| Ilog.SplitIlog64 | dtld-ibverbs/rdma-core-55.0/ccan/ilog.c:99-113 | The same for 64 bits from the deciding 32-bit half and the 32-bit table. |
| Ilog.ShiftIlog32 | dtld-ibverbs/rdma-core-55.0/ccan/ilog.c:36-52 | The shift-and-compare form for 32 bits gives the same number. |
| Ilog.ShiftIlog64 | dtld-ibverbs/rdma-core-55.0/ccan/ilog.c:75-95 | The shift-and-compare form for 64 bits gives the same number. |
| Ilog.LadderIsIlog32 | dtld-ibverbs/rdma-core-55.0/ccan/ilog.h:139-149 | The conditional ladder gives the same number for every 32-bit word. |
| Ilog.LadderIsIlog64 | dtld-ibverbs/rdma-core-55.0/ccan/ilog.h:139-149 | The conditional ladder gives the same number for every 64-bit word. |
| Ilog.IlogUnique64 | dtld-ibverbs/rdma-core-55.0/ccan/ilog.h:9-28 | The documented meaning determines the result, so all forms agree. |
| Ilog.IlogUnique32 | dtld-ibverbs/rdma-core-55.0/ccan/ilog.h:9-28 | The same for 32 bits. |
| Ilog.TableInverts64 | dtld-ibverbs/rdma-core-55.0/ccan/ilog.c:116-121 | The 64-entry table inverts the multiplication for every power of two. |
| Ilog.TableInverts32 | dtld-ibverbs/rdma-core-55.0/ccan/ilog.c:20-23 | The 32-entry table inverts the multiplication for every power of two. |
| Hex256.DigitsInOrder | dtld-ibverbs/rdma-core-55.0/infiniband-diags/ibccconfig.c:95-109 | The hex digits are exactly the characters of 0123456789abcdef and 0123456789ABCDEF, each with its position as value. |
| Hex256.ReadsWhatIsWritten | dtld-ibverbs/rdma-core-55.0/infiniband-diags/ibccconfig.c:195-217 | The k digits written for any number below 16 to the k are read as that number. |
| Hex256.ParseByte | dtld-ibverbs/rdma-core-55.0/infiniband-diags/ibccconfig.c:95-109 | One or two hex digits are read as their value. |
| Hex256.Fill | dtld-ibverbs/rdma-core-55.0/infiniband-diags/ibccconfig.c:195-217 | The bytes from the start index on, read as a big-endian number, are the value of the digits, odd digit counts included; the bytes before are left alone. |
| Hex256.Parse256 | dtld-ibverbs/rdma-core-55.0/infiniband-diags/ibccconfig.c:172-220 | With or without prefix, 1 to 64 digits are stored as their 256-bit big-endian value in a zeroed buffer, and the 64 digits written for any 256-bit number, in either case, store that number in any buffer; a bad character or more digits is refused with the buffer untouched. |
| WireCodec.WireMsg.FormMsg | dtld-ibverbs/rdma-core-55.0/iwpmd/iwarp_pm_common.c:420-440 | Forming overwrites the whole message buffer with the packed parameters, whatever it held. |
| WireCodec.WireMsg.ParseMsg | dtld-ibverbs/rdma-core-55.0/iwpmd/iwarp_pm_common.c:379-413 | Parsing the buffer is parsing its bytes; an IP version other than 4 or 6 is refused. |
| WireCodec.ParseForm | dtld-ibverbs/rdma-core-55.0/iwpmd/iwarp_pm_common.c:379-440 | Parsing a formed message gives back every parameter if and only if protocol version and message type fit their two bits. |
| WireCodec.FormParse | dtld-ibverbs/rdma-core-55.0/iwpmd/iwarp_pm_common.c:379-440 | Forming what was parsed gives back the message, for every message whose mapped-address fields are zero unless it is a request. |
| WireCodec.ShortFormLosesNothing | dtld-ibverbs/rdma-core-55.0/iwpmd/iwarp_pm_common.c:448-490 | Accepts, acks and rejects are cut at 48 bytes; whatever the receiver's buffer held behind them, parsing gives back every parameter. |
| WireCodec.WireIsTransparent | dtld-ibverbs/rdma-core-55.0/iwpmd/iwarp_pm_common.c:379-578 | Any message whose addresses are of one Internet family, formed, cut, received and parsed, is the message the receiver acts on, whatever each of the sender's address fields and the receiver's buffer held before. |
| WireCodec.NetworkOrder | dtld-ibverbs/rdma-core-55.0/iwpmd/iwarp_pm_common.c:420-440 | Ports and handles are written most significant byte first. |
| WireCodec.HeaderOnTheWire | dtld-ibverbs/rdma-core-55.0/iwpmd/iwarp_pm.h:146-157 | For every message: the first byte holds the type above the IP version, then come the port of the mapped address of a request, the ports of the accepting and the connecting address, and the handle. |
| WireCodec.AddressesOnTheWire | dtld-ibverbs/rdma-core-55.0/iwpmd/iwarp_pm.h:146-157 | For every message: the connecting, the accepting and, in a request, the mapped connecting address stand at bytes 16, 32 and 48, whatever the fields held before. |
| Tracert.DirectPath.Extend | dtld-ibverbs/rdma-core-55.0/infiniband-diags/ibtracert.c:203-210 | Appends one hop if there is room and otherwise changes nothing; the index never leaves the array. |
| Tracert.LookupReadsTable | dtld-ibverbs/rdma-core-55.0/infiniband-diags/ibtracert.c:172-197 | If the blocks of a switch are a linear table of 64 entries each, a look-up gives the entry of the LID, exactly for LIDs below the capacity or up to the top whose block is answered. |
| Tracert.UsableExactly | dtld-ibverbs/rdma-core-55.0/infiniband-diags/ibtracert.c:285-378 | When a node is usable, in terms of that table: the entry of a switch names one of its ports, and the port it is seen by is active or there is no enhanced port 0; any other node by its active port alone. |
| Tracert.Leave | dtld-ibverbs/rdma-core-55.0/infiniband-diags/ibtracert.c:309-361 | One hop: a switch forwards by its table entry, the source goes out by its own cable or back along the given route. |
| Tracert.FindRoute | dtld-ibverbs/rdma-core-55.0/infiniband-diags/ibtracert.c:262-385 | Reports a route if and only if the ends answer (or force is set), the start is usable, and following the tables arrives in fewer than 62 hops; the stored path then ends at the target's GUID (or LID with force), and every hop beyond the given ones is the source's own cable or the entry of the LID in the linear table of the switch it leaves. |
| Tracert.WalkIsAccounted | dtld-ibverbs/rdma-core-55.0/infiniband-diags/ibtracert.c:303-378 | Every hop that is walked is given, the source's own cable, or taken from a forwarding table. |
| Tracert.CarriedFromSwitch | dtld-ibverbs/rdma-core-55.0/infiniband-diags/ibtracert.c:303-378 | A route that the tables carry from the starting switch to the target is found when it is short enough. |
| Tracert.CarriedFromAdapter | dtld-ibverbs/rdma-core-55.0/infiniband-diags/ibtracert.c:327-354 | The same for a route that starts at an adapter or router port and its neighbour. |
| Tracert.LastRoundIsLost | dtld-ibverbs/rdma-core-55.0/infiniband-diags/ibtracert.c:303-383 | On a line of switches a target 62 hops away is reached by the walk within the path array and still does not count: the last of the 63 rounds only ever gives no route. |
| Tracert.TraceLine | dtld-ibverbs/rdma-core-55.0/infiniband-diags/ibtracert.c:303-383 | The trace of that line reports no route. |

## Left out

- Sockets, netlink framing, attribute policies, syslog, signals, daemonising and the pthread primitives: foreign calls. One handler runs at a time, with timer sweeps between its critical sections.
- The sender thread and its queue: a queued message is put on the network, which may lose it.
- Error numbers that handlers return to the dispatcher, and what the dispatcher logs about them.
- The register-pid, hello and mapinfo-count messages: bookkeeping of clients, with no effect on the two lists.
- File descriptors of sockets opened for a mapping whose object could not be allocated.
- Restarts inside a network run: `Recovery` is about one daemon that starts afresh.
- Addresses of different families in one query or table hit: the bytes such a comparison or copy reads are an arbitrary parameter (`alien`) of the input.
- Agreement.Agreement: needs that queries of one host that can be confused ask about the same address, because the code recycles addresses of freed objects as handles; `RecycledHandle.AgreementExactly` shows that the condition is exact for queries between fully specified addresses of one family.
- RemoteAgreement.RemoteInfoAgrees: says what table entry is named only for queries with a fully specified local address of the family they ask about, because otherwise the code copies fields of the wrong family or picks an entry by port alone.
- Handshake.HandshakeCompletes: for queries of one family between fully specified addresses, for the same reason.
- Replies.FirstAnswerIsTold: for queries with a fully specified local address of the family they ask about, for the same reason.
- Answers.EveryCopyIsAcknowledged: needs that the handle has not been given to another query since, because such a query may stand in front of the ACK entry; `Answers.AcknowledgedExactly` is the exact condition on the state.
- Widths of the reference count and of the mapinfo counters: unbounded integers.
- PruneLibs.ComputeGraph: the symbol graph is acyclic, because on a cycle the recursion changes a set it is iterating.
- Reading symbol versions, running external tools and rewriting archives in sanitize_static_lib.py.
- Hex256.Parse256: at least one digit, because with none the original takes two characters that are not part of the argument; `strtoul` stands for its value on one or two hex digits.
- Ilog: the compiler builtins that replace these functions when available.
- Tracert.FindRoute: the fabric answers alike for the duration of a trace, and `dump` output and the text of warnings are not modelled; all failures are one result, as in the original.
- Multicast path search (`find_mcpath`, `new_node`) in ibtracert.c: nodes are freed while still linked.
- The list debugging mode that aborts, `list_for_each_off` and the other iteration macros apart from safe iteration.
- WireCodec: the two-argument `form_iwpm_*` wrappers only set type and size, which appear here as parameters.
- The userspace driver in Rust, the kernel driver, libibmad and the other diagnostic tools: not part of this model.
