# A Dafny model of OsmoHLR

OsmoHLR is a GSM home location register. This project models the parts of it whose
correctness does not show in any single function, and proves what they promise.

- **The mDNS codec** (`Octets`, `DnsName`, `DnsRecord`, `DnsMessage`, `LookupQuery`,
  `Decimal`, `Mdns`, `WireFormat`): three layers, from the octets of sections 4.1.1 to 4.1.3 of
  RFC 1035 and section 2.1 of RFC 3596 up to mslookup queries and results. The main
  results are the end-to-end round trips of query and result packets, each with the
  exact condition under which it holds.
- **The mslookup client** (`LookupRequest`, `LookupClient`, `LookupHistory`): the timed life of one
  request, and the client that holds many of them under wrapping 32-bit handles, with
  the mDNS method's list beside its own; at the end, a lookup over the wire and back.
- **The D-GSM proxy** (`ProxyModel`, `ProxySafety`, `ProxyOutcome`, `ProxyObject`):
  requests that are deferred until the home HLR of their IMSI is known and connected.
  The main results are arrival order, conservation of requests and the origin of VLR
  names, in every run, and what becomes of each request and message.
- **Vectors, connections and location updates** (`AuthCenter`, `GsupServer`,
  `LocationUpdate`): freshness of sequence numbers, resynchronisation, the allocation
  of index values, routes, and who owns an Update Location Request. `Gsup` holds what
  these and the proxy share.

Code that updates lists and fields in place is a class whose methods are proved equal
to a function on the state; the functions make up runs, and the theorems are about
all runs. Where the source loops, the method loops. Answers from outside (database,
crypto library, sockets, timers) are parameters or events, so that every theorem holds
for whatever they do, except for the assumptions about the library that a lemma names
in its `requires`. Every lemma has automatic induction switched off, so that it is proved
by its body alone.

Some properties that one could expect do not hold as such. For each there is a lemma with
an input that shows it, and the exact condition under which the property does hold:

- A label of 128 octets or more is encoded but not decoded, because the length goes
  through a signed `char` (`src/mslookup/mdns_rfc.c:59`, `:91`): `DnsName.LongLabelIsLost`.
  `DnsName.NameRoundTrip`, and with it every round trip above, has the condition.
- A decoded name is not always encoded again, because labels may hold dots or NUL octets
  and the text may grow to 256 characters: `DnsName.DotLabelIsLost`, with the condition in
  `DnsName.NameReencode`.
- A request whose handle is reused after the handle counter has wrapped around can deliver
  its result twice: `LookupRequest.ForcedEndRepeats`, with the condition in
  `LookupRequest.ForcedEnd` and, for all requests of a client,
  `LookupClient.EveryRequestDisciplined`.
- With AUTS, the final sequence number is not that of a computation from the recovered
  number if no vector is attempted: `AuthCenter.AutsWithoutVectorIsLost`, with the
  condition in `AuthCenter.AutsEqualsRecovered`.
- A response to a request that did not come through a proxy may leave on another
  connection, if two peers tell the same name: `GsupServer.SecondOfOneNameIsLost`, with
  the condition in `GsupServer.OwnResponseReturns`.
- Without the validation of IMSIs, D-GSM could answer a request and return it as well:
  `ProxySafety.UnvalidatedIsHandledTwice` says exactly when.

Where the documentation and the code disagree, the model follows the code. The records
of a result are documented in the order age, address, port; the code accepts the age
anywhere, and IPv6 before IPv4. A TXT record `age=` without digits is accepted as zero.
The timeout of a location update reports the session management cause 0x26, not the
mobility management cause 0x11 that the other failures report.

## Model

| member | source | states |
|---|---|---|
| `DnsName.JoinSplit` | src/mslookup/mdns_rfc.c:40-72 | Splitting a domain at its dots and joining the labels again gives the domain |
| `DnsName.SplitJoin` | src/mslookup/mdns_rfc.c:40-72 | Labels without dots come back from the domain they make up |
| `DnsName.SplitDotted` | src/mslookup/mdns_rfc.c:40-72 | The label lengths of a domain stay within bounds exactly when those of both of its parts do |
| `DnsName.QnameEncode` | src/mslookup/mdns_rfc.c:40-72 | The loop over the dots writes length-prefixed labels and a zero octet, and fails exactly for empty labels and names that are too long |
| `DnsName.QnameDecode` | src/mslookup/mdns_rfc.c:76-113 | The loop over length-prefixed labels reads the framed labels and joins them, with all its refusals |
| `DnsName.FrameWire` | src/mslookup/mdns_rfc.c:76-113 | Labels that were written are framed again, whatever follows them, exactly when none is longer than 127 octets |
| `DnsName.FrameIsWire` | src/mslookup/mdns_rfc.c:76-113 | Whatever can be framed is the wire form of the labels that were read |
| `DnsName.AssembleJoins` | src/mslookup/mdns_rfc.c:76-113 | Assembling labels in the buffer gives their dotted join |
| `DnsName.NameRoundTrip` | src/mslookup/mdns_rfc.c:40-113 | An encoded name followed by any octets decodes to that name if its labels have at most 127 octets, and is refused otherwise |
| `DnsName.LongLabelIsLost` | src/mslookup/mdns_rfc.c:40-113 | A domain of 128 equal letters is encoded and not decoded |
| `DnsName.NameReencode` | src/mslookup/mdns_rfc.c:40-113 | What is decoded encodes to the very octets it was read from exactly when there is a label, no label has a dot or a NUL octet inside, and the text has at most 255 characters |
| `DnsName.DotLabelIsLost` | src/mslookup/mdns_rfc.c:40-113 | A label that is a dot is decoded, and its text is not encoded |
| `WireFormat.NameWire` | src/mslookup/mdns_rfc.c:36-68 | A name on the wire is the length of each label, the label, and a zero octet at the end |
| `DnsRecord.HeaderRoundTrip` | src/mslookup/mdns_rfc.c:122-149 | Header encoding and decoding undo each other in both directions |
| `WireFormat.HeaderWire` | src/mslookup/mdns_rfc.c:122-132 | The octets of a header, the higher octet of each number first |
| `DnsRecord.HeaderEncode` | src/mslookup/mdns_rfc.c:122-132 | The header is appended to the message buffer |
| `DnsRecord.QuestionRoundTrip` | src/mslookup/mdns_rfc.c:154-200 | A question comes back exactly when its labels are short |
| `DnsRecord.QuestionEncode` | src/mslookup/mdns_rfc.c:154-174 | A question is appended, or nothing if its name cannot be encoded |
| `DnsRecord.RecordRoundTrip` | src/mslookup/mdns_rfc.c:209-269 | An encoded record followed by any octets decodes to that record and exactly its own length |
| `WireFormat.RecordWire` | src/mslookup/mdns_rfc.c:209-234 | The octets of a record: name, type, class IN, no time to live, length and data |
| `DnsRecord.RecordOf` | src/mslookup/mdns_rfc.c:237-269 | An accepted record takes at least 12 octets and never more than there are |
| `DnsRecord.RecordEncode` | src/mslookup/mdns_rfc.c:209-234 | A record is appended, or nothing if its name cannot be encoded |
| `DnsRecord.RecordDecode` | src/mslookup/mdns_rfc.c:237-269 | The branches of the decoder compute the specified record and length |
| `DnsMessage.RequestRoundTrip` | src/mslookup/mdns_msg.c:31-73 | A request packet comes back exactly when its labels are short |
| `DnsMessage.RequestEncode` | src/mslookup/mdns_msg.c:31-47 | A request is a header with one question, followed by that question |
| `DnsMessage.AnswerEncode` | src/mslookup/mdns_msg.c:89-114 | The loop over the records appends a header with their number and each record under the domain of the answer |
| `DnsMessage.AnswerDecode` | src/mslookup/mdns_msg.c:122-180 | The decode loop terminates and accepts exactly packets that split into records of one domain in the announced number |
| `DnsMessage.UnpackBody` | src/mslookup/mdns_msg.c:122-180 | The records of an encoded answer are all read back, in order |
| `DnsMessage.AnswerRoundTrip` | src/mslookup/mdns_msg.c:89-180 | Any non-empty list of records under one domain survives exactly when its labels are short and there are fewer than 65536 records; the empty list comes back without its domain |
| `DnsMessage.AnswerLength` | src/mslookup/mdns_msg.c:89-114 | A packet has 12 octets and, for each record, 12 more than domain and data |
| `DnsMessage.TxtRecord` | src/mslookup/mdns_msg.c:185-221 | A TXT record is refused exactly when its text does not fit one length octet |
| `DnsMessage.TxtRoundTrip` | src/mslookup/mdns_msg.c:185-260 | Key and value come back exactly when the key has no equals sign and both fit their buffers |
| `LookupQuery.QueryInitFromDomainStr` | src/mslookup/mslookup.c:248-319 | The backward scan for the last two dots computes the specified parse, with each error |
| `LookupQuery.ParseGivesText` | src/mslookup/mslookup.c:267-319 | Every string that is accepted is the text of a valid query, up to the letter case of the id type |
| `LookupQuery.TextParses` | src/mslookup/mslookup.c:267-319 | The text of a valid query is accepted in any letter case of the id type, dots in the service included |
| `LookupQuery.ParseIsInverse` | src/mslookup/mslookup.c:248-319 | Parsing gives a query if and only if the string is that valid query's text |
| `LookupQuery.PrintParse` | src/mslookup/mslookup.c:267-319 | Printing and parsing a valid query gives that query |
| `LookupQuery.ParseRefuses` | src/mslookup/mslookup.c:248-319 | What becomes of any service, id and id type: the query, or the code of the first check that fails |
| `LookupQuery.ParseNeedsDot` | src/mslookup/mslookup.c:267-280 | The code for a missing dot is given exactly for strings without one |
| `LookupQuery.ParseNeedsService` | src/mslookup/mslookup.c:267-290 | A string with nothing before its last two dots is refused with its own code |
| `Decimal.ValuePrint` | src/mslookup/mdns.c:258-271 | The decimal digits of a number denote that number |
| `Decimal.StrtollPrint` | src/mslookup/mdns.c:258-271 | The library's number reader takes all digits of a printed number |
| `Decimal.DecodePrint` | src/mslookup/mdns.c:258-282 | A printed number is read back as an age or a port exactly when it is in range |
| `Decimal.TrailingIsRefused` | src/mslookup/mdns.c:258-271 | A number with anything but digits behind it is refused |
| `Decimal.NegativeIsRefused` | src/mslookup/mdns.c:258-271 | A negative number is refused |
| `Mdns.DomainRoundTrip` | src/mslookup/mdns.c:41-82 | The domain of a valid query gives back the query under any suffix |
| `Mdns.DomainInverse` | src/mslookup/mdns.c:68-82 | A domain gives a query only if it is that query's text and the suffix |
| `WireFormat.DomainText` | src/mslookup/mdns.c:41-60 | The domain is service, id, the name of the id type and the suffix, with dots between them |
| `Mdns.FourOrders` | src/mslookup/mdns.c:295-393 | The states of the record loop accept exactly four orders of addresses and ports |
| `Mdns.ResultFromAnswer` | src/mslookup/mdns.c:295-393 | The loop accepts a list of records of any length exactly when it has one age anywhere and the others are well-formed addresses with their ports in one of the four orders, and returns those values |
| `Mdns.BadRecordIsRefused` | src/mslookup/mdns.c:145-393 | One record of another type, with an address of the wrong size or with an unknown key spoils the whole answer |
| `Mdns.AcceptedIsWellFormed` | src/mslookup/mdns.c:145-393 | The addresses of an accepted result have four and sixteen octets |
| `Mdns.RecordsRead` | src/mslookup/mdns.c:183-256 | The records of a result read back as that result, if it has an address |
| `WireFormat.RecordOrder` | src/mslookup/mdns.c:183-256 | A result is sent in the documented order: age, IPv4 address and port, IPv6 address and port |
| `WireFormat.NumberWire` | src/mslookup/mdns_msg.c:185-221 | Age and port are TXT records with one length octet, the key, an equals sign and decimal digits |
| `Mdns.EncodableIff` | src/mslookup/mdns.c:41-60 | The domain of a valid query can be put on the wire exactly when service and suffix have no empty label and it has at most 255 characters |
| `Mdns.ShortLabelsIff` | src/mslookup/mdns.c:41-60 | The domain of a valid query has short labels exactly when the suffix has |
| `Mdns.QueryPacketRoundTrip` | src/mslookup/mdns.c:89-138 | A valid query is encoded exactly when it is encodable; its packet decodes to the same id and query, and to nothing only if the suffix has an overlong label |
| `Mdns.ResultPacketRoundTrip` | src/mslookup/mdns.c:183-425 | A result packet decodes to the same id, query, age, addresses and ports exactly when the suffix has short labels and an address is set, and to nothing otherwise |
| `WireFormat.QueryWire` | src/mslookup/mdns.c:89-108 | Every octet of a query packet: one question, for all types in class IN |
| `WireFormat.ResultWire` | src/mslookup/mdns.c:183-256 | Every octet of a result packet: the answer flag, the number of records, and the records |
| `WireFormat.FlagDecides` | src/mslookup/mdns_msg.c:52-180 | The QR bit alone tells requests from answers |
| `WireFormat.QueryIsNoResult` | src/mslookup/mdns.c:403-425 | A query packet is never taken for a result |
| `WireFormat.ResultIsNoQuery` | src/mslookup/mdns.c:116-138 | A result packet is never taken for a query |
| `Mdns.ResultFits` | src/mslookup/mdns.c:30-256 | With a suffix as short as the default one, every result packet has at most 649 octets and fits the buffer |
| `Mdns.ReadQuery` | src/mslookup/mdns.c:68-82 | The suffix check and the parse compute the specified query |
| `Mdns.EncodeQueryPacket` | src/mslookup/mdns.c:89-108 | A query packet is built in the message buffer as specified |
| `Mdns.EncodeResultPacket` | src/mslookup/mdns.c:183-256 | A result packet is built in the message buffer as specified |
| `Mdns.DecodeResultPacket` | src/mslookup/mdns.c:403-425 | A result packet is decoded as specified |
| `LookupRequest.RunKeepsInv` | src/mslookup/mslookup_client.c:127-231 | Every run keeps the invariant that ties the stored result, the waiting flag and the callbacks |
| `LookupRequest.CallbackDiscipline` | src/mslookup/mslookup_client.c:127-231 | In every interleaving of results and timers, delivered ages strictly decrease, nothing follows a last callback, and there is one exactly when the request is finished |
| `LookupRequest.ForcedEnd` | src/mslookup/mslookup_client.c:272-281 | A forced last callback keeps the ages decreasing exactly when the request still waits or holds no result |
| `LookupRequest.ForcedEndRepeats` | src/mslookup/mslookup_client.c:272-281 | A request without minimum wait that is forced to end after one result delivers it twice |
| `LookupRequest.TwoTimersFinish` | src/mslookup/mslookup_client.c:191-231 | After two timer events a request has concluded |
| `LookupRequest.DelaysAddUp` | src/mslookup/mslookup_client.c:191-291 | Without a result of age zero, the delays that were armed add up to the longer of the two times after the defaults |
| `LookupRequest.SplitDelay` | src/mslookup/mslookup_client.c:191-195 | Milliseconds are split into seconds and microseconds without loss |
| `LookupRequest.ExactlyOneCallback` | src/dgsm.c:150-154 | With a nonzero minimum wait that covers the timeout there is exactly one callback: the first youngest of all successful results, or not found if there were none |
| `LookupRequest.LeastAgeIsOrderFree` | src/mslookup/mslookup_client.c:141-217 | Two such requests that receive the same successful results in any order both find nothing, or their callbacks carry the same age |
| `LookupRequest.KeepsYoungest` | src/mslookup/mslookup_client.c:141-174 | While a request lives, it holds the first youngest of all successful results so far |
| `LookupRequest.ConclusionTells` | src/mslookup/mslookup_client.c:141-231 | The last callback says not found exactly when no result came; otherwise the first youngest result has been delivered |
| `LookupRequest.AgeZeroEnds` | src/mslookup/mslookup_client.c:164-168 | A result of age zero is delivered at once as the last callback, whatever the request waited for, and nothing follows |
| `LookupClient.ReachableInv` | src/mslookup/mslookup_client.c:176-310 | Across 32-bit wrap-around, live handles are nonzero and distinct, the mDNS list mirrors the live requests, and every request ends once |
| `LookupClient.EveryRequestDisciplined` | src/mslookup/mslookup_client.c:127-310 | In every run nothing follows a last callback, a live request has had none, and the delivered ages of a request decrease except exactly when its handle was reused while it was past its wait with a result |
| `LookupClient.EndedStays` | src/mslookup/mslookup_client.c:176-187 | Through any later events, a request that was cleaned up stays as it was and gets no callback any more |
| `LookupHistory.TwoTimeoutsEnd` | src/mslookup/mslookup_client.c:197-231 | In every run of the client, no request survives two timer events for its handle, whatever happens in between |
| `LookupHistory.LiveSeesTimers` | src/mslookup/mslookup_client.c:197-231 | A request that is alive has seen every timer event for its handle |
| `LookupHistory.TimersConclude` | src/mslookup/mslookup_client.c:197-231 | After two timer events in a row the handle is free, and the request has ended and told not found exactly if no result had come, or else the first youngest result |
| `LookupHistory.EndedTold` | src/mslookup/mslookup_client.c:127-231 | In every run, a request that came to its last callback by itself has told about all results that reached it |
| `LookupHistory.CancelEnds` | src/mslookup/mslookup_client.c:304-310 | A cancelled handle is free in both lists, its request has ended without a further callback, and the others stay |
| `LookupHistory.HandlesCycle` | src/mslookup/mslookup_client.c:257-281 | In every run, request number n has handle n % (2^32 - 1) + 1 and packet id n % 2^16, and is expired by handle reuse only after 2^32 - 1 further requests |
| `LookupClient.AnswerReachesLiveRequest` | src/mslookup/mslookup_client_mdns.c:52-95 | In every run, an mDNS answer is handed on exactly if some live request has its service and id, then to such a one and to no other |
| `LookupClient.LookupOverTheWire` | src/mslookup/mslookup_client_mdns.c:70-125 | The packet for a live request is read as its query on the other side, and the packet that answers is read as the same id, query and result and reaches a live request for that query |
| `LookupClient.HandleNamesRequest` | src/mslookup/mslookup_client.c:238-298 | A handle is zero exactly for an invalid query; otherwise it names a fresh request for that query |
| `LookupClient.LookupClient.GetRequest` | src/mslookup/mslookup_client.c:44-54 | The search finds the first request with the handle |
| `LookupClient.LookupClient.RequestHandleByQuery` | src/mslookup/mslookup_client_mdns.c:52-68 | The search finds the first entry with the same service and id |
| `LookupClient.LookupClient.MdnsRequestCleanup` | src/mslookup/mslookup_client_mdns.c:127-140 | The first entry with the handle is taken off the list |
| `LookupClient.LookupClient.CancelRequest` | src/mslookup/mslookup_client.c:304-310 | The request with the handle is cleaned up, if there is one |
| `LookupClient.LookupClient.RxLookupResult` | src/mslookup/mslookup_client.c:141-174 | A result changes the one request it is for, and keeps the client's invariant |
| `LookupClient.LookupClient.TimerFires` | src/mslookup/mslookup_client.c:197-231 | A timer changes the one request it belongs to, and keeps the client's invariant |
| `LookupClient.LookupClient.ExpireHandle` | src/mslookup/mslookup_client.c:272-281 | A request that still holds the new handle is expired with a last callback |
| `LookupClient.LookupClient.StartRequest` | src/mslookup/mslookup_client.c:238-298 | A new request gets the next nonzero handle, and the client's invariant is kept |
| `LookupClient.LookupClient.AddRequest` | src/mslookup/mslookup_client_mdns.c:97-125 | A request is added to both lists under the next packet id |
| `LookupClient.LookupClient.RecvMdns` | src/mslookup/mslookup_client_mdns.c:70-95 | A decoded answer goes to the request that was found for it |
| `ProxySafety.RunKeeps` | src/proxy.c:413-511 | Every run keeps the invariant: pending requests for a known address mean that its link is absent, or down with a callback registered |
| `ProxySafety.StepKeeps` | src/proxy.c:69-511 | Every single event keeps the invariant of the proxy |
| `ProxySafety.RequestsLeaveInOrder` | src/proxy.c:467-511 | While the link for an IMSI is up none of its requests is deferred, and the requests of each IMSI are sent in the order of arrival |
| `ProxySafety.UpMeansNoneDeferred` | src/proxy.c:495-511 | The invariant rules out deferred requests behind a link that is up |
| `ProxySafety.ExactlyOnePlace` | src/dgsm.c:86-164 | In every run, each request given to D-GSM is in exactly one place: deferred, sent, refused or returned to the caller |
| `ProxySafety.FalseMeansUntouched` | src/dgsm.c:86-164 | D-GSM returns false exactly for local subscribers, or where nothing can be looked up, and then neither holds nor has consumed the request |
| `ProxySafety.UnvalidatedIsHandledTwice` | src/dgsm.c:137-161 | For all requests, D-GSM returns false and has yet consumed something exactly if an invalid IMSI alone prevents the lookup; the request is then both answered and returned |
| `ProxySafety.VlrNamesAreProven` | src/proxy.c:258-411 | In every run there is one entry per IMSI, and a VLR name is empty or was the source of an earlier request and the destination of a later result in that domain |
| `ProxySafety.OnlyResultsMoveVlrNames` | src/proxy.c:258-411 | Nothing but an Update Location Result for the IMSI changes its VLR names |
| `ProxySafety.LinkUpFlushes` | src/remote_hlr.c:109-126 | When a link comes up, every request deferred for it is sent there if its source has a name and it can be encoded, and refused with a network failure if not; none stays, and no callback is left |
| `ProxySafety.UpForwardsAtOnce` | src/proxy.c:495-502 | A request that arrives for an IMSI whose link is up is sent there in the same step, or refused if it cannot be encoded, with none of that IMSI deferred |
| `ProxyOutcome.ConnectPlaces` | src/remote_hlr.c:133-200 | Asking for a link leaves each deferred request sent, deferred with a callback, or refused as unknown, according to the link that there is then |
| `ProxyOutcome.KnownImsiArrives` | src/dgsm.c:98-102 | A request for an IMSI with an entry is deferred if the address is unknown, and otherwise placed by the link that is asked for; an Update Location Request is noted in its domain |
| `ProxyOutcome.NewImsiArrives` | src/dgsm.c:104-163 | Without an entry, the request is deferred under a new entry while the lookup runs |
| `ProxyOutcome.GatewayArrives` | src/dgsm.c:116-128 | With a fixed gateway, the request is placed under a new entry with that address |
| `ProxyOutcome.OtherPeerIsRefused` | src/proxy.c:266-271 | A request from a peer without an IPA name is refused with a protocol error |
| `ProxyOutcome.LocalIsReturned` | src/dgsm.c:94-96 | Requests of local subscribers pass D-GSM by |
| `ProxyOutcome.FirstReturnedNextDeferred` | src/dgsm.c:108-135 | Without a way to look up, the first request for an IMSI is returned but leaves an entry, so that the next one is deferred |
| `ProxyOutcome.LookupPlaces` | src/proxy.c:431-465 | A found address is stored for the IMSI, and every request that waited is placed |
| `ProxyOutcome.LookupStores` | src/proxy.c:431-465 | With nothing waiting only the address is stored, and a known one changes nothing |
| `ProxyOutcome.LookupFails` | src/dgsm.c:58-74 | A failed lookup removes the entry, refuses every request of the IMSI as unknown and leaves all others |
| `ProxyOutcome.ResultSetsVlrName` | src/proxy.c:358-387 | An Update Location Result makes its destination the VLR name of each domain it came from last, with the proxy in between, and leaves the other domain |
| `ProxyOutcome.LocationUpdateMovesVlrName` | src/proxy.c:258-411 | A request from a name and the result routed back to it make that name the VLR name of the domain |
| `ProxyOutcome.InsertDataSetsMsisdn` | src/proxy.c:335-356 | Insert Data brings the MSISDN into the entry |
| `ProxyOutcome.CleanupDropsStale` | src/proxy.c:207-219 | At any time, exactly the entries updated within the last 3600 seconds stay |
| `ProxyOutcome.LostLinkDefers` | src/proxy.c:498-511 | Over a lost link a request is deferred and not sent |
| `ProxyOutcome.DownLinkIsReplaced` | src/remote_hlr.c:113-117 | A link that goes down is forgotten; the next request takes a new one, or is refused |
| `ProxySafety.GetOrConnectKeeps` | src/remote_hlr.c:133-200 | Connecting flushes, refuses or registers a callback, so that the address needs no exception from the invariant any more |
| `ProxySafety.ForwardKeeps` | src/proxy.c:467-511 | Forwarding keeps the invariant and accounts for the new request |
| `ProxySafety.CheckForwardKeeps` | src/dgsm.c:86-164 | The D-GSM dispatch keeps the invariant and accounts for the new request exactly when it returns true |
| `ProxySafety.PopKeepsQueue` | src/proxy.c:105-119 | Emptying the queue for one IMSI keeps order and conservation |
| `ProxyObject.Proxy.GetByImsi` | src/proxy.c:135-145 | The search finds the first entry with the IMSI |
| `ProxyObject.Proxy.CreateOrUpdate` | src/proxy.c:177-188 | The entry of the IMSI is replaced, or a new one is put at the head |
| `ProxyObject.Proxy.SubscrDel` | src/proxy.c:196-204 | The deferred requests of the IMSI are refused and its entry is removed |
| `ProxyObject.Proxy.CleanupEntries` | src/proxy.c:207-219 | The loop that deletes in place takes the clean-up step |
| `ProxyObject.Proxy.DeferredWaiting` | src/proxy.c:90-101 | True exactly if a request of the IMSI is deferred |
| `ProxyObject.Proxy.DeferredPop` | src/proxy.c:80-119 | All requests of the IMSI leave the queue in order, the others stay in order |
| `ProxyObject.Proxy.ConnectResultCb` | src/proxy.c:413-425 | The queue is emptied for every entry with the address |
| `ProxyObject.Proxy.ConnectRemoteHlr` | src/remote_hlr.c:133-200 | An existing link is used or gets a callback; a missing one is created or refused |
| `ProxyObject.Proxy.RunPendingUp` | src/remote_hlr.c:120-124 | Every pending callback runs once |
| `ProxyObject.Proxy.RunUp` | src/remote_hlr.c:119-125 | The link is up, its callbacks have run and are gone |
| `ProxyObject.Proxy.RemoteHlrUp` | src/remote_hlr.c:109-126 | A link that comes up keeps the invariant of the proxy |
| `ProxyObject.Proxy.RemoteHlrDown` | src/remote_hlr.c:113-117 | The link and its callbacks go away, and the invariant is kept |
| `ProxyObject.Proxy.RemoteHlrResolved` | src/proxy.c:431-465 | The address is stored, and the link is asked for if requests wait |
| `ProxyObject.Proxy.ForwardToRemoteHlr` | src/proxy.c:467-511 | A request is denied, deferred, or handed to a link that is up |
| `ProxyObject.Proxy.CheckForwardGsup` | src/dgsm.c:86-164 | The branches of the D-GSM dispatch compute the specified step |
| `ProxyObject.Proxy.ReadCb` | src/dgsm.c:86-164 | A request that D-GSM does not handle goes back to the caller, and the invariant is kept |
| `ProxyObject.Proxy.ResolveHlrResult` | src/dgsm.c:40-83 | A failed lookup deletes the entry with its requests; a found address is stored |
| `ProxyObject.Proxy.ForwardToVlr` | src/proxy.c:318-411 | A message from the home HLR moves MSISDN and VLR names as specified, and the invariant is kept |
| `AuthCenter.ComputeVectors` | src/auc.c:34-185 | The loop fills the array with the specified vectors and stops early at the first failure, with the sequence number reached |
| `AuthCenter.OneVector` | src/auc.c:106-181 | One turn of the loop gives the first of the vectors still to come and the number from which the others follow, or ends them; unless AUTS has a say, the number rises to that of the vector |
| `AuthCenter.VectorsAreComplete` | src/auc.c:106-181 | Each vector has the 3G half from the number its predecessors left and Kc and SRES of the 2G half; there are as many as asked for, or as come before the first failure |
| `AuthCenter.GsmVectorsAreComplete` | src/auc.c:168-175 | The same without 3G data |
| `AuthCenter.BadArgumentsAreRefused` | src/auc.c:46-97 | Without usable data, with data of the wrong kind or half of a resynchronisation nothing is computed and the number stays |
| `AuthCenter.AutsEqualsRecovered` | src/auc.c:106-181 | For all n, vectors with AUTS equal vectors without from the recovered number; the final numbers agree exactly if a vector was attempted or the number was the same |
| `AuthCenter.AutsWithoutVectorIsLost` | src/auc.c:106-181 | AUTS with no vector asked for leaves the stored number as it was |
| `AuthCenter.CallResynchronises` | src/db_auc.c:189-246 | A call with AUTS gives the caller what a call without AUTS gives after the recovered number was stored, and leaves the same database |
| `AuthCenter.FailedRecovery` | src/db_auc.c:189-246 | If AUTS cannot be recovered, the caller gets nothing and the database stays |
| `AuthCenter.HalfResyncIsRefused` | src/db_auc.c:221-224 | Half of AUTS and RAND, or AUTS without 3G data, is an error |
| `AuthCenter.CallGivesAll` | src/db_auc.c:189-246 | If nothing fails, a call gives as many vectors as were asked for and says so |
| `AuthCenter.SeparationReaches` | src/db_auc.c:213-218 | The separation bit of a call reaches every vector |
| `AuthCenter.AssumptionsAgree` | src/auc.c:106-181 | A library that steps through the slices of Annex C of 3GPP TS 33.102 meets everything that is assumed of the library |
| `AuthCenter.ComputeRises` | src/auc.c:106-181 | The sequence numbers of one computation strictly rise above the stored one up to the final one |
| `AuthCenter.GetAucRises` | src/db_auc.c:189-246 | A call returns rising numbers between the old and the new stored one, also after partial generation or a failed write |
| `AuthCenter.SqnsAreFresh` | src/db_auc.c:189-246 | Over any calls without AUTS, all numbers given to callers strictly rise and none is above the stored one |
| `AuthCenter.ComputeInSlice` | src/auc.c:106-181 | With AUTS or without, every number of one computation lies in the slice of the index value |
| `AuthCenter.VectorsInSlice` | src/db_auc.c:210-211 | With AUTS or without, every number that a call returns lies in the slice of the masked index |
| `AuthCenter.AuthDb.DbGetAuc` | src/db_auc.c:189-246 | The database and the caller's array change as specified, with the errors for a failed read, an unknown IMSI, missing keys and a failed write |
| `GsupServer.SlotIsLeastUnused` | src/gsup_server.c:321-353 | The index of a new connection is unused and every smaller one is in use |
| `GsupServer.InsertSorted` | src/gsup_server.c:321-353 | The list of connections stays strictly sorted |
| `GsupServer.RunKeeps` | src/gsup_server.c:271-353 | Every run keeps the connections sorted and distinct, one route per address, and every route on a live connection |
| `GsupServer.IndsStayDistinct` | src/gsup_server.c:321-353 | With never more than 2^n connections at a time, all live connections have distinct masked index values |
| `GsupServer.SlicesStayApart` | src/db_auc.c:210-211 | Vectors for two live connections then never share a slice, nor a sequence number, resynchronised or not |
| `GsupServer.TooManyCollide` | src/db_auc.c:210-211 | With more than 2^n connections two masked index values are always equal |
| `GsupServer.Pigeonhole` | src/db_auc.c:210-211 | More numbers than values below m repeat one |
| `GsupServer.FindDeleted` | src/gsup_router.c:105-121 | Deleting the routes of a connection removes exactly its addresses |
| `GsupServer.RouteStays` | src/gsup_router.c:37-121 | A route keeps its connection through every event but the closing of that connection |
| `GsupServer.ProxiedResponseReturns` | src/gsup_server.c:65-148 | After any later events that leave the connection open, the reply to an accepted proxied request goes out on the connection it came in on |
| `GsupServer.OwnResponseReturns` | src/gsup_server.c:65-305 | The reply to a peer's own request returns to it exactly if no other connection held its name when it identified itself |
| `GsupServer.DirectRequestReturns` | src/gsup_server.c:111-148 | A message without a source name, or with the peer's own, is accepted as a request of the peer, and its response returns to it under the same condition |
| `GsupServer.ProxiedRequestAccepted` | src/gsup_server.c:123-147 | A message with another source name is refused exactly if that name leads elsewhere; otherwise the request carries both names and the name leads to this connection |
| `GsupServer.DisconnectRemoves` | src/gsup_server.c:300-316 | A connection that closes is gone with exactly its routes, and the others stay |
| `GsupServer.ConnectGetsLeastUnused` | src/gsup_server.c:321-392 | A new connection has no name, gets the least unused index, and leaves the others as they are |
| `GsupServer.SecondOfOneNameIsLost` | src/gsup_server.c:295-296 | Of two peers with one name, the response to the second goes out on the connection of the first |
| `GsupServer.RoutingErrorReturns` | src/gsup_server.c:73-81 | A routing error for a proxied request goes back to the proxy and not to the source, exactly if no other connection held the proxy's name when it identified itself |
| `GsupServer.GsupServer.IdentifyConn` | src/gsup_server.c:271-298 | A peer's name is stored and routed unless it already has a route, and the server's invariant is kept |
| `GsupServer.GsupServer.AddConn` | src/gsup_server.c:321-353 | The scan for the first gap inserts the connection there, and the list stays sorted |
| `GsupServer.GsupServer.FindRoute` | src/gsup_router.c:37-48 | The search finds the first route for the address |
| `GsupServer.GsupServer.AddRoute` | src/gsup_router.c:72-97 | An address that has a route keeps it; a new one is added at the end |
| `GsupServer.GsupServer.DelRoutes` | src/gsup_router.c:105-121 | All routes of the connection are removed, the others stay in order |
| `GsupServer.GsupServer.AcceptConn` | src/gsup_server.c:356-392 | A new connection gets its index, and the server's invariant is kept |
| `GsupServer.GsupServer.RxConn` | src/gsup_server.c:111-148 | A request is accepted or refused by its source name and route, and the server's invariant is kept |
| `GsupServer.GsupServer.FreeConn` | src/gsup_server.c:300-305 | A closed connection leaves the list together with its routes |
| `LocationUpdate.StepKeeps` | src/lu_fsm.c:86-286 | Every event keeps ownership, conservation and the record behind each result |
| `LocationUpdate.RunKeeps` | src/lu_fsm.c:86-286 | So does every run |
| `LocationUpdate.OwnedOrAnswered` | src/lu_fsm.c:86-286 | In every run each Update Location Request is owned by exactly one waiting LU or has had exactly one final response |
| `LocationUpdate.ResultMeansRecorded` | src/lu_fsm.c:107-201 | A positive response comes only after the subscriber existed, the domain was permitted and the requester's name was recorded, in the same LU |
| `LocationUpdate.ResultNeedsAnswer` | src/lu_fsm.c:259-286 | A positive response is sent only in the step in which the VLR confirms, to an LU of that IMSI |
| `LocationUpdate.AnswerDecides` | src/lu_fsm.c:203-286 | The first LU of the IMSI, and no other, ends with a positive response if the VLR confirms and with an error if it does not |
| `LocationUpdate.TimeoutAnswers` | src/lu_fsm.c:222-236 | A timeout or an abort answers the request with the session management cause |
| `LocationUpdate.StartResponds` | src/lu_fsm.c:107-257 | Everything that is recorded and sent when a request comes in: a refusal, a failure, or the record and Insert Data |
| `LocationUpdate.CauseMeans` | src/lu_fsm.c:133-187 | Each cause is given exactly for what it stands for |
| `LocationUpdate.DatabaseDecides` | src/lu_fsm.c:138-155 | What the database holds when the request comes in decides whether it stays open |
| `LocationUpdate.AcceptedIff` | src/lu_fsm.c:107-257 | A request stays open exactly when its peers have names, the subscriber may use the domain, and database, encoder and connection do their part |
| `LocationUpdate.RecordedIff` | src/lu_fsm.c:164-194 | The database changes only for recordable requests: the name and the proxy of the right domain, and nothing else |
| `LocationUpdate.StartList` | src/lu_fsm.c:107-201 | An acceptable request leaves its LU waiting at the head of the list, any other leaves the list as it was |
| `LocationUpdate.LocationUpdates.Respond` | src/lu_fsm.c:86-103 | A final response clears the request and ends the LU |
| `LocationUpdate.LocationUpdates.Check` | src/lu_fsm.c:133-187 | There is no refusal exactly for recordable requests, and each cause is given exactly for what it stands for |
| `LocationUpdate.LocationUpdates.LuStart` | src/lu_fsm.c:107-201 | A new LU is refused, or recorded and made to wait |
| `LocationUpdate.LocationUpdates.OnEnterWait` | src/lu_fsm.c:238-257 | Insert Data goes out, or the LU fails |
| `LocationUpdate.LocationUpdates.UpdateLocationRequest` | src/lu_fsm.c:203-207 | A new request keeps the invariant |
| `LocationUpdate.LocationUpdates.FindLu` | src/lu_fsm.c:209-211 | The search finds the first LU of the IMSI |
| `LocationUpdate.LocationUpdates.LuRxGsup` | src/lu_fsm.c:203-286 | Another message is refused exactly if no LU of its IMSI expects it, and then changes nothing; otherwise it ends that LU, and the invariant is kept |
| `LocationUpdate.LocationUpdates.TimerCb` | src/lu_fsm.c:222-227 | A timeout fails the LU and keeps the invariant |

## Left out

- DnsName.QnameDecode: a length octet of 128 or more is refused; what the C code does with the negative length in packets that the encoder cannot produce is undefined.
- DnsName.QnameDecode: the one octet that the C code can write past its buffer for a name of 256 characters is not modelled.
- DnsRecord.RecordDecode: fewer than 11 octets are refused; the C code subtracts 10 without a check.
- DnsMessage.TxtRoundTrip: a length octet of 128 or more is refused, as for names.
- Mdns.DecodeResultPacket: an answer without records is refused; the C code reads a null domain.
- Mdns.EncodeResultPacket: the abort of the message buffer past 1024 octets is not modelled; `Mdns.ResultFits` states when it cannot happen.
- Header flags other than QR stay packed as one number.
- LookupClient.LookupClient.StartRequest: callbacks that cancel or start requests themselves, and methods attached or removed later, are not modelled.
- ProxyObject.Proxy.ConnectRemoteHlr: the list of remote HLRs is a map by address, and a new client is never up at once; it could not be, since its owner is set only after its creation (src/remote_hlr.c:164, :183).
- ProxyObject.Proxy.ForwardToVlr: the decoding of the MSISDN, the timestamps of location updates and the sending to the VLR are not modelled.
- Delivery of deferred requests in the end: the code does not promise it, since a link that goes down drops its callbacks and old entries are discarded.
- LocationUpdate.LocationUpdates.LuRxGsup: the release of an incoming Insert Data Error is not modelled, since the code does not settle it.
- Crypto functions are parameters, with `MovesUp`, `AutsIsResync` and `SqnCarriesInd` as assumptions where a lemma needs them; key parsing and SQL statements are not modelled.
- AuthCenter.SqnsAreFresh: a write to the database that reports success is taken to have been stored; one that reports an error may or may not have been.
- Libosmocore is modelled only as far as it is needed: an address is set when its port is nonzero, string search stops at a zero octet, copies are clipped, and `strtoll` reads decimal digits.
- The GSUP encoding, `osmo_gsup_make_response()`, USSD, the mslookup server, sockets, the VTY and control interfaces and the database schema are not modelled.
