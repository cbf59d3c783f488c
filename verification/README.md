# vFlow in Dafny

A model of the parts of vFlow where state, arithmetic or concurrency make the code hard
to judge by reading it: the template-driven IPFIX and NetFlow v9 decoders, the sharded
template cache and its sharing between nodes, the worker pool and the pooled buffers, the
JSON printer, and the sFlow, packet and mirror code.

Code that changes things step by step is modelled by classes, arrays and loops
(`Reader.dfy`, `MemCache.dfy`, `IpfixDecoder.dfy`, `NetflowV9Decoder.dfy`, `IpfixJson.dfy`,
`PacketDecoder.dfy`, `Mirror.dfy`, `SflowDecoder.dfy`). Each of these methods is proved
against a function of its input (`Ipfix.dfy`, `NetflowV9.dfy`, `Packet.dfy`, `Sflow.dfy`),
and the laws are proved about those functions. The goroutines are modelled by state
machines whose steps may come in any order (`TemplateSharing.dfy`, `WorkerPool.dfy`,
`BufferPool.dfy`, `Pipeline.dfy`). Exporters and senders are modelled by the encodings of
RFC 7011, RFC 3954, sFlow version 5 and the packet headers, JSON texts by a parser written
after RFC 8259.

Where the model had to choose:

- The error type switch of `Decode` matches every error, so it never stops early; its
  comment says that fatal errors stop. Both readings are modelled (`StopRule`), and every
  result about `Decode` holds for both.
- A record that takes no bytes makes the record loop of `decodeSet` go on for ever. The
  model reports that as `stuck`, and `DecodeStuckIff` and `DecodePacketStuckIff` say
  exactly when it happens.
- Run-time panics (a short VLAN tag, an extended router record of 8 to 11 bytes, a mirror
  packet that does not fit) are outcomes of the model; results say exactly when they occur.
- The element table is an arbitrary map, and so are its contents.

What the proofs show to be false of the code, with the exact condition under which it holds:

- An enterprise element with id 0 does not survive its template (`FieldRoundTripIff`).
- A set does not always come back: a last record in the ignored tail of four bytes is lost,
  padding of a data set before more data is read as a record, and after one octet of padding
  of a template set the next octet decides (`SetRoundTripIff`, `EverySetRoundTripIff`;
  `FlowSetRoundTripIff`, `PacketRoundTripIff` for v9). Two such misreadings can cancel out
  in the message as a whole (`PaddingCancels`).
- A NetFlow v9 FlowSet is left at its end only if at most four bytes remain after its last
  whole record (`FlowSetFramingIff`).
- Of several scope specifiers of an options template only the last is kept
  (`OptionsRoundTripIff`), and records are read with the scope fields last, while exporters
  send them first (`ScopeFirstIff`, `ScopeSwapped`).
- A template record that cannot be read is not reported (`TemplateErrorIff`).
- The cache is not a map by exporter and id: two exporters can share all keys
  (`ExportersCollide`, `ActsAsPairMapIff`), and nodes then answer for an exporter with
  another one's template (`AlwaysOwnIff`, `TwoExportersForeign`).
- The worker count can exceed the maximum (`MaxIff`, `MaxKeptIff`).
- The printer returns an error only for the last value written (`ErrorIffLast`), and what it
  returns is JSON only if every value has a text (`JsonIff`). It writes no escapes, so a text
  comes back only if it needs none (`ParsesBackIff`, `QuoteBreaks`), and unsigned numbers of
  2^63 and more are printed as negative ones (`JsonRoundTripIff`).
- A VLAN tag is not transparent when another tag follows it (`TagPreservesMeaningIff`), and
  an ICMP packet without data is refused (`FrameRoundTripIff`).
- The sFlow decoder can panic on a sampled header or a router record (`DatagramCrashIff`).
- IPv4 flags and the source priority of sFlow switch records are not the ones sent
  (`V4FlagsIff`, `SwitchPriorityIff`), and expanded flow samples as the standard has them are
  read one word out of place (`ExpandedStandardIff`).
- A mirrored message reaches a receiver only if its packet length fits into 16 bits
  (`AssembledCarries`).

## Model

| member | source | states |
|---|---|---|
| Readers.Reader.Uint16 | reader/reader.go:59-68 | reads the next two bytes big-endian and moves the cursor by two, or fails and moves nothing; the count is always the position in the given bytes |
| Readers.Reader.Uint32 | reader/reader.go:71-80 | the same for four bytes |
| Readers.Reader.Uint64 | reader/reader.go:83-92 | the same for eight bytes |
| Readers.Reader.Uint8 | reader/reader.go:47-56 | the same for one byte |
| Readers.Reader.Read | reader/reader.go:95-104 | returns exactly the next n bytes or fails without moving |
| Readers.Reader.Peek | reader/reader.go:116-121 | returns the next n bytes and changes nothing |
| Readers.Reader.PeekUint16 | reader/reader.go:107-113 | returns the next two bytes as a number and changes nothing |
| Readers.Reader.Len | reader/reader.go:124-126 | returns the number of bytes not yet read |
| Readers.Reader.Advance | reader/reader.go:128-131 | keeps the data equal to the given bytes from the count on |
| Bytes.Wrap16IsMod | ipfix/decoder.go:182-216 | the 16-bit conversion used by the set arithmetic is the remainder modulo 2^16 |
| Fnv.Sum32 | ipfix/memcache.go:82-92 | the loop computes FNV-1: multiply by 16777619 modulo 2^32, then xor the byte |
| Fnv.RoundBits | ipfix/memcache.go:82-92 | a round multiplies by the prime modulo 2^32 and then flips exactly the low bits that are set in the byte |
| Fnv.PublishedValues | ipfix/memcache.go:82-92 | the hashes of "", "f" and "fo" are the published ones |
| Fnv.KeyInjectivePerExporter | ipfix/memcache.go:82-92 | for every address of any length, two of the 65536 template ids have the same 32-bit key if and only if they are equal |
| Fnv.KeyBytesInjective | ipfix/memcache.go:82-88 | before hashing, the key bytes determine address and id |
| Fnv.ExportersCollide | ipfix/memcache.go:82-92 | two different 16-byte addresses exist whose keys coincide for every id |
| Memcache.MemCache.constructor | ipfix/memcache.go:60-80 | new shards hold nothing |
| Memcache.MemCache.GetShard | ipfix/memcache.go:82-92 | returns the key and the shard number key mod 32 |
| Memcache.MemCache.Insert | ipfix/memcache.go:94-99 | the 32 shards together change as one flat map from key to record, and every key stays in the shard it names |
| Memcache.MemCache.Retrieve | ipfix/memcache.go:101-108 | answers as the flat map does, missing keys included |
| Memcache.MemCache.AllSetIds | ipfix/memcache.go:111-126 | returns the stored ids in ascending order, each as often as it is stored |
| Memcache.FlattenStore | ipfix/memcache.go:82-99 | storing into one shard is storing into the flat map |
| Memcache.ActsAsPairMapIff | ipfix/memcache.go:82-108 | over all insert and retrieve sequences on a set of exporter and id pairs, the cache answers like a map keyed by those pairs if and only if the hash separates them |
| Memcache.CollisionShows | netflow/v9/memcache.go:81-107 | two pairs with one key: the later insert is returned for the earlier pair |
| Memcache.OneExporterSeparated | ipfix/memcache.go:82-108 | the ids of a single exporter are always separated |
| Memcache.ViewInserted | netflow/v9/memcache.go:81-107 | an insert changes the inserting exporter's view like a map keyed by template id |
| Memcache.ViewLookup | ipfix/memcache.go:101-108 | a lookup is a lookup in the exporter's view |
| InfoModel.InterpretEncoded | ipfix/interpret.go:32-101 | every typed value, encoded as section 6.1 of RFC 7011 says, is interpreted as itself |
| InfoModel.ReducedSizeIff | ipfix/interpret.go:32-35 | a field is kept as its raw octets if and only if it is shorter than the values of its type |
| IpfixDecoder.UnmarshalField | ipfix/decoder.go:358-379 | the reads compute ReadField: value and cursor, on success and on every short input |
| IpfixDecoder.UnmarshalFields | ipfix/decoder.go:397-416 | the loop reads n specifiers or stops where one is short |
| IpfixDecoder.UnmarshalTemplate | ipfix/decoder.go:397-416 | the template record and the cursor, on every input |
| IpfixDecoder.UnmarshalScope | ipfix/decoder.go:446-464 | the loop keeps only the last scope specifier |
| IpfixDecoder.UnmarshalOptions | ipfix/decoder.go:446-473 | the options template record with a 16-bit difference of counts, on every input |
| IpfixDecoder.RequestChannel.TryPost | ipfix/decoder.go:163-176 | posting to the one-slot channel never waits: a full channel keeps its request |
| IpfixDecoder.Decoder.DecodeSpecs | ipfix/decoder.go:475-529 | one field loop: fields, error and cursor, with the bytes taken before the element is looked up |
| IpfixDecoder.Decoder.DecodeData | ipfix/decoder.go:475-529 | the record, error and cursor for ordinary and then scope fields |
| IpfixDecoder.Decoder.DecodeBody | ipfix/decoder.go:181-210 | the record loop: cursor, error, records appended in order, templates inserted into the shared cache, or the report that it never ends |
| IpfixDecoder.Decoder.DecodeSet | ipfix/decoder.go:149-224 | one set: everything DecodeBody states, the request posted for an unknown template, and the skipped rest |
| IpfixDecoder.Decoder.UnmarshalHeader | ipfix/decoder.go:239-263 | the header, or a failure exactly on fewer than 16 bytes |
| IpfixDecoder.Decoder.DecodeAllSets | ipfix/decoder.go:121-133 | the set loop: all records, errors, inserts and requests of the message, in order |
| IpfixDecoder.Decoder.Decode | ipfix/decoder.go:103-133 | the returned message, its errors, the cache and the request channel are those of the function Ipfix.Decode on the exporter's view of the cache |
| IpfixDecoder.ViewInsertedAll | ipfix/decoder.go:198-200 | the inserts of one message change the exporter's view as a map by template id |
| IpfixFraming.SetFraming | ipfix/decoder.go:149-224 | in a buffer of at most 65535 bytes, a set that ends without error or with an unknown template or element leaves the cursor exactly Length bytes after its start |
| IpfixFraming.OverrunIsReported | ipfix/decoder.go:212-222 | records that run past the end of their set always end in a reader error, because the 16-bit leftover wraps |
| IpfixFraming.CountWraps | ipfix/decoder.go:182-182 | the record loop counts the bytes of a set modulo 2^16 |
| IpfixFraming.RecordTakes | ipfix/decoder.go:475-529 | a record is read if and only if its elements are known and its bytes are there, and then takes the template's length |
| IpfixFraming.SetStuckIff | ipfix/decoder.go:181-210 | decodeSet never returns if and only if the set has room for a record whose template takes no bytes |
| IpfixFraming.DecodeStuckIff | ipfix/decoder.go:121-133 | Decode never returns if and only if it reaches such a set |
| IpfixFraming.ZeroIdNeverEnds | ipfix/decoder.go:160-210 | a set with id 0 or 1 and five bytes of contents is such a set, whatever the cache holds |
| IpfixFraming.DecodeWork | ipfix/decoder.go:121-210 | every record costs at least one byte of input, every template and every error four, and sets started at least four |
| IpfixRoundTrip.FieldRoundTripIff | ipfix/decoder.go:358-379 | an encoded field specifier is read back if and only if it is not an enterprise element with id 0 |
| IpfixRoundTrip.TemplateRoundTrip | ipfix/decoder.go:397-416 | an encoded template is read back |
| IpfixRoundTrip.OptionsRead | ipfix/decoder.go:446-473 | an encoded options template is read with all its ordinary specifiers and the last of its scope specifiers |
| IpfixRoundTrip.OptionsRoundTripIff | ipfix/decoder.go:446-473 | so it is read back if and only if it has at most one scope specifier |
| IpfixRoundTrip.RecordRoundTrip | ipfix/decoder.go:475-529 | an encoded record, of ordinary and then scope fields, is decoded to its fields and takes its length; scope fields keep their enterprise number |
| IpfixRoundTrip.SetRoundTripIff | ipfix/decoder.go:149-224 | for sets of templates, of options templates and of data, every padding and whatever follows: an encoded set is decoded to exactly its templates and records, without error and with the cursor at its end, if and only if the record loop can tell its records from what comes after them |
| IpfixRoundTrip.SetsRoundTrip | ipfix/decoder.go:121-133 | a run of sets, each possibly using templates announced earlier in the message, is decoded before whatever follows it |
| IpfixMessage.EverySetRoundTripIff | ipfix/decoder.go:103-224 | for every starting cache and every exported message, whatever its padding, each set is decoded to exactly its own templates and records if and only if every set is separable from what follows it; then Decode returns exactly the header, templates and records in order without error |
| IpfixMessage.CallsMakeRun | ipfix/decoder.go:121-133 | the records and templates of a message are those of its sets, in order |
| IpfixMessage.MessageRoundTripIff | ipfix/decoder.go:103-224 | where only the last set is padded ambiguously, the outcome of the whole message is the one sent if and only if that set ends visibly |
| IpfixMessage.PaddingCancels | ipfix/decoder.go:181-222 | otherwise the outcome can be right although sets are misread: a padded set gains a record and the next one loses its own |
| IpfixMessage.InsertAllLatest | ipfix/decoder.go:198-200 | after a message each id stands for its latest definition, and ids it does not define are unchanged |
| IpfixMessage.TypedRowShown | ipfix/decoder.go:475-529 | a record of typed values is decoded to those values |
| IpfixOptions.ScopeFirstIff | ipfix/decoder.go:475-529 | a record sent with its scope fields first is decoded without error, but its octets go to their own fields if and only if both orders give the same octets |
| IpfixOptions.ScopeSwapped | ipfix/decoder.go:475-529 | a field and a scope field of one length come back with each other's octets |
| IpfixIsolation.SetsElsewhere | ipfix/decoder.go:121-224 | the decoding of the rest of a message depends on the bytes that are left only |
| IpfixIsolation.RecordRefused | ipfix/decoder.go:475-529 | a record that cannot be decoded fails with the error of the first field that does not fit or is not known, in the order of ordinary and then scope fields |
| IpfixIsolation.UnusableIsSkipped | ipfix/decoder.go:163-223 | a set of at least five bytes with a reserved id, an unknown template or an unknown element in its template is skipped as a whole |
| IpfixIsolation.Isolation | ipfix/decoder.go:121-133 | such a set after separable sets and before arbitrary bytes changes neither records nor templates; it adds exactly the error for its template or element, a request for an unknown template, and nothing for a reserved id |
| IpfixErrors.RejectedIff | ipfix/decoder.go:103-119 | Decode rejects a message if and only if it has fewer than 16 bytes or another version, each with its own error |
| IpfixErrors.FatalSetEnds | ipfix/decoder.go:121-133 | a set shorter than its header, or an unusable one that reaches past the message, reports that error; as documented the decoding stops there, as written it goes on after the header of the set |
| IpfixErrors.FatalMessage | ipfix/decoder.go:103-133 | the templates of all sets before such a set stay learned; as written their records are returned with the error, as documented the error is returned alone |
| IpfixErrors.CutDataSet | ipfix/decoder.go:181-223 | a data set that is cut off within a record gives the records before it and a reader error |
| IpfixErrors.TemplateErrorIff | ipfix/decoder.go:182-216 | a set of templates within the message reports an error if and only if its records run past its end, whatever its templates hold |
| NetflowV9Decoder.UnmarshalSpecs | netflow/v9/decoder.go:246-318 | both specifier loops, on every input |
| NetflowV9Decoder.UnmarshalRecord | netflow/v9/decoder.go:246-268 | the template record and the cursor, on every input |
| NetflowV9Decoder.UnmarshalRecordOptions | netflow/v9/decoder.go:288-318 | the options template record, on every input |
| NetflowV9Decoder.FlowMessage.Add | netflow/v9/decoder.go:463-466 | a record and its FlowSet header are appended together |
| NetflowV9Decoder.FlowDecoder.DecodeBody | netflow/v9/decoder.go:440-468 | the record loop, which a short template ends |
| NetflowV9Decoder.FlowDecoder.DecodeSet | netflow/v9/decoder.go:415-480 | one FlowSet: cursor, error, records with their header, inserts, skipped rest |
| NetflowV9Decoder.FlowDecoder.DecodeAllSets | netflow/v9/decoder.go:400-410 | the FlowSet loop: all records with their headers, errors and inserts of the packet, in order |
| NetflowV9Decoder.FlowDecoder.Decode | netflow/v9/decoder.go:382-413 | the returned message is that of DecodePacket, and SetHeaders is index-aligned with DataSets |
| NetflowV9.DecodeFlowSetStuckIff | netflow/v9/decoder.go:440-468 | decodeSet never returns if and only if the FlowSet has more than four bytes of contents and a template whose records take none |
| NetflowV9.DecodePacketStuckIff | netflow/v9/decoder.go:401-410 | Decode never returns if and only if it reaches such a FlowSet |
| NetflowV9.FlowSetWork | netflow/v9/decoder.go:415-480 | a FlowSet costs four bytes, every record at least one more and every template four |
| NetflowV9.DecodePacketWork | netflow/v9/decoder.go:401-410 | the records, templates, errors and FlowSets of a packet are bounded by its bytes in the same way |
| NetflowV9.FlowSetFramingIff | netflow/v9/decoder.go:441-478 | a data FlowSet is left without error at its end if and only if at most four bytes remain after its whole records, and records of more than four bytes are then read exactly as often as they fit |
| NetflowV9RoundTrip.RecordTemplateRoundTrip | netflow/v9/decoder.go:246-268 | an encoded template is read back |
| NetflowV9RoundTrip.OptionsRecordRead | netflow/v9/decoder.go:288-318 | an encoded options template is read with all other specifiers, only the last scope specifier, and no counts |
| NetflowV9RoundTrip.FlowSetRoundTripIff | netflow/v9/decoder.go:415-480 | a FlowSet of templates, options templates or data is decoded to exactly its templates and records, without error, if and only if its padding is at most four bytes and its last record with the padding more than four |
| NetflowV9RoundTrip.PacketRoundTripIff | netflow/v9/decoder.go:382-480 | for every starting cache and every sent packet, each FlowSet is decoded to exactly its own templates and records if and only if every FlowSet meets that condition; then Decode returns exactly the records in order, each with the header of its own FlowSet |
| NetflowV9RoundTrip.FlowCallsMakeRun | netflow/v9/decoder.go:400-410 | the records and templates of a packet are those of its FlowSets, in order |
| NetflowV9Isolation.FlowSetsElsewhere | netflow/v9/decoder.go:400-480 | the decoding of the rest of a packet depends on the bytes that are left only |
| NetflowV9Isolation.UnusableFlowSetIsSkipped | netflow/v9/decoder.go:429-478 | a FlowSet of at least five bytes with a reserved id, an unknown template or an unknown element in its template is skipped as a whole |
| NetflowV9Isolation.FlowIsolation | netflow/v9/decoder.go:400-410 | such a FlowSet after separable ones and before arbitrary bytes changes neither records nor templates; it adds exactly the error for its template or element, and nothing for a reserved id |
| NetflowV9Errors.RefusedIff | netflow/v9/decoder.go:382-399 | Decode refuses a packet if and only if it has fewer than 20 bytes or another version, each with its own error |
| NetflowV9Errors.FatalFlowSetEnds | netflow/v9/decoder.go:400-410 | a FlowSet shorter than its header, or an unusable one that reaches past the packet, reports that error and stops or does not stop the decoding, by either reading of the rule |
| NetflowV9Errors.FatalPacket | netflow/v9/decoder.go:382-410 | the templates of all FlowSets before such a one stay learned; as written their records are returned with the error, as documented the error is returned alone |
| NetflowV9Errors.CutDataFlowSet | netflow/v9/decoder.go:440-478 | a data FlowSet that is cut off within a record gives the records before it and a reader error |
| NetflowV9Errors.RecordShortIff | netflow/v9/decoder.go:246-318 | a template record cannot be read if and only if it claims more specifiers than there are bytes |
| NetflowV9Errors.CutTemplateFlowSet | netflow/v9/decoder.go:440-478 | a FlowSet cut off within a template gives the templates before it and a reader error |
| TemplateSharing.Provenance | ipfix/memcache_rpc.go:137-177 | in every reachable state of any number of nodes, what is stored or about to be stored under a key was read by Decode, at a position its loops reach, from a template set of a datagram of an exporter with that key, and at most one request is pending per node |
| TemplateSharing.KeysStay | ipfix/memcache_rpc.go:137-177 | over every run no key disappears from a node |
| TemplateSharing.MissNeverWaits | ipfix/decoder.go:163-176 | a decoder that misses a template can post in every state at once, even if another worker has stored it since; a full channel keeps its request |
| TemplateOwnership.AlwaysOwnIff | ipfix/memcache_rpc.go:91-100 | for every set of exporter and id pairs, nodes that see templates of these pairs only answer in every reachable state with a template that the asked exporter sent with that id, if and only if the hash separates the pairs |
| TemplateOwnership.OneExporterOwn | ipfix/memcache_rpc.go:91-100 | for a single exporter that is always so |
| TemplateOwnership.TwoExportersForeign | ipfix/memcache_rpc.go:91-100 | for some two exporters it is not |
| TemplateOwnership.ForeignTemplate | ipfix/memcache_rpc.go:91-100 | wherever two exporters share a key, one message that announces any template leads to a node that answers with it for the other exporter, which has sent nothing |
| TemplateOwnership.AnnouncementDecoded | ipfix/decoder.go:103-133 | that message is accepted by Decode, whatever the cache, and teaches exactly that template |
| TemplateSharing.MissRepaired | ipfix/memcache_rpc.go:151-173 | for any list of peers and any of them that has the template, a request can end with that peer's template in the asking node |
| TemplateSharing.AsksAll | ipfix/memcache_rpc.go:154-171 | in every interleaving a node asks its peers in order until one answers, and without an answer gives up only after the last |
| TemplateSharing.DecodeSteps | ipfix/decoder.go:149-224 | what a whole Decode does to the cache and the channel is a run of the learn and ask steps, whose observations are exactly the templates it read, in order and from this datagram |
| WorkerPool.AlwaysRight | vflow/ipfix.go:271-334 | in every interleaving the worker count is the pool plus counted workers not yet in it and never below the configured number, no quit channel is closed twice, retiring never waits, and at most ten workers are retired per sixteen idle rounds |
| WorkerPool.ShrinkNeverWaits | vflow/ipfix.go:323-329 | after the count has been lowered the pool holds a quit channel to receive |
| WorkerPool.MaxIff | vflow/ipfix.go:298-311 | a run keeps counted and uncounted workers together within the maximum in all its states if and only if they leave room at each accepted growing round |
| WorkerPool.WithinBoundsMeans | vflow/ipfix.go:304-311 | then the count is within the maximum and no goroutine waits to enter the pool |
| WorkerPool.CommittedReached | vflow/ipfix.go:304-311 | the count reaches that sum without another round |
| WorkerPool.NeverAboveMax | vflow/ipfix.go:298-311 | runs whose goroutines register before the next growing round are such runs |
| WorkerPool.MaxKeptIff | vflow/ipfix.go:298-311 | every run from a fresh pool keeps the count within the maximum if and only if the pool can never grow, that is, if there is no room for the smallest growth of 30 |
| WorkerPool.MaxExceeded | vflow/ipfix.go:298-311 | in every configuration with room for one growth, busy rounds before anyone registers exceed the maximum |
| WorkerPool.GrowthByLoad | vflow/ipfix.go:281-311 | in every interleaving a round starts exactly 30, 40, 60 or 100 goroutines for a load above 15, 100, 200 or 300, or none if the maximum would be exceeded or the load is smaller |
| WorkerPool.IdleRounds | vflow/ipfix.go:315-323 | fifteen idle rounds are counted and the sixteenth retires workers |
| WorkerPool.BusyDelaysRetirement | vflow/ipfix.go:298-319 | in every interleaving a round with load starts the count of idle rounds again, so that nobody is retired in the next fifteen; a refused growth leaves the count as it was |
| WorkerPool.ShrinkRetires | vflow/ipfix.go:322-333 | in every interleaving such a round retires all workers above the configured number up to ten, and no others unless more enter the pool meanwhile |
| WorkerPool.WorkersConserved | vflow/ipfix.go:304-331 | every goroutine ever started is waiting to enter the pool, in it, or told to stop, and all that have entered run until they leave |
| WorkerPool.FirstInFirstOut | vflow/ipfix.go:308-327 | in every run workers are told to stop in the order in which they entered the pool, and all that entered are told, about to be told, or in it |
| BufferPool.KeepsSound | vflow/ipfix.go:75-79 | taking, moving, filling, dropping and returning a buffer keep one owner per buffer, one return per acquisition and the contents of filled buffers |
| Pipeline.StepLegal | vflow/ipfix.go:186-257 | no step of the goroutines uses a buffer that it does not hold |
| Pipeline.StepRight | vflow/ipfix_unix.go:99-121 | every step keeps ownership, contents and the bookkeeping of queues and workers |
| Pipeline.AlwaysRight | vflow/ipfix.go:151-257 | in every reachable state each buffer has at most one owner, is returned at most once per acquisition, and everything queued as JSON or mirrored is a datagram as received from its own sender |
| PipelineFlow.AlwaysBalanced | vflow/ipfix.go:151-257 | in every run each datagram read is, as often as it was read, on its way to the decoder or decoded; exactly the decoded ones chosen for it are published, in order; every mirror copy is on its way, sent or lost at a full queue; every buffer made is in the pool, in use or forgotten |
| PipelineFlow.AlwaysInOrder | vflow/ipfix.go:151-225 | in every run the workers take the datagrams in the order in which they were read from the network |
| IpfixJson.EncodeAgent | ipfix/marshal.go:154-158 | appends the agent text |
| IpfixJson.EncodeHeader | ipfix/marshal.go:140-152 | appends the header text |
| IpfixJson.WriteValue | ipfix/marshal.go:160-207 | the type switch fails exactly on booleans and then writes nothing; a float is written as the library formats it; what it appends for all other values is read by the JSON parser as that value if and only if it needs no escapes |
| IpfixJson.EncodeDataSet | ipfix/marshal.go:55-99 | the nested loops append all records with their commas, and fail exactly if the last value written has no text |
| IpfixJson.JsonMarshal | ipfix/marshal.go:36-53 | returns the whole text or, exactly then, an error |
| IpfixJson.ErrorIffLast | ipfix/marshal.go:55-99 | over all records and fields, there is an error if and only if the very last value of the message is a boolean |
| Json.ParseShownIff | ipfix/marshal.go:36-53 | the reference parser recovers a printed JSON value if and only if its strings need no escapes |
| IpfixJsonRoundTrip.MessageShown | ipfix/marshal.go:36-207 | the printed text is the text of the message's JSON value |
| IpfixJsonRoundTrip.ParsesBackIff | ipfix/marshal.go:36-207 | for every message without floats and booleans, the printed text is parsed to the JSON value of the message if and only if agent and values need no escapes |
| IpfixJsonRoundTrip.QuoteBreaks | ipfix/marshal.go:186-189 | a text value of one quotation mark is printed as something else |
| IpfixJsonRecovery.JsonRoundTripIff | ipfix/marshal.go:36-207 | every message of 64-bit integers, octet arrays, addresses and texts without escapes, in any shape, is printed as JSON, and a reader that knows the kinds of the fields recovers the whole message if and only if no unsigned value is 2^63 or more |
| IpfixJsonRecovery.TextBack | ipfix/marshal.go:186-189 | the characters printed for a text are its octets, in order |
| IpfixJsonFailure.JsonIff | ipfix/marshal.go:36-207 | for every message without floats whose texts need no escapes, the output is JSON if and only if no value is a boolean |
| PacketDecoder.Decoder.StripTag | packet/ethernet.go:83-85 | the overlapping shift in place leaves the frame without bytes 12 to 15 |
| PacketDecoder.Decoder.Ethernet | packet/ethernet.go:66-97 | data link layer, remaining bytes, error or panic, on every input |
| PacketDecoder.Decoder.IPv4 | packet/network.go:149-175 | the IPv4 header and the remaining bytes, on every input |
| PacketDecoder.Decoder.IPv6 | packet/network.go:123-147 | the IPv6 header and the remaining bytes, on every input |
| PacketDecoder.Decoder.NextLayer | packet/network.go:73-121 | the ICMP, TCP or UDP header and the remaining bytes, on every input |
| PacketDecoder.Decoder.EthernetHeader | packet/packet.go:86-126 | the layers from the data link up, with the error or panic of the first that fails |
| PacketDecoder.Decoder.Decode | packet/packet.go:53-84 | the whole decoder, in place, computes Packet.Decode |
| Packet.PanicIff | packet/ethernet.go:81-85 | the decoder panics if and only if a tagged frame has fewer than 18 bytes |
| Packet.TagPreservesMeaningIff | packet/ethernet.go:66-116 | a tagged frame is decoded like the frame without the tag, with the tag as VLAN, if and only if the inner frame is not tagged |
| PacketRoundTrip.EthernetDecoded | packet/ethernet.go:99-116 | addresses and type of an untagged frame come back from their encoding |
| PacketRoundTrip.V4Decoded | packet/network.go:149-175 | every IPv4 field comes back from its encoding, but the flags are taken from the low three bits of byte 6 |
| PacketRoundTrip.V4FlagsIff | packet/network.go:164-164 | the flags of RFC 791 come back if and only if the high and the low three bits of byte 6 agree |
| PacketRoundTrip.V6Decoded | packet/network.go:123-147 | every IPv6 field comes back from its encoding |
| PacketRoundTrip.TcpDecoded | packet/transport.go:58-70 | ports, data offset and nine flags come back from their encoding |
| PacketRoundTrip.UdpDecoded | packet/transport.go:72-81 | both ports come back from their encoding |
| PacketRoundTrip.IcmpDecodedIff | packet/icmp.go:48-58 | type, code and rest come back if and only if the rest is not empty |
| PacketRoundTrip.PacketDecodedIff | packet/packet.go:66-80 | TCP, UDP or ICMP over IPv4 (header protocol 11) or IPv6 (12) is decoded to both headers and exactly the payload if and only if it is not ICMP without data |
| PacketRoundTrip.OutcomeIs | packet/packet.go:53-126 | exactly which bytes are decoded and which are refused with which error, for every header protocol |
| PacketRoundTrip.FrameRoundTripIff | packet/packet.go:53-126 | the same for a whole Ethernet frame, with or without a VLAN tag, whose VLAN is then recovered too |
| Mirror.MarshalIp | mirror/ipv4.go:42-64 | the template of the IPv4 header, octet by octet |
| Mirror.MarshalUdp | mirror/udp.go:36-45 | the template of the UDP header with the source port and the mirror's port |
| Mirror.Worker.constructor | mirror/ipv4.go:42-64 | the header buffers hold their templates |
| Mirror.Worker.SetHeaders | mirror/ipv4.go:67-75 | both reused header buffers are those of this message, whatever they held before |
| Mirror.Worker.Join | vflow/ipfix_unix.go:112-114 | the packet buffer starts with both headers and the body |
| Mirror.Worker.Assemble | vflow/ipfix_unix.go:99-117 | the bytes sent depend on this message only; panics exactly on short addresses and oversized messages; a receiver by RFC 791 and RFC 768 gets exactly the message, its sender and the ports if and only if the packet length fits into 16 bits |
| Mirror.Worker.Run | vflow/ipfix_unix.go:99-121 | every packet of a run carries its own message in that sense, and the run ends at the first message that panics |
| Mirror.AssembledCarries | mirror/udp.go:36-50 | both lengths of an assembled packet agree with its bytes, and a receiver gets the message, if and only if its length fits into 16 bits |
| Mirror.AssembledDecodes | mirror/udp.go:36-50 | the packet decoder recovers version, protocol, addresses, ports and exactly the payload, and the packet's length if and only if it fits into 16 bits |
| SflowDecoder.DecodeRawHeader | sflow/flow_sample.go:123-160 | the aligned, possibly short read and the decoded packet, error or panic |
| SflowDecoder.DecodeExtSwitch | sflow/flow_sample.go:162-180 | the switch data, whose fourth word overwrites the source priority |
| SflowDecoder.DecodeExtRouter | sflow/flow_sample.go:182-198 | the router data with its 32-bit buffer length, error or panic |
| SflowDecoder.DecodeCounters | sflow/flow_counter.go:233-265 | the loop over the fields of a counter record, of four and eight bytes |
| SflowDecoder.DecodeRecord | sflow/flow_sample.go:214-246 | one record of a flow or counter sample, unknown kinds skipped |
| SflowDecoder.UnmarshalFlow | sflow/flow_sample.go:85-121 | the fields of a flow sample, on every input |
| SflowDecoder.UnmarshalCounter | sflow/flow_counter.go:444-465 | the fields of a counter sample with the 24-bit index of its source, on every input |
| SflowDecoder.UnmarshalExpanded | sflow/expanded_flow_sample.go:71-115 | the fields of an expanded flow sample, on every input |
| SflowDecoder.DecodeSample | sflow/flow_sample.go:200-249 | one sample with the records by name, on every input |
| SflowDecoder.Decoder.IsFilterMatch | sflow/decoder.go:223-230 | the search finds the format if and only if it is listed |
| SflowDecoder.Decoder.GetSampleInfo | sflow/decoder.go:193-221 | format and length of the next sample, or the error |
| SflowDecoder.Decoder.DecodeHeader | sflow/decoder.go:146-191 | the datagram header, or the error |
| SflowDecoder.Decoder.DecodeSamples | sflow/decoder.go:107-141 | the sample loop fills both lists in order |
| SflowDecoder.Decoder.Decode | sflow/decoder.go:98-144 | the returned datagram or error is that of Sflow.Decode |
| SflowRoundTrip.RawHeaderAt | sflow/flow_sample.go:123-160 | an encoded, padded sampled header is read back as what the packet decoder makes of it |
| SflowRoundTrip.SwitchPriorityIff | sflow/flow_sample.go:162-180 | the source priority comes back if and only if it equals the destination priority |
| SflowRoundTrip.RouterAt | sflow/flow_sample.go:182-198 | next hop and masks come back from their encoding |
| SflowRoundTrip.CountersAt | sflow/flow_counter.go:155-221 | the six counter records of the standard are recognised by their numbers, stored under their names, and every counter comes back |
| SflowRoundTrip.RecordsAt | sflow/flow_sample.go:214-246 | any run of encoded records is stored by name, the last of each name staying |
| SflowRoundTrip.FixedAt | sflow/flow_sample.go:85-121 | the fields of flow, counter and expanded flow samples come back from their encoding |
| SflowRoundTrip.ExpandedStandardIff | sflow/expanded_flow_sample.go:71-115 | an expanded flow sample with the source id of the standard has each field read one word too early; all are right if and only if these words are equal |
| SflowRoundTrip.DatagramRoundTrip | sflow/decoder.go:98-144 | every encoded datagram is decoded to its header, to the list of its flow and expanded flow samples and to the list of its counter samples, without the formats in the filter; samples of other formats are skipped |
| SflowRoundTrip.DatagramBroken | sflow/decoder.go:107-141 | a datagram that ends before its last sample, or goes on with a sample of an enterprise, is refused; one that ends in the fixed part of a sample keeps the samples before it |
| SflowRoundTrip.DatagramRefused | sflow/flow_sample.go:123-249 | a sampled header of more than 1500 bytes, or one that the packet decoder refuses, ends the datagram with that error and keeps the samples before it |
| SflowRoundTrip.RefusedIff | sflow/decoder.go:146-191 | a datagram is refused for its header if and only if its version is not 5 or its header is not all there |
| Sflow.FilterEquivalence | sflow/decoder.go:98-144 | if a datagram decodes completely and its samples take exactly their declared lengths, decoding with a filter returns precisely the subsequences of samples and counters whose format is not listed |
| Sflow.PaddingAligns | sflow/flow_sample.go:146-152 | the 32-bit expression pads every length to the least multiple of four not below it |
| Sflow.DatagramBounded | sflow/decoder.go:107-141 | whatever SamplesNo claims, n decoded bytes hold at most (n - 28) / 8 samples and counters |
| SflowCrash.RouterCrashIff | sflow/flow_sample.go:182-189 | an extended router record panics if and only if its length is 8 to 11 and the bytes it reads are there |
| SflowCrash.HeaderCrashIff | sflow/flow_sample.go:123-160 | a sampled header panics if and only if it is declared as Ethernet of 14 to 17 bytes and starts a VLAN tag, missing bytes counting as zeros |
| SflowCrash.DatagramCrashIff | sflow/decoder.go:98-144 | decoding a datagram, with any filter, panics if and only if it reaches such a record |

## Left out

- IpfixMessage.MessageRoundTripIff: speaks of the outcome of the whole message, which padding before the last set can leave right by accident (PaddingCancels); EverySetRoundTripIff has no such premise and is exact set by set.
- IpfixMessage.EverySetRoundTripIff: exported templates have at least one field and no enterprise element with id 0, which FieldRoundTripIff covers; data records are taken with the scope fields last, and ScopeFirstIff covers the other order.
- IpfixJsonRecovery.JsonRoundTripIff: the output does not tell texts, addresses and octet arrays apart, so the reader is given the kinds of the fields; addresses are formatted and read by library code, and floats are left out.
- IpfixJsonRoundTrip.ParsesBackIff: floats are printed by library code, as an arbitrary text in the model.
- TemplateSharing.Provenance: workers of one node share its cache, so the views of the cache with which a Decode walks from set to set are arbitrary; every walk of the original is among them.
- Sflow.FilterEquivalence: needs samples of exactly the declared length, as the filter skips by that length.
- IpfixDecoder.Decoder.Decode: where the original would never return, the method returns and says so; the text of combined errors and of the agent address is not modelled.
- NetflowV9Decoder.FlowDecoder.Decode: the copy of the last template in the message is not modelled.
- Memcache.MemCache.constructor: a cache loaded from a saved file is not modelled; laws about the cache hold for any contents.
- Memcache.MemCache.Insert: timestamps and shard locks are not modelled; calls are atomic.
- Pipeline.AlwaysRight: the copy for the mirror is taken to fit into its buffer; templates hold numbers only, so the cache cannot alias a buffer.
- Saving and loading the cache, peer discovery, sockets, clocks and tickers: foreign calls. Loads, peers and datagrams are inputs of the steps.
- Shutdown of the collectors, and the copies of the worker pool for NetFlow v9 and sFlow.
- IPv6 mirroring, the UDP mirror in mirror/udp_mirror.go, encodeDataSetFlat, producers, consumers, monitoring and options.
