# NNS DNS plugin: a Dafny model

This project models the core of the `nns` plugin for the CoreDNS server. The
plugin answers DNS queries from records kept in the NeoFS Name Service (NNS)
smart contract on a Neo blockchain. It covers four things:

- how a DNS query name is mapped onto an NNS name (`prepareName`, with the
  configured DNS and NNS domains);
- how the contract is called and how its VM result stack is decoded
  (`contract.go`);
- how the first usable record of a name becomes the single answer record,
  including the `_dnslink.` TXT rule and the `dweb.link` gateway CNAME;
- how a zone transfer (AXFR) is assembled: the SOA record is parsed from its
  seven space-separated fields and put first and last, with one entry per
  record between them.

The RPC node is a parameter (`Contract.Node`): a function that answers an
invocation and a function that traverses an iterator. Both are total, and an
`Err` from either is a transport failure. The plugin object is the class
`Nns.NNS`, whose two domain fields are updated in place by the setters. The
loops of the source are methods with loop invariants. Each method is proved
equal to a specification function, and the properties are proved about those
functions.

Modules, in dependency order:

- `base.dfy`: `Option`, `Result`, fixed-width integers.
- `text.dfy`: the parts of Go's `strings`/`strconv` the plugin uses, with bytes as chars.
- `stack_items.dfy`: NeoVM stack items and their conversions.
- `faults.dfy`: every error the plugin can return.
- `contract.dfy`: `contract.go`.
- `records.dfy`: record synthesis and SOA parsing.
- `resolution.dfy`: the selection loop of `resolveRecords`.
- `zone.dfy`: zone-transfer assembly.
- `nns.dfy`: the `NNS` object.

Where the code and the plugin's higher-level design differ, the model follows
the code:

- The iterator of `getAllRecords` is traversed once, asking for 10 items. A
  failed traversal is not reported: the name then has no records.
- The answer comes from the first record in list order whose type is A, CNAME,
  TXT or AAAA, whatever the query type was. No matching record is an error (a
  `formRec` failure on type 0), not an empty answer.
- The SOA record is exchanged with the first record, so the other records do
  not keep their order.
- `prepareName` removes only one trailing dot, so it is not idempotent.
- A Null result, or an iterator without an identifier, makes the Go code
  dereference a nil pointer. The model reports it as the fault `NilIteratorId`.

## Model

| member | source | states |
|---|---|---|
| Text.TrimPrefix | plugin/nns/nns.go:112-114 | the prefix followed by the result is the input when the input starts with the prefix; otherwise the input is returned |
| Text.TrimSuffix | plugin/nns/nns.go:96-98 | the result followed by the suffix is the input when the input ends with the suffix; otherwise the input is returned |
| Text.ToLower | plugin/nns/nns.go:97 | same length; each byte is lowered, and only A-Z change |
| Text.LowerIdentity | plugin/nns/nns.go:97 | lowering leaves a string unchanged exactly when it holds no upper-case letter |
| Text.TrimDots | plugin/nns/nns.go:87-93 | the result has no leading or trailing dot, and the input is the result with only dots before and after it |
| Text.Split | plugin/nns/nns.go:260 | at least one piece, and no piece holds the separator |
| Text.JoinSplit | plugin/nns/nns.go:260 | joining the pieces of a split with the separator gives the input back |
| Text.SplitJoin | plugin/nns/nns.go:260-263 | splitting the join of separator-free pieces gives the pieces back |
| Text.ReplaceAll | plugin/nns/nns.go:303 | same length; exactly the occurrences of the old byte are replaced |
| Text.DecimalOfFormat | plugin/nns/nns.go:319-325 | the decimal digits of a number read back as that number |
| StackItems.TwosComplementRoundTrip | plugin/nns/contract.go:193-210 | the minimal little-endian two's-complement encoding of an integer decodes to that integer |
| StackItems.MagnitudeBytes | plugin/nns/contract.go:201-204 | the big-endian magnitude is empty for 0, and has one byte, equal to the value, exactly for 1..255 |
| StackItems.TryBytes | plugin/nns/contract.go:193-196 | succeeds exactly on byte strings (their bytes) and integers (bytes that decode to the value) |
| StackItems.TryInteger | plugin/nns/contract.go:197 | succeeds exactly on integers and on byte strings of at most 32 bytes |
| StackItems.Convert | plugin/nns/contract.go:172-177 | a result is Null or of the requested type; Null converts to Null for every proper type; an Array or Interop target accepts exactly Null and that type |
| Contract.InvocationError | plugin/nns/contract.go:111-119 | no error exactly when the state is HALT and the stack is non-empty; a non-HALT state is reported first, with its fault text |
| Contract.Checked | plugin/nns/contract.go:56-62 | a transport error is returned unchanged; a reply passes exactly when it has no invocation error, and then has a non-empty stack |
| Contract.Collect | plugin/nns/contract.go:158-165 | all elements convert, in order and one to one, or the result is the error of the first element that fails |
| Contract.CollectStopsAtFirstFailure | plugin/nns/contract.go:160-163 | a loop that returns at the first failing element computes the first-failure result |
| Contract.CollectAllSucceed | plugin/nns/contract.go:158-167 | a loop that fills every slot computes the element-wise result |
| Contract.DecodeString | plugin/nns/contract.go:121-135 | Null reads as ""; a byte string gives its bytes; an integer gives its byte form; arrays and iterators are errors |
| Contract.DecodeStrings | plugin/nns/contract.go:143-168 | Null reads as no strings; an array gives one string per element in order, or the first element's error; anything else is an error |
| Contract.DecodeRecord | plugin/nns/contract.go:184-216 | a record exactly when the item is a list of three, name and data convert to bytes, and the type's magnitude is 1..255; the fields are those bytes and that type |
| Contract.IteratorRecords | plugin/nns/contract.go:170-219 | a Null top or an iterator without an identifier is `NilIteratorId`; otherwise the records are the decoded items of one traversal of 10 |
| Contract.AtMostOneBatch | plugin/nns/contract.go:181 | a name never yields more than 10 records when the node honours the batch size |
| Contract.TraversalFailureMeansNoRecords | plugin/nns/contract.go:181-183 | a failed traversal yields no records and no error |
| Contract.ResolveReply | plugin/nns/contract.go:23-47 | transport and VM failures come back unchanged; otherwise the top item is decoded as a string, and Null resolves to "" |
| Contract.AllRecords | plugin/nns/contract.go:49-65 | transport and VM failures come back unchanged; otherwise the records come from the iterator on top, in the reply's session |
| Contract.StringsReply | plugin/nns/contract.go:67-109 | transport and VM failures come back unchanged; otherwise the top item is decoded as a string list, and Null is the empty list |
| Contract.B2S | plugin/nns/contract.go:136-142 | the loop copies every byte unchanged, in order |
| Contract.GetString | plugin/nns/contract.go:121-135 | reads only the last stack element and computes `DecodeString` of it |
| Contract.GetArrString | plugin/nns/contract.go:143-168 | reads only the last stack element; the filling loop computes `DecodeStrings` of it |
| Contract.GetRecordsIterator | plugin/nns/contract.go:170-219 | reads only the last stack element; the filling loop computes `IteratorRecords` of it |
| Contract.Resolve | plugin/nns/contract.go:23-47 | computes `ResolveReply` |
| Contract.GetAllRecords | plugin/nns/contract.go:49-65 | computes `AllRecords` |
| Contract.GetRecords | plugin/nns/contract.go:67-87 | computes `StringsReply` for `getRecords` |
| Contract.GetRecord | plugin/nns/contract.go:89-109 | computes `StringsReply` for `getRecord` |
| DnsRecords.GetNNSType | plugin/nns/nns.go:327-339 | succeeds exactly for TXT, A, AAAA and CNAME, with the same code; any other type is an unsupported-type error naming it |
| DnsRecords.FormRec | plugin/nns/nns.go:353-367 | a record exactly for the four supported types, of the requested type and with the given header; A sets rdlength 4; TXT holds one chunk equal to the input; a CNAME target is the input plus "." |
| DnsRecords.FormResRecords | plugin/nns/nns.go:341-351 | one record per input, in order, each as `FormRec` builds it, or an error and no records exactly when there is input and the header type is unsupported |
| DnsRecords.AppendRoot | plugin/nns/nns.go:312-317 | "" stays ""; a non-empty result ends in "."; an input ending in "." is unchanged; otherwise one dot is added |
| DnsRecords.AppendRootIdempotent | plugin/nns/nns.go:312-317 | applying it twice is applying it once |
| DnsRecords.ParseUint32 | plugin/nns/nns.go:319-325 | succeeds exactly on a non-empty all-digit string whose value fits in 32 bits, and returns that value |
| DnsRecords.ParseFormatted | plugin/nns/nns.go:319-325 | the decimal form of any 32-bit value parses back to it |
| DnsRecords.SerialText | plugin/nns/nns.go:270-274 | the first min(10, length) bytes of the serial field |
| DnsRecords.FormSoaRecord | plugin/nns/nns.go:256-310 | a record that is not of the SOA type is the invalid-type error; every other failure is the field-count, name-mismatch or field-parse error; a success is an SOA record owned by the record's name, with that name as primary server and the minimum ttl as its ttl |
| DnsRecords.SoaRecordParsed | plugin/nns/nns.go:256-310 | succeeds exactly on valid SOA records; a field count other than 7 and a rooted first field unequal to the name give their own errors; the mailbox is the rooted second field with every '@' turned into '.', and the five numbers are the parsed fields, the serial cut to ten digits |
| DnsRecords.SoaFieldErrors | plugin/nns/nns.go:270-293 | with seven fields and a matching name, the error names field j (serial, refresh, retry, expire, ttl, in that order) with its whole text exactly when its number, the serial cut to ten characters, does not parse and every earlier one does |
| DnsRecords.SoaRoundTrip | plugin/nns/nns.go:256-310 | an SOA record whose data is written from its seven fields parses back to exactly those fields |
| Resolution.Answer | plugin/nns/nns.go:132-173 | A, CNAME and AAAA keep their data and type; TXT is a TXT answer exactly for a TXT query whose name starts with "_dnslink.", and otherwise a CNAME to "dweb.link" |
| Resolution.FirstAnswerable | plugin/nns/nns.go:132-173 | the least position of an A, CNAME, TXT or AAAA record, or none when there is no such record |
| Resolution.SelectRecord | plugin/nns/nns.go:128-173 | the loop with its breaks picks the answer of the first answerable record, or ("", 0) when there is none |
| Resolution.Answers | plugin/nns/nns.go:192-200 | one answer record, built from the first answerable record, exactly when one exists; otherwise the type-0 error |
| Resolution.SelectionAnswers | plugin/nns/nns.go:192-200 | the selected pair passed through `formResRecords` with the answer header gives `Answers` |
| Resolution.AnswerHeaderFromQuestion | plugin/nns/nns.go:192 | the answer's owner name and class are the question's, its ttl is 3600, and its type is the answer's own |
| Resolution.TxtRecordAnswer | plugin/nns/nns.go:146-166 | a TXT record answers with its data only for a TXT "_dnslink." query, and otherwise with a CNAME to "dweb.link." |
| Resolution.FirstRecordWins | plugin/nns/nns.go:132-173 | a leading A, CNAME or AAAA record is the answer whatever follows it |
| Zone.SoaCount | plugin/nns/nns.go:211-218 | at most the number of records, and zero exactly when no record is an SOA |
| Zone.LastSoaIndex | plugin/nns/nns.go:211-218 | the position of an SOA record with none after it, or none when there is no SOA |
| Zone.SingleSoa | plugin/nns/nns.go:219-225 | with exactly one SOA, the remembered position is the only SOA |
| Zone.Root | plugin/nns/nns.go:213 | the record keeps its type and data, and its name becomes rooted |
| Zone.Swapped | plugin/nns/nns.go:223-225 | the first record and the one at the index trade places and nothing else moves |
| Zone.SwapPermutes | plugin/nns/nns.go:223-225 | the exchanged records are a permutation of the input |
| Zone.ZoneEntry | plugin/nns/nns.go:240-248 | a record exactly for the four supported types, owned by the record's name, class INET, ttl 0, of the record's type |
| Zone.Assembled | plugin/nns/nns.go:238-251 | succeeds exactly when every further record has a supported type, else fails with the error of a failing record; the zone is the SOA, one entry per further record in order, and the SOA again |
| Zone.ZoneAnswer | plugin/nns/nns.go:230-232 | an empty record list is the records-empty error |
| Zone.ZoneOf | plugin/nns/nns.go:205-227 | fetch errors pass through; a count of SOA records other than one is reported with the count; the empty-records error cannot occur |
| Zone.OthersAfterSwap | plugin/nns/nns.go:223-226 | after the exchange, the records behind the first are exactly the records other than the SOA |
| Zone.ZoneSucceeds | plugin/nns/nns.go:205-254 | a zone is transferred exactly when there is one SOA, it is valid once rooted, and every other record has a supported type |
| Zone.ZoneOrder | plugin/nns/nns.go:219-251 | in a transferred zone the SOA built from the last SOA record comes first and last, the record the SOA displaced sits at the SOA's old position, and every other record keeps its position |
| Zone.ZoneShape | plugin/nns/nns.go:205-254 | a transferred zone has one entry per record plus one, starts and ends with the same SOA, and every owner name is rooted |
| Zone.SwapReordersOthers | plugin/nns/nns.go:223-225 | [TXT, A, SOA] is transferred as SOA, A, TXT, SOA: the exchange does not keep the order |
| Zone.RootNames | plugin/nns/nns.go:211-218 | the in-place loop roots every name and leaves the SOA count and the last SOA position |
| Zone.AppendEntries | plugin/nns/nns.go:240-250 | the loop appends one entry per record, in order, after what was already there, and stops with the first record's error that fails: it computes `Collect` |
| Zone.FormZoneTransfer | plugin/nns/nns.go:229-254 | computes `ZoneAnswer`: the empty-list error, then the SOA error, then the assembled zone |
| Nns.ToLowerConcat | plugin/nns/nns.go:96-97 | lowering distributes over concatenation |
| Nns.Canonical | plugin/nns/nns.go:96-98 | the result has no upper-case letter, and the lowered name is the result followed by "", ".", ".ongoing.club" or ".ongoing.club." |
| Nns.CanonicalTail | plugin/nns/nns.go:96-98 | what is dropped ends with a dot exactly when the name does, and starts with ".ongoing.club" exactly when the lowered name without its root dot ends with it |
| Nns.CanonicalStrips | plugin/nns/nns.go:96-98 | ".ongoing.club" in any letter case is taken off, with or without a root dot after it; from a name whose lowered form does not end in ".ongoing.club", only the root dot is taken off |
| Nns.Stem | plugin/nns/nns.go:100 | the canonical name is the stem followed by the DNS domain (with or without a dot) when it ends with that domain, and by at most a dot otherwise; the stem is empty exactly for "", ".", the domain and "." + the domain |
| Nns.StemTail | plugin/nns/nns.go:100 | the dot before the domain, or a trailing dot when the name does not end with the domain, is taken off exactly when it is there |
| Nns.StemStrips | plugin/nns/nns.go:100 | a name that is labels, a dot and the domain has the labels as its stem; so does labels and the domain, and labels alone, when the labels end neither in a dot nor in the domain |
| Nns.MapName | plugin/nns/nns.go:95-107 | without an NNS domain, the canonical name; with one, a name ending in the NNS domain, equal to it exactly when the canonical name is "", ".", the DNS domain or "." + the DNS domain, and otherwise the stem, a dot and the NNS domain |
| Nns.NNS.PrepareName | plugin/nns/nns.go:95-107 | with the stored domains free of edge dots and an NNS domain set, the name looked up is non-empty and never ends with the root dot |
| Nns.CanonicalName | plugin/nns/nns.go:95-98 | a lower-case name without a trailing dot or the ".ongoing.club" suffix is canonical, with or without the root dot |
| Nns.MapDnsDomain | plugin/nns/nns_test.go:160-172 | the DNS domain itself, with or without the root dot, maps to the NNS domain |
| Nns.MapBelowDnsDomain | plugin/nns/nns_test.go:150-179 | a name below the DNS domain maps to the same labels below the NNS domain, with or without the root dot |
| Nns.MapNameNotIdempotent | plugin/nns/nns.go:96 | "a.." maps to "a.", which maps to "a" |
| Nns.LookupName | plugin/nns/nns.go:111-114 | for a TXT query, the "_dnslink." label followed by the result is the mapped name; otherwise the mapped name is kept |
| Nns.ResolveOutcome | plugin/nns/nns.go:109-203 | an unsupported query type fails before the node's answer is used; a fetch failure is passed on; one answer exactly when the type is supported and an answerable record exists; every error names the query and the looked-up name |
| Nns.AnswerIgnoresQueryType | plugin/nns/nns.go:132-173 | A, AAAA and CNAME queries get the same answer; the query type only gates the lookup |
| Nns.TransferOutcome | plugin/nns/nns.go:60-85 | not authoritative exactly when the SOA lookup fails or is empty; otherwise at most one message, and none exactly when the zone cannot be assembled |
| Nns.TransferredZone | plugin/nns/nns.go:60-85 | a transferred message starts and ends with the same SOA, has one entry per record plus one, and has only rooted names |
| Nns.NNS.constructor | plugin/nns/nns.go:20-27 | both domains start empty |
| Nns.NNS.SetDNSDomain | plugin/nns/nns.go:87-89 | stores the name without edge dots and leaves the NNS domain unchanged |
| Nns.NNS.SetNNSDomain | plugin/nns/nns.go:91-93 | stores the name without edge dots and leaves the DNS domain unchanged |
| Nns.NNS.ZoneTransfer | plugin/nns/nns.go:205-227 | fetching, rooting in place, counting, the single exchange and assembly compute `ZoneOf` of the fetched records |
| Nns.NNS.ResolveRecords | plugin/nns/nns.go:109-203 | computes `ResolveOutcome` for the mapped and dnslink-trimmed name and the records fetched for it |
| Nns.NNS.Transfer | plugin/nns/nns.go:60-85 | computes `TransferOutcome` for the mapped zone name |

## Left out

- `ServeDNS` (plugin/nns/nns.go:33-54) is not modelled: writing the response, logging and passing the query to the next plugin are host-server I/O.
- Nns.NNS.Transfer: the goroutine and channel are not modelled. The stream is the sequence of messages it would carry (none or one). The `serial` argument is unused by the source and is dropped.
- `rpc.InvokeFunction`, `rpc.TraverseIterator` and `rpc.GetVersion` are network calls. Their results are the functions of the `Node` parameter. The version query and its debug output in `resolve` are dropped.
- The internals of the neo-go stack items are reduced to byte strings, integers, arrays, iterators and Null. Booleans, maps, buffers and pointers do not occur in the contract's replies.
- DnsRecords.FormRec: A and AAAA payloads are kept as the stored text. `net.ParseIP` is a foreign library call, so an unparsable address is not modelled.
- Text.ToLower: only ASCII letters are lowered. Go's `strings.ToLower` also folds non-ASCII UTF-8 letters.
- Contract.GetString, Contract.GetArrString and Contract.GetRecordsIterator require a non-empty stack. Every caller checks this first, and the Go code would index out of range otherwise.
- Contract.IteratorRecords: the nil-pointer dereference of the Go code (a Null top item, or an iterator without an identifier) is reported as the fault `NilIteratorId` instead of a panic.
- Contract.GetArrString: the "bad conversion" branch of `getArrString` (plugin/nns/contract.go:154-157) cannot be reached after a successful conversion to an array, so it has no counterpart.
- Error messages are fault values, not formatted text.
- Resolution.Question: the answer's owner name `name` is the host server's normalised query name, taken as given. The server's lowering of `qname` into it is host-server code and is not part of this model.
- plugin/nns/setup.go (configuration parsing and client set-up) is not part of this model.
- `fmt.Println`, `log.Info` and the commented-out code are dropped.
- The mapping table of plugin/nns/nns_test.go:131-188 is stated through the general lemmas `Nns.MapBelowDnsDomain` and `Nns.MapDnsDomain`. Its concrete strings are not evaluated one by one.
