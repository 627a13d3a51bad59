# free5GC: charging records, UE context tables and the registration machine

Dafny models of the parts of free5GC whose correctness spans many functions, with proofs about all inputs, all runs
and all reachable states. `dafny verify dfyconfig.toml` checks the whole project.

**Charging records.** `BerSchema` describes what the CHF's codec sees of a Go type and value. `BerInteger`,
`BerHeader`, `BerMarshal` and `BerUnmarshal` are the hand-written BER printer and parser, each loop an imperative
method proved against a specification function; `BerEncoding` says what X.690 makes of the octets they write, naming
neither; `BerRoundTrip` says exactly which values come back. `CdrFile` and `CdrFileRoundTrip` do the same for the CDR
file of TS 32.297, and `CdrLayout` says where each of its fields lies. `Charging` puts the pieces together: usage
reports, converted, encoded, written to a file, read back by the webconsole and summed, are conserved exactly when the
console does not panic on them; `ChargingReports` reads them whole from the octets by their tags alone, and
`ChargingPanic` is a record it panics on. `Offline` is the webconsole's two-pass offline charging on top of those
sums, with the float64 numbers its records turn into.

**UE and RAN contexts.** `RanContext` models the AMF's pool of RAN UE contexts, the RANs' lists, the NGAP ID allocator
and the links from UEs as classes whose methods change shared maps. `Valid` states how these indexes agree, and every
step keeps it; where one does not (a path switch, a switch across access types, a second removal), the exact condition
is stated. A run leaves every context alone that none of its steps concerns.

**The GMM machine.** `GmmSpec` holds the transition table, what each callback does and the sequential reading of a
run. `Gmm` is the machine as the AMF runs it, with callbacks that send events from inside one another; every nested
call is proved to end where the sequential reading ends. `GmmSafety` and `GmmLaws` prove what holds over whole runs,
and `GmmRuns` shows that the states they speak of are reached. `GmmEnds` is the same machine as a decision table
without events: message by message, where it ends and with what in every field, proved equal to the event machine over
any run. One step of the machine is an assumption about the `fsm` library, which is not part of this model: look up
state and event; a pair that is not in the table is an error that changes nothing; otherwise run the state's callback
on the event, and if the target differs, run the exit callback, set the state and run the target's entry callback.
What the AUSF, the old AMF, the security algorithm selection, the encoder of the security mode command and the
registration handlers answer is an input. The log is ghost state: it records every event sent and, with the values
seen, every decision about authentication and security.

**Timers and GUTIs.** `Timers` is the retransmission timer as a step machine with arbitrary interleaving, and the UE's
timer fields. `Guti` is the round trip from an allocated 5G-GUTI through a 5G-S-TMSI to the lookup.

`Octets` holds big-endian numbers and Go's wrap-around, shared by all codecs.

## Where the code departs from what is written about it

- `parseInt64` does not sign-extend, against section 8.3.3 of X.690: negative integers shorter than eight octets come
  back positive (`BerInteger.IntRoundTrip`).
- The console follows pointers to a record's slice and network name that the CHF fills only if the request had them
  (`Charging.Conservation`, `ChargingPanic.NamelessRecordPanics`).
- The CHF cuts a record's length to 16 bits, so that a file with a longer record does not decode to itself
  (`Charging.DumpedRead`).
- Between the two passes of offline charging every record becomes a map of float64 numbers: volumes and bills that
  a float64 does not hold, the first being 2^53 + 1, are rounded, and a record whose numbers no longer fit an int64 is
  never completed (`Offline.SettledExactly`, `Offline.BillRounded`).
- The unused-bits octet of a bit string is 8 when its length is a multiple of eight, against section 8.6.2.2 of X.690
  (`BerRoundTrip.BitsSurvive`).
- A tagged CHOICE is read at the wrong offset unless two headers happen to have one size
  (`BerRoundTrip.TaggedChoiceReads`).
- The low release extension of a CDR file is read one octet too far when it stands alone (`CdrFileRoundTrip.TailRead`).
- The path-switch handler overwrites the RAN UE NGAP ID before `SwitchToRan` deletes the old one
  (`RanContext.AmfContext.PathSwitch`, `RanContext.PathSwitchBreaks`).
- The handover acknowledgement names its target without looking at what has the name already
  (`RanContext.AmfContext.NameContext`, `RanContext.NamingBreaks`).
- An authentication failure without an authentication context, a registration completion without a stored request and
  an incomplete answer of an old AMF dereference nil (`GmmLaws.PanicsExactly`, `GmmRuns.FailureReached`,
  `GmmRuns.SecondCompletionReached`, `GmmRuns.TransferReached`).
- No NAS message has a transition in DeregistrationInitiated, so an access that a deregistration request arrives on but
  does not name is stuck there (`GmmLaws.InitiatedIsStuck`).
- The comment on `Timer.Stop` says that no expiry follows it and that a second call may hang; an expiry may follow, and
  a second call panics (`Timers.CallsAfterStop`, `Timers.StopOnce`).
- The GUTI lookup by 5G-S-TMSI fails for an AMF ID configured in upper case (`Guti.GutiRoundTrip`).

## Model

| member | source | states |
|---|---|---|
| `BerInteger.IntLenIsLeast` | base/free5gc/NFs/chf/cdr/asn/ber_marshal.go:78-92 | the width chosen holds the integer in two's complement and no smaller one does (section 8.3.2 of X.690), both directions |
| `BerInteger.Int64Width` | base/free5gc/NFs/chf/cdr/asn/ber_marshal.go:78-92 | an int64 takes at most eight octets, and eight exactly outside -2^55 .. 2^55 - 1 |
| `BerInteger.IntDecoded` | base/free5gc/NFs/chf/cdr/asn/ber_unmarshal.go:65-77 | the octets of any int64 decode to the value modulo 256 to its width, as an int64 |
| `BerInteger.IntRoundTrip` | base/free5gc/NFs/chf/cdr/asn/ber_unmarshal.go:65-77 | an integer comes back if and only if it is non-negative or eight octets wide, because the parser does not sign-extend |
| `BerInteger.IntValueExactly` | base/free5gc/NFs/chf/cdr/asn/ber_unmarshal.go:65-77 | any octets up to eight are read as their number modulo 2^64 in two's complement, and more than eight are refused |
| `BerInteger.Len` | base/free5gc/NFs/chf/cdr/asn/ber_marshal.go:78-92 | the shifting loops compute that width |
| `BerInteger.ParseInt64` | base/free5gc/NFs/chf/cdr/asn/ber_unmarshal.go:65-77 | the loop reads big-endian octets with int64 wrap-around and refuses more than eight |
| `BerHeader.HeaderRoundTrip` | base/free5gc/NFs/chf/cdr/asn/ber_unmarshal.go:9-57 | parsing an encoded header followed by any octets gives class, constructed flag, tag and length back and consumes exactly the header, for every tag below 2^63 and length below 2^24 |
| `BerHeader.HeaderCut` | base/free5gc/NFs/chf/cdr/asn/ber_unmarshal.go:9-57 | a header cut off anywhere is refused: an error while tag octets or the first length octet are missing, a panic on empty input and between the first and the last length octet |
| `BerHeader.ParseTagAndLength` | base/free5gc/NFs/chf/cdr/asn/ber_unmarshal.go:9-57 | the parser's loops: base-128 tag in a uint64, at most ten tag octets, at most three length octets |
| `BerHeader.AppendTagAndLen` | base/free5gc/NFs/chf/cdr/asn/ber_marshal.go:104-157 | the in-place filling loops write the lead octet, the base-128 tag and the shortest length |
| `BerHeader.FillTag` | base/free5gc/NFs/chf/cdr/asn/ber_marshal.go:128-132 | tag octets are filled from the last one, each with its continuation bit |
| `BerHeader.FillLength` | base/free5gc/NFs/chf/cdr/asn/ber_marshal.go:149-153 | length octets are filled from the last one |
| `BerHeader.BeShortestSize` | base/free5gc/NFs/chf/cdr/asn/ber_marshal.go:140-145 | the length of the length: a number below 256^k takes at most k octets |
| `BerHeader.BeShortestValue` | base/free5gc/NFs/chf/cdr/asn/ber_unmarshal.go:38-53 | reading the shortest octets of a length gives the length |
| `BerHeader.TagLoopHigh` | base/free5gc/NFs/chf/cdr/asn/ber_unmarshal.go:16-23 | the tag loop stops at the octet without continuation bit, with the tag number, whatever follows |
| `BerMarshal.LenOf` | base/free5gc/NFs/chf/cdr/asn/ber_marshal.go:15-91 | every encoder's Len is the number of octets of its image |
| `BerMarshal.Encode` | base/free5gc/NFs/chf/cdr/asn/ber_marshal.go:19-102 | Encode writes exactly Len octets, the image, at the front of the destination and leaves every other octet as it was |
| `BerMarshal.EncodeParts` | base/free5gc/NFs/chf/cdr/asn/ber_marshal.go:54-60 | a struct encoder writes its parts one behind the other |
| `BerMarshal.EncodeInt` | base/free5gc/NFs/chf/cdr/asn/ber_marshal.go:94-102 | the integer loop fills its octets from the last one |
| `BerMarshal.Marshal` | base/free5gc/NFs/chf/cdr/asn/ber_marshal.go:174-366 | marshalling allocates Len octets and fills all of them with the tree that makeField builds; errors and panics are told apart (what the octets are is `BerEncoding.Written`, when there are any `BerEncoding.Ends`) |
| `BerEncoding.HeadWritten` | base/free5gc/NFs/chf/cdr/asn/ber_marshal.go:104-157 | every header of any tag below 2^64 and length below 2^63 is written in the shortest form of X.690: class, form, tag number in the fewest base-128 digits, length in the fewest octets |
| `BerEncoding.HeadParsed` | base/free5gc/NFs/chf/cdr/asn/ber_unmarshal.go:9-57 | the parser reads any shortest header as it is when its tag is below 2^63 and its length below 2^24, and refuses every other with an error |
| `BerEncoding.IntegerWritten` | base/free5gc/NFs/chf/cdr/asn/ber_marshal.go:78-102 | integer contents are the two's complement of the value in the fewest octets |
| `BerEncoding.Written` | base/free5gc/NFs/chf/cdr/asn/ber_marshal.go:174-350 | whatever is marshalled is the encoding of its value by the rules of X.690, at every depth: class context-specific with the field's tag or universal with the number of its type (1, 2, 3, 4, 10, 16, 17), constructed exactly for structs, lists and tagged choices, length that of the contents, TRUE as 0xFF, present members in field order and nothing else |
| `BerEncoding.MembersWritten` | base/free5gc/NFs/chf/cdr/asn/ber_marshal.go:275-303 | a struct's contents are the encodings of its present members, one behind the other, each ending where its own header says |
| `BerEncoding.ElemsWritten` | base/free5gc/NFs/chf/cdr/asn/ber_marshal.go:305-324 | a list's contents are the encodings of its elements, without the list's tag |
| `BerEncoding.Ends` | base/free5gc/NFs/chf/cdr/asn/ber_marshal.go:174-350 | how marshalling ends, told without marshalling: an encoding exists if and only if no nil pointer, unset choice, selector beyond the arms or struct without members is in the way, and otherwise it fails as the first of these does, in an error or a panic |
| `BerUnmarshal.Element` | base/free5gc/NFs/chf/cdr/asn/ber_unmarshal.go:218-226 | every header read in a decode loop moves the cursor forward by at least two octets and stays within the data, so all three loops end |
| `BerUnmarshal.Search` | base/free5gc/NFs/chf/cdr/asn/ber_unmarshal.go:233-247 | the search for a member's field: the first one at or after the cursor with that tag |
| `BerUnmarshal.FindFieldExactly` | base/free5gc/NFs/chf/cdr/asn/ber_unmarshal.go:233-247 | the search ends at the first field with the tag, in a panic at an untagged field before it, or in an error, each if and only if |
| `BerUnmarshal.FindArmExactly` | base/free5gc/NFs/chf/cdr/asn/ber_unmarshal.go:187-206 | the search of a choice's arms ends at the first one with the tag, or in an error |
| `BerUnmarshal.Parse` | base/free5gc/NFs/chf/cdr/asn/ber_unmarshal.go:86-314 | ParseField as cursor loops over the octets agrees with its recursive specification for every type, destination and input, malformed ones included, errors and panics told apart |
| `BerUnmarshal.ParseSequence` | base/free5gc/NFs/chf/cdr/asn/ber_unmarshal.go:214-249 | the SEQUENCE loop over `offset` and `current` |
| `BerUnmarshal.ParseSet` | base/free5gc/NFs/chf/cdr/asn/ber_unmarshal.go:250-279 | the SET loop, which searches all fields for every member |
| `BerUnmarshal.ParseSlice` | base/free5gc/NFs/chf/cdr/asn/ber_unmarshal.go:281-307 | the SEQUENCE OF loops: cut first, then parse with the list's own parameters |
| `BerRoundTrip.ParseMarshalled` | base/free5gc/NFs/chf/cdr/asn/ber_unmarshal.go:86-314 | for every well-formed schema and every value, at any depth of sequences, sets, lists, choices and absent members, parsing the marshalled octets gives exactly `Returned` |
| `BerRoundTrip.RoundTrip` | base/free5gc/NFs/chf/cdr/asn/ber_unmarshal.go:86-314 | that value is the one marshalled if and only if its leaves survive (`Faithful`): integers non-negative or eight octets wide, bit strings with one octet more than the whole octets in their length, no nil octet strings or slices outside optional members, unselected arms zero |
| `BerRoundTrip.ReturnedUnchanged` | base/free5gc/NFs/chf/cdr/asn/ber_unmarshal.go:59-77 | `Returned` is the identity exactly on `Faithful` values |
| `BerRoundTrip.BitsSurvive` | base/free5gc/NFs/chf/cdr/asn/ber_marshal.go:165-169 | a bit string's length comes back exactly when the octet count is one more than the whole octets in BitLength; for a bit string of ceil(BitLength / 8) octets, when BitLength is not a multiple of eight |
| `BerRoundTrip.EncodedHeader` | base/free5gc/NFs/chf/cdr/asn/ber_marshal.go:333-349 | the header in front of every encoded value announces exactly the octets of its contents and the field's tag |
| `BerRoundTrip.SeqMembers` | base/free5gc/NFs/chf/cdr/asn/ber_unmarshal.go:214-249 | the SEQUENCE loop fills every present member with its own field and passes over absent ones |
| `BerRoundTrip.SetMembers` | base/free5gc/NFs/chf/cdr/asn/ber_unmarshal.go:250-279 | the SET loop does so for the members in any order |
| `BerRoundTrip.ListItems` | base/free5gc/NFs/chf/cdr/asn/ber_unmarshal.go:281-307 | the list loop cuts the contents into exactly the encoded elements |
| `BerRoundTrip.SetOrderInsensitive` | base/free5gc/NFs/chf/cdr/asn/ber_unmarshal.go:250-279 | any permutation of the member TLVs of an encoded SET decodes to the same record |
| `BerRoundTrip.SequenceOrderMatters` | base/free5gc/NFs/chf/cdr/asn/ber_unmarshal.go:214-249 | a SEQUENCE whose member TLVs are permuted decodes to its record if and only if the present members are still in the order of their fields, and is refused with an error otherwise |
| `BerRoundTrip.CutRefused` | base/free5gc/NFs/chf/cdr/asn/ber_unmarshal.go:86-145 | no proper prefix of any encoded value is read: a panic on empty input or inside the length octets, an error everywhere else |
| `BerRoundTrip.TaggedChoiceReads` | base/free5gc/NFs/chf/cdr/asn/ber_unmarshal.go:179-206 | a tagged CHOICE, aligned or not, is read as its arm from the inner header's size on, where its octets start at the outer header's size |
| `BerRoundTrip.MisalignedChoiceFails` | base/free5gc/NFs/chf/cdr/asn/ber_unmarshal.go:181-206 | a concrete well-formed tagged CHOICE with headers of unequal size that comes back with its length octet inside its value |
| `BerRoundTrip.MisalignedChoiceMaySurvive` | base/free5gc/NFs/chf/cdr/asn/ber_unmarshal.go:181-206 | and one that comes back unchanged all the same, so equal header sizes are sufficient and not necessary |
| `CdrFile.Encode` | base/free5gc/NFs/chf/cdr/cdrFile/cdrFile.go:357-393 | the encoder's loop appends every record behind its own header to the file header (where each field lands is `CdrLayout.FileWritten`) |
| `CdrFile.Decode` | base/free5gc/NFs/chf/cdr/cdrFile/cdrFile.go:395-540 | the decoder's cursor loop agrees with its recursive specification on every input, with uint16 header offsets and a uint32 cursor (what it reads is `CdrLayout.FileRead`) |
| `CdrFileRoundTrip.FileRoundTrip` | base/free5gc/NFs/chf/cdr/cdrFile/cdrFile.go:395-540 | an encoded file decodes to the same header and records if and only if it is consistent (counts and lengths agree, the header ends below 2^16, and the low release extension is where the decoder looks for it), and then the cursor ends on the last octet |
| `CdrFileRoundTrip.HeaderRoundTrip` | base/free5gc/NFs/chf/cdr/cdrFile/cdrFile.go:130-321 | the same for the header alone |
| `CdrFileRoundTrip.CdrRoundTrip` | base/free5gc/NFs/chf/cdr/cdrFile/cdrFile.go:323-355 | one record comes back with the cursor just behind it if and only if its length field is its length and an unused extension is zero |
| `CdrFileRoundTrip.CdrsRoundTrip` | base/free5gc/NFs/chf/cdr/cdrFile/cdrFile.go:506-537 | the records tile the rest of the file |
| `CdrFileRoundTrip.SpanRead` | base/free5gc/NFs/chf/cdr/cdrFile/cdrFile.go:464-491 | the variable offsets computed in uint16 are the ones written, exactly when the header fits |
| `CdrFileRoundTrip.TailRead` | base/free5gc/NFs/chf/cdr/cdrFile/cdrFile.go:493-502 | the low release extension is read at n + 1: right with both extensions present, otherwise one octet too far |
| `CdrFileRoundTrip.TimeRoundTrip` | base/free5gc/NFs/chf/cdr/cdrFile/cdrFile.go:130-321 | the seven bit fields of a time stamp come back from their 32 bits |
| `CdrLayout.FileWritten` | base/free5gc/NFs/chf/cdr/cdrFile/cdrFile.go:130-393 | in the octets of any file every field is where TS 32.297 puts it: lengths, release and version bits, the month, date, hour, minute, sign and deviation at bits 28, 23, 18, 12, 11, 6 and 0 of both time stamps, counts, address, filter, extension, release extensions, and the records one behind the other up to the last octet |
| `CdrLayout.FileRead` | base/free5gc/NFs/chf/cdr/cdrFile/cdrFile.go:395-540 | whatever octets decode, every field and record of the result is the one at its place, and there are as many records as announced |
| `CdrLayout.HeaderRead` | base/free5gc/NFs/chf/cdr/cdrFile/cdrFile.go:464-502 | a header is read from any octets if and only if the sizes and release extensions they announce lie within them, below 2^16 |
| `CdrLayout.RecordRead` | base/free5gc/NFs/chf/cdr/cdrFile/cdrFile.go:506-537 | a record is read at any cursor if and only if it lies within the octets, with every field from its own bits |
| `CdrLayout.TimeUnpacked` | base/free5gc/NFs/chf/cdr/cdrFile/cdrFile.go:404-460 | any 32 bits are read as a time stamp with the date at bit 23 and the hour at bit 18 |
| `Charging.UsedUnitContainerToCdr` | base/free5gc/NFs/chf/cdr/cdrConvert/sbiToCdr.go:39-65 | the append loop converts each container in order (that every counter is under its own tag is `ChargingReports.ContainerRead`) |
| `Charging.MultiUnitUsageToCdr` | base/free5gc/NFs/chf/cdr/cdrConvert/sbiToCdr.go:13-35 | the append loop converts each usage in order |
| `Charging.UsagesReturned` | base/free5gc/NFs/chf/cdr/cdrConvert/sbiToCdr.go:13-65 | converted usages survive the BER round trip unchanged |
| `ChargingReports.ContainerRead` | base/free5gc/NFs/chf/cdr/cdrConvert/sbiToCdr.go:47-59 | in the octets of any converted container the total, uplink, downlink, service-specific units and sequence number are under tags 4, 5, 6, 7 and 9, and nothing else is there |
| `ChargingReports.UsageRead` | base/free5gc/NFs/chf/cdr/cdrConvert/sbiToCdr.go:20-31 | in the octets of any converted usage the rating group, the containers and the UPF ID are under tags 0, 1 and 2, and nothing else is there |
| `ChargingReports.ReportsWritten` | base/free5gc/NFs/chf/cdr/cdrType/UsedUnitContainer.go:7-24 | a reader that knows only X.690 and the tags gets every report back whole from the octets of any record that holds them, for any int64 values, and finds nothing that was not reported |
| `ChargingReports.ReportsParsed` | base/free5gc/NFs/chf/cdr/cdrType/MultipleUnitUsage.go:5-12 | looked up by the same tags, the record that the console parses holds every report whole |
| `Charging.DumpCdrFile` | base/free5gc/NFs/chf/internal/sbi/processor/cdr.go:265-304 | one CDR per record behind a four-octet header, with the running file length; an encoding error gives an empty record, a panic no file |
| `Charging.ChfRecordOctets` | base/free5gc/NFs/chf/internal/sbi/processor/cdr.go:283-287 | the CHF record's choice wrapper adds nothing to the octets but its arm's tag |
| `Charging.DumpedRead` | base/free5gc/NFs/chf/internal/sbi/processor/cdr.go:283-297 | a dumped file decodes to itself if and only if every record is shorter than 2^16 octets, where its length field is cut |
| `ChargingReports.HeaderDumped` | base/free5gc/NFs/chf/internal/sbi/processor/cdr.go:265-281 | a dumped file begins with its length, header length 52 and the number of records, and every other octet of its header is zero |
| `ChargingReports.RecordsDumped` | base/free5gc/NFs/chf/internal/sbi/processor/cdr.go:283-304 | every record of a dump lies behind those before it under a header with its length modulo 2^16, release and version 0 and data record format 1 (BER) |
| `ChargingReports.ReportsDumped` | base/free5gc/NFs/chf/internal/sbi/processor/cdr.go:283-304 | end to end without the codec: at each record's place in the octets of the file, every report of its batch is read back whole by tags alone |
| `Charging.RecordRead` | base/free5gc/webconsole/backend/WebUI/api_charging.go:43-51 | the console, which parses the CHF choice as a bare record, gets the reports and the pointers back |
| `Charging.CarriesReturned` | base/free5gc/webconsole/backend/WebUI/api_charging.go:57-60 | the codec keeps which of the pointers to slice, differentiator and network name there are |
| `Charging.RecordAdded` | base/free5gc/webconsole/backend/WebUI/api_charging.go:42-69 | a record that was written is added if and only if it has an encoding and, if it has usages, all of those pointers; otherwise the console panics on it |
| `ChargingReports.CutRecord` | base/free5gc/webconsole/backend/WebUI/api_charging.go:43-51 | a record cut off anywhere adds nothing to the console's table: it is passed over, or panics if it is empty or ends inside its length octets |
| `Charging.ParseCdr` | base/free5gc/webconsole/backend/WebUI/api_charging.go:30-73 | the three nested loops of parseCDR agree with their specification on every file; records that do not parse are skipped, and a panicking parse, a nil pointer or a missing volume is a panic |
| `Charging.UsageAdded` | base/free5gc/webconsole/backend/WebUI/api_charging.go:53-69 | adding one usage to a table that conserves some reports gives a table that conserves one more |
| `Charging.Conservation` | base/free5gc/webconsole/backend/WebUI/api_charging.go:30-73 | end to end: reports converted, BER-encoded, written as a CDR file, decoded and summed give a table if and only if every record has an encoding and every record with usages its pointers, and the table holds, for exactly the rating groups reported, the total, uplink and downlink volumes reported (modulo 2^64) |
| `ChargingPanic.NamelessRecordPanics` | base/free5gc/NFs/chf/internal/sbi/processor/cdr.go:17-190 | a record as OpenCDR makes it, with all its required members, for a request without PDU session information, updated with one usage: it is encoded and dumped, and the console panics on it |
| `ChargingPanic.OneRecordPanics` | base/free5gc/webconsole/backend/WebUI/api_charging.go:57-60 | any record alone in its file that lacks the pointers makes the console panic |
| `Offline.ChargeAll` | base/free5gc/webconsole/backend/WebUI/api_charging.go:180-282 | the two passes, with every record a map of float64 numbers in between, give every entry the record computed from the whole set of entries |
| `Offline.SettledExactly` | base/free5gc/webconsole/backend/WebUI/api_charging.go:256-282 | for numbers up to 2^54 that record is the bill if and only if a float64 holds the entry's volumes, its other numbers and the bill: a flow its volume at its price; a slice the price of its flows plus its remaining volume at its own price |
| `Offline.SettledSmall` | base/free5gc/webconsole/backend/WebUI/api_charging.go:256-282 | volumes and bills up to 2^53 are always exact |
| `Offline.BillExactly` | base/free5gc/webconsole/backend/WebUI/api_charging.go:256-282 | a whole slice's bill, entry by entry: its volume at the last price listed for it, plus, for every flow of the slice, the flow's volume times the difference of the prices |
| `Offline.BillUnpriced` | base/free5gc/webconsole/backend/WebUI/api_charging.go:256-282 | without a price of its own a slice is billed its flows, and nothing if it has none |
| `Offline.BillRounded` | base/free5gc/webconsole/backend/WebUI/api_charging.go:251-265 | a slice of 2^53 + 1 octets at one unit each is billed 2^53 |
| `Offline.AddEntry` | base/free5gc/webconsole/backend/WebUI/api_charging.go:211-245 | the first pass keeps, per subscriber and slice, the flow volume, the flow usage and the slice's unit cost |
| `Offline.Complete` | base/free5gc/webconsole/backend/WebUI/api_charging.go:256-282 | the second pass completes whole-slice records only |
| `Offline.BillUnordered` | base/free5gc/webconsole/backend/WebUI/api_charging.go:193-282 | with one price per slice every order of iteration gives every entry the same bill and the same record, at any volume |
| `Offline.PriceUnordered` | base/free5gc/webconsole/backend/WebUI/api_charging.go:232-240 | a slice's price is the same in every order if and only if its whole-slice entries agree on it |
| `Offline.FlowsUnordered` | base/free5gc/webconsole/backend/WebUI/api_charging.go:228-232 | the sums over flows do not depend on the order |
| `Offline.KeysDiffer` | base/free5gc/webconsole/backend/WebUI/api_charging.go:222-222 | the concatenated key separates subscribers and slices when slice identifiers have one length |
| `RanContext.AmfContext.NewRanUe` | base/free5gc/NFs/amf/internal/context/amf_ran.go:66-90 | a new context enters the pool under the allocated ID and, if named, its RAN's list; a failed allocation changes nothing |
| `RanContext.AmfContext.Store` | base/free5gc/NFs/amf/internal/context/amf_ran.go:80-87 | storing a context keeps all tables in agreement |
| `RanContext.AmfContext.Remove` | base/free5gc/NFs/amf/internal/context/ran_ue.go:78-97 | removal takes the context out of the UE's links, the RAN's list, the pool and the allocator and keeps all tables in agreement |
| `RanContext.AmfContext.RemoveAgain` | base/free5gc/NFs/amf/internal/context/ran_ue.go:78-97 | removing a context a second time: the tables agree afterwards if and only if its AMF ID has not been issued again to a context that a UE links to or a list still holds |
| `RanContext.AmfContext.DetachRanUe` | base/free5gc/NFs/amf/internal/context/amf_ue.go:348-363 | only the link of that access goes |
| `RanContext.AmfContext.DetachAmfUe` | base/free5gc/NFs/amf/internal/context/ran_ue.go:99-101 | the context loses its UE; the links agree afterwards if and only if no UE links to it |
| `RanContext.AmfContext.Part` | base/free5gc/NFs/amf/internal/context/ran_ue.go:86-89 | a context and its UE let go of each other, and every other attached context is still the one its UE links to |
| `RanContext.AmfContext.Attach` | base/free5gc/NFs/amf/internal/gmm/common/user_profile.go:58-80 | the UE links to the new context and the old one of that access loses its UE; the links agree afterwards if and only if no other UE was linked to the context |
| `RanContext.AmfContext.SwitchToRan` | base/free5gc/NFs/amf/internal/context/ran_ue.go:103-129 | the lists and the pool agree afterwards; the UE links do if and only if the access type stays or no UE is linked |
| `RanContext.AmfContext.PathSwitch` | base/free5gc/NFs/amf/internal/ngap/handler.go:1344-1423 | the path-switch handler overwrites the RAN ID first and switches only if a session was switched: what both lists hold afterwards, and that they agree if and only if the ID did not change or the context was unlisted |
| `RanContext.AmfContext.NameContext` | base/free5gc/NFs/amf/internal/ngap/handler.go:1473-1476 | the handover acknowledgement names its target: the lists agree afterwards if and only if the target was in none under another name, and every named context is still listed if and only if the name was free or its own |
| `RanContext.PathSwitchBreaks` | base/free5gc/NFs/amf/internal/ngap/handler.go:1344-1423 | from empty tables, one created context and one path switch, with or without the switch itself, leave lists that do not agree |
| `RanContext.HandoverAcknowledge` | base/free5gc/NFs/amf/internal/ngap/handler.go:1445-1476 | the same from the message on, for the target that ranUeFind gives |
| `RanContext.SwitchBreaks` | base/free5gc/NFs/amf/internal/context/ran_ue.go:103-129 | a context that is created, attached and switched to the other access type leaves tables that do not agree |
| `RanContext.RemoveAgainBreaks` | base/free5gc/NFs/amf/internal/context/ran_ue.go:78-97 | so does one that is removed a second time after its AMF ID was issued again |
| `RanContext.AttachBreaks` | base/free5gc/NFs/amf/internal/gmm/common/user_profile.go:58-80 | so does one that is attached to two UEs |
| `RanContext.NamingBreaks` | base/free5gc/NFs/amf/internal/ngap/handler.go:1473-1476 | a target named like another context leaves that one live and in no list |
| `RanContext.AmfContext.NamesDiffer` | base/free5gc/NFs/amf/internal/context/amf_ran.go:81-86 | no two live contexts of one RAN share a RAN ID |
| `RanContext.AmfContext.RemoveAllRanUe` | base/free5gc/NFs/amf/internal/context/amf_ran.go:92-101 | every listed context of the RAN goes, and no other; unnamed contexts stay, and every context that stays keeps its UE |
| `RanContext.AmfContext.RemoveByInvalidId` | base/free5gc/NFs/amf/internal/ngap/handler.go:2243-2261 | a local release never touches another context's link |
| `RanContext.AmfContext.RemoveByInvalidUe` | base/free5gc/NFs/amf/internal/ngap/handler.go:2268-2281 | afterwards the RAN has no context under either identifier, only such contexts went, those that stay keep their UE, and every other RAN's contexts and links are as they were |
| `RanContext.AmfContext.RanUeFind` | base/free5gc/NFs/amf/internal/ngap/handler.go:2286-2366 | section 10.6 of TS 38.413: it succeeds if and only if the AMF ID names a context of this RAN whose RAN ID matches (or is unset for a first returned message), and then changes nothing; an ID failure leaves nothing under either identifier and all other RANs untouched |
| `RanContext.AmfContext.Find` | base/free5gc/NFs/amf/internal/context/context.go:491-496 | the pool lookup |
| `RanContext.AmfRan.Find` | base/free5gc/NFs/amf/internal/context/amf_ran.go:103-108 | the list lookup |
| `RanContext.RemoveStale` | base/free5gc/NFs/amf/internal/ngap/handler.go:450-466 | a context that already has the message's RAN ID is detached and removed: pool, list and its own UE's link lose it, and nothing else changes |
| `RanContext.InitialUeMessage` | base/free5gc/NFs/amf/internal/ngap/handler.go:450-490 | pool and list afterwards are the old ones without the stale context under the message's ID and with the new one; the stale context's UE loses its link of that access, and no other context, link or list changes |
| `RanContext.Take` | base/free5gc/NFs/amf/internal/ngap/handler.go:2243-2366 | one step of any kind: exactly what it adds to and takes from the pool and does to the context it is about, and that every context it does not name keeps its ID, RAN, name and UE; a step whose conditions fail changes nothing |
| `RanContext.Run` | base/free5gc/NFs/amf/internal/ngap/handler.go:2243-2366 | in every state reached by any sequence of creating, removing, switching, resetting, attaching, finding and acknowledging, the pool keys are the entries' AMF IDs, the issued IDs are the keys, named contexts are in their lists and list entries in the pool, and UEs and their contexts link to each other; a context that no step of the run concerns is untouched |
| `GmmSpec.StepCost` | base/free5gc/NFs/amf/internal/gmm/sm.go:21-498 | every event leads only to cheaper ones, so the chain of nested calls is bounded |
| `Gmm.AmfUe.SendEvent` | base/free5gc/NFs/amf/internal/gmm/sm.go:21-498 | the re-entrant machine, whose callbacks send events from inside one another, ends where taking the same events one after another ends: no outer call overwrites a nested transition |
| `Gmm.AmfUe.OnEvent` | base/free5gc/NFs/amf/internal/gmm/sm.go:21-498 | the callbacks' reactions to events, nested sends included |
| `Gmm.AmfUe.OnEntry` | base/free5gc/NFs/amf/internal/gmm/sm.go:21-498 | the entry callbacks, nested sends included |
| `Gmm.AmfUe.AuthenticationProcedure` | base/free5gc/NFs/amf/internal/gmm/handler.go:1680-1770 | skips authentication for a known UE with a valid context, asks for the identity of an unknown one, and otherwise depends on the AUSF (where each of these ends is `GmmEnds.RegistrationEnds`) |
| `Gmm.AmfUe.SecurityModeEntry` | base/free5gc/NFs/amf/internal/gmm/sm.go:263-300 | skips the security mode with a valid context and reads the EAP arguments only otherwise |
| `Gmm.AmfUe.ContextSetupEntry` | base/free5gc/NFs/amf/internal/gmm/sm.go:348-387 | hands the request to the registration handler of its type |
| `Gmm.AmfUe.HandleAuthenticationResponse` | base/free5gc/NFs/amf/internal/gmm/handler.go:2023-2168 | the 5G-AKA and EAP-AKA' answers and what they send |
| `Gmm.AmfUe.HandleAuthenticationFailure` | base/free5gc/NFs/amf/internal/gmm/handler.go:2179-2286 | the failure causes and what they send |
| `Gmm.AmfUe.HandleSecurityModeComplete` | base/free5gc/NFs/amf/internal/gmm/handler.go:2340-2400 | a completed security mode and what its container makes of it |
| `Gmm.AmfUe.HandleRegistrationComplete` | base/free5gc/NFs/amf/internal/gmm/handler.go:2288-2337 | completion, which dereferences the stored request |
| `Gmm.AmfUe.HandleDeregistrationRequest` | base/free5gc/NFs/amf/internal/gmm/handler.go:2416-2523 | acceptance is sent to every access the request names |
| `Gmm.AmfUe.HandleNas` | base/free5gc/NFs/amf/internal/nas/handler.go:76-76 | the integrity result is recorded and the message sent to its access's machine |
| `Gmm.AmfUe.HandleAll` | base/free5gc/NFs/amf/internal/nas/dispatch.go:28-33 | a run of messages on both accesses is the sequential run |
| `Gmm.DrainAppend` | base/free5gc/NFs/amf/internal/gmm/sm.go:21-498 | a queue of events can be cut anywhere |
| `GmmSafety.DrainFolds` | base/free5gc/NFs/amf/internal/gmm/init.go:36-54 | the state of each access after any chain is the transition table folded over the events sent to it |
| `GmmSafety.MessageFolds` | base/free5gc/NFs/amf/internal/gmm/init.go:36-54 | one NAS message, whatever the peers answer, sends at most five events and leaves each access where folding the table over them leads |
| `GmmSafety.RegisteredIsEarned` | base/free5gc/NFs/amf/internal/gmm/init.go:36-54 | in every run, each arrival in Registered comes after an authentication (AUSF success, or a known identity with a valid context) and then a security mode (completed with integrity, or skipped with a valid context), both since that access last left Deregistered or Registered |
| `GmmSafety.StepSound` | base/free5gc/NFs/amf/internal/gmm/handler.go:1700-1711 | every event that takes an access onwards was decided by the check or answer recorded just before it |
| `GmmSafety.SecuredWhen` | base/free5gc/NFs/amf/internal/gmm/handler.go:2340-2399 | the two moments that earned an arrival |
| `GmmLaws.RequestedExactly` | base/free5gc/NFs/amf/internal/gmm/handler.go:383-602 | how a registration request ends, told from its fields: rejected unless admitted, a panic if the old AMF's answer lacks what is dereferenced, accepted otherwise; and when a security context is left: the transferred one, or the old one unless the registration is initial or its container could not be deciphered |
| `GmmLaws.RequestedKeeps` | base/free5gc/NFs/amf/internal/gmm/handler.go:455-556 | a request keeps its stored form and the synch failures, and the ngKSI leaves 0..6 exactly when an old AMF hands over one outside |
| `GmmLaws.IdentityNames` | base/free5gc/NFs/amf/internal/gmm/handler.go:1554-1626 | only a SUCI that was asked for and decodes makes an unknown UE known, and other identities count only with their integrity intact |
| `GmmLaws.PanicsExactly` | base/free5gc/NFs/amf/internal/gmm/sm.go:164-180 | in every run a message makes a modelled dereference fail if and only if it is one of four: a failure without authentication context, an EAP answer without EAP message, a completion without stored request, a request whose context transfer lacks the UE context, the ngKSI or a session's S-NSSAI; SecurityMode entry never misses its EAP arguments |
| `GmmLaws.SecurityModeOrderly` | base/free5gc/NFs/amf/internal/gmm/sm.go:271-283 | entering SecurityMode is safe when the EAP arguments are there or the context is valid |
| `GmmLaws.DrainTidy` | base/free5gc/NFs/amf/internal/gmm/sm.go:247-254 | no chain panics, invalidates the context between sender and check, or changes the ngKSI |
| `GmmLaws.OneAccessPanics` | base/free5gc/NFs/amf/internal/gmm/handler.go:2325-2326 | a UE on one access makes the AMF panic only in Authentication or by an old AMF's answer, never by completing its registration |
| `GmmLaws.SecondCompletionPanics` | base/free5gc/NFs/amf/internal/gmm/handler.go:2325-2326 | with both accesses in ContextSetup the first completion clears the request that the second one dereferences |
| `GmmLaws.SynchFailuresBounded` | base/free5gc/NFs/amf/internal/gmm/handler.go:2229-2243 | in every run at most one synch failure is pending at rest, and none when no access is in Authentication |
| `GmmLaws.SynchTerminates` | base/free5gc/NFs/amf/internal/gmm/handler.go:2226-2243 | a synch failure ends the authentication if and only if it is the second one pending (case f of section 5.4.1.3.7 of TS 24.501) |
| `GmmLaws.KsiExactly` | base/free5gc/NFs/amf/internal/gmm/handler.go:545-556 | one message keeps the ngKSI within 0..6 if and only if no old AMF hands over one outside, told from the request's fields |
| `GmmLaws.KsiStays` | base/free5gc/NFs/amf/internal/gmm/handler.go:545-556 | over a run the ngKSI stays within 0..6 as long as the old AMFs keep to it |
| `GmmLaws.KsiCycles` | base/free5gc/NFs/amf/internal/gmm/handler.go:2216-2225 | each "already in use" advances the ngKSI by one modulo 7 and stays in Authentication |
| `GmmLaws.SevenVisitAll` | base/free5gc/NFs/amf/internal/gmm/handler.go:2216-2225 | seven in a row visit every value exactly once |
| `GmmLaws.DeregistrationEnds` | base/free5gc/NFs/amf/internal/gmm/handler.go:2478-2519 | a deregistration request ends in Deregistered exactly on the accesses it names; one it arrives on but does not name stays in DeregistrationInitiated |
| `GmmLaws.InitiatedIsStuck` | base/free5gc/NFs/amf/internal/gmm/init.go:36-54 | an access in DeregistrationInitiated leaves it if and only if the other access, registered, asks to deregister it too |
| `GmmLaws.FiveEvents` | base/free5gc/NFs/amf/internal/gmm/sm.go:84-100 | the bound of five events is reached: the full chain of a mobility update, event by event |
| `GmmRuns.RegisteredReached` | base/free5gc/NFs/amf/internal/gmm/sm.go:21-498 | from a new UE, four messages lead to Registered |
| `GmmRuns.SecondCompletionReached` | base/free5gc/NFs/amf/internal/gmm/handler.go:2325-2326 | from a new UE, six messages lead both accesses into ContextSetup, and two completions to the panic |
| `GmmRuns.FailureReached` | base/free5gc/NFs/amf/internal/gmm/handler.go:2188-2188 | from a new UE, a registration without identity and any authentication failure panic |
| `GmmRuns.TransferReached` | base/free5gc/NFs/amf/internal/context/amf_ue.go:698-702 | from a new UE, one registration with another AMF's GUTI and an incomplete answer panic |
| `GmmRuns.StuckReached` | base/free5gc/NFs/amf/internal/gmm/handler.go:2491-2497 | from a new UE, five messages lead to an access stuck in DeregistrationInitiated |
| `GmmEnds.RunSettles` | base/free5gc/NFs/amf/internal/gmm/sm.go:21-498 | a whole run of the event machine, nested events and all, leaves the UE exactly where a decision table leaves it message by message: state of both accesses, every field, and whether the AMF has panicked |
| `GmmEnds.MessageEnds` | base/free5gc/NFs/amf/internal/gmm/sm.go:21-498 | where every message ends in every state, told from the UE's fields, the message and the peers' answers without the events in between |
| `GmmEnds.RegistrationEnds` | base/free5gc/NFs/amf/internal/gmm/handler.go:1700-1770 | an admitted registration request: an unknown UE is asked once more who it is; with a valid context only the set-up can still fail; without one, a missing or failing AUSF ends in Deregistered with the data cleared, and an answering one in Authentication with its challenge |
| `GmmEnds.RefusalEnds` | base/free5gc/NFs/amf/internal/gmm/handler.go:2068-2122 | a wrong or refused answer ends in Deregistered, unless the UE came with its 5G-GUTI and was not asked for its identity yet |
| `GmmEnds.ConfirmationEnds` | base/free5gc/NFs/amf/internal/gmm/sm.go:263-300 | a confirmed answer leads to the security mode, to Deregistered when no algorithm can be chosen, and past the security mode with a valid context |
| `GmmEnds.SecurityModeEnds` | base/free5gc/NFs/amf/internal/gmm/sm.go:311-327 | a rejected security mode, and one completed with a service request, end in Deregistered |
| `GmmEnds.RequestLeaves` | base/free5gc/NFs/amf/internal/gmm/handler.go:383-647 | every field after any registration request, admitted or not, told from the request |
| `GmmEnds.KsiTaken` | base/free5gc/NFs/amf/internal/gmm/handler.go:545-556 | the ngKSI of an admitted request: an old AMF's if one hands it over, or else the request's own if it is native and not 7, or else 0 |
| `GmmEnds.DeregistrationLeaves` | base/free5gc/NFs/amf/internal/gmm/handler.go:2416-2523 | a registered UE's deregistration never panics and clears the data exactly when it names an access that is deregistering, its own included |
| `Timers.CallsInOrder` | base/free5gc/NFs/amf/internal/context/timer.go:45-63 | in every interleaving the expiries are 1, 2, ..., k with k at most the limit, and cancelling comes once, last, after exactly the limit |
| `Timers.CallsExactly` | base/free5gc/NFs/amf/internal/context/timer.go:45-63 | in every interleaving the calls are those of the ticks before the loop took a stop message: that many expiries, or all of them and the cancellation; and the loop still runs if and only if it has taken none and not cancelled |
| `Timers.CallsUnstopped` | base/free5gc/NFs/amf/internal/context/timer.go:45-63 | a timer that nobody stops calls at every tick up to the limit, and then cancels |
| `Timers.QuietAfterExit` | base/free5gc/NFs/amf/internal/context/timer.go:45-63 | nothing is called once the loop has exited |
| `Timers.StopOnce` | base/free5gc/NFs/amf/internal/context/timer.go:74-77 | Stop panics if and only if it is called more than once |
| `Timers.CallsAfterStop` | base/free5gc/NFs/amf/internal/context/timer.go:70-77 | a call still follows Stop if and only if the loop is running and takes a tick before it takes the message |
| `Timers.Timer.Round` | base/free5gc/NFs/amf/internal/context/timer.go:45-63 | one round of the select loop is one step of the machine |
| `Timers.Timer.Stop` | base/free5gc/NFs/amf/internal/context/timer.go:74-77 | Stop fills and closes the channel, and panics on a closed one |
| `Timers.AmfUe.StopTimer` | base/free5gc/NFs/amf/internal/context/amf_ue.go:948-1016 | the timer of the field is stopped and the field cleared, so that fields hold only timers never stopped |
| `Timers.RunAll` | base/free5gc/NFs/amf/internal/context/amf_ue.go:948-1016 | whatever is started, stopped, cleared or ticks, in whatever order, no timer object is stopped twice, and its calls are exactly those of its ticks |
| `Timers.AmfUe.Start` | base/free5gc/NFs/amf/internal/gmm/message/send.go:462-477 | starting a procedure overwrites its field with a fresh timer of that many retries |
| `Guti.GutiRoundTrip` | base/free5gc/NFs/amf/internal/ngap/handler.go:516-527 | the key rebuilt from set, pointer and TMSI is the GUTI allocated if and only if the configured AMF ID is in lower case |
| `Guti.GutiShape` | base/free5gc/NFs/amf/internal/context/context.go:221-228 | a GUTI is the PLMN's digits, the AMF ID and eight hexadecimal digits that denote the TMSI |
| `Guti.PaddedOctets` | base/free5gc/NFs/amf/internal/context/context.go:226-227 | zero-padded minimal hexadecimal digits are the digits of the big-endian octets |
| `Guti.SplitBack` | base/free5gc/NFs/amf/internal/ngap/handler.go:518-523 | splitting an AMF ID into 8, 10 and 6 left-aligned bits and masking and shifting them together loses nothing but the case of digits |
| `Guti.SplitBits` | base/free5gc/NFs/amf/internal/ngap/handler.go:518-523 | of an AMF ID the region is the upper 8 bits, the set the next 10 at the upper end of 16, the pointer the last 6 at the upper end of 8 |
| `Guti.SetPointerBits` | base/free5gc/NFs/amf/internal/ngap/handler.go:518-523 | put together again: the upper 10 bits of the set's 16 and the upper 6 of the pointer's 8 |
| `Guti.FailedAllocation` | base/free5gc/NFs/amf/internal/context/context.go:204-211 | the GUTI of a failed TMSI allocation is never rebuilt |
| `Guti.GutisDiffer` | base/free5gc/NFs/amf/internal/context/context.go:221-228 | two GUTIs of one AMF are equal if and only if their TMSIs are |
| `Guti.FindByGuti` | base/free5gc/NFs/amf/internal/context/context.go:463-475 | the first UE with that GUTI, or none if there is none |
| `Guti.FindBySTmsi` | base/free5gc/NFs/amf/internal/ngap/handler.go:636-639 | the first pooled UE whose GUTI is the rebuilt key, or none if there is none; with distinct TMSIs a UE is found if and only if the TMSI is its own, whatever the order of the pool |

## Left out

- BerRoundTrip.RoundTrip: requires tagged choices to have headers of equal size and tagged lists not to hold choices; the converse is false (`BerRoundTrip.MisalignedChoiceMaySurvive`), and what a misaligned choice gives is stated by `BerRoundTrip.TaggedChoiceReads`. It also requires an encoding below 2^24 octets, which is what the parser's three length octets hold.
- BerRoundTrip.ParseMarshalled: has the same requirements.
- BerRoundTrip.SetOrderInsensitive: is about members that the marshaller wrote; duplicate members, where the last one wins, are not covered.
- BerEncoding.Ends: is about values whose encoding stays below 2^63 octets, which no memory exceeds.
- BerRoundTrip.SequenceOrderMatters: has the requirements of `BerRoundTrip.RoundTrip`, and so has `BerRoundTrip.CutRefused` apart from the alignment of choices.
- BerHeader.ParseTagAndLength: length octets that reach past the slice, into its capacity, are taken to panic.
- BerUnmarshal.Parse: a slice expression that Go allows up to a slice's capacity is taken to panic at its length.
- CdrFileRoundTrip.FileRoundTrip: bit fields hold only their documented widths, and files stay below 4 GiB, where the cursor does not wrap.
- CdrFile.Decode: a slice expression that Go allows up to a slice's capacity is taken to fail at its length.
- Charging.Conservation: the text fields of the console's table (S-NSSAI, DNN) are not modelled, reported integers are non-negative, every record's encoding is shorter than 2^16 octets (what a longer one does to the file is stated by `Charging.DumpedRead`), and the record's other members may have any value whose tagged choices are aligned. A record on which the marshaller panics is never written; the theorem is about the file of the others.
- ChargingReports.ReportsDumped: has the same requirements.
- ChargingReports.CutRecord: is about one record; what the rest of a file is read as after a cut is not stated.
- Charging.RecordRead: has the same requirements.
- Charging.RecordAdded: has the same requirements.
- Charging.ParseCdr: the S-NSSAI and DNN texts of the table are not modelled.
- RanContext.AmfContext.Remove: is for a context that has not been removed; `RanContext.AmfContext.RemoveAgain` is for the others.
- RanContext.Run: its switches stay on one access type, its RANs do not name two contexts alike, it attaches no context that another UE has, and an acknowledgement brings a free name; what happens otherwise is in `SwitchToRan`, `Attach` and `HandoverAcknowledge`.
- Gmm.AmfUe.SendEvent: the UE's fields are one record, and what a handler that sends no event does to it is a function; update in place is modelled where events nest; a panic is a flag, and the model runs callbacks to their end after setting it, which changes nothing because no callback that panics has sent an event.
- Gmm.AmfUe.HandleDeregistrationRequest: releases of sessions, policies and RAN contexts are not modelled, and neither is the removal of the UE after a failed authentication.
- Gmm.AmfUe.HandleAll: messages of one UE are handled one after another; handlers of both accesses running at once are not modelled.
- GmmLaws.PanicsExactly: panics in library accessors, in the SBI consumers, in the NAS and NGAP message builders, in the registration handlers behind `setUp` and in the handlers that no event depends on are not modelled.
- GmmLaws.InitiatedIsStuck: is about NAS messages; the cancel functions of T3522 and T3550 and the cleanup code that set a state directly, past the machine, are not modelled.
- Offline.ChargeAll: what float64 and its shortest decimal text do to integers beyond 2^54 is a parameter.
- Timers.RunAll: the fields T3513 to T3570 are one map, and the map's own data races are not modelled.
- Guti.GutiRoundTrip: bits beyond the ten of a set ID and the six of a pointer are taken to be zero, as the encoder of the RAN's message makes them.
- The reflection wrappers of the codec (structs that only hold a `Value` or a `List`) are erased in the schema; destinations narrower than int64, NULL, OBJECT IDENTIFIER, open types and explicit tags are not modelled.
- The direct `State.Set` calls in the NGAP and GMM cleanup code and in the cancel functions of T3522 and T3550, which bypass the machine.
- The `fsm`, `idgenerator`, `ngapConvert`, `nas` and cryptographic libraries; the ID allocator answers with an unused ID or fails.
- SBI and HTTP handlers, NRF discovery loops, database access, billing transfer, configuration, tracing, metrics and the web frontend: input and output.
- Online charging's quota, Diameter, and the individual `cdrType` declarations.
