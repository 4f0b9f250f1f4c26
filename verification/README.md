# A verified model of the IEEE 2030.5 client core

This project models the core of an IEEE 2030.5 (Smart Energy Profile) client written in
C, and of the Python gateway that drives a device with it, and proves what that code is
for. `dafny verify dfyconfig.toml` checks all of it.

Code that works by changing things in place is modelled by classes and loops, and each
method is proved against a specification function of its input or of the old state. The
results below are lemmas about those functions, so they hold of what the methods do.

**The EXI codec** (`Words`, `BitStream`, `BitCodec`, `ExiValue`, `ExiValueProofs`,
`ExiStrings`, `ExiSchema`, `ExiDocument`, `ExiRoundTrip`, `ExiFormat`, `ExiAccept`,
`ExiOutput`, `ExiParse`, `ExiCodec`). A bit-level writer and reader over byte arrays, the value codecs and string
tables on top of them, and the two state machines `output_doc` and `parse_doc`, each with
its explicit element stack. A schema is any table of rows whose event code counts come
from `productions`. Over every such table, writing an object of exact values (numbers
below 2^31, strings in ASCII) that uses no string under two names and parsing the bytes
gives the object back, but for false optional Booleans and empty strings behind pointers;
and whatever the input, what the parser accepts is a legal object.
Round trips hold of any two ends that agree, so the formats themselves are stated apart from
them: `ExiFormat` tells the bits of numbers, the event code of an element behind absent ones
and one document bit by bit, and `ExiStrings` tells, from the list of values alone, what
stands where in the string tables and so which identifier stands for which string.
The specification functions `Encode...` and `Decode...` are recursive over
the object and the input; the machines are proved to follow them turn by turn, through
what remains to be written (`Remaining`) and what the rest of the input means (`Resume`).

**The DER event scheduler** (`Schedule`, `ScheduleLists`, `ScheduleActive`,
`SchedulePrecedence`, `ScheduleSafety`, `ScheduleTally`, `ScheduleHandout`,
`ScheduleRounds`, `ScheduleTimely`, `ScheduleSurvivors`, `ScheduleIntervals`,
`ScheduleOutcomes`, `ScheduleDefaults`, `ScheduleWitnesses`, `Scheduler`). The three queues of event blocks, the event queue that drives them, and every step the surroundings can
cause: an event arrives, its status is retrieved again, the programs are rebuilt, the
clock moves on and the queue is polled. A run is any sequence of such steps from the empty
schedule. `ScheduleIntervals` says for any rebuild who may take anything from whom, by the
instants at which events are on; `ScheduleOutcomes` tells what single calls leave behind
from the state before them; `ScheduleDefaults` accounts for what is queued for the device.
The class `Scheduler` runs the loops of the C code and refines the functions of `Schedule`.

**The sparse hash table** (`WordRank`, `SparseGroup`, `Probing`, `HashTable`,
`HashIterate`). The parallel bit count on 64-bit words, bitmap groups, triangular probing,
and put, get and iteration, which together behave as a finite map.

**Smaller algorithms.** The topological sort of schema types (`TopSort`), DNS names and
records (`DnsName`, `DnsRecords`, `DnsFormat`; sections 4.1.3 and 4.1.4 of RFC 1035), UTF-8 and XML element text
(`Utf8`, `XmlText`, `XmlBuffer`), and the gateway's register tracking (`Bridge`).

## Where the code departs from its intent

The model follows the code. For each departure there is a lemma on all inputs that says
when it shows, or a concrete input or run that shows it.

- `parse_uint` shifts an `int`: a number is read back exactly when it is below 2^31
  (`UintRoundTrip`). The reader's behaviour beyond that is the outcome `Undefined`.
- Negative integers are sent as a magnitude, where section 7.1.5 of EXI 1.0 asks for the
  magnitude less one: the encoding is the standard's exactly for numbers that are not
  negative (`StandardExactly`).
- Only the writer grows its local table on a hit in the global table alone: the tables
  agree exactly when that does not happen (`TablesInStep`), which it never does while no
  string is used under two names.
- Literals are read back by bytes rather than characters, so one comes back exactly when
  it is ASCII (`LiteralRoundTrip`).
- A false optional Boolean and an empty string behind a pointer do not come back as they
  were: `DocumentKept` says for which objects the round trip is the identity. The Boolean
  is taken to be laid out as the parser lays it out, presence at the bit of its row and the
  value behind it: the writer then sends its presence, and it comes back true. In the layout
  of `core/se_types.h`, which has the two the other way round, the writer takes the value
  for the presence, so a false one is not sent at all; that layout is not modelled.
- `insert_active` unlinks a later block in a way that drops the ones in front of it:
  `KeptExactly` says which stay, `SurvivorLost` is a run that loses one.
- The comment of `core/schedule.c` promises a start for an event that becomes active and
  an end when it expires or is superseded. A block can start twice: the count of its starts
  and ends is kept by a step exactly when the step is no rebuild that lists it while it is
  active and its event scheduled again (`TallyKept`, `TakenBackStartsTwice`). And a block
  that has started can be finished without an end: a rebuild that inserts it behind active
  blocks which leave it nothing gives it up silently (`GivenUpSilently`, `EndKept`,
  `LetGoNeverEnds`). Without the first, starts and ends come at most once each, in order
  (`OnceEach`), and every block that has started and is finished has ended exactly when
  the second did not happen to it (`EndsUnlessLetGo`).
- That is about the events queued. What `next_event` hands out follows the record exactly
  while no active block is taken out with a start of it still waiting, which
  `remove_event` drops (`HandedKept`, `HandedExactly`); then its end is handed out alone
  (`EndAlone`).
- The superseded queue is scanned as if it were sorted, and it is not (`GivenUpExactly`,
  and the run `GivenUpLate`).
- An event without duration supersedes, or is superseded by, one it lies strictly inside of,
  although it is on at no time (`OverlapExactly`, `NoInstantShared`).
- White space in front of element text is lost (`TextRoundTrip`), and code points above
  0xFFFF do not survive the encoder (`RoundTripExactly`). Of the well-formed encodings of
  four bytes the decoder takes those whose third byte is below 0xA0 (`DecodedExactly`): its
  table goes on behind the second byte as it does behind 0xED.
- A default control that writes fewer registers than the event before it leaves one set
  for good (`TrackedExactly`, `LeftBehind`).

## Model

| member | source | states |
|---|---|---|
| BitStream.BitWriter.OutputBit | core/exi_output.c:42-46 | the bits written are those before and the one bit, at every bit offset |
| BitStream.BitWriter.OutputByte | core/exi_output.c:21-26 | the bits written are those before and the eight bits of the byte, also across a byte boundary |
| BitStream.BitWriter.OutputBits | core/exi_output.c:48-55 | the low n bits, filled in from the last byte to the first, follow what was written, for every n and offset |
| BitStream.BitReader.ParseByte | core/exi_parse.c:26-32 | the next eight bits, or a truncated reader whose position has not moved |
| BitStream.BitReader.ParseBit | core/exi_parse.c:55-59 | the next bit, or a truncated reader whose position has not moved |
| BitStream.BitReader.Fetch | core/exi_parse.c:67 | the 32-bit accumulator holds the value of the bytes fetched |
| BitStream.BitReader.ParseBits | core/exi_parse.c:62-69 | the value of the next n bits, n up to 24, from any offset, or truncation |
| BitCodec.ItemRoundTrip | core/exi_parse.c:26-69 | a read gives back an item exactly when its bits stand at the position |
| BitCodec.ItemsRoundTrip | core/exi_parse.c:26-69 | the matching reads give back a run of bit, byte and n-bit writes exactly when its bits stand there |
| BitCodec.WriteAll | core/exi_output.c:21-55 | any run of writes appends its bits one item after the other |
| BitCodec.ReadAll | core/exi_parse.c:26-69 | a run of reads returns its items and moves by their total width, or is truncated exactly when the stream is too short |
| BitCodec.WriteAndRead | core/exi_output.c:21-55 | items written from any bit offset are read back equal, and the reader stops at the byte and bit where the writer stopped |
| ExiValue.IndexOf | core/string_table.c:20-24 | the first index of a string in a table, -1 exactly when it is not there |
| ExiValue.Strip | core/exi_output.c:36 | only leading zeros are stripped, all of them, and one byte is kept |
| ExiValueProofs.UintRoundTrip | core/exi_parse.c:35-41 | an unsigned integer is read back, ending where it was written, if and only if it is below 2^31 |
| ExiValueProofs.UintGroups | core/exi_output.c:28-33 | the number of 7-bit groups written is the smallest that holds the number |
| ExiValueProofs.IntegerRoundTrip | core/exi_parse.c:72-78 | a signed integer is read back if and only if its magnitude is below 2^31 |
| ExiValueProofs.BinaryRoundTrip | core/exi_parse.c:46-53 | binary data of any length comes back right-aligned behind the zeros that were stripped |
| ExiValueProofs.StandardExactly | core/exi_output.c:57-60 | the encoding is that of section 7.1.5 of EXI 1.0 if and only if the number is not negative; of a negative one it is the standard's for the number one below |
| ExiValueProofs.LiteralRoundTrip | core/exi_parse.c:126-133 | a literal, in a container of any size that holds it or behind a pointer, is read back if and only if it is ASCII |
| ExiValueProofs.StringRoundTrip | core/exi_parse.c:115-139 | a string decodes to the one written if and only if it is in a table or an ASCII literal |
| ExiValueProofs.TablesInStep | core/exi_output.c:70-88 | both ends' tables agree after a string if and only if it was no hit in the global table alone |
| ExiValueProofs.ValueRoundTrip | core/exi_parse.c:141-157 | a value of any type is read back, with both ends' tables the same, if and only if it is exact and, if text, in the table of its name or in none |
| ExiStrings.FirstUsesCount | core/string_table.c:34-43 | the list of first uses under a name holds each string used under it, once |
| ExiStrings.WriterTables | core/string_table.c:34-43 | over any list of values, the writer's table of a name holds the different strings used under it in the order of their first use, the global table those used at all |
| ExiStrings.CompactId | core/exi_output.c:73-87 | over any list of values, a string used before under its name goes out as 0 and the number of other strings used under the name before its own first use, in the bits of their number less one |
| ExiStrings.GlobalId | core/exi_output.c:77-87 | one used before under other names only goes out as 1 and the number of strings used at all before its first use |
| ExiStrings.NewString | core/exi_output.c:80-82 | one never used before goes out in full, behind its length plus two |
| ExiStrings.ReaderTables | core/exi_parse.c:115-139 | whatever the input, the reader's table of a name holds the literals read under it in the order in which they were read, the global table all |
| ExiStrings.IdentifierRead | core/exi_parse.c:84-95 | an identifier reads as the literal with that number, of the name or of all, if and only if there is one that fits its container |
| ExiSchema.Productions | core/c_gen.c:463-471 | the loop counts the codes of its row, the optional rows behind it, and the end |
| ExiSchema.RowCodes | core/c_gen.c:457-471 | the count of a row in terms of the codes of the row behind it |
| ExiSchema.CodesReach | core/c_gen.c:457-471 | a code leads over optional rows only, and the last one to a mandatory row or the end |
| ExiRoundTrip.SkipBack | core/exi_parse.c:213-226 | the code pending after skipped rows is one of the codes offered, and leads the parser to the same row |
| ExiRoundTrip.RunBack | core/exi_parse.c:235-242 | the occurrences of a row and the rows behind them are read back |
| ExiRoundTrip.ElementBack | core/parse.c:198-256 | an element is read back with everything below it, tables included |
| ExiRoundTrip.DocumentRoundTrip | core/parse.c:186-263 | for every schema and every object whose strings are ASCII, none of them under two names, parsing what was written gives the document back, consuming exactly its bits, if and only if its numbers and binary data are exact; if not, the reader fails |
| ExiRoundTrip.DocumentKept | core/parse.c:186-263 | for the same objects, the very same one comes back if and only if its values are exact, with no false optional Boolean and no empty string behind a pointer |
| ExiRoundTrip.DocumentWritten | core/output.c:145-242 | an object is written if and only if every row has its minimum of occurrences and the stack suffices |
| ExiFormat.BitOrder | core/exi_output.c:48-55 | bit i of a number written in n bits, most significant first |
| ExiFormat.UintByte | core/exi_output.c:28-33 | byte i of an unsigned integer holds its seven bits from 7i on, and a leading one unless nothing is left behind it |
| ExiFormat.LeftIs | core/exi_output.c:28-33 | what is left behind i groups is the number divided by two to the 7i |
| ExiFormat.BytesInOrder | core/exi_output.c:39 | byte i of binary data stands i bytes in |
| ExiFormat.ByteValues | core/exi_output.c:102-106 | a byte goes out as its distance from -128, an unsigned one as it is |
| ExiFormat.Contents | core/exi_output.c:90-124 | sign and magnitude, length and bytes without leading zeros, value or presence of a Boolean, by type; an empty string is the end of its element, other content comes behind a 0 |
| ExiFormat.ReadModulo | core/exi_parse.c:141-157 | a number read into a narrower field fits it and differs from the one the input denotes by a multiple of the field's range |
| ExiFormat.SkippedCode | core/output.c:158-183 | an element or attribute behind k absent ones goes out as event code k of those possible at the first of them |
| ExiFormat.SampleWritten | core/output.c:145-242 | one document, of a type with an attribute, repeated strings, numbers and a Boolean, bit by bit |
| ExiAccept.ValueLegal | core/exi_parse.c:141-157 | whatever the input, a value read fits its type and the tables hold proper strings |
| ExiAccept.ItemsLegal | core/exi_parse.c:235-242 | however often the events repeat a row, it ends between its minimum and maximum, and the code left over is one of the next row's |
| ExiAccept.NodeLegal | core/parse.c:198-256 | whatever the input, an element accepted is legal with everything below it |
| ExiAccept.DocumentLegal | core/parse.c:186-263 | any document accepted is a legal object of a type of the schema |
| ExiOutput.Output.OutputUint | core/exi_output.c:28-33 | the loop appends the 7-bit groups of the number |
| ExiOutput.Output.OutputInteger | core/exi_output.c:57-60 | appends a sign bit and the magnitude |
| ExiOutput.Output.OutputBinary | core/exi_output.c:35-40 | appends the length and the bytes left after stripping |
| ExiOutput.Output.FindString | core/string_table.c:20-24 | the search returns the first index of the string |
| ExiOutput.Output.OutputLiteral | core/exi_output.c:62-68 | appends the length plus two and the code points |
| ExiOutput.Output.OutputString | core/exi_output.c:70-88 | appends the local hit, the global hit or the literal, and grows the tables as specified; `ExiStrings.CompactId`, `GlobalId` and `NewString` tell which and where from the values before |
| ExiOutput.Output.OutputValueOf | core/exi_output.c:90-108 | appends the bits of the value by its type |
| ExiOutput.Output.OutputSimpleOf | core/exi_output.c:110-124 | appends the content event and the value, or the end event for an empty string |
| ExiOutput.Output.OutputEvent | core/exi_output.c:126-134 | appends the event code in the bits its count needs and starts over |
| ExiOutput.Output.StepElement | core/output.c:124-183 | an element turn keeps what remains to be written, or fails exactly where that fails |
| ExiOutput.Output.StepAttribute | core/output.c:184-190 | what is written and what remains add up to the same document |
| ExiOutput.Output.StepSimple | core/output.c:191-196 | what is written and what remains add up to the same document |
| ExiOutput.Output.StepComplex | core/output.c:221-227 | what is written and what remains add up to the same document |
| ExiOutput.Output.StepEndEvent | core/output.c:197-216 | the same at the end of an occurrence, or fails when the minimum is not met |
| ExiOutput.Output.Step | core/output.c:149-237 | any turn keeps the document to be written and leaves less work |
| ExiOutput.Output.OutputDoc | core/output.c:145-242 | the state machine stops, and has written exactly the encoding of the object, or its part in front of the error |
| ExiParse.Parser.ParseUint | core/exi_parse.c:35-41 | the loop returns the number the input denotes, truncation and overflow included |
| ExiParse.Parser.ParseInteger | core/exi_parse.c:72-78 | the signed number the input denotes; on truncation the position is put back |
| ExiParse.Parser.ParseBinary | core/exi_parse.c:46-53 | the bytes the input denotes, right-aligned, or the error for a length that does not fit |
| ExiParse.Parser.ParseLiteral | core/exi_parse.c:80-82 | the code points the input denotes |
| ExiParse.Parser.Utf8Length | core/exi_parse.c:98-112 | the UTF-8 length of the characters ahead, with the position put back |
| ExiParse.Parser.ParseCompact | core/exi_parse.c:85-95 | the string of a table index, or an error for an index or size out of range |
| ExiParse.Parser.ParseString | core/exi_parse.c:115-139 | the string the input denotes and the tables it leaves; `ExiStrings.ReaderTables` and `IdentifierRead` tell both from what was read before |
| ExiParse.Parser.ParseValueOf | core/exi_parse.c:141-157 | the value the input denotes by its type |
| ExiParse.Parser.ParseSimple | core/exi_parse.c:197-203 | a simple element's value or its empty form |
| ExiParse.Parser.ParseEvent | core/exi_parse.c:205-211 | an event code below the count offered, or an error |
| ExiParse.Parser.ReadToken | core/exi_parse.c:213-219 | the code for the row, unless an earlier row has read it |
| ExiParse.Parser.StepNext | core/exi_parse.c:213-226 | a turn in front of a row keeps what the rest of the input means |
| ExiParse.Parser.StepElement | core/parse.c:198-219 | entering an element keeps it, or fails on a full stack |
| ExiParse.Parser.StepAttribute | core/parse.c:222-224 | an attribute value keeps it |
| ExiParse.Parser.StepValue | core/parse.c:225-228 | an element value keeps it |
| ExiParse.Parser.ParseEndBit | core/exi_parse.c:228-233 | the end event, read only when it is still due |
| ExiParse.Parser.StepEnd | core/parse.c:229-240 | the end of an occurrence keeps it |
| ExiParse.Parser.StepSequence | core/exi_parse.c:235-242 | another occurrence, or the code of the next row, keeps it |
| ExiParse.Parser.StepSequenceEnd | core/parse.c:252-256 | leaving a row keeps it |
| ExiParse.Parser.Run | core/parse.c:191-259 | from any reachable point the loop ends, with what the rest of the input means |
| ExiParse.Parser.ParseDoc | core/parse.c:186-263 | on any input the state machine stops with the document the input denotes, or with its error |
| ExiCodec.WriteAndRead | core/output.c:145-242 | an object whose strings are ASCII, none of them under two names, written into a buffer and parsed from its bytes, comes back exactly when it is complete and its values are exact, and as the same object exactly when it is kept |
| ScheduleLists.Placed | core/list.c:175-182 | a block is inserted behind exactly the run of earlier ones |
| ScheduleLists.InsertedAscending | core/list.c:175-182 | an insertion keeps the order while times are within the range of the comparator |
| ScheduleLists.Removed | core/list.c:166-173 | a removal takes out that block and nothing else |
| SchedulePrecedence.InsertSettles | core/schedule.c:208-233 | one insertion into a settled schedule leaves every block with what it is due |
| SchedulePrecedence.RebuildOutcome | core/der.c:176-188 | after a rebuild over overlapping events, listed in any order, each holds its mask less those of all that outrank it, and is superseded exactly when that is empty |
| SchedulePrecedence.OrderDoesNotMatter | core/schedule.c:158-166 | two orders of listing leave the same masks, and the same blocks in each queue |
| SchedulePrecedence.EveryBitHeldOnce | core/schedule.c:158-166 | every bit any event asks for is held by exactly one of them |
| ScheduleIntervals.OverlapExactly | core/schedule.c:217 | the test finds exactly the events that share an instant, and besides them those without duration strictly inside another |
| ScheduleIntervals.NoInstantShared | core/schedule.c:217 | an event without duration overlaps one with which it shares no instant |
| ScheduleIntervals.LostToRivals | core/schedule.c:208-233 | any rebuild: an inserted block keeps bits of its event only, each bit it has lost is asked for by another inserted event that meets it in time and is not outranked by it, and it is in the scheduled queue unless there is such an event |
| ScheduleIntervals.QueuedByMask | core/schedule.c:218-225 | any rebuild of events that ask for something: an inserted block is in the scheduled queue exactly when it has something left, in the superseded one exactly when it has nothing |
| ScheduleIntervals.LeftAlone | core/schedule.c:217-229 | any rebuild: an event that shares no instant with another inserted one, and is no moment inside or around one, keeps its whole mask and is scheduled |
| ScheduleActive.InsertOutcome | core/schedule.c:249-273 | told from the state before: the new block supersedes exactly the active blocks it outranks, that hold only what it asks for and that it gets to, and gives up exactly when those it does not outrank hold all it asks for |
| ScheduleOutcomes.InsertActiveTold | core/schedule.c:249-273 | told from the state before: status and mask of the new block, status, mask and end of every active one, and that no other block changes |
| ScheduleOutcomes.NewBlockTimes | core/schedule.c:168-183 | a new block has its event's times moved by the offsets drawn for it, and is completed at once if that is past |
| ScheduleOutcomes.NeighboursFollow | core/schedule.c:226-229 | an insertion changes no times but those of blocks that begin or end where the new event does, which follow the new block's effective end |
| ScheduleOutcomes.ExpiredExactly | core/schedule.c:399-407 | an update finishes exactly the blocks at the head of the active queue that are over, each with an end if it had started |
| ScheduleOutcomes.PromotedExactly | core/schedule.c:408-415 | an update takes out of the scheduled queue exactly those at its head that are due |
| ScheduleOutcomes.WokenForSomething | core/schedule.c:396-431 | an update sets the next one for no time but a start or an end of a block |
| ScheduleOutcomes.TimedPlaced | core/event.c:48-64 | a timed event goes behind those that are earlier and in front of the first that is not |
| ScheduleOutcomes.HandedInTime | core/event.c:85-103 | a round hands out the oldest immediate event, or without one the first timed event, not before its time |
| ScheduleOutcomes.ReportedOver | core/schedule.c:337-342 | an event reported canceled or superseded: status, end and pending events of its block |
| ScheduleOutcomes.ReportedActive | core/schedule.c:336 | an event reported active: its block starts if it has been waiting for that |
| ScheduleOutcomes.ReportedScheduled | core/schedule.c:328-335 | an event reported scheduled is asked for again at once with the clock set back, or in a second |
| ScheduleOutcomes.OnlyListed | core/der.c:176-188 | after a rebuild no block is in a queue but those of the listed controls |
| ScheduleOutcomes.Announces | core/der.c:194-196 | a rebuild announces itself behind all else, the update before the device's schedule |
| ScheduleOutcomes.ListedOver | core/schedule.c:377-383 | a listed event that is canceled or superseded: status, end and pending events of its block, and no queue changes |
| ScheduleOutcomes.ListedFinished | core/schedule.c:369 | a finished block that is listed again stays as it is but for its primacy |
| ScheduleOutcomes.ComparedAs | core/schedule.c:190-198 | a difference of two times is compared as an `int` of 32 bits |
| ScheduleSafety.InsertBlockGood | core/schedule.c:208-233 | an insertion keeps queues and ownership, and the tally of starts and ends of every block but an active one put back |
| ScheduleSafety.InsertActiveGood | core/schedule.c:249-273 | so does joining the active queue, and every block finished by it has ended but an active one that gives up |
| ScheduleSafety.RetireGood | core/schedule.c:289-301 | taking a block out keeps queues, ownership and tallies, after which it is in no queue |
| ScheduleSafety.RemoveProgramsGood | core/der.c:144-155 | so does the removal of programs |
| ScheduleSafety.ScheduleEventGood | core/schedule.c:351-384 | scheduling an event again keeps them but for a block taken back or let go |
| ScheduleSafety.RebuildGood | core/der.c:176-194 | so does a rebuild |
| ScheduleSafety.UpdateGood | core/schedule.c:396-431 | an update keeps queues, ownership and every tally |
| ScheduleSafety.PollGood | core/der_client.c:164-171 | so does a polled event |
| ScheduleSafety.ReportGood | core/schedule.c:324-342 | so does a new status from the server |
| ScheduleSafety.StepGood | core/der_client.c:164-183 | every step keeps queues and ownership, and revives nothing that was finished |
| ScheduleSafety.RunGood | core/der_client.c:164-183 | so does every run |
| ScheduleSafety.OneOwner | core/schedule.c:158-166 | in every reachable schedule a bit has at most one owner in the active queue, and at any instant at most one among the scheduled blocks whose interval covers it |
| ScheduleSafety.NeverAgain | core/schedule.c:369 | a canceled, superseded, aborted or completed block stays one in every continuation |
| ScheduleTally.GivenUpSilently | core/schedule.c:254-265 | an active block inserted again is superseded, without an end, if and only if the active blocks up to one it does not outrank leave it nothing |
| ScheduleTally.RemovedPrograms | core/der.c:144-155 | the blocks of removed programs are aborted, and no others change |
| ScheduleTally.TallyKept | core/schedule.c:371-375 | a step keeps the tally of a block if and only if it is no rebuild that lists it, outside the programs removed, while it is active and its event scheduled |
| ScheduleTally.EndKept | core/schedule.c:371-376 | a step that does not take a block back finishes it without an end if and only if it is a rebuild in which the block gives up when it is its turn |
| ScheduleTally.OnceEach | core/schedule.c:63-71 | in every run a block never taken back starts at most once and ends at most once, the end after the start |
| ScheduleTally.EndsUnlessLetGo | core/schedule.c:63-71 | in such a run a block that has started and is finished has ended if and only if no step let it go |
| ScheduleHandout.HandedKept | core/schedule.c:293-295 | a step hands out what the record says is next and keeps the rest waiting, if and only if it does not take out an active block while something of it is waiting |
| ScheduleHandout.HandedExactly | core/event.c:66-103 | over a whole run, what was handed out of a block and what is waiting make up its record, if and only if nothing of it was dropped so |
| ScheduleHandout.HandedOnce | core/event.c:85-103 | then, of a block never taken back, a run hands out nothing, its start, or its start and then its end |
| ScheduleDefaults.StepDevice | core/der_client.c:168-171 | a step queues a DefaultControl exactly when it hands out an update, the device has a default control and no block is active afterwards, and a DeviceSchedule exactly when it is a rebuild |
| ScheduleDefaults.DeviceExactly | core/der_client.c:164-183 | over a whole run, the events of the device handed out and those waiting are exactly those, in order |
| ScheduleDefaults.DefaultsExactly | core/der_client.c:168-171 | over a whole run, the default controls handed out and waiting number the rounds that left nothing active while the device had one |
| ScheduleWitnesses.EndAlone | core/schedule.c:293-295 | a run that hands out the end of a block and never its start |
| ScheduleWitnesses.TakenBackStartsTwice | core/schedule.c:371-376 | a run in which an event taken back from active to scheduled starts twice |
| ScheduleWitnesses.LetGoNeverEnds | core/schedule.c:262-264 | a run in which a block that has started is superseded and never ends |
| ScheduleWitnesses.SurvivorLost | core/schedule.c:250-266 | a run after which a block that is active, keeps its control and has not ended is in no queue |
| ScheduleWitnesses.GivenUpLate | core/schedule.c:416-423 | a run after which a due block waits in the superseded queue behind one that is not |
| ScheduleTimely.InsertBlockPunctual | core/schedule.c:208-233 | an insertion keeps the queues in order of time |
| ScheduleTimely.InsertActivePunctual | core/schedule.c:249-273 | joining the active queue keeps it in order of effective ends |
| ScheduleTimely.PromoteTimely | core/schedule.c:408-415 | after the promotions no due block is left in the scheduled queue, and the time kept is no later than any end or start |
| ScheduleTimely.RearmTimely | core/schedule.c:425-430 | the next update is at the time found, pending if there is one, and at no other |
| ScheduleTimely.UpdateTimely | core/schedule.c:396-431 | an update leaves a timed update pending for the next start or end |
| ScheduleTimely.RebuildTimely | core/der.c:176-194 | a rebuild queues an immediate update |
| ScheduleTimely.StepTimely | core/der_client.c:164-183 | every step over plain events keeps the schedule timely |
| ScheduleTimely.RunTimely | core/der_client.c:164-183 | so does every run |
| ScheduleTimely.NothingMissed | core/schedule.c:396-431 | in every run over plain events, with no immediate update queued, an update is pending at or before the earliest end and start |
| ScheduleRounds.UpdateLess | core/schedule.c:396-431 | an update promotes, finishes or gives up a block, or it queues no other update that is due |
| ScheduleRounds.PollLess | core/der_client.c:164-171 | every round at a fixed time leaves less to do, whatever events it queues |
| ScheduleRounds.PollAll | core/der_client.c:164-171 | so the rounds at a fixed time end, with nothing ready |
| ScheduleTimely.PolledUpToDate | core/der_client.c:164-171 | after any run over plain events, polling until nothing is ready leaves no block in the active queue that is over, none in the scheduled queue that is due, and no event whose time has come |
| ScheduleSurvivors.KeptExactly | core/schedule.c:249-273 | an active block is kept if and only if the new one strikes neither it nor any block behind it, as told from the state before |
| ScheduleSurvivors.GivenUpExactly | core/schedule.c:416-423 | a superseded block stays if and only if it or one in front of it is not due |
| Scheduler.Scheduler.InsertEvent | core/event.c:59-64 | immediate events queue up, timed ones are sorted in, as specified |
| Scheduler.Scheduler.RemoveEvent | core/event.c:78-81 | both queues lose the events of the object and keep the others in order |
| Scheduler.Scheduler.NextEvent | core/event.c:85-103 | the oldest immediate event, else the first timed one that is due, else none |
| Scheduler.Scheduler.InsertSorted | core/list.c:175-182 | the loop puts a block where the specification puts it |
| Scheduler.Scheduler.BlockSupersede | core/schedule.c:158-166 | the masks and the answer of the specification |
| Scheduler.Scheduler.InsertBlock | core/schedule.c:208-233 | the loop takes the schedule to the specified one; `ScheduleIntervals.LostToRivals` and `ScheduleOutcomes.NeighboursFollow` tell whom it leaves alone |
| Scheduler.Scheduler.InsertActive | core/schedule.c:249-273 | the loop takes the schedule to the specified one, unlinking included |
| Scheduler.Scheduler.RemoveBlock | core/schedule.c:289-301 | the queue, end and events of the specification |
| Scheduler.Scheduler.Retire | core/schedule.c:303-313 | removal and final status, as specified |
| Scheduler.Scheduler.EventUpdate | core/schedule.c:324-342 | each status the server may report has its specified effect |
| Scheduler.Scheduler.ScheduleEvent | core/schedule.c:351-384 | the state of the specification for a new, a known and a finished event |
| Scheduler.Scheduler.ScheduleDer | core/der.c:157-197 | removed programs, cleared queues and rescheduled controls, as specified |
| Scheduler.Scheduler.UpdateSchedule | core/schedule.c:396-431 | the three loops and the timed update take the schedule to the specified one |
| Scheduler.Scheduler.Poll | core/der_client.c:164-171 | one round of the loop, none exactly when nothing is ready; `ScheduleDefaults.StepDevice` tells when it queues the default control |
| Scheduler.Scheduler.PollAll | core/der_client.c:164-183 | the loop ends and takes the schedule where all its rounds do, with nothing ready |
| Scheduler.Scheduler.Take | core/der_client.c:164-183 | any step of a run takes the object to the specified state and keeps the invariant of every run |
| WordRank.ParallelValue | core/hash.c:111-119 | the parallel sums of a word add up to its number of set bits |
| WordRank.BitRankCounts | core/hash.c:107-121 | for every word, the number of set bits below the position |
| SparseGroup.RankInside | core/hash.c:141 | the rank of an occupied position is an index of a stored element |
| SparseGroup.InsertChangesOne | core/hash.c:124-138 | an insertion at a clear position changes that position of the group only, and count, bitmap and elements still agree |
| SparseGroup.ReplaceChangesOne | core/hash.c:239 | so does storing at an occupied one |
| Probing.ProbeNext | core/hash.c:199 | the probe the loop computes is the next triangular one |
| Probing.ProbesDiffer | core/hash.c:180-201 | no two of the first `size` probes meet |
| Probing.EverySlotOnce | core/hash.c:180-201 | every slot is probed by exactly one of the first `size` probes |
| HashTable.KeysDistinct | core/hash.c:237-246 | no key is held twice |
| HashTable.Absent | core/hash.c:187-190 | an empty slot met before the key proves it absent |
| HashTable.EmptySlot | core/hash.c:206 | fewer elements than slots leave one empty |
| HashTable.SearchEnds | core/hash.c:181-201 | the search for any key ends within `size` probes |
| HashTable.Inserted | core/hash.c:243 | an insertion at the mark adds to the map and leaves every other key where its probes find it |
| HashTable.Replaced | core/hash.c:239 | a replacement changes the map at that key only |
| HashTable.HashTable.constructor | core/hash.c:203-216 | a new table is the empty map |
| HashTable.HashTable.Find | core/hash.c:181-201 | the slot of the key, or else the first empty slot of its probes, marked |
| HashTable.HashTable.Put | core/hash.c:237-246 | the map with the element under its key, for any hash function, below the load limit |
| HashTable.HashTable.Get | core/hash.c:258-261 | what the map holds under the key, and nothing exactly when it holds nothing |
| HashIterate.ElementsExactly | core/hash.c:152-165 | the stored elements, group after group, are those of the map, each key once |
| HashIterate.HashPointer.Next | core/hash.c:152-165 | the next element over empty groups, or none when all have been met |
| HashIterate.ForEach | core/hash.c:167-170 | iteration meets the stored elements in order, as many as the map has keys |
| TopSort.Graph.Build | core/schema_gen.c:160-173 | the edges are the dependencies, and the start list the types nothing depends on |
| TopSort.Graph.Delete | core/schema_gen.c:172 | the start list without that type |
| TopSort.Graph.InUse | core/schema_gen.c:187-190 | whether an edge still points to the type |
| TopSort.Graph.Visit | core/schema_gen.c:182-193 | with the edges of a type gone, exactly the types freed by it join those waiting |
| TopSort.Graph.Sort | core/schema_gen.c:175-196 | it ends, and lists every type once, each after all it depends on, if and only if there is no cycle |
| TopSort.AllListed | core/schema_gen.c:175-196 | without cycles nothing is left out |
| TopSort.ListedAcyclic | core/schema_gen.c:175-196 | a complete list in order rules out cycles |
| TopSort.SameOrder | core/schema_gen.c:160-196 | the list is in order for the edges if and only if it is for the dependencies, and likewise for cycles |
| TopSort.SortTypes | core/schema_gen.c:376-377 | the list holds every type once, each behind all it depends on, if and only if there is no cycle of dependencies |
| DnsName.AcceptedExactly | core/mdns.c:40-70 | a name is accepted if and only if the format spells it within the limit with no pointer straight to another |
| DnsName.SelfPointerRejected | core/mdns.c:62 | a pointer to itself spells nothing |
| DnsName.Next | core/mdns.c:44-67 | one round copies a label, follows a pointer, ends or refuses, and comes closer to the end |
| DnsName.CopyLabel | core/mdns.c:54-55 | the label follows the name so far |
| DnsName.Read | core/mdns.c:40-70 | it ends on every packet, cyclic pointers included, with the name spelled and a next position further on within the packet |
| DnsRecords.RecordAt | core/dnssd_client.c:101-107 | a record lies within the packet and takes at least 11 bytes |
| DnsRecords.ParseRecord | core/dnssd_client.c:101-107 | the fields, length and name of the record, or none when it does not fit |
| DnsRecords.SkipSection | core/dnssd_client.c:110-116 | the position behind that many records, each step forward |
| DnsRecords.SkipQuestions | core/dnssd_client.c:118-125 | the position behind that many questions, each step forward |
| DnsRecords.StrEq | core/dnssd_client.c:134 | equal exactly when the strings in front of the zero bytes are |
| DnsRecords.Find | core/dnssd_client.c:130-138 | the first record with the name and type, none exactly when the records run out before one |
| DnsFormat.NameRead | core/mdns.c:40-70 | a name laid out as labels and a zero or a pointer is read as its labels and what the pointer leads to, and the record goes on behind its last byte there |
| DnsFormat.RecordRead | core/dnssd_client.c:101-107 | a record laid out by section 4.1.3 of RFC 1035 is found with its name, type, length and data, and the next one behind it |
| DnsFormat.QuestionRead | core/dnssd_client.c:118-125 | a question laid out so is skipped with its type and class |
| Utf8.EncodedDecodes | core/utf8.c:29-50 | what is encoded decodes to the code point and ends where the encoding ends |
| Utf8.DecodedEncodes | core/utf8.c:52-72 | what is decoded from up to three bytes encodes to those bytes |
| Utf8.RoundTripExactly | core/utf8.c:52-72 | of all the code points the encoder takes, those up to 0xFFFF that are no surrogates come back, and no others |
| Utf8.DecodedExactly | core/utf8.c:29-50 | the decoder accepts exactly the encodings of section 4 of RFC 3629 of up to three bytes, with their code points, and those of four bytes whose third byte is below 0xA0 |
| Utf8.ReadChar | core/utf8.c:29-50 | the table-driven loop returns the character at the position and where it ends |
| XmlText.ReferenceRead | core/xml_token.c:75-88 | a reference written for a character reads as that character |
| XmlText.EscapedRead | core/xml_token.c:165-179 | an escaped string reads as the bytes of the string |
| XmlText.TextRead | core/xml_token.c:151-189 | escaped element text reads as the string without its leading white space, or as no text when nothing else is left |
| XmlText.TextRoundTrip | core/xml_token.c:151-189 | it comes back as it was if and only if it is not empty and does not begin with white space |
| XmlText.ReferenceKnown | core/xml_token.c:75-88 | behind an ampersand, `lt;`, `gt;`, `amp;`, `quot;` and `apos;` stand for their characters, wherever they are |
| XmlText.KnownOnly | core/xml_token.c:75-88 | no other name is known |
| XmlText.EscapesAs | core/xml_output.c:33-39 | the markup characters and the quotation mark go out as their entities, spelled out, all else as it is |
| XmlText.OtherRefused | core/xml_token.c:173-178 | a character that section 2.2 of XML 1.0 does not allow is refused |
| XmlBuffer.Lookup | core/xml_token.c:75-88 | which entity stands at the position and where it ends; `XmlText.ReferenceKnown` and `KnownOnly` spell them out |
| XmlBuffer.Reference | core/xml_token.c:167-171 | a reference is replaced in place, never writing past what was read |
| XmlBuffer.Character | core/xml_token.c:173-178 | a character is moved in place, never writing past what was read |
| XmlBuffer.TextState | core/xml_token.c:165-189 | the text is left in the buffer that was scanned, closed by a zero byte |
| XmlBuffer.Token | core/xml_token.c:151-189 | the same from the initial state, white space skipped |
| XmlBuffer.OutputEscaped | core/xml_output.c:23-44 | the whole escaped string and a zero byte if it fits, else an empty string; the bytes in front of the position are untouched; `XmlText.EscapesAs` spells the references out |
| XmlBuffer.WriteAndRead | core/xml_output.c:23-44 | a string written as element text and tokenized in the same buffer comes back without its leading white space |
| Bridge.TrackedExactly | gateway/bridge.py:44-80 | the record of written registers stays true if and only if an end reaches, or a default control rewrites, every tracked register that is not zero |
| Bridge.RunTracked | gateway/bridge.py:44-80 | after any safe run untracked registers are zero and tracked ones hold their value |
| Bridge.EndClearsAll | gateway/bridge.py:114-141 | an end after any safe run leaves every register at zero and nothing tracked |
| Bridge.CoveredRun | gateway/bridge.py:44-80 | over any events without failures in which each default control writes all that was written since the last end or default control, untracked registers are zero, tracked ones hold their value, and an end returns all to zero |
| Bridge.LeftBehind | gateway/bridge.py:72-77 | a default control that does so leaves a register set that no end clears |
| Bridge.TargetWins | gateway/bridge.py:89-103 | an absolute target wins over a fixed percentage |
| Bridge.FieldsWritten | gateway/bridge.py:86-112 | for distinct addresses, any control, any state and any failures: the registers are written in their order up to the first that fails, each with its own field, the target before the fixed value, 1 for true and 0 for false; all others are as they were |
| Bridge.DERBridge.WriteRegister | gateway/bridge.py:147-154 | a write that fails is raised and not recorded |
| Bridge.DERBridge.ApplyControl | gateway/bridge.py:86-112 | the fields present are written in order up to the first failure; `Bridge.FieldsWritten` tells which register holds what |
| Bridge.DERBridge.RelinquishAll | gateway/bridge.py:114-141 | every tracked register is cleared but those that fail, and nothing stays tracked |
| Bridge.DERBridge.Take | gateway/bridge.py:44-80 | any event has its specified effect and keeps the record true exactly when it is safe |

## Left out

- EXI header, and resuming in a new buffer when one is full: the writer is given a buffer that is large enough.
- Memory layout: objects are trees with the occurrences of each row as lists; offsets and flag words are not modelled, and presence is a number of occurrences. What the flag layout does to optional Booleans is part of the value codec.
- String tables: one sequence for each name instead of linked blocks that double. Strings are sequences of code points, and their UTF-8 length is counted where the code counts it. The inputs parsed are at most 16 MiB.
- Tables with empty types, rows that may never occur or Booleans that repeat are excluded by `WellFormed`, since the counts of `productions` do not fit them.
- ExiRoundTrip.DocumentRoundTrip: only for objects whose strings are ASCII, none of them under two names; after a string under a second name the two ends' tables differ, and whether later identifiers still agree is not stated.
- BitStream.BitWriter.OutputBits: only for words that fit in their bits, as those of all its callers do.
- The scheduler's responses to the server, resource polling and retrieval, printing, and the random offsets of new blocks, which are fields of an arriving event; the clock is a parameter of each step.
- Function sets other than DERControl: the mask of a block is always set from its control.
- A control listed twice in one rebuild, blocks that are deleted with their resource, and the order in which blocks of removed programs are visited, which is a parameter.
- Hash deletion, erasure and resizing, and with them slots whose element is gone; concrete hash functions, since any function will do.
- HashTable.HashTable.Put: only for tables below the load limit or keys already there, since at the limit the source resizes and goes on with a table its caller never sees.
- XSD parsing in front of the topological sort, and types that are named but not declared.
- DNS packet exchange, name encoding, and service and text records behind the walks.
- XML tags, attributes, comments and numeric references (outcome `Elsewhere`), resumption of tokens, and the element-matching driver. Characters the encoder does not take are the outcome `Broken`.
- The bridge's telemetry and logging, the protocol adapters, and control values that are no integers.
- Linked lists as chains of pointers: the queues are sequences that the methods reassign, so aliasing between queues is not modelled; what unlinking drops from the active queue is.
- Sockets, TLS, HTTP, the retrieval graph, generated tables, IPv6 text, SHA-256 and the Python configuration, which would add input and output or easy members only.
