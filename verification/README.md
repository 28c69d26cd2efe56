# The OpO C client in Dafny

A model, with proofs, of the two hard parts of the OpO C client: the wire codec (`src/opo/opo.c`,
`src/opo/builder.c`, `src/opo/val.c`) and the client's concurrent machinery (`src/opo/client.c`,
`src/opo/queue.c`). `dafny verify dfyconfig.toml` checks everything.

## Wire codec

A value is a tree (`Wire.Val`); `Wire.Encode` spells its bytes. Everything that writes or reads bytes is a
method over an array or a byte sequence and is proved against that one function:

| file | contents |
|---|---|
| `Bytes.dfy`, `Wire.dfy` | big-endian numbers, tags, `Encode`, `BSize`, self-delimitation, uniqueness |
| `Uuid.dfy`, `Times.dfy`, `Fill.dfy` | `detect_uuid`, `fill_uuid`, `time_parse` and the scalar writers |
| `Ojc.dfy`, `Messages.dfy` | `wire_size`, `wire_fill`, `opo_ojc_to_msg`, `opo_val_to_ojc` and the round trip |
| `Decoder.dfy`, `DecoderCorrect.dfy`, `DecoderExact.dfy` | the stack decoder as a machine over tokens, and exactly which values it rebuilds |
| `Zipper.dfy`, `Builder.dfy`, `BuilderRuns.dfy` | the builder: a zipper of open containers, the class over the buffer, whole runs with their storage, a driver |
| `Reader.dfy`, `Paths.dfy`, `Iteration.dfy`, `IterationRuns.dfy` | integers, keys, members, `opo_val_get`, `val_iterate` with its refusals and errors |

Lengths and casts truncate in the model as they do in C (`BE(n, k)` keeps the low k bytes), so the encoders are
proved to write `Encode` for every input, well formed or not; `Wf` (keys up to 65535 bytes, contents under 4 GiB,
numbers in range) is what a reader may be given.

## Client machinery

| file | contents |
|---|---|
| `Framing.dfy` | `recv_loop`'s buffer logic as a class over a 4096 byte array |
| `Queue.dfy`, `QueueRuns.dfy`, `QueueLive.dfy` | `queue_push`/`queue_pop` as atomic steps of one pusher and any number of poppers |
| `Pending.dfy`, `PendingRuns.dfy` | the pending ring as atomic steps of any number of querying threads, one receiver and any number of processing threads; its invariant; whole runs |
| `PendingLive.dfy`, `PendingThreads.dfy` | runs that exist: when another query can be taken, and what two processing threads can do |
| `PendingRing.dfy`, `LostMessages.dfy` | the ring's operations as methods of a class: gap handling and unexpected responses; the lost message built |

In the two transition systems a step is one access to memory that another thread may be writing: a state, an id being
searched for, a shared pointer, a lock. Fields of a slot that only the stepping thread may touch at that moment are
read or written together with it where "Left out" says so. Threads interleave freely and a thread's
place in its function is part of the state. Memory is sequentially consistent, as the default C atomics give. A wait
loop is a step that may repeat; a timeout is a step that gives up. `Run` is defined for every list of steps, so a lemma
about it holds for every interleaving.

## Where the code does not do what it is meant to

The code is modelled as it is. Each of these is a proved statement, with the exact condition where there is one.

- `opo_val_to_ojc` pops at most one finished container per token. It rebuilds a value iff it is at most 512 deep and
  every member that has a successor ends in few enough containers (`DecoderExact.DecodesExactly`); `[[[1]],2]` comes
  back as `[[[1],2]]` (`Messages.SinglePopCounterexample`); popping in a loop would be right
  (`DecoderExact.PopAllDecodes`).
- The builder's depth guard accepts a 513th open container while the offset stack has 512 entries
  (`BuilderRuns.StackOverrun`); a run keeps inside the stack iff it never has more than 512 open
  (`BuilderRuns.StackExactly`).
- `opo_builder_push_array` reserves no room. From any capacity and over any calls, the builder stays inside its storage
  iff every accepted push_array finds five bytes after its key (`BuilderRuns.WithinExactly`); with `builder_assure` there
  it always would (`BuilderRuns.AssuredWithin`). In a default buffer of 1024 bytes 203 nested arrays fit and 204 do not
  (`BuilderRuns.ArrayOverrun`).
- `builder_assure` loses the message of a buffer it was lent as soon as it grows it (`BuilderRuns.AssureKeepsMessage`);
  each push says what it leaves in that case.
- Keys over 65535 bytes: `wire_size` counts two bytes more than `wire_fill` writes (`Ojcs.WireSize`) and the key's
  length does not read back (`Wire.KeyDelimits`).
- `opo_val_key` finds only keys of up to 255 bytes (`Readers.OpoValKeyShortOnly`) and takes some strings for keys
  (`Readers.OpoValKeyOnString`).
- A timestamp before 1970 is encoded as its instant (`Times.TimestampMeans`) and shown as another (`Times.BeforeEpoch`).
- doc/index.html:986 promises that any callback's false answer ends the iteration. The answers of the UUID and time
  callbacks are dropped, so it does iff the first refusal is not one of theirs or comes last
  (`IterationRuns.EndsAtRefusal`); a refused UUID can be followed by another event (`IterationRuns.UuidRefusalIgnored`).
- An error does not stop the iteration at once. What follows the first one is exactly the first token of a container just
  begun and then the ends of the open containers (`IterationRuns.AfterError`, `IterationRuns.LeftIs`), so no event
  follows iff the callback refused or none of those tokens has a callback (`IterationRuns.ErrorEndsEvents`); two inputs
  are in `IterationRuns.ErrorRunsOn`.
- A last message of fewer than 13 bytes stays in the receive buffer (`Frames.StreamCut`): one whose value is null, a
  boolean, an integer of 16 bits, a string of at most one byte or a decimal of at most two (`Frames.LastHeld`,
  `Frames.ShortValues`).
- `queue_count` is one too high and 0 for a full queue (`QueueRuns.Observers`).
- `opo_client_ready_count` is the number of READY responses iff they do not fill the ring and no skipped query without a
  callback is among them (`PendingRuns.ReadyExactly`); `opo_client_pending_count` is right iff the waiting queries do not
  fill the ring (`PendingRuns.PendingExactly`).
- doc/index.html:717 calls `opo_client_process` safe for several threads and doc/index.html:742 promises callbacks in
  sending order. For every ring size, queries are served once each and in order in all runs iff there is at most one
  processing thread (`PendingThreads.OneProcessingThread`); with two, one answer can reach its callback twice
  (`PendingThreads.TwoThreadsClash`).
- A query without a callback whose response is skipped is never handed back, and nothing behind it is processed any
  more (`PendingRuns.StuckForever`); in a ring of two or more this is reached with two queries and one response
  (`PendingLive.StuckReached`), and it is the only way the ring can block for good (`PendingLive.TakesIff`).
- A lost message carries the id of the response that revealed the loss, not that of the lost query
  (`PendingInv.VerdictMeans`).
- With nothing pending, a repeated response to a query not yet handed back moves `on_deck` or fills the wrong slot;
  every other unexpected response is dropped without effect (`PendingRing.Ring.ProcessMsg`).

## Model

| member | source | states |
|---|---|---|
| Bytes.FromBEInvertsBE | src/opo/val.c:10-44 | reading k big-endian bytes gives back every number below 256^k |
| Bytes.BEInvertsFromBE | src/opo/opo.c:206-233 | writing the number that k bytes spell gives back those bytes |
| Bytes.SignedRoundTrip | src/opo/val.c:505-543 | the casts to unsigned and back keep every integer that fits k bytes |
| Bytes.FillUint16 | src/opo/builder.c:16-21 | writes the low two bytes of n, most significant first, and touches nothing else |
| Bytes.FillUint32 | src/opo/builder.c:23-30 | the same for four bytes |
| Bytes.FillUint64 | src/opo/builder.c:32-43 | the same for eight bytes |
| Bytes.ReadUint | src/opo/val.c:10-44 | the loop computes the number its bytes spell |
| Wire.KeyDelimits | src/opo/opo.c:254-268 | the size read off an encoded key is its length iff the key has at most 65535 bytes |
| Wire.SelfDelimiting | src/opo/val.c:46-104 | opo_val_bsize of an encoding followed by anything is its length |
| Wire.ReadKeyInverts | src/opo/val.c:405-427 | an encoded key reads back, whatever surrounds it |
| Wire.ReadScalarInverts | src/opo/opo.c:547-670 | every encoded scalar reads back with its kind, value and extent |
| Wire.EncodeUnique | src/opo/opo.c:367-472 | no encoding is a prefix of another and an encoding determines its value |
| Wire.IntBytes | src/opo/opo.c:401-418 | the literal bytes of an integer of each width, with its tag |
| Wire.ScalarBytes | src/opo/opo.c:370-434 | the literal bytes of null, true, false and a decimal |
| Wire.WideBytes | src/opo/opo.c:384-389 | the literal bytes of a UUID and a time |
| Wire.TextBytes | src/opo/opo.c:235-268 | the literal headers of the three string forms and the two key forms |
| Wire.ContainerBytes | src/opo/opo.c:435-461 | the literal bytes of an object, an array and an empty array |
| Uuids.DetectUuid | src/opo/opo.c:28-53 | the character map accepts exactly 36 characters of lower-case hex in groups of 8-4-4-4-12 |
| Uuids.FillUuid | src/opo/opo.c:270-295 | writes the tag and the 16 bytes of the hex digits, skipping the dashes, and nothing else |
| Uuids.TextRoundTrip | src/opo/opo.c:634-650 | every accepted text prints back to itself from the pair it parses to |
| Uuids.PairRoundTrip | src/opo/val.c:643-663 | every pair of 64 bit numbers prints to an accepted text that parses back to it |
| Uuids.Sample | src/opo/val.c:643-663 | the text of one pair, letter by letter |
| Uuids.FillLength | src/opo/opo.c:270-295 | an accepted text fills exactly 17 bytes |
| Times.ReadNum | src/opo/opo.c:55-69 | succeeds iff all characters are digits, with the number they spell |
| Times.TimeParse | src/opo/opo.c:71-136 | the instant of a well-formed timestamp, and the no-time mark for any other text |
| Times.TimestampMeans | src/opo/opo.c:71-136 | every timestamp with printable fields is taken for the instant it shows, before 1970 too, where 64 signed bits hold it; the one at -1 for plain text |
| Times.Sample | src/opo/opo.c:664-667 | the text of one time, letter by letter |
| Times.TimeRoundTrip | src/opo/opo.c:651-670 | a canonical timestamp from 1970 on prints back to itself |
| Times.BeforeEpoch | src/opo/opo.c:651-670 | a stored instant before 1970 is shown as the one 2^64 nanoseconds later |
| Fill.FillStr | src/opo/opo.c:235-252 | writes the string's encoding with the narrowest length form, and nothing else |
| Fill.FillKey | src/opo/opo.c:254-268 | writes the key's encoding, with its truncated length when too long, and nothing else |
| Fill.FillInt | src/opo/opo.c:401-418 | writes the integer's encoding in the narrowest of four widths |
| Fill.UuidBytes | src/opo/builder.c:80-105 | what fill_uuid writes from a text with 32 or 33 hex digits is the encoding of the pair they spell |
| Readers.IntReadsBack | src/opo/val.c:505-543 | every 64 bit integer reads back through its sign extension, and no narrower of the widths would fit it |
| Ojcs.WireSize | src/opo/opo.c:297-365 | the computed size is the encoded length, plus 2 for each key over 65535 bytes |
| Ojcs.WireFill | src/opo/opo.c:367-472 | writes exactly the encoding of the classified value, container lengths back-patched, nothing else touched |
| Ojcs.Backpatch | src/opo/opo.c:435-461 | a container header written first and its length filled in last give the container's encoding |
| Ojcs.TextClass | src/opo/opo.c:379-393 | a text is encoded as a UUID, else as a time, else as itself |
| Ojcs.FillString | src/opo/opo.c:379-393 | UUID texts become 17 bytes, timestamps 9, any other text a string |
| Ojcs.TimestampTravels | src/opo/opo.c:386-388 | such a timestamp is encoded as the tag and the eight bytes of its instant |
| Ojcs.LeafBytes | src/opo/opo.c:367-434 | null, booleans, small integers, doubles, numbers and words have these bytes; a number or word is never taken for a UUID or a time |
| Ojcs.Normalised | src/opo/opo.c:547-670 | encoding then showing a value changes it only by the stated normalisation of its leaves |
| Messages.FillMsg | src/opo/opo.c:503-507 | a zero id, then the encoding |
| Messages.OjcToMsg | src/opo/opo.c:509-524 | the allocated message is exactly as long as what is filled, but for overlong keys |
| DecoderCorrect.FeedValue | src/opo/opo.c:474-711 | from any settled stack, the tokens of a placeable value add exactly that value |
| DecoderCorrect.FeedRoot | src/opo/opo.c:533-713 | the decoder rebuilds every value within its limits |
| DecoderExact.DecodesExactly | src/opo/opo.c:533-713 | it rebuilds the value iff depth is at most 512 and no member is followed with too few pops |
| DecoderExact.MisfiledIsHeavier | src/opo/opo.c:544-546 | otherwise whatever it returns has strictly larger total depth, so it is a different value |
| DecoderExact.PopAllDecodes | src/opo/opo.c:544-546 | with a loop in place of the single pop, every value up to the depth limit is rebuilt |
| Messages.ShownExactly | src/opo/opo.c:533-713 | the same iff for the OjC value the caller sees |
| Messages.ValToOjc | src/opo/opo.c:533-713 | the method over bytes returns the decoded value iff the value is within the limits |
| Messages.MsgToOjc | src/opo/opo.c:528-531 | the same for a message with its id |
| Messages.RoundTripsExactly | src/opo/opo.c:495-713 | encoding and decoding an OjC value gives its normal form iff it is within the limits |
| Messages.SinglePopCounterexample | src/opo/opo.c:544-546 | [[[1]],2] decodes as [[[1],2]] |
| Zippers.ApplyOk | src/opo/builder.c:224-296 | every call, accepted or refused, leaves keys and names where they belong and the depth in bounds |
| Zippers.Refusals | src/opo/builder.c:224-246 | which refusal gives which code |
| Zippers.FinishClosed | src/opo/builder.c:187-196 | finishing closes all containers; nothing pushed means no root |
| Zippers.SpreadAdd | src/opo/builder.c:298-441 | an accepted value appends its key and encoding to the half-written buffer |
| Zippers.SpreadOpen | src/opo/builder.c:248-283 | an accepted container appends its key, tag and an open length, at the offset put on the stack |
| Zippers.SpreadClose | src/opo/builder.c:285-296 | filling one open length turns the top container into a member of its parent |
| Zippers.ScriptBuilds | src/opo/builder.c:248-441 | the calls for a value that fits the 512 stack entries, spliced anywhere, are accepted, find an entry each, and add exactly that value |
| Zippers.DrivenBuilderEncodes | src/opo/builder.c:187-441 | the same from a fresh builder: it finishes as a zero id and the encoding; what this needs of the storage is in BuilderRuns.EncodersAgree |
| Builders.Builder.constructor | src/opo/builder.c:157-178 | starts empty with storage of its own, at least the minimum size |
| Builders.Builder.Given | src/opo/builder.c:157-178 | starts empty in the caller's buffer |
| Builders.Builder.Assure | src/opo/builder.c:107-125 | always leaves room for size bytes, with the stated capacity; the bytes before cur are kept if the buffer is owned or was not grown |
| Builders.Builder.PutKey | src/opo/builder.c:147-155 | appends the key after growing the buffer for it |
| Builders.Builder.CheckAndPushKey | src/opo/builder.c:224-246 | the key check's three outcomes; a refusal changes nothing, acceptance appends the key |
| Builders.Builder.PushNull | src/opo/builder.c:298-304 | cur and capacity move as stated; the new state is the zipper's unless a lent buffer had to grow, or nothing changed and the code says why |
| Builders.Builder.PushBool | src/opo/builder.c:306-312 | the same for a boolean |
| Builders.Builder.PushInt | src/opo/builder.c:314-345 | the same for an integer |
| Builders.Builder.PushDouble | src/opo/builder.c:347-369 | the same for a decimal's text |
| Builders.Builder.PushString | src/opo/builder.c:371-383 | the same for a string |
| Builders.Builder.PushUuid | src/opo/builder.c:385-398 | the same for a UUID pair |
| Builders.Builder.PushUuidString | src/opo/builder.c:400-411 | of any 36 characters but 36 hex digits: what is written, and that it is the UUID's encoding when 32 or 33 are hex digits |
| Builders.Builder.PushTime | src/opo/builder.c:413-425 | the same for a time |
| Builders.Builder.PushVal | src/opo/builder.c:427-441 | the same for an encoded value copied in whole, its length read off its first bytes |
| Builders.Builder.PushObject | src/opo/builder.c:248-266 | the same for an opened object, whose offset goes into a free entry of the 512 |
| Builders.Builder.PushArray | src/opo/builder.c:268-283 | the same for an opened array, given five bytes after its key |
| Builders.Builder.Pop | src/opo/builder.c:285-296 | closes the top container in place, or refuses with nothing open |
| Builders.Builder.FinishAll | src/opo/builder.c:187-196 | the buffer holds the finished message and nothing is open |
| Builders.Builder.Take | src/opo/builder.c:203-222 | hands over the whole message: the buffer itself when owned, even empty, else a copy of exactly its length |
| Builders.Builder.TakeFinished | src/opo/builder.c:208-221 | the same with nothing left to close and whatever id has been set |
| BuilderRuns.AnyRunFinishes | src/opo/builder.c:187-222 | any calls that stay in memory finish, inside the storage, as an empty message or the encoding of one well-formed value whose length opo_msg_bsize reads |
| BuilderRuns.WithinExactly | src/opo/builder.c:107-441 | from any capacity and over any calls, cur stays inside the storage after every call iff every accepted push_array found five bytes after its key |
| BuilderRuns.AssuredWithin | src/opo/builder.c:268-283 | with builder_assure in push_array the storage always suffices |
| BuilderRuns.StackExactly | src/opo/builder.c:250-257 | every call that opens a container finds a stack entry iff never more than 512 are open |
| BuilderRuns.EncodersAgree | src/opo/builder.c:248-441 | from any owned storage in which every push_array finds room, driving the builder over an OjC value, with any subtrees spliced in, stays in memory and gives opo_ojc_to_msg's bytes |
| BuilderRuns.AssuredEncodersAgree | src/opo/builder.c:248-441 | with builder_assure in push_array the same from any storage |
| BuilderRuns.StackSlotInside | src/opo/builder.c:250-251 | an accepted container's offset lies inside the 512-entry stack iff fewer than 512 are open |
| BuilderRuns.StackOverrun | src/opo/builder.c:268-272 | 512 open containers accept one more, 513 do not |
| BuilderRuns.ArrayOverrun | src/opo/builder.c:268-283 | n nested arrays stay inside a 1024 byte buffer iff n is at most 203, though all are accepted |
| BuilderRuns.AssureKeepsMessage | src/opo/builder.c:107-125 | the message survives whatever malloc returns iff the buffer is owned or roomy enough |
| BuilderRuns.Drive | src/opo/builder.c:248-441 | pushing a value call by call leaves the builder holding it, with the capacity the run says |
| BuilderRuns.BuildOjc | src/opo/builder.c:157-441 | init, the pushes of an OjC value and take give a zero id and the encoding |
| BuilderRuns.BothEncoders | src/opo/opo.c:509-524 | the builder and opo_ojc_to_msg produce the same bytes |
| Readers.ValInt | src/opo/val.c:505-543 | the integer at p, or the type error for any other tag |
| Readers.MsgSetId | src/opo/val.c:753-772 | writes the id that opo_msg_id reads and leaves the value alone |
| Readers.OpoValKeyShortOnly | src/opo/val.c:610-640 | opo_val_key finds a key iff it has at most 255 bytes |
| Readers.OpoValKeyOnString | src/opo/val.c:626-635 | it takes a string of 256 to 65535 bytes for a key |
| Readers.MemberStep | src/opo/val.c:708-711 | at member i a walker meets its key, then its value, and steps exactly to member i + 1 |
| Readers.Walk | src/opo/val.c:694-711 | stepping from opo_val_members stops at each key and value in order and ends on the container's end |
| Readers.MemberCount | src/opo/val.c:713-746 | the number of members, or the type error for a scalar |
| Paths.FirstKey | src/opo/val.c:443-460 | the first member with the key, and none iff there is none |
| Paths.GetMember | src/opo/val.c:443-460 | the object loop returns the value after the first matching key |
| Paths.GetElement | src/opo/val.c:461-480 | the array loop returns the element with the index, counted over whole values |
| Paths.SelectsElement | src/opo/val.c:461-480 | the segment that spells n, with blanks or a plus before it, selects element n and nothing of a shorter array |
| Paths.MinusSelectsNothing | src/opo/val.c:461-480 | with a minus only zero selects an element |
| Paths.OthersSelectNothing | src/opo/val.c:463-467 | a segment that is no numeral selects nothing of an array, but the empty one, which selects the first element |
| Paths.SegmentsAt | src/opo/val.c:434-439 | a path is cut at its dots and nowhere else |
| Paths.Get | src/opo/val.c:429-485 | returns where the path's segments lead from the value, and NULL iff they lead nowhere |
| Paths.ElementFound | src/opo/val.c:461-480 | a path of one numeral leads to that element, and to nothing beyond the last |
| Paths.TenFound | src/opo/val.c:461-480 | "10" leads to element 10 |
| Paths.FoundIsThere | src/opo/val.c:429-485 | the returned offset holds the encoding of the selected value |
| Iteration.ValIterate | src/opo/val.c:182-396 | the loop over bytes computes the recursion over members, from either kind of end position |
| Iteration.VisitScalar | src/opo/val.c:188-355 | each scalar tag: what is read, which callback is called with it, and that the answers of four are dropped |
| Iteration.OpoValIterate | src/opo/val.c:398-403 | a whole value is iterated once |
| Iteration.PiecesRun | src/opo/val.c:182-396 | meeting keys and values one by one is the same as going through the members |
| IterationRuns.IterDelivers | src/opo/val.c:182-396 | without errors the events are the depth-first tokens filtered to the installed callbacks, delivered up to the first refusal |
| IterationRuns.DeliverPrefix | src/opo/val.c:390-392 | that is a prefix cut right after the first refusing event, whole iff none refuses |
| IterationRuns.AllDelivered | src/opo/val.c:182-403 | with callbacks that all continue, exactly the filtered sequence |
| IterationRuns.ScalarTrace | src/opo/val.c:188-355 | the event of each kind of scalar, slot and payload, for every set of installed callbacks, raw before text |
| IterationRuns.UnprintableTime | src/opo/val.c:343-346 | a time gmtime_r refuses sets the error and raises no event |
| IterationRuns.ObjectEvents | src/opo/val.c:356-385 | begin, key, the member's events and end, each where its callback is installed |
| IterationRuns.EndsAtRefusal | src/opo/val.c:307-352 | the events end right after the first refusal of any callback iff that is no UUID's or time's or is the last event |
| IterationRuns.UuidRefusalIgnored | src/opo/val.c:310 | a refused UUID is followed by the next event |
| IterationRuns.RefusalStops | src/opo/val.c:188-392 | which callbacks end the iteration by answering false, and which four do not |
| IterationRuns.IterObeys | src/opo/val.c:354-393 | whatever errors are set, no event follows one whose callback answered false |
| IterationRuns.IterFlows | src/opo/val.c:182-396 | whatever errors are set or taken back, iterating is one pass over the tokens that leaves out the rest of a container after an error |
| IterationRuns.LeftIs | src/opo/val.c:356-392 | after an error are met the first token of a container just begun and then the ends of the open containers |
| IterationRuns.AfterError | src/opo/val.c:356-392 | when no callback takes the error back, exactly those tokens follow, up to a refusal |
| IterationRuns.ErrorEndsEvents | src/opo/val.c:390-392 | no event follows the first error iff its callback refused or none of those tokens has a callback |
| IterationRuns.ErrorRunsOn | src/opo/val.c:371-392 | errors set by begin_array and by a member, and the events that still follow |
| Frames.CutKeepsBytes | src/opo/client.c:290-323 | cut messages and the rest are all the bytes, and the rest holds no whole message |
| Frames.CutAppend | src/opo/client.c:290-347 | cutting early and continuing with what was held is cutting everything at once |
| Frames.StreamCut | src/opo/client.c:290-323 | of a stream of messages all are cut, except a last one under 13 bytes |
| Frames.AllDelivered | src/opo/client.c:290-323 | all are delivered iff the last has 13 bytes or more |
| Frames.LastHeld | src/opo/client.c:290-323 | the last message is held iff its value takes at most 4 bytes |
| Frames.LoneMessage | src/opo/client.c:290-323 | a message on its own is delivered iff its value takes at least 5 bytes |
| Frames.ShortValues | src/opo/client.c:292 | which values take at least 5 bytes, kind by kind |
| Frames.EmptyArrayDelivered | src/opo/client.c:292 | the 13 bytes of an empty array's reply are delivered at once |
| Frames.NullMessageHeld | src/opo/client.c:292 | a lone null message is never delivered |
| Framing.Receiver.ReadBuffer | src/opo/client.c:279-324 | after a read into buf, deliveries and held bytes are the cutting of everything received, under 13 bytes in buf |
| Framing.Receiver.ReadMessage | src/opo/client.c:325-348 | the same after a read into a message begun earlier |
| Framing.Receiver.RecvLoop | src/opo/client.c:248-349 | for every way of cutting the stream into reads, delivered and held are its cutting, and enough reads take it all |
| Rings.IxDistinct | src/opo/queue.c:62-66 | pointers meet iff they are equal or a turn apart |
| Queues.StepInv | src/opo/queue.c:55-109 | every atomic step of every thread keeps: slots between head and tail hold what is pushed and not popped, free slots and *head are NULL, one popper past the lock, results in order |
| Queues.InitInv | src/opo/queue.c:24-40 | the initialised queue satisfies it, with at least four slots |
| QueueRuns.StepIsFifo | src/opo/queue.c:55-109 | each step appends one item, takes the first, or leaves the queue alone; at most qsize - 1 items |
| QueueRuns.StepTests | src/opo/queue.c:57-105 | the pusher waits iff the queue is full, a popper iff it is empty, only NULL slots are written, the early return is never taken |
| QueueRuns.EveryRun | src/opo/queue.c:55-109 | in every interleaving the poppers return the pushed items in order, each once, at most one popped item still under way |
| QueueLive.NextToAny | src/opo/queue.c:74-109 | at any moment some run gives the next item to thread i, for every i, unless another thread is already committed to it |
| QueueLive.EveryThreadServed | src/opo/queue.c:74-109 | in any case some run returns an item to thread i |
| QueueLive.PushesIff | src/opo/queue.c:55-72 | some run makes the queue accept another item iff there is room or a popper |
| QueueLive.Capacity | src/opo/queue.c:24-60 | from queue_init exactly max(qsize, 4) - 1 items can be pushed without a pop, and the pusher waits iff that many are in |
| QueueRuns.Observers | src/opo/queue.c:112-158 | queue_empty iff nothing waits and nothing is being taken; queue_count is one high, 0 when full |
| PendingInv.StepInv | src/opo/client.c:125-567 | every atomic step of every thread keeps the ring's invariant, with one processing thread and responses in sending order |
| PendingInv.InitInv | src/opo/client.c:424-446 | the initialised client satisfies it |
| PendingInv.AskInv | src/opo/client.c:507-547 | the part of it for querying threads |
| PendingInv.RecvInv | src/opo/client.c:180-246 | the part of it for the receiver: scanning, passing over, marking |
| PendingInv.ProcInv | src/opo/client.c:125-157 | the part of it for the processing thread |
| PendingInv.VerdictMeans | src/opo/client.c:212-245 | a query is answered by its own response, or by a lost message stamped with the next answered id |
| PendingInv.ScanStep | src/opo/client.c:180-200 | short of the slot sought, pending_find neither wraps twice nor meets tail, though tail moves meanwhile |
| PendingRuns.EveryRun | src/opo/client.c:125-567 | in every run callbacks see queries 1, 2, 3, ... in sending order, each once, each with its verdict, and no response is dropped |
| PendingRuns.Partition | src/opo/client.c:125-567 | at any moment the ring is cut into held, READY or skipped, SENT and CLEAR slots, at most pending_max in all |
| PendingRuns.OneWriter | src/opo/client.c:125-567 | each slot has one role that may write it, and none is refilled before it is handed back |
| PendingRuns.StepTests | src/opo/client.c:511-527 | a query finds room iff fewer than pending_max are unfinished, and otherwise waits or is refused; a take succeeds iff the oldest is decided and was not skipped, and otherwise waits or gives up |
| PendingRuns.StuckForever | src/opo/client.c:213-233 | behind a skipped query without a callback nothing is ever taken again |
| PendingRuns.Observers | src/opo/client.c:588-596 | the two counts are the lengths of the undecided and the decided range, a full turn reading as 0 |
| PendingRuns.ReadyExactly | src/opo/client.c:593-596 | ready_count is the number of READY slots iff they are not a full turn and no query among them was skipped without a callback |
| PendingRuns.PendingExactly | src/opo/client.c:588-591 | pending_count is the number of SENT queries waiting iff they are not a full turn |
| PendingLive.TakesIff | src/opo/client.c:125-567 | from any moment with a processing thread some continuation takes another query iff the ring is not stuck and a query is written or a thread can send one |
| PendingLive.AskThrough | src/opo/client.c:507-547 | with the lock free and room any querying thread can send a query |
| PendingLive.StuckReached | src/opo/client.c:213-233 | a run into the stuck state: two queries, the first without a callback, and the second's response |
| PendingThreads.TwoThreadsClash | src/opo/client.c:148-154 | in a ring of any size two processing threads can run the callback of query 1 twice |
| PendingThreads.OneProcessingThread | src/opo/client.c:551-567 | for every ring size: exactly once and in order in all runs iff there is at most one processing thread |
| PendingRing.Ring.constructor | src/opo/client.c:424-442 | at least one slot, all clear |
| PendingRing.Ring.Query | src/opo/client.c:507-547 | the next id iff the ring is not full; only the slot at tail changes |
| PendingRing.Ring.TakeNextReady | src/opo/client.c:125-157 | the oldest slot iff it is READY, which becomes TAKEN; nothing else changes |
| PendingRing.Ring.Release | src/opo/client.c:563-566 | the taken slot becomes free; nothing else changes |
| PendingRing.Ring.PendingFind | src/opo/client.c:180-200 | the first slot with the id among the pending ones, or in the whole ring when there are none |
| PendingRing.Ring.PassOver | src/opo/client.c:213-234 | exactly the slots up to the one found get a lost message and READY, those without a callback stay |
| PendingRing.Ring.ProcessMsg | src/opo/client.c:202-246 | a pending query's response is delivered, those before it passed over, nothing else changes; any other response is dropped without effect iff it is no stray |
| LostMessages.LostMessage | src/opo/client.c:214-226 | the calls on the 1024 byte buffer, the id and take give exactly the lost message |
| LostMessages.LostBytes | src/opo/client.c:219-222 | the literal bytes of the lost message's value |

## Left out

- Sockets, polling, pipes, connecting, closing and sleeping: a read is a chunk, a timeout a step that gives up.
- The counter that throttles asynchronous queries, and status callbacks.
- Floating point: a decimal is its text of at most 255 bytes, 63 from the builder.
- Calendar arithmetic: `timegm` and `gmtime_r` are functions the model is given (`Times.Calendar`).
- The OjC library: a tree with ordered, possibly repeated keys stands for `ojcVal`; other OjC types are left out.
- Allocation failure, malformed input bytes, error message texts, `opo_val_type`, `opo_val_size` and `opo_val_bool`.
- C `int` offsets, key lengths and string lengths of 2 GiB and more, which the C code would cut off.
- Lengths of -1 that mean `strlen`: keys and strings come with their length.
- Steps that touch more than one field: `head++` and `on_deck++` with their wrap, which only the lock's holder or the receiver reads; the callback's reading of three fields of the slot the thread has taken; the test of a skipped query's `cb` with the store of its lost message. `tail++` is two steps.
- QueueRuns.Observers: the several reads of `queue_empty` and `queue_count` are one snapshot.
- Weak memory orders: the atomics use the default order, and plain fields of a slot are ordered by its state.
- Builders.Builder.PushObject: requires a free stack entry, which the code checks one too late (BuilderRuns.StackExactly).
- Builders.Builder.PushArray: requires a free stack entry and five bytes after the key, which the code does not check (BuilderRuns.WithinExactly).
- Builders.Builder.PushUuidString: requires 36 characters, as the documentation does, and not 36 hex digits, for which fill_uuid can write one byte past what was assured.
- Builders.Builder.Take: on a lent buffer a message must have been pushed and be one the format can carry, as the copied length is read from it.
- Messages.ValToOjc: the part of a tree that the code returns beside an error is not modelled; the result is then None.
- PendingRing.Ring.TakeNextReady: one slot at a time, as one processing thread takes them (for more see PendingThreads.OneProcessingThread).
- PendingInv.StepInv: responses come at most once each, in the order of the queries, from one server, and one thread processes them; other responses are covered for a quiet ring by PendingRing.Ring.ProcessMsg, more threads by PendingThreads.OneProcessingThread.
