# Device cloud library: a verified model

This project models the stateful core of a C client library for a device cloud and proves
what that core is for. The default build is modelled: the JSMN back end, threads on, heap
allocation, 64-bit words.

| files | component |
|---|---|
| `JsonText`, `JsonTree`, `JsonLayout` | escaping, integers, JSON trees, their serialisation, a parser for it, and the layout written down a second time |
| `EncoderStack`, `EncoderText`, `EncoderWord`, `Encoder`, `EncoderDocument` | the streaming JSON encoder: a stack of frames, its text, its packed machine word, the class that keeps both in a growing buffer, and what whole runs of calls print |
| `RequestPool`, `ActionRuns` | the action request pool and wait queue; all interleavings of clients and workers |
| `ActionGate` | the parameter checks around an action |
| `Crc32Table`, `Crc32`, `Crc32Burst`, `Crc32Values` | CRC-32: the table, the loop against the bitwise definition, burst errors, check value and residue |
| `Base64`, `Base64Laws`, `Base64Alphabet` | Base64, its use in place, and its alphabet written out |
| `Names`, `Options`, `Alarms` | name comparison, the sorted option list, the sorted alarm registry |
| `Preorder`, `SchemaKeywords`, `SchemaItems`, `JsonTokens` | trees laid out in preorder in one array: schema items, with the checks of their keywords, and parsed tokens |

The encoder is proved in layers. A state is a stack of open containers with their finished
items, and each call is a function on states. `JsonEncoder.Encoder` refines it: its `Valid`
says that the buffer holds the rendering of the state, that the word is the packed stack, and
that the recorded length covers every closing bracket. `EncoderDocument` then relates runs of
calls to trees, by a parser written independently of the serialiser. All three layouts
(compact, spaced, indented by up to 30) are covered.

The pool's methods are proved against functions on a `Pool`; `ActionRuns` lets any number of
clients and workers take those functions as steps, one critical section at a time, and proves
its invariants over every legal sequence of steps.

Where the code does not do what it is for, the exact condition is proved:

- `JsonText.SplitCopyNeverEnds`, `JsonText.CopyEnds`: the escaping copy loops for ever exactly
  when its limit cuts an escape in two. The encoder never asks for that.
- `JsonText.AcceptsIntegers`, `JsonText.AcceptsOthers`: a minus alone, an empty token and
  numbers with leading zeros are read as integers.
- `Options.SetKeepsSorted`: clearing an absent option leaves an entry without a name.
- `Options.SetSucceeds`: clearing never reports success; the status is overwritten
  (src/api/iot_option.c:377). `Options.SetIsUpdate`: a setting that runs out of memory drops
  the value the name had.
- `ActionGate.KnownAreInputs`, `ActionGate.RequiredOutputIsAccepted`: an input is refused as
  output only when its registered type is exactly the output flag, so a parameter registered
  only as a required output is accepted.
- `SchemaItems.OverrunIs`, `SchemaItems.OverrunExample`: the schema iterator leaves the array
  when an item taken for an object lists properties and none has a recognised type, or when
  it lists properties and the type text is empty.
- `SchemaKeywords.RecogniseIsNamed`, `SchemaKeywords.BeginningsRecognised`: type texts are
  compared over their own length, so any beginning of a type name is taken for it. A text
  that is no such beginning is skipped without an error.
- `SchemaKeywords.OnlyTheseCount`, `SchemaKeywords.BadPatternAccepted`: the checks of the
  keywords of one type only have no effect.
- `JsonTokens.AtIsElement`, `JsonTokens.AtFindsTooMuch`: the largest index finds a token in an
  empty array.
- `Base64Laws.StringReads`, `Base64Laws.OneLetterReads`: the in-place conversion of a string
  reads past its allocation when the length is 1 or 2 modulo 4 and every whole block decodes.
- `Base64Laws.DecodesExactly`: pads are accepted anywhere in a block and in any block, so
  `Base64Laws.ReencodesIffCanonical` needs the canonical form.

## Model

| member | source | states |
|---|---|---|
| JsonEncoder.DumpAfter | src/utilities/app_json_encode.c:409-520 | any calls on a fresh encoder, refused ones included, and then a dump: the text is the serialisation of exactly what the accepted calls describe, everything closed; nothing when no call wrote |
| EncoderDocument.DumpReads | src/utilities/app_json_encode.c:662-803 | for any calls with printable strings: the dump is one document of the RFC 8259 (section 2) grammar if and only if the calls describe one top-level value, and then it parses back to that value; it never holds a NUL |
| EncoderDocument.DumpDocument | src/utilities/app_json_encode.c:409-803 | a document given as a nested description, of height 21 at most, with printable keys and strings and values the encoder takes, in any layout: every call is accepted, the dump is the text of the tree the calls mean, written down independently, and that text parses to the tree |
| EncoderDocument.TermText | src/utilities/app_json_encode.c:662-803 | a document with an explicit root: when it fits, its calls are accepted and dump as the text of the tree it means |
| EncoderDocument.DocumentText | src/utilities/app_json_encode.c:662-803 | the same from its height alone |
| EncoderDocument.OpenDocumentText | src/utilities/app_json_encode.c:662-803 | the same for a document whose root object is opened by a keyed first item |
| EncoderDocument.KeysMean | src/utilities/app_json_encode.c:675-694 | a keyed item of an array is an object of its own, and an item of an object without a key has the empty one |
| EncoderDocument.ExampleDocument | src/utilities/app_json_encode.c:662-803 | one document with its text: a keyed value and a string with a line feed, in an array |
| EncoderStack.AcceptedIffFits | src/utilities/app_json_encode.c:1348-1370 | the calls of a nested item are accepted in an open container if and only if each container, and each object added around a keyed value, is begun with fewer than 21 brackets open |
| EncoderStack.OpenAcceptedIffFits | src/utilities/app_json_encode.c:1348-1370 | the same for a row whose first item opens the root object |
| EncoderStack.HeightFits | src/utilities/app_json_encode.c:1348-1370 | height 21 at most is enough, counting the objects added around keyed items of arrays |
| EncoderStack.FitsHeight | src/utilities/app_json_encode.c:1348-1370 | and 22 at most is necessary |
| EncoderStack.StartRefused | src/utilities/app_json_encode.c:1348-1350 | a start is refused, and changes nothing, if and only if 21 brackets or more are open |
| EncoderStack.Refused | src/utilities/app_json_encode.c:366-391 | which values and ends are refused, with what status, and that nothing changes then |
| JsonLayout.TextIsLaid | src/utilities/app_json_encode.c:696-745 | the serialisation is, in every layout, what joining the items of each container by a separator between brackets gives |
| EncoderStack.RunTerm | src/utilities/app_json_encode.c:662-803 | the calls of a nested item, made inside any open container, add exactly what the item contributes there and leave the stack as it was |
| EncoderStack.RunDocument | src/utilities/app_json_encode.c:1258-1375 | a document whose root container is started without a key leaves one finished value and an empty stack |
| EncoderStack.RunOpenDocument | src/utilities/app_json_encode.c:662-803 | a document whose first item has a key, so that its root object is opened for it, is that object with every item once all is closed |
| EncoderDocument.OpenTermText | src/utilities/app_json_encode.c:662-803 | and when it fits its calls are accepted and dump as the text of that object |
| EncoderDocument.DumpIsEnding | src/utilities/app_json_encode.c:472-517 | a dump in the middle shows just what successful ends of every open container, innermost first, would leave |
| EncoderDocument.ReadableRun | src/utilities/app_json_encode.c:662-803 | every run of printable calls keeps a state whose finished and unfinished values the grammar can express |
| JsonTree.ParseRoundTrip | src/utilities/app_json_encode.c:662-803 | parsing the serialisation of any readable value, compact, spaced or indented, gives that value back |
| JsonTree.ParseText | src/utilities/app_json_encode.c:662-803 | the same for a value inside a longer text: the rest is left over, untouched |
| EncoderStack.ApplyStable | src/utilities/app_json_encode.c:662-803 | every call, accepted or refused, keeps the stack well nested: no automatic object is left open by itself and depth stays within the limit; after an accepted call something has been written |
| EncoderStack.FramesBelowDepth | src/utilities/app_json_encode.c:396-406 | the number of groups never exceeds the number of bits the depth check counts |
| EncoderWord.PushLosesNothing | src/utilities/app_json_encode.c:1348-1370 | below the depth limit a push of a group shifts no open level out of the word: shifting back gives the old word, and the low group is the top frame's |
| EncoderWord.WordZero | src/utilities/app_json_encode.c:475-478 | the word is zero exactly when nothing is open, so no group is zero |
| EncoderWord.WordTest | src/utilities/app_json_encode.c:690-694 | testing a bit of the word tests the kind or mark of the top frame |
| EncoderWord.CodesAre | src/utilities/app_json_encode.c:62-69 | the five groups a level can have: 1, 2, 4, 5 and 6 |
| EncoderWord.BitsAreDepth | src/utilities/app_json_encode.c:396-406 | the set bits of the word number the open brackets |
| EncoderWord.CountDepth | src/utilities/app_json_encode.c:396-406 | the bit-counting loop returns the number of set bits |
| EncoderWord.WordAddItem | src/utilities/app_json_encode.c:662-803 | adding an item changes no level of the word |
| EncoderWord.WordCloseTop | src/utilities/app_json_encode.c:1325-1327 | shifting a group out is closing the top container with the object added around it |
| EncoderText.RenderAddItem | src/utilities/app_json_encode.c:696-745 | one more item in the open container appends its comma, indentation, key and text and nothing else |
| EncoderText.RenderPush | src/utilities/app_json_encode.c:1355-1370 | a container started appends its key and opening bracket and nothing else |
| EncoderText.RenderCloseLevel | src/utilities/app_json_encode.c:1281-1322 | closing a level appends its indentation and bracket and nothing else |
| EncoderText.RenderCloseAll | src/utilities/app_json_encode.c:478-514 | the text with everything closed is the text so far and the brackets owed |
| EncoderText.RenderEnd | src/utilities/app_json_encode.c:696-716 | the last character is an opening bracket exactly when the open container has no item yet, which is how the comma is decided |
| EncoderText.OwedFits | src/utilities/app_json_encode.c:482-514 | the brackets owed, with their indentation, fit the room reserved for them |
| JsonEncoder.Encoder.Perform | src/utilities/app_json_encode.c:590-803 | any one call: the new state and the status are those of the abstract step, and the buffer, the recorded length and the machine word keep standing for the state |
| JsonEncoder.Encoder.EncodeKey | src/utilities/app_json_encode.c:662-803 | opens an object around a keyed item in an array, or refuses at the depth limit unchanged; else writes the separator and key and makes room for the value and all closing brackets |
| JsonEncoder.Encoder.StructStart | src/utilities/app_json_encode.c:1339-1375 | refuses exactly at the depth limit; else the stack, text and word have the new container |
| JsonEncoder.Encoder.StructEnd | src/utilities/app_json_encode.c:1258-1337 | refuses an end whose kind is not that of the open container; else closes it with the object added around it |
| JsonEncoder.Encoder.Dump | src/utilities/app_json_encode.c:409-520 | writes the closing brackets and the NUL inside the allocation and leaves position, word and length as they were |
| JsonEncoder.Encoder.EncodeInteger | src/utilities/app_json_encode.c:590-646 | writes the decimal text of every 64-bit integer but the smallest |
| JsonEncoder.Encoder.EncodeString | src/utilities/app_json_encode.c:1139-1180 | writes the escaped text in quotes, a missing string as an empty one |
| JsonEncoder.Encoder.EncodeBool | src/utilities/app_json_encode.c:359-393 | writes true or false as an item |
| JsonText.UnescapeEscape | src/utilities/app_json_encode.c:1200-1256 | unescaping undoes escaping |
| JsonText.EscapesAre | src/utilities/app_json_encode.c:1212-1236 | the seven characters that are escaped, each with its escape, and no other |
| JsonText.EscapedIsVisible | src/utilities/app_json_encode.c:1212-1236 | a string without control characters but those five is escaped without any control character |
| JsonText.DigitsAre | src/utilities/app_json_encode.c:607-637 | the ten digits and their order, with and without a minus |
| JsonText.EscapeInjective | src/utilities/app_json_encode.c:1200-1256 | different strings have different escapes |
| JsonText.StrLen | src/utilities/app_json_encode.c:1183-1198 | the precomputed length is that of the escaped text |
| JsonText.StrNCpy | src/utilities/app_json_encode.c:1200-1256 | for every limit that splits no escape the copy ends, writes the escaped text cut at the limit, one NUL if there is room, and nothing else |
| JsonText.CopyEnds | src/utilities/app_json_encode.c:1200-1244 | for every limit that splits no escape the loop variables, the flag kept across rounds, reach the end within one round a character and have written the whole escaped text or the limit |
| JsonText.SplitCopyNeverEnds | src/utilities/app_json_encode.c:1200-1256 | for every limit that splits an escape the copy loop's guard holds after any number of rounds |
| JsonText.FullLengthNeverSplits | src/utilities/app_json_encode.c:1183-1198 | a limit of at least the precomputed length splits no escape |
| JsonText.IntLen | src/utilities/app_json_encode.c:649-660 | the precomputed length is that of the decimal text |
| JsonText.IntRoundTrip | src/utilities/app_json_decode.c:480-536 | reading the printed text of an integer gives it back, for every 64-bit integer but the smallest |
| JsonText.DecodeInteger | src/utilities/app_json_decode.c:511-529 | accepts exactly an optional minus and any digits, none included, and returns the number, zero for none |
| JsonText.AcceptsIntegers | src/utilities/app_json_decode.c:511-529 | what it accepts is an integer of the grammar (section 6 of RFC 8259) if and only if it has a digit and no zero in front of another digit; and it accepts every such integer |
| JsonText.AcceptsOthers | src/utilities/app_json_decode.c:511-529 | a minus alone is accepted as 0, and 007 as 7 |
| JsonText.PrintedNeverOverflows | src/utilities/app_json_decode.c:511-529 | reading a printed integer never leaves the 64-bit range on the way |
| ActionRuns.EverySlotOnce | src/api/iot_action.c:1233-1864 | in every interleaving of any clients and workers each slot is in exactly one place: available, with a client, waiting, or with one worker |
| ActionRuns.EveryRequestProper | src/api/iot_action.c:1256-1333 | in every interleaving each request is allocated, queued, dequeued, completed and freed at most once each in this order, or freed unqueued; one dequeued and freed was completed exactly once in between |
| ActionRuns.DequeuedInOrder | src/api/iot_action.c:1256-1266 | in every interleaving requests are dequeued in the order they were queued |
| ActionRuns.ExclusiveIsAlone | src/api/iot_action.c:1295-1316 | in every interleaving, while an exclusive action executes no other action does |
| ActionRuns.QueueNeverFull | src/api/iot_action.c:1775-1797 | in every reachable state a client's request finds room in the wait queue: the branch that reports it full is dead |
| ActionRuns.CountNeverNegative | src/api/iot_action.c:1852-1854 | in every reachable state a request in use can be returned: the count does not wrap |
| ActionRuns.RunKeepsGood | src/api/iot_action.c:1233-1864 | every step of every run keeps the invariant on places, history, order and locks |
| ActionRuns.NothingElseBlocks | src/api/iot_action.c:1233-1864 | in every reachable state, exactly when each step can happen: a shared action can start if and only if no worker executes an exclusive one, an exclusive action if and only if no worker executes; the pool's own conditions always hold |
| ActionRuns.WorkerMoves | src/api/iot_action.c:1256-1333 | each step moves its own worker one place on, from dequeuing to freeing, and no other |
| ActionRuns.StepLogs | src/api/iot_action.c:1256-1333 | the history is written by the steps as they happen, one event at most for each |
| ActionRuns.ExclusiveRun | src/api/iot_action.c:1295-1333 | a run in which an exclusive action executes, its request goes through its whole life, and its slot is available again |
| RequestPool.TakeReturned | src/api/iot_action.c:1852-1854 | a slot that is returned is the next to be taken |
| RequestPool.FetchQueued | src/api/iot_action.c:1256-1266 | a request that joins a waiting queue leaves those before it in front |
| RequestPool.Requests.constructor | src/api/iot_base.c:956-957 | the pool starts with every slot available once and nothing waiting |
| RequestPool.Requests.Allocate | src/api/iot_action.c:1436-1467 | takes the next available slot, or none when all are in use |
| RequestPool.Requests.Execute | src/api/iot_action.c:1775-1797 | appends to the wait queue when there is room |
| RequestPool.Requests.Process | src/api/iot_action.c:1256-1266 | removes the first waiting request and moves the others up |
| RequestPool.Requests.Free | src/api/iot_action.c:1852-1854 | puts the slot back as the next available one |
| ActionGate.Execute | src/api/iot_action.c:317-491 | the action runs if and only if every required input is given, every supplied registered parameter converts and every supplied parameter is registered and not output only; it then sees the converted parameters; success means every required output is there |
| ActionGate.AcceptedIs | src/api/iot_action.c:334-426 | what accepted means, by position and by the bits 2 and 4 of the registered types |
| ActionGate.FlagsAre | src/api/iot_action.c:1096-1101 | the bits of the types, and what adding a parameter makes of the type asked for |
| ActionGate.OutputsAre | src/api/iot_action.c:453-487 | what the required outputs mean, by position and by bit 8 |
| ActionGate.PreparedMeans | src/api/iot_action.c:346-385 | the action sees a supplied parameter with its registered type and its converted value |
| ActionGate.CheckInputs | src/api/iot_action.c:334-413 | passes exactly when every required input is given and every value converts, and then leaves every parameter converted and marked; else names a required parameter without a value, or one whose value does not convert |
| ActionGate.KnownAreInputs | src/api/iot_action.c:415-426 | given distinct names, every supplied parameter is registered as an input if and only if the code lets all pass and none is registered as neither an input nor the output alone |
| ActionGate.RequiredOutputIsAccepted | src/api/iot_action.c:1096-1101 | a parameter added as a required output, which takes no input, is accepted when supplied |
| ActionGate.MarksTellUnknown | src/api/iot_action.c:415-426 | after the first pass a parameter still marked as output is exactly one that no registered parameter accepts |
| ActionGate.CheckOutputs | src/api/iot_action.c:453-487 | tells whether every required output has a value |
| Crc32Table.TableIsSteps | src/api/checksum/iot_checksum_crc32.c:82-126 | each of the 256 table entries is eight bitwise steps of its index (section 8 of RFC 1952) |
| Crc32.Calculate | src/api/checksum/iot_checksum_crc32.c:78-132 | the table loop gives the CRC defined bit by bit by shifts and the polynomial 0xEDB88320, for every buffer and start value |
| Crc32Values.CheckValue | src/api/checksum/iot_checksum_crc32.c:78-132 | the CRC of the nine characters 123456789 is 0xCBF43926 |
| Crc32Values.Residue | src/api/checksum/iot_checksum_crc32.c:128-131 | every message followed by its own CRC, lowest byte first, has the CRC 0x2144DF1C |
| Crc32.TableStepIs | src/api/checksum/iot_checksum_crc32.c:130-130 | one round of the loop is eight bitwise steps of the register with the byte added |
| Crc32.ByteStep | src/api/checksum/iot_checksum_crc32.c:130-130 | absorbing eight message bits one by one is adding the byte and stepping eight times |
| Crc32.StepLinear | src/api/checksum/iot_checksum_crc32.c:3-54 | a step distributes over exclusive or |
| Crc32.CrcAppend | src/api/checksum/iot_checksum_crc32.c:54-76 | continuing with a second part from the CRC of the first gives the CRC of the whole |
| Crc32.FileChecksum | src/api/checksum/iot_checksum_crc32.c:66-71 | a file read in chunks of any sizes gets the CRC of its whole contents |
| Crc32Burst.BurstDetected | src/api/checksum/iot_checksum_crc32.c:128-131 | different buffers of one length whose differing bits lie within 32 consecutive bits have different CRCs from any start value |
| Crc32Burst.BurstMoves | src/api/checksum/iot_checksum_crc32.c:128-131 | an error pattern within 32 consecutive bits never leaves the register at zero |
| Crc32Burst.RegisterXor | src/api/checksum/iot_checksum_crc32.c:128-131 | the register is linear in start value and message together |
| Crc32Burst.BurstBoundIsTight | src/api/checksum/iot_checksum_crc32.c:128-131 | 32 is the most: buffers that differ in just 33 consecutive bits, a one and the polynomial, have the same CRC from any start value, wherever the bits are |
| Crc32Burst.BurstBoundExample | src/api/checksum/iot_checksum_crc32.c:128-131 | two such buffers of five bytes |
| Crc32Burst.BitsInjective | src/api/checksum/iot_checksum_crc32.c:128-131 | different buffers have different bits in the order the register takes them |
| Base64.Encode | src/api/iot_base64.c:178-204 | writes as many whole blocks of the RFC 4648 (section 4) encoding as fit, and returns their length |
| Base64.EncodedLength | src/api/iot_base64.c:227-234 | the encoding's length is what iot_base64_encode_size says |
| Base64Alphabet.ListIs | src/api/iot_base64.c:72-73 | the encoder's characters are those of table 1 of RFC 4648, in order, and its pad is = |
| Base64Alphabet.IndexIs | src/api/iot_base64.c:28-43 | the decoder gives a character the value of its place among them |
| Base64Alphabet.DecodableIs | src/api/iot_base64.c:139-167 | a block decodes if and only if its characters are among them or pads, with two pads at most |
| Base64Alphabet.SizesAre | src/api/iot_base64.c:169-234 | four characters for every three bytes begun, three bytes for every four characters begun |
| Base64Alphabet.Examples | src/api/iot_base64.c:178-225 | the encodings of f, fo, foo and foob (section 10 of RFC 4648) |
| Base64.EncodeBlock | src/api/iot_base64.c:206-225 | writes the four characters of one group, padded |
| Base64.DecodeBlock | src/api/iot_base64.c:139-167 | fails on a foreign character or more than two pads; else returns three bytes less one for each pad |
| Base64.Decode | src/api/iot_base64.c:102-137 | also with output and input in one buffer: the result and the bytes are those of the specification on the original text, cut at the room |
| Base64Laws.RoundTrip | src/api/iot_base64.c:102-225 | decoding the encoding of any bytes gives them back |
| Base64Laws.DecodesExactly | src/api/iot_base64.c:102-176 | with the room iot_base64_decode_size asks for, decoding succeeds if and only if every block has only alphabet characters and at most two pads, and returns three bytes a block less the pads |
| Base64Laws.RoomCuts | src/api/iot_base64.c:102-137 | less room only cuts the output off |
| Base64Laws.ReencodesIffCanonical | src/api/iot_base64.c:102-225 | decoding and encoding again gives the text back if and only if it is canonical (section 3.5 of RFC 4648) |
| Base64Laws.EncodedIsCanonical | src/api/iot_base64.c:178-225 | every encoding is canonical |
| Base64Laws.TerminatorSpoils | src/api/iot_base64.c:114-134 | a text whose length is no multiple of four has an undecodable last block, the terminator being read into it |
| Base64Laws.StringToRaw | src/api/iot_common.c:1408-1430 | where no read leaves the allocation, converting a string object in place succeeds if and only if the text is whole decodable blocks, and gives the bytes a separate buffer would get |
| Base64Laws.StringReads | src/api/iot_common.c:1016-1024 | in the allocation a string has, its length and one, no read leaves it if and only if the length is 0 or 3 modulo 4 or one of the whole blocks is undecodable |
| Base64Laws.OneLetterReads | src/api/iot_common.c:1408-1430 | the text of one letter takes two characters, and the fourth is read |
| Base64Laws.ReadsCut | src/api/iot_base64.c:114-134 | where the last block is not wholly in memory the reads stay inside if and only if an earlier block stops them |
| Options.OptionList.Find | src/api/iot_option.c:148-202 | finds the entry whose folded name matches, or the place to insert; the extra look at the next entry never matches |
| Options.OptionList.SetData | src/api/iot_option.c:346-460 | updates, inserts, removes or refuses as the specification does, undoing the entry when the value cannot be copied, and returns its status |
| Options.SetIsUpdate | src/api/iot_option.c:346-460 | seen as a map: a setting that succeeds is update; clearing a present name is removal, and so is a setting that fails, also of a name that had a value |
| Options.SetSucceeds | src/api/iot_option.c:346-460 | a call succeeds if and only if it sets a value that can be copied and the name is present or there is room; a clearing never does |
| Options.ClearAbsent | src/api/iot_option.c:346-460 | clearing a name that is not there: a full list stays as it is; else one entry without a name comes in, and every other entry, and what is found under any name, stays |
| Options.SetNames | src/api/iot_option.c:406-425 | a new entry bears its name as given, its first 128 characters; an old one keeps its own |
| Options.LookupIs | src/api/iot_option.c:157-195 | the linear search finds the value of the one entry with the key |
| Options.SetKeepsSorted | src/api/iot_option.c:346-460 | the list stays strictly sorted if and only if the call is not the clearing of an absent name with room left |
| Options.PositionIs | src/api/iot_option.c:157-187 | the insertion place is the only one with smaller keys before and no smaller key at or after it |
| Names.Compare | src/api/iot_option.c:157-187 | comparing at most n characters, folded or not, has the sign of the lexicographic order of the cut names |
| Names.KeyIs | src/api/iot_option.c:167-189 | two names are one exactly when their first 128 characters agree, letters in either case |
| Names.KeyFolds | src/api/iot_option.c:167-189 | keys are compared in small letters |
| Names.LessIs | src/api/iot_option.c:167-187 | the order: a proper beginning comes first, otherwise the first difference decides |
| Names.LessTotal | src/api/iot_option.c:157-187 | the order of names is total |
| Alarms.Registry.Register | src/api/iot_alarm.c:21-125 | inserts the alarm before the first live name not smaller; takes the free built-in alarm if there is one, else a new one; fails exactly on an empty name or a full registry; keeps names sorted and each built-in alarm in the array exactly once |
| Alarms.Registry.Deregister | src/api/iot_alarm.c:127-195 | removes exactly a live alarm and keeps the same invariant; built-in alarms become free, others leave the array; anything else changes nothing |
| Alarms.Registry.FindPlace | src/api/iot_alarm.c:76-92 | the binary search on the new name's length finds the leftmost place for the whole name |
| Alarms.PrefixDecides | src/api/iot_alarm.c:83-85 | comparing as many characters as the new name has decides as comparing whole names does |
| Alarms.PlaceSplits | src/api/iot_alarm.c:76-98 | the place of a new name is behind exactly the smaller ones, so before equal ones |
| Alarms.BuiltInOnce | src/api/iot_alarm.c:100-180 | the invariant, told plainly: each built-in alarm is pointed to from one place, and behind the live part there is no other alarm |
| Alarms.ShiftKeeps | src/api/iot_alarm.c:100-105 | registering keeps the pointers distinct, the live part full and every built-in alarm present |
| Alarms.CloseKeeps | src/api/iot_alarm.c:154-180 | deregistering keeps the same, and no heap alarm enters the free part |
| Alarms.CloseUndoesShift | src/api/iot_alarm.c:21-195 | deregistering the alarm registered last gives back the pointer array as it was |
| Alarms.Registry.constructor | src/api/iot_base.c:950-951 | the set-up: every built-in alarm free, once |
| SchemaKeywords.CheckKeywords | src/utilities/app_json_schema.c:263-569 | accepts the keywords if and only if default, description, title, the bounds and enum have their types, and every required name up to the one found is a string |
| SchemaKeywords.ChecksAre | src/utilities/app_json_schema.c:233-260 | the checks of each type, with the names of its bounds and the types they must have |
| SchemaKeywords.OnlyTheseCount | src/utilities/app_json_schema.c:263-569 | no other keyword matters: the outcome of the checks before line 425 is overwritten |
| SchemaKeywords.BadPatternAccepted | src/utilities/app_json_schema.c:376-425 | a string whose pattern is a number is accepted |
| SchemaKeywords.RecogniseIsNamed | src/utilities/app_json_schema.c:696-755 | a type text is taken for the type it names if and only if it is not the mere beginning of a type's name |
| SchemaKeywords.BeginningsRecognised | src/utilities/app_json_schema.c:696-755 | the text s is taken for string, and the empty text for array |
| SchemaItems.Items.Parse | src/utilities/app_json_schema.c:622-674 | succeeds if and only if the root is recognised, every property reached has a type and every recognised one passes its checks; the array is then the preorder of the recognised tree |
| SchemaItems.GoodIs | src/utilities/app_json_schema.c:571-607 | a row of properties is parsed exactly when each is: it has a type, and where that is recognised the checks pass and an object's own row is parsed |
| SchemaItems.Items.AllocateItem | src/utilities/app_json_schema.c:194-620 | appends an item and, for objects, its properties' items in preorder, and patches lastChild |
| SchemaItems.Items.ParseSchema | src/utilities/app_json_schema.c:676-759 | appends the preorder of one property, or nothing when its type is not recognised |
| SchemaItems.ItemIs | src/utilities/app_json_schema.c:263-269 | in a built array the items linking to an object are exactly its recognised properties, in order |
| SchemaItems.LastChildIs | src/utilities/app_json_schema.c:571-617 | lastChild is one past the last descendant: chains of parent links lead up to an object from exactly the indices in between |
| SchemaItems.AllRecognised | src/utilities/app_json_schema.c:676-759 | where every type is recognised no property is left out |
| SchemaItems.KidsPruned | src/utilities/app_json_schema.c:571-617 | the children of every node of the preorder are the recognised properties of its own schema |
| SchemaItems.Items.ObjectIterator | src/utilities/app_json_schema.c:1179-1221 | finds the first property, or runs past the array when a nonempty object has none recognised |
| SchemaItems.Items.ObjectIteratorNext | src/utilities/app_json_schema.c:1249-1296 | from the k-th property goes to the next, and stops after the last |
| SchemaItems.Items.Properties | src/utilities/app_json_schema.c:1179-1318 | walking an item yields exactly its recognised properties in order, then stops; it runs off the array exactly when there are properties and none is recognised |
| SchemaItems.OverrunIs | src/utilities/app_json_schema.c:1208-1217 | exactly when: the item's type text is taken for object with properties listed, and the text is empty or no property is recognised |
| SchemaItems.OverrunExample | src/utilities/app_json_schema.c:1208-1217 | two schemas that are parsed and whose root has such an item: a property of type date only, and an empty type text |
| SchemaItems.IterableIs | src/utilities/app_json_schema.c:1194-1215 | the iterator looks for a first property when there are properties and the type text is a beginning of object, the empty one included |
| Preorder.DescendantsAre | src/utilities/app_json_schema.c:210-219 | in a preorder array the descendants of a node are exactly its block |
| Preorder.ChildrenAre | src/utilities/app_json_schema.c:210-219 | a parent link points at a node exactly from the starts of its children's blocks |
| JsonTokens.ChildrenByLink | src/utilities/app_json_decode.c:143-326 | the tokens linking to a token are exactly its children, ascending, inside its block, the first right behind it |
| JsonTokens.Decoder.ArrayIterator | src/utilities/app_json_decode.c:214-236 | stands on the first element, or nowhere for an empty array |
| JsonTokens.Decoder.ObjectIterator | src/utilities/app_json_decode.c:671-701 | stands on the first key, or nowhere for an empty object |
| JsonTokens.Decoder.IteratorNext | src/utilities/app_json_decode.c:269-326 | from the k-th child goes to the next, and stops after the last |
| JsonTokens.Decoder.IteratorValue | src/utilities/app_json_decode.c:812-842 | an element is its own value; a key's value is the one token below it |
| JsonTokens.Decoder.Elements | src/utilities/app_json_decode.c:214-326 | walking an array visits exactly its children in order, as many as its size |
| JsonTokens.Decoder.Pairs | src/utilities/app_json_decode.c:671-842 | walking an object visits exactly its keys in order, each with its value |
| JsonTokens.Decoder.ArrayAt | src/utilities/app_json_decode.c:143-212 | finds the element of the index or reports that there is none, save one index |
| JsonTokens.AtIsElement | src/utilities/app_json_decode.c:177-203 | what it finds is the element if and only if the index is not the largest, or the array is not empty, or nothing follows it |
| JsonTokens.AtFindsTooMuch | src/utilities/app_json_decode.c:177-203 | a document where it does find a wrong token: the empty array of [[],1] |
| JsonTokens.ObjectTokens | src/utilities/app_json_decode.c:671-842 | the tokens of {"a":[1,true]} and what is below each |

## Left out

- The jansson and json-c branches, and `jsmn_parse` itself: what it promises of its tokens is the predicate `JsonTokens.WellFormed`.
- `app_json_encode_object_cancel` and `_clear`: a scan of the text for braces, which braces inside strings confuse.
- The encoder's static-buffer mode, real numbers and locations; the dynamic mode is modelled with allocation that succeeds.
- JsonText.IntRoundTrip: holds of every integer; the program's 64-bit integers are a part of them, and the smallest, whose negation does not fit 64 bits, is not passed to the encoder (JsonEncoder.Encoder.EncodeInteger).
- JsonText.DecodeInteger: texts whose digits run past 64 bits are excluded; the accumulation is undefined there.
- EncoderDocument.DumpReads: strings hold no control character beyond those the encoder escapes; its parser reads the grammar the encoder uses (no reals, null or \u escapes).
- JsonEncoder.DumpAfter: an indentation of at most 30, the documented limit (app_json.h), and leaf values are booleans, integers and strings.
- Bytes above 127 in strings are characters like any other; no encoding is modelled.
- ActionRuns.EverySlotOnce: clients act only on requests they hold (none is queued or freed twice); liveness is not claimed, as a worker woken to an empty queue leaves its loop.
- ActionRuns.ExclusiveIsAlone: the read-write lock grants as such locks do; the callback, the plug-in calls and the shutdown flag are steps of their own kind without further content.
- RequestPool.Requests.Process: the move of the waiting requests is an overlapping copy in the code (`os_memcpy`); it is modelled as a move.
- ActionGate.Execute: the conversion of values and the action itself are parameters; the null checks of the arguments and the command-line form of actions are not modelled.
- `iot_common_data_convert` for scalars, and the conversion tables of advanced mode.
- `iot_checksum_crc32_file_get` returning zero when a file cannot be read; its result is modelled as a function of the chunks read.
- Crc32Table.TableIsSteps: the table is held in sixteen rows of sixteen entries.
- Base64.EncodeBlock: the 64-character table is given by its ranges.
- Options.OptionList.SetData: the failure of allocating an entry or a name, and the one-element over-read of the delete move, are not modelled; counts are unbounded numbers below the limit of 20.
- Base64Laws.StringToRaw: requires that no read leaves the allocation, which the caller does not see to; Base64Laws.StringReads says when that is so.
- Base64.Decode: the memory the decoder looks at must be there, as ReadEnd computes it; nothing is said of reads outside.
- Alarms.Registry.Register: the mutex and failing allocation are not modelled; a freed heap alarm keeps its (unreachable) fields. The telemetry registry, src/api/iot_telemetry.c, repeats the scheme.
- SchemaItems.Items.Parse: the look-up of keywords in the schema document is given; the required flag and the dependencies of an item are not modelled; indices are unbounded while building, and below 2^32 - 1 where links are followed; texts with an embedded NUL are not modelled.
- JsonTokens.Decoder.IteratorNext: the index bound is checked before the token is read, where the code reads it first.
- `app_json_decode_object_find_len`, which accepts a key that only begins with the one searched; the value checks of schemas (`app_json_schema_integer` and the like).
- MQTT, relay sockets, file transfer, update scripts, the device manager, logging and paths: input and output.
