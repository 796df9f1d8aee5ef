# Gateway libraries, verified

A Dafny model of the parts of the gateway that carry its data: the JSON library (cJSON), the command queue of the
asynchronous MQTT client (Eclipse Paho) with its persistence, the linked list it rests on, the Base64 codec of its
WebSocket layer, and the checksum of the PLC frames.  `dafny verify dfyconfig.toml` checks everything.

## What is modelled

**JSON** (`Json*.dfy`, `Text.dfy`).  `JsonTree` has the trees as values, `JsonRender` the text of a tree and
`JsonParse` what the parser makes of a text.  `JsonPrint` and `JsonParseBuffer` are the printing buffer and the parse
buffer as classes whose methods move the offset and the depth as the C code does; each method is proved against those
functions.  `JsonRoundTrip` proves that the two undo each other, `JsonWhole` runs one after the other.
`JsonGrammar` is the language of the parser, RFC 8259 and what is taken beyond it, as a grammar on places in a text;
`JsonLiterals`, `JsonNumerals` and `JsonAcceptance` prove that exactly its texts are accepted and read as what they mean,
and `JsonErrors` says where an error is reported.
`JsonLayout` is the printed text written down.  `JsonMinify`, `JsonMinifyText` and `JsonMinifyTree` treat the in-place
minifier, `JsonCompare` and `JsonMeaning` the comparison, `JsonDuplicate` the deep copy on linked nodes.  Characters are
bytes; a C string is a sequence without NUL.

**MQTT client.**  `CommandQueue` is the queue of all clients as a state machine whose steps are the sections under a
mutex; `AsyncClient` has the same steps as methods with the loops of the source, each proved to take its step.
`QueueConservation`, `QueueScheduling` and `QueueStore` prove that every step keeps the invariants; `QueueGuards`,
`QueueOrder` and `QueueReports` say what each step does, in terms of the fields and codes the source looks at: what lets a
command go, where it is put, and which callback it gets.  `CommandCodec`, `CommandBuffers`, `Properties`, `CommandKeys`,
`CommandRestore` and `Restart` treat what is stored and what comes back, `StoredForm` the bytes of it.
`Histories` has the results over all histories: steps of the queue, crashes of the process and clients made anew over
what they stored, in any order and for any number of clients.  `Losses` has histories in which something is lost,
`QueueProgress` what the sending thread dispatches, and `Cleaning` a session cleaned in two halves.
`MessageIds` and `Submissions` are the message ids and the calls that use them, `ConnectRetry` the connect retries and
`Delivery` the inbound messages.
`LinkedList`, `PendingWrites` and `CommandLists` are the list with its cursor, the loop that depends on the cursor, and
the queue as it is kept in such a list.

**Codecs.**  `Base64` with `Base64Standard` (section 4 of RFC 4648) and `Crc16` with `Crc16Division`.

## Where code and intention differ

- Restored commands.  `MQTTAsync_restoreCommands` inserts with `MQTTPersistence_insertInOrder`
  (code/src/paho/MQTTPersistence.c:378-392), which compares the integer at the place of `Messages.msgid`
  (code/include/paho/Clients.h:51-62).  In a queued command those bytes belong to the `onSuccess` pointer, which is null
  in a restored command, so restored commands keep the order in which the store lists its keys; the default store lists
  them in directory order (code/src/paho/MQTTPersistenceDefault.c:775).  The order survives exactly if the command keys
  are listed by ascending number (`OrderSurvives`, and over histories `RestartBringsBack`); `ReversalHappens` is a
  history in which it does not, `SeqnoOrderRebuilds` what the commented-out insertion would achieve.
- `writeInt4` takes a signed `int`: from 2^31 on division towards zero loses the borrows, unless the value is a multiple
  of 2^24 (`Int4Taken`; `LargestIsSpoilt` is an input).  Such properties of a persisted version 5 command come back
  changed.
- A version 5 SUBSCRIBE is stored without its qos list, but sending it reads that list
  (code/src/paho/MQTTPacketOut.c:264).  After a restart that follows a null pointer if there is a topic
  (`RestoredIsDispatchable`); in a history it is a crash.
- Keys of commands are printed into a buffer of nine characters: the 1000000th number of a client, in version 5 the
  100000th, overflows it (`KeyFits`).
- A publication of QoS 0 whose write ends with a code other than 1 and -1 stays among the responses without a callback
  until its client is cleaned (`LostWrite`, `StuckForGood`).
- `MQTTAsync_cleanSession` empties the store and then removes the commands, under a mutex that `MQTTAsync_addCommand`
  does not take.  A command submitted in between is removed but stays stored (`CleanedInHalves`).
- `Base64_decode` indexes its table with a `char`.  Where that is signed, as on x86, a character above 127 is looked up
  before the table (`ReadsInsideExactly`; `HighCharacterFails` is an input).
- `Base64_encode` with room of more than 2^32 - 4 and a longer text wraps its counter around (`Base64.Encode`).
- A tree in which a name stands twice with different meanings does not compare equal to its own copy, though it does to
  itself as a node (`SameIsMeaning`, `RepeatedNameDiffersFromItself`).
- The parser takes more than RFC 8259: every character up to the space as white space, control characters in strings, a
  "\u" without four digits, which it reads as NUL, and numbers as `strtod` reads them.  A string ends at its first NUL,
  and a number longer than 63 characters is cut there (`JsonGrammar`, `AcceptsExactly`).
- The minifier knows `\"` but not `\\`; `MinifyUndoesFormat` says exactly for which trees that matters.
- The header of the JSON library advises five spare bytes for `cJSON_PrintPreallocated`
  (code/include/cjson/cJSON.h:160); two are exactly enough, the text's NUL being one of them.
- `MQTTAsync_assignMsgId` searches without end when no id was assigned since the session began and all are in use
  (`SearchEnds`; `SearchWithoutEnd` is an input).
- `Base64_encode` without enough room returns a truncated text and its length when the room is a multiple of 4, and zero
  otherwise (`Base64.Encode`).
- A comment in the source says that `currentURI` outgrows the list of servers; it does not (`WhichAttempt`).

## Assumptions

Allocation succeeds, callbacks do not call the library, calls to the persistent store succeed, and a client keeps its
MQTT version.  The numbers of commands stay below the limit of `KeyFits`.  Message ids are assigned and enqueued in one
step, and a session is cleaned in one, without additions in between.  What the network and the protocol code answer is
part of the events.  Every failed connect attempt is handled once.  A store lists every command key it holds, and each once.

## Model

| member | source | states |
|---|---|---|
| `JsonPrint.PrintPreallocated` | code/src/cjson/cJSON.c:1202-1219 | the caller's buffer suffices exactly when it has two bytes more than the text; then it starts with the text and a NUL |
| `JsonPrint.Print` | code/src/cjson/cJSON.c:1097-1159 | the result is null exactly when the text plus two bytes exceeds INT_MAX; otherwise it is a new buffer of exactly the text and its NUL, however often the work buffer was reallocated |
| `JsonPrint.PrintBuffered` | code/src/cjson/cJSON.c:1172-1199 | with a first size of at least one byte, success and text do not depend on that size |
| `JsonPrint.PrintBuffer.Ensure` | code/src/cjson/cJSON.c:383-467 | room is refused exactly when offset, need and NUL exceed the capacity; what was printed survives the move to a larger buffer, and without allocation the buffer is never replaced |
| `JsonPrint.PrintBuffer.UpdateOffset` | code/src/cjson/cJSON.c:469-481 | the offset moves to the end of what was printed, wherever inside it stood |
| `JsonPrint.PrintBuffer.PrintStringPtr` | code/src/cjson/cJSON.c:836-956 | succeeds exactly when the quoted string and two bytes fit; the old contents are followed by the quoted string and a NUL, in the copying and in the escaping branch, and by two quotes where there is no string |
| `JsonPrint.PrintBuffer.CountEscapes` | code/src/cjson/cJSON.c:864-888 | the count made in advance is the number of characters escaping adds |
| `JsonPrint.PrintBuffer.WriteAll` | code/src/cjson/cJSON.c:907-951 | the escaping loop writes the escaped text and nothing before it |
| `JsonPrint.PrintBuffer.PrintNumber` | code/src/cjson/cJSON.c:484-547 | an integer below 10^15 in size is printed in full, and the offset behind it |
| `JsonPrint.PrintBuffer.PrintValue` | code/src/cjson/cJSON.c:1277-1348 | refines the rendering: succeeds exactly when the rendering and two bytes fit the capacity, leaves old contents, rendering and NUL, and restores the depth |
| `JsonPrint.PrintBuffer.PrintArray` | code/src/cjson/cJSON.c:1445-1504 | the same for arrays, over the loop with its separators |
| `JsonPrint.PrintBuffer.PrintObject` | code/src/cjson/cJSON.c:1616-1727 | the same for objects, over names, colons, line breaks and indentation |
| `JsonRenderFacts.RenderNulFree` | code/src/cjson/cJSON.c:469-481 | a rendering holds no NUL, which is what finding its end with strlen relies on |
| `JsonRoundTrip.ParseUndoesPrint` | code/src/cjson/cJSON.c:1011-1087 | parsing the printed text of a printable tree gives back the tree and the end of the text, formatted or not, with or without the demand that nothing follows |
| `JsonRoundTrip.ByteOrderMarkIsSkipped` | code/src/cjson/cJSON.c:994-1007 | a byte order mark in front of a printed tree changes nothing but the offset of the end |
| `JsonRoundTrip.TrailingText` | code/src/cjson/cJSON.c:1041-1053 | text behind a printed tree is where the parse ends, and an error there if nothing may follow |
| `JsonRoundTrip.RoundTripExactly` | code/src/cjson/cJSON.c:1351-1360 | the tree comes back from its text exactly when the nesting is within CJSON_NESTING_LIMIT |
| `JsonWhole.PrintAndParse` | code/src/cjson/cJSON.c:1011-1159 | printing into a buffer and parsing what is in it gives back the tree exactly if the text fits and the nesting is within the limit |
| `JsonRoundTrip.ReprintIsStable` | code/src/cjson/cJSON.c:1011-1095 | what was parsed can be printed and parsed again without change, when its numbers are plain integers |
| `JsonRoundTrip.ValueRead` | code/src/cjson/cJSON.c:1222-1274 | a rendering anywhere in an input, followed by nothing that continues a number, is read back and the offset put behind it |
| `JsonRoundTrip.ValueAccepted` | code/src/cjson/cJSON.c:1351-1442 | whatever is accepted is nested no deeper than the limit, counted from the starting depth, and holds no NUL |
| `JsonTextProofs.QuoteRead` | code/src/cjson/cJSON.c:708-834 | parse_string undoes print_string_ptr for every string |
| `JsonTextProofs.Utf8IsDecodable` | code/src/cjson/cJSON.c:649-697 | the bytes produced for a code point decode to it and have the length RFC 3629, section 3, gives |
| `JsonTextProofs.Utf8IsStandard` | code/src/cjson/cJSON.c:649-697 | the bytes produced for a code point other than a surrogate are one of the sequences of RFC 3629, section 4 |
| `JsonAcceptance.AcceptsExactly` | code/src/cjson/cJSON.c:1011-1087 | with nothing allowed behind the value, an input is accepted exactly if all of it is one value of the grammar, nested no deeper than 1000, and the tree is what that text means |
| `JsonAcceptance.RefusesExactly` | code/src/cjson/cJSON.c:1011-1087 | an input is refused exactly if it is no text of the grammar, and no text has two meanings |
| `JsonAcceptance.ReadsFromFront` | code/src/cjson/cJSON.c:1041-1053 | with text allowed behind it, every value of the grammar is read from the front, and the parse ends where it does |
| `JsonAcceptance.PrintedMeans` | code/src/cjson/cJSON.c:1011-1159 | the printed text of a tree is a text of the grammar that means the tree |
| `JsonErrors.ErrorIsWhereItBreaksOff` | code/src/cjson/cJSON.c:1037-1084 | an error is reported where the value breaks off, inside the elements and members read before it, or at the end of the input if that is behind it; or at what stands behind the value where nothing may |
| `JsonLiterals.StringRead` | code/src/cjson/cJSON.c:708-834 | parse_string accepts exactly the literals of the grammar and reads them as what they mean |
| `JsonLiterals.LiteralRead` | code/src/cjson/cJSON.c:708-834 | every literal of RFC 8259, section 7, is read as UTF-8: characters, the eight short escapes, and code points escaped with digits in either case, one above 0xffff by its surrogate pair |
| `JsonLiterals.StringRefused` | code/src/cjson/cJSON.c:715-834 | a string is refused behind its first character if a quote is missing, and otherwise at the first place where nothing of the grammar stands |
| `JsonLiterals.Hex4Read` | code/src/cjson/cJSON.c:550-583 | four characters are read as the number they spell in either case, and as zero exactly where one of them is no digit or they spell zero |
| `JsonNumerals.NumberRead` | code/src/cjson/cJSON.c:276-350 | a number that no further character of numbers follows is accepted exactly if it is a numeral of at most 63 characters, and is read as the decimal number it is, with fraction and exponent |
| `JsonText.NoOverrun` | code/src/cjson/cJSON.c:721-809 | for every input the unescaping loop writes no more than the first scan left room for, even where the two disagree on where escapes begin |
| `JsonText.AllocationSuffices` | code/src/cjson/cJSON.c:745-752 | text and NUL leave at least one byte of the allocation unused |
| `JsonText.OneTurn` | code/src/cjson/cJSON.c:755-809 | no turn of the loop writes more than the room shrinks by |
| `JsonParseBuffer.ParseHex4` | code/src/cjson/cJSON.c:550-583 | four hexadecimal digits in either case are the number they spell, anything else is zero |
| `JsonParseBuffer.Utf16LiteralToUtf8` | code/src/cjson/cJSON.c:587-705 | refuses exactly the malformed literals, and writes nothing but the bytes of the code point |
| `JsonParseBuffer.ParseBuffer.UnescapeString` | code/src/cjson/cJSON.c:754-812 | every write is inside the allocation; the result is the unescaped text or the place of the bad escape |
| `JsonParseBuffer.ParseBuffer.ScanString` | code/src/cjson/cJSON.c:721-743 | finds the closing quote the specification names and counts the escapes before it |
| `JsonParseBuffer.ParseBuffer.ParseString` | code/src/cjson/cJSON.c:708-834 | text and offset, or where parsing gave up, for every input |
| `JsonParseBuffer.ParseBuffer.ParseNumber` | code/src/cjson/cJSON.c:276-350 | value and offset of the longest number in at most 63 characters, or failure with the offset unmoved |
| `JsonParseBuffer.ParseBuffer.SkipWhitespace` | code/src/cjson/cJSON.c:973-991 | the offset ends on the next character above space, or on the final NUL |
| `JsonParseBuffer.ParseBuffer.ParseValue` | code/src/cjson/cJSON.c:1222-1274 | terminates on every NUL-terminated input with every access inside it; on success the depth is restored and the offset readable |
| `JsonParseBuffer.ParseBuffer.ParseArray` | code/src/cjson/cJSON.c:1351-1442 | the same for arrays, the depth limit included |
| `JsonParseBuffer.ParseBuffer.ParseObject` | code/src/cjson/cJSON.c:1507-1613 | the same for objects |
| `JsonParseBuffer.ParseWithOpts` | code/src/cjson/cJSON.c:1011-1087 | tree and end of parse, or error position, always inside the input |
| `JsonLayout.PrintsCompact` | code/src/cjson/cJSON.c:1277-1727 | without layout the text is brackets, commas, colons and the scalars, with nothing in between |
| `JsonLayout.PrintsPretty` | code/src/cjson/cJSON.c:1277-1727 | with layout an array stays on its line with a space behind each comma; each member of an object has a line of its own, behind as many tabs as containers are around it, and a tab behind its colon |
| `JsonLayout.EscapesAs` | code/src/cjson/cJSON.c:907-951 | seven characters are escaped by a letter, the other control characters by four lower-case digits, and all others stand for themselves |
| `JsonLayout.IntegerIsDecimal` | code/src/cjson/cJSON.c:484-547 | an integer is printed in decimal without leading zeros, with a minus sign exactly if it is negative |
| `JsonMinify.Minify` | code/src/cjson/cJSON.c:2692-2738 | the minified text replaces the text in place, the writing position never passing the reading one, and nothing behind the text is touched |
| `JsonMinify.MinifyString` | code/src/cjson/cJSON.c:2670-2690 | a string literal is moved as it is |
| `JsonMinifyText.MinifiesAs` | code/src/cjson/cJSON.c:2643-2738 | every text consists of white space, comments, literals and other characters, and minified it is its literals and other characters; a line comment ends with its line, a block comment at the first closing mark, a literal at the first quote no backslash precedes |
| `JsonMinify.MinifyTwice` | code/src/cjson/cJSON.c:2643-2738 | minifying twice is minifying once, on every text |
| `JsonMinifyTree.MinifyUndoesFormat` | code/src/cjson/cJSON.c:2670-2738 | minifying the formatted text gives the unformatted one exactly for the trees in which no string or name ends in a backslash, save a string that only closing brackets follow |
| `JsonMinifyTree.LayoutGoes` | code/src/cjson/cJSON.c:2670-2738 | in any context such a tree is reduced to its unformatted text, and scanning goes on outside a string unless it ended in a backslash |
| `JsonMinifyTree.LayoutStays` | code/src/cjson/cJSON.c:2679-2688 | for any other tree, in any context, some layout is kept |
| `JsonMinifyTree.OverQuote` | code/src/cjson/cJSON.c:2670-2690 | the end of a printed string is recognised unless the string ends in a backslash |
| `JsonMinifyTree.TrailingBackslashFails` | code/src/cjson/cJSON.c:2679-2688 | a string ending in a backslash and then null in an array show the failure |
| `JsonCompare.Compare` | code/src/cjson/cJSON.c:2840-2963 | yes exactly for one and the same node and for trees the comparison specified holds of |
| `JsonCompare.CaseInsensitiveStrcmp` | code/src/cjson/cJSON.c:104-125 | zero exactly for strings equal but for case |
| `JsonMeaning.NamesFold` | code/src/cjson/cJSON.c:104-125 | names are the same without case sensitivity exactly if they differ in the case of ASCII letters only |
| `JsonMeaning.ComparesAsEqual` | code/src/cjson/cJSON.c:2840-2963 | trees without objects compare equal exactly if they are equal |
| `JsonMeaning.MeansFirst` | code/src/cjson/cJSON.c:1782-1812 | an object means by each name what its first member of that name means |
| `JsonCompare.GetObjectItem` | code/src/cjson/cJSON.c:1782-1812 | the first member of that name, none exactly if there is none |
| `JsonCompare.SameIsMeaning` | code/src/cjson/cJSON.c:2840-2963 | two trees compare equal exactly if both are coherent (members of one name mean the same) and they mean the same, an object meaning a map |
| `JsonCompare.Equivalence` | code/src/cjson/cJSON.c:2840-2963 | symmetric and transitive on all trees, reflexive exactly on the coherent ones |
| `JsonCompare.UniqueIsCoherent` | code/src/cjson/cJSON.c:2922-2958 | trees whose objects have unique names are coherent |
| `JsonCompare.OrderDoesNotMatter` | code/src/cjson/cJSON.c:2922-2958 | objects with the same members in any order compare equal, and alike with any other tree, if the first is coherent |
| `JsonCompare.RepeatedNameDiffersFromItself` | code/src/cjson/cJSON.c:2922-2958 | a repeated name with two numbers makes an object differ from its own copy |
| `JsonDuplicate.Duplicate` | code/src/cjson/cJSON.c:2564-2641 | the copy consists of fresh nodes, none twice, linked both ways at every level, and holds what the source holds; the source is not changed |
| `JsonDuplicate.CopyComparesEqual` | code/src/cjson/cJSON.c:2564-2641 | the copy compares equal to the source exactly when no children were left behind and the source is coherent |
| `LinkedList.List.AppendNoMalloc` | code/src/paho/LinkedList.c:69-86 | appends at the end, cursor kept |
| `LinkedList.List.Append` | code/src/paho/LinkedList.c:90-97 | the same with a new element |
| `LinkedList.List.Insert` | code/src/paho/LinkedList.c:107-131 | inserts before the index, or at the end without one; the cursor stays on its element |
| `LinkedList.List.FindItem` | code/src/paho/LinkedList.c:154-192 | fails exactly if nothing matches; otherwise the cursor moves to the match, which is the element at the cursor or after it before any other |
| `LinkedList.List.Unlink` | code/src/paho/LinkedList.c:201-236 | removes the element the search finds and no other; the cursor stays unless it stood there, and then moves on |
| `LinkedList.List.DetachHead` | code/src/paho/LinkedList.c:268-285 | the first content and a list without it |
| `LinkedList.List.PopTail` | code/src/paho/LinkedList.c:306-324 | the last content and a list without it |
| `LinkedList.List.Empty` | code/src/paho/LinkedList.c:359-372 | nothing is left |
| `LinkedList.List.NextElement` | code/src/paho/LinkedList.c:411-415 | the neighbour on one side, the first element without a position |
| `LinkedList.List.PrevElement` | code/src/paho/LinkedList.c:424-428 | the neighbour on the other side, the last element without a position |
| `PendingWrites.WritesAre` | code/src/paho/MQTTAsync.c:1337-1357 | the writes taken out and those left are exactly those to idle and to other sockets, each in their old order |
| `PendingWrites.CheckPendingWrites` | code/src/paho/MQTTAsync.c:1337-1357 | exactly the writes to idle sockets are removed, in order, and exactly their publications released |
| `Base64.DecodeEncode` | code/src/paho/Base64.c:100-235 | decoding an encoding gives the bytes, for every byte string |
| `Base64.Encode` | code/src/paho/Base64.c:179-235 | with room the text, its NUL where a cell is left, and its length; without, a prefix of whole groups; nothing behind is touched, except exactly where the 32-bit counter wraps around |
| `Base64.Decode` | code/src/paho/Base64.c:100-177 | as many bytes as there is room for, a NUL where a cell is left, and nothing else, exactly if every read of the table is inside it |
| `Base64Standard.TablesHoldAlphabet` | code/src/paho/Base64.c:103-189 | both tables hold the alphabet of RFC 4648, section 4, and nothing else |
| `Base64Standard.EncodesAs` | code/src/paho/Base64.c:191-232 | each character of a text is the letter for six bits of its group of three bytes, from the top, or = where the group has no byte for them |
| `Base64Standard.DecodesAs` | code/src/paho/Base64.c:127-168 | a group of four characters is the three bytes its 24 bits make up; one with a third or fourth character outside the alphabet is the last |
| `Base64Standard.ShortRestIsIgnored` | code/src/paho/Base64.c:124-128 | a rest of fewer than four characters is ignored |
| `Base64.ReadsInsideExactly` | code/src/paho/Base64.c:131-132 | where char is signed every read of the table is inside it exactly if every character looked up is below 128 |
| `Base64.HighCharacterFails` | code/src/paho/Base64.c:131-132 | four characters, the first of them 200, are read at index -56 |
| `Base64.EncodingIsInside` | code/src/paho/Base64.c:100-235 | decoding what was encoded never leaves the table |
| `Base64.EncodedLength` | code/src/paho/Base64.c:179-235 | the text has 4 characters for each 3 bytes begun |
| `Base64.EncodeLengthIsExact` | code/src/paho/Base64.c:250-253 | the announced length is right exactly below 2^30 bytes |
| `Base64.DecodeLengthIsExact` | code/src/paho/Base64.c:239-248 | the length announced for an encoding is the number of bytes encoded, as long as its own length fits 32 bits |
| `Base64.BytesOfSextets` | code/src/paho/Base64.c:127-160 | the bits of three bytes survive the way through four sextets |
| `Crc16.CRC16` | code/src/main.cpp:179-200 | the loops compute the register after all bits of the message, 0xffff for none |
| `Crc16Division.ChecksumIsRemainder` | code/src/main.cpp:179-200 | the checksum of two bytes or more is the remainder, modulo X^16 + X^12 + X^5 + 1, of their bits with the first sixteen inverted, times X^16 |
| `Crc16Division.ShortChecksum` | code/src/main.cpp:179-200 | of every message, however short, it is the remainder of the bits times X^16 with ones added in front |
| `Crc16Division.RemainderIsUnique` | code/src/main.cpp:179-200 | quotient and remainder by the generator are unique |
| `Crc16Division.LeadingZeroIsNoticed` | code/src/main.cpp:181-181 | a zero byte in front of the empty message changes the checksum from 0xffff to 0xe1f0 |
| `Crc16Division.ChecksumOfDigits` | code/src/main.cpp:179-200 | the ASCII digits 1 to 9 have the checksum 0x29b1 |
| `Crc16.FeedByte` | code/src/main.cpp:187-198 | eight turns of the inner loop feed the bits of one byte |
| `Crc16.TrailerCheck` | code/src/main.cpp:179-200 | two more bytes bring the checksum to zero exactly if they are the checksum, high byte first |
| `Crc16.FrameCheck` | code/src/main.cpp:179-200 | the machine word computed over message and trailer is 0 exactly if the trailer is the high and the low byte of the word computed over the message |
| `Crc16.BurstDetected` | code/src/main.cpp:179-200 | messages of equal length that differ, but only within 16 consecutive bits, have different checksums |
| `Crc16.OddErrorsDetected` | code/src/main.cpp:179-200 | messages of equal length that differ in an odd number of bits, wherever these are, have different checksums |
| `Crc16.ChecksumParity` | code/src/main.cpp:189-196 | the checksum has the parity of the message, at any length |
| `Crc16.FeedXor` | code/src/main.cpp:191-196 | the register is linear in its start and its bits |
| `CommandBuffers.Buffers` | code/src/paho/MQTTAsync.c:774-931 | as many buffers are filled as were counted, and together they are the encoded command; none for CONNECT and DISCONNECT |
| `CommandCodec.RestoreOfPersist` | code/src/paho/MQTTAsync.c:934-1099 | what comes back of every persisted command |
| `CommandCodec.RestoreIsIdentity` | code/src/paho/MQTTAsync.c:934-1099 | below version 5 a restored command is the persisted one |
| `CommandCodec.RestoreIsIdentityInV5` | code/src/paho/MQTTAsync.c:934-1099 | in version 5 exactly if no four-byte property is spoilt and no topic is subscribed to |
| `CommandCodec.SubscriptionIsKept` | code/src/paho/MQTTAsync.c:808-831 | topics and the options of each are kept; the qos list is kept below version 5 only |
| `CommandCodec.RestoredIsDispatchable` | code/src/paho/MQTTPacketOut.c:258-265 | a restored command has the qos list sending it reads, except exactly a version 5 SUBSCRIBE with a topic |
| `Properties.PropertiesTaken` | code/src/paho/MQTTProperties.c:208-325 | a property list is read back in full, unchanged exactly if no four-byte integer is spoilt |
| `Properties.PropertiesLenIsExact` | code/src/paho/MQTTProperties.c:89-93 | the length computed in advance is the length written, exactly if the list fits its prefix |
| `Properties.AddedLengthIsExact` | code/src/paho/MQTTProperties.c:102-162 | adding a property counts the bytes writing it takes |
| `Properties.Int4Taken` | code/src/paho/MQTTPacket.c:909-934 | readInt4 undoes writeInt4 exactly below 2^31 and on multiples of 2^24 |
| `Properties.LargestIsSpoilt` | code/src/paho/MQTTPacket.c:909-934 | 0xFFFFFFFF comes back as 255 |
| `Properties.VbiTaken` | code/src/paho/MQTTPacket.c:996-1021 | decoding undoes encoding for the integers of four bytes |
| `Properties.VbiLenIsExact` | code/src/paho/MQTTPacket.c:974-987 | the length of a variable byte integer is right exactly below 2^28 |
| `StoredForm.IntIsLittleEndian` | code/src/paho/MQTTAsync.c:801-806 | an int is stored lowest byte first, a negative one as its two's complement |
| `StoredForm.VbiIsStandard` | code/src/paho/MQTTPacket.c:285-300 | a variable byte integer is written as section 1.5.5 of MQTT 5.0 says: seven bits a byte, the lowest first, the top bit set in all but the last, and no more bytes than needed |
| `StoredForm.TypesAreStandard` | code/src/paho/MQTTProperties.c:32-87 | every property has the type table 2-4 of MQTT 5.0 gives it |
| `StoredForm.PropertyIsStandard` | code/src/paho/MQTTProperties.c:164-205 | a property is written as its identifier and its value, highest byte first (sections 1.5.2 to 1.5.7), for four-byte integers below 2^31 |
| `StoredForm.KeyIs` | code/src/paho/MQTTAsync.c:760-770 | a key is c- or in version 5 c5- and the number in decimal |
| `StoredForm.PublishExample` | code/src/paho/MQTTAsync.c:860-905 | the bytes stored for a publication |
| `StoredForm.SubscribeExample` | code/src/paho/MQTTAsync.c:792-817 | the bytes stored for a subscription below version 5 |
| `StoredForm.Subscribe5Example` | code/src/paho/MQTTAsync.c:792-831 | the bytes stored for a version 5 subscription, with its options and properties |
| `StoredForm.UnsubscribeExample` | code/src/paho/MQTTAsync.c:834-858 | the bytes stored for an unsubscription |
| `CommandKeys.KeyFits` | code/src/paho/MQTTAsync.c:757-772 | the key buffer holds the key exactly below 1000000, below 100000 in version 5 |
| `CommandKeys.SeqnoOfKey` | code/src/paho/MQTTAsync.c:1151-1151 | the number is read back from the key, and the tag tells the version |
| `QueueGuards.TakesExactly` | code/src/paho/MQTTAsync.c:1531-1583 | the first command is taken that is its client's first and that connection, message ids and receive maximum let through, and it alone leaves queue and store; none exactly if there is none |
| `QueueGuards.ControlAlwaysGoes` | code/src/paho/MQTTAsync.c:1548-1549 | with a CONNECT or DISCONNECT first of its client a command is taken, whatever the network does |
| `QueueGuards.WorkGoes` | code/src/paho/MQTTAsync.c:1548-1571 | with work first of its client a command is taken as soon as connection, ids and receive maximum allow it |
| `QueueOrder.AddsAt` | code/src/paho/MQTTAsync.c:1181-1201 | CONNECT and internal DISCONNECT go to the head, unless the head is one of them already; work and the application's DISCONNECT go to the tail, take the next number, and work its entry |
| `QueueOrder.SubmitsAt` | code/src/paho/MQTTAsync.c:1181-1201 | a submission stands at the tail, with the content and callbacks given and the next number |
| `QueueOrder.NothingOvertakes` | code/src/paho/MQTTAsync.c:1181-1583 | over every history of a process nothing queued overtakes anything queued, and nothing leaves the queue before what stands in front of it of its own client |
| `QueueOrder.DisconnectComesLast` | code/src/paho/MQTTAsync.c:1181-1583 | over every history a DISCONNECT of the application stands behind all work of its client that was queued before it and still is |
| `QueueReports.SettlesAs` | code/src/paho/MQTTAsync.c:1726-1886 | reported as done exactly a QoS 0 publication written completely, as failed exactly work with an error, each by the callback that is set; all other work awaits its response |
| `QueueReports.AcknowledgesAs` | code/src/paho/MQTTAsync.c:2439-2589 | the first response with the message id leaves the list and gets the callback its client's version and the answer ask for; without one nothing happens |
| `QueueReports.WritesAs` | code/src/paho/MQTTAsync.c:1417-1520 | the first response of the write that ended is reported as done for code 1 and QoS 0, as failed for code -1, and stays for other codes |
| `QueueReports.RemovesAs` | code/src/paho/MQTTAsync.c:2070-2162 | the client's responses and then its queued work end in order, each by its failure callback if it has one; of the queue exactly the commands of the others stay, in order |
| `QueueReports.CleansAs` | code/src/paho/MQTTAsync.c:2860-2883 | the same, and the store is empty afterwards |
| `QueueReports.DestroysAs` | code/src/paho/MQTTAsync.c:2165-2178 | the same, and the client is gone while its store is left alone |
| `AsyncClient.Async.AddCommand` | code/src/paho/MQTTAsync.c:1172-1212 | takes the step of the machine: head or tail, the duplicate at the head dropped, the entry stored |
| `AsyncClient.Async.PersistCommand` | code/src/paho/MQTTAsync.c:774-931 | stores the encoding under the next number; a DISCONNECT takes a number only |
| `AsyncClient.Async.SelectCommand` | code/src/paho/MQTTAsync.c:1534-1571 | the loop with its list of ignored clients stops where the specification does |
| `AsyncClient.Async.TakeCommand` | code/src/paho/MQTTAsync.c:1523-1583 | takes the step: queue, store and hand |
| `AsyncClient.Async.SettleCommand` | code/src/paho/MQTTAsync.c:1586-1886 | takes the step: response list, callback or retry by type and result |
| `AsyncClient.Async.HandleAck` | code/src/paho/MQTTAsync.c:2439-2589 | takes the step: the first response with the message id, its callback, and no other; with callbacks of the client's version the one for failure exactly for a refusal, and the one for success exactly otherwise |
| `AsyncClient.Async.WriteComplete` | code/src/paho/MQTTAsync.c:1417-1520 | takes the step for a completed or failed write |
| `AsyncClient.Async.RemoveResponsesAndCommands` | code/src/paho/MQTTAsync.c:2070-2162 | takes the step: all of one client's responses, then its queued commands, fail in order, and nobody else's |
| `AsyncClient.Async.CleanSession` | code/src/paho/MQTTAsync.c:2860-2883 | takes the step: the store emptied as well |
| `AsyncClient.Async.CloseSession` | code/src/paho/MQTTAsync.c:2834-2844 | cleans the session of a client exactly if it ends with the connection |
| `AsyncClient.Async.Destroy` | code/src/paho/MQTTAsync.c:2165-2178 | takes the steps: the session closed, then the store kept as it is and the client gone |
| `AsyncClient.Async.Create` | code/src/paho/MQTTAsync.c:571-718 | a client made anew over its store joins queue and clients as the machine says |
| `QueueConservation.StepBalances` | code/src/paho/MQTTAsync.c:1417-1886 | no step other than a submission changes in how many places a command is |
| `QueueScheduling.SelectIsFirstReady` | code/src/paho/MQTTAsync.c:1534-1571 | the command taken is the first that is its client's first and eligible; none exactly if there is none |
| `QueueScheduling.BlockedNeverBlocksOthers` | code/src/paho/MQTTAsync.c:1528-1571 | if any client's first command is eligible, one is taken |
| `QueueScheduling.DispatchIsAllowed` | code/src/paho/MQTTAsync.c:1548-1567 | work is dispatched only on an idle, writable connection, within message ids and receive maximum |
| `QueueScheduling.StepKeepsOrder` | code/src/paho/MQTTAsync.c:1181-1201 | every step keeps dispatched and queued work of one client in the order of submission |
| `QueueStore.StepMirrors` | code/src/paho/MQTTAsync.c:1172-1212 | every step keeps a store the encodings of the queued work, with ascending or with distinct numbers |
| `StoredForm.WordIsLowHalf` | code/src/paho/MQTTPersistence.c:378-392 | the integer compared is the lower half of the onSuccess address, as a signed number |
| `CommandRestore.InsertInOrder` | code/src/paho/MQTTPersistence.c:378-392 | inserts before the first command whose compared word is greater |
| `CommandRestore.RestoreCommands` | code/src/paho/MQTTAsync.c:1119-1168 | the restored commands stand together, in the order the keys are listed, before the first queued command with a positive word; numbering goes on from the highest |
| `CommandRestore.RestartRebuilds` | code/src/paho/MQTTAsync.c:1119-1168 | what is restored is the queued work, with its numbers and contents, in the order of the listed keys |
| `CommandRestore.OrderSurvives` | code/src/paho/MQTTAsync.c:1119-1168 | work in ascending order comes back in its order exactly if the command keys are listed by ascending number |
| `CommandRestore.SeqnoOrderRebuilds` | code/src/paho/MQTTAsync.c:1101-1116 | with the commented-out insertion by number the old order would always come back |
| `Restart.CreateKeeps` | code/src/paho/MQTTAsync.c:1119-1168 | a client made anew in any sound state leaves every invariant in force, whatever the listing; an ascending listing makes the numbers ascend even if they did not before |
| `Histories.EveryWorldIsSound` | code/src/paho/MQTTAsync.c:1101-1212 | over every history of steps, crashes and restarts of any clients every invariant holds, and the numbers ascend if every listing did |
| `Histories.ExactlyOnePlace` | code/src/paho/MQTTAsync.c:1573-1886 | over every history each command submitted or restored is in exactly one of queue, hand, its client's responses and the finished ones |
| `Histories.AtMostOneCallback` | code/src/paho/MQTTAsync.c:2070-2162 | over every history a command gets at most one callback, and is then nowhere else |
| `Histories.RecordGrows` | code/src/paho/MQTTAsync.c:2070-2162 | while the process lives, what was finished and called is never taken back |
| `Histories.MessageIdsDiffer` | code/src/paho/MQTTAsync.c:3452-3491 | over every history the live commands of a client have different message ids, zero apart |
| `Histories.DispatchedInOrder` | code/src/paho/MQTTAsync.c:1181-1201 | over every history one client's work is dispatched in the order of submission, whatever goes to the head |
| `Histories.StoreMirrorsQueue` | code/src/paho/MQTTAsync.c:1573-1580 | over every history a persistent client's entries are exactly those of its queued work, under distinct numbers, ascending ones if every listing was in order |
| `Histories.NextEntryIsNew` | code/src/paho/MQTTAsync.c:911-920 | over every history the next entry takes over no other |
| `Histories.RestartBringsBack` | code/src/paho/MQTTAsync.c:1119-1168 | whenever a client is stopped and made anew its queued work is back, each command as persisted, in the order of the listing; with every earlier listing in order, in the old order exactly if this one is |
| `QueueProgress.QueueDrains` | code/src/paho/MQTTAsync.c:1523-1583 | while the connections stay as they are, turns of the sending thread dispatch every client's commands up to its first one not eligible, in order, and leave the others in order |
| `QueueProgress.AllGo` | code/src/paho/MQTTAsync.c:1523-1583 | if every queued command is eligible that is the whole queue |
| `QueueProgress.LostWrite` | code/src/paho/MQTTAsync.c:1417-1520 | a write that ends with a code other than 1 and -1 leaves its publication without a pending write among the responses |
| `QueueProgress.StuckForGood` | code/src/paho/MQTTAsync.c:1417-1520 | over every history such a publication stays there without a callback until process, client or session ends |
| `Cleaning.CleanedInHalves` | code/src/paho/MQTTAsync.c:2860-2883 | with additions between emptying the store and removing the commands the stores mirror the queue exactly if the client, being persistent, submitted nothing there |
| `Losses.ReversalHappens` | code/src/paho/MQTTAsync.c:1132-1154 | two submissions, a crash and a listing with the later key first make a history after which the later command comes first |
| `Losses.UnsendableHappens` | code/src/paho/MQTTPacketOut.c:258-265 | a version 5 subscription, a crash and a restart make a history in which a command is taken whose qos list, which sending it reads, is not there |
| `CommandLists.TakeCommand` | code/src/paho/MQTTAsync.c:1534-1583 | the walk over the linked queue and the detaching of the command found take the step of the machine |
| `CommandLists.InsertInOrder` | code/src/paho/MQTTPersistence.c:378-392 | on the linked queue: inserts before the first command whose compared word is greater |
| `CommandLists.RemoveCommands` | code/src/paho/MQTTAsync.c:2118-2158 | the walk that fetches the next element before removing the current one removes one client's commands and no other, in order |
| `MessageIds.Session.AssignMsgId` | code/src/paho/MQTTAsync.c:3452-3491 | an id from 1 to 65535 in use nowhere, the first after the last one assigned; zero exactly if every other id is in use |
| `MessageIds.SearchEnds` | code/src/paho/MQTTAsync.c:3472-3484 | the search ends exactly if it did not start from zero or some id is free |
| `MessageIds.SearchWithoutEnd` | code/src/paho/MQTTAsync.c:3472-3484 | with a queue that holds every id and none assigned before, each id tried is in use |
| `Submissions.Send` | code/src/paho/MQTTAsync.c:3493-3608 | assigns an id in use nowhere and takes the step of the submission with it, or changes nothing exactly if every other id is in use; publications of QoS 0 go without |
| `ConnectRetry.Connector.ConnectInVain` | code/src/paho/MQTTAsync.c:1586-1879 | when every attempt fails, at once or later, the attempts are exactly the expected ones and one failure is reported |
| `ConnectRetry.Connector.CheckConn` | code/src/paho/MQTTAsync.c:559-568 | says whether an attempt is left |
| `ConnectRetry.Connector.ProcessConnect` | code/src/paho/MQTTAsync.c:1586-1656 | makes the next expected attempt |
| `ConnectRetry.Connector.NextOrClose` | code/src/paho/MQTTAsync.c:1892-1949 | after a late failure the remaining attempts are the same ones |
| `ConnectRetry.HowManyAttempts` | code/src/paho/MQTTAsync.c:1623-1631 | twice as many attempts as addresses by default, otherwise as many, and one address at least |
| `ConnectRetry.WhichAttempt` | code/src/paho/MQTTAsync.c:1594-1631 | address and version of each attempt, the address always below the count |
| `Delivery.DeliveredInOrder` | code/src/paho/MQTTAsync.c:2901-2967 | with a callback set, what was accepted and what still waits together are what arrived, whatever the callback answers |
| `Delivery.Inbox.ProcessPublication` | code/src/paho/MQTTAsync.c:2901-2967 | takes the step of an arrival; without a callback, or while others wait, the message waits |
| `Delivery.Inbox.DeliverQueued` | code/src/paho/MQTTAsync.c:2343-2367 | takes the step of a turn; without a callback the head is thrown away |
| `Delivery.QueueDrains` | code/src/paho/MQTTAsync.c:2343-2367 | as many accepted turns as messages wait deliver everything that arrived |

## Left out

- JsonParseBuffer.ParseBuffer.ParseNumber: `strtod` is taken as given and exact; rounding to `double`, the integer copy of
  a number and the locale are not modelled.
- JsonPrint.PrintBuffer.PrintNumber: only integers below 10^15 in size, which print as plain digits; fractions, NaN and
  infinities are not printed here.
- JsonPrint.PrintBuffered: a first size of zero is excluded; the source then copies a byte the buffer does not have.
- JsonParseBuffer.ParseBuffer.ParseArray: the tree is built as a value; how the parser links nodes is not modelled.
- JsonCompare.Compare: works on values; whether the two are one node is a parameter, and below the top two different
  trees are taken to share no node.
- JsonDuplicate.Duplicate: type flags (reference, constant name) and the integer copy of a number are not modelled.
- AsyncClient.Async.HandleAck: the values handed to the callbacks are not modelled, nor callbacks of CONNECT and DISCONNECT.
- AsyncClient.Async.CleanSession: the message lists it empties and the message id it resets are kept in other modules.
- AsyncClient.Async.Create: the checks of the address and the client id, and the state restored by other modules, are left
  out.
- Base64.Encode: what is left behind where the counter wraps around is not modelled.
- AsyncClient.Async.WriteComplete: the pending write is known by the id of its command, so that a freed command and a new
  one at the same address are not confused.
- AsyncClient.Async.SettleCommand: what the protocol functions send is not modelled; their result is an input.
- CommandCodec.RestoreOfPersist: reading past the end of a damaged entry is a failure here; the source does not look.
- CommandRestore.InsertInOrder: the compared word is that of a 64-bit machine with the low half first; in a restored
  command it is zero on any machine.
- ConnectRetry.Connector.ConnectInVain: automatic reconnection and a second connect call are not modelled.
- Submissions.Send: the checks of the arguments and the limit on buffered messages are left out.
- CommandLists.TakeCommand: the queue is shown on the linked list for the walks that take, insert and remove; the response
  lists are sequences only.
- LinkedList.List.Append: the byte total in `size` is not modelled; the source never reduces it.
- Raw JSON items, references and the operations that edit trees in place.
- Sockets, TLS, WebSocket, threads, time and the MQTT packets other than properties.
- Commands already handed to the protocol when the process crashes: what it stored of them is not part of this model.
- The persistent form of inbound messages, QoS handshakes and retries of the protocol layer.
- The Modbus and database side of the gateway: it moves values between libraries that are not part of this model.
