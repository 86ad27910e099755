# Verification of the cczoecpp fiber and HTTP library

Three parts of the library are modelled and proved here.

**The HTTP parser and printer** (`Http*.dfy`, `Url*.dfy`). `HttpMachine` is the meaning of one
byte: every arm of the parser's switch as a function of the saved fields, over the whole state
space (requests, responses, undecided; strict mode, not lenient). `HttpInvariant` proves what
the asserts in the switch rest on. `HttpMarks`, `HttpArms`, `HttpScan` and `HttpParser` hold
`http_parser_execute` as it is written, a method on an object with the parser's fields, proved
to do what its bytes do one at a time; `HttpFragments` concludes that cutting a connection into
buffers differently changes nothing. `HttpFraming`, `HttpMethods`, `HttpNames`, `HttpTokens`
and `UrlSplit`, `UrlSound`, `UrlHost` state what lengths, chunks, methods, header names, lists of
codings and options, and URLs mean. `HttpLines`, `HttpLineEnds`, `HttpSections`, `HttpMessages`
and `HttpResponses` put them together: from any request or status line and any header lines to
the body that follows, to its end, and to the next message on the connection. `HttpRequest` is
the request object, its printer and the callbacks of `HttpRequestParser`; `UrlTarget` and
`HttpRoundTrip` show that parsing undoes printing, and `HttpCuts` says what becomes of a request
whose fields are handed over in pieces.

**The byte buffer** (`Byte*.dfy`). `ByteBuffer` has the chain of blocks on the heap, with the
cursor kept twice as in the source, and every method as written; `ByteArray` has the flat
sequence with a cursor it stands for, `ByteRuns` says exactly when one is the other, and
`ByteCodec`, `ByteItems` are the typed readers and writers.

**The runtime** (`Timers`, `IoManager`, `DoIo`, `Worker`). The ordered set of timers, the event
slots with the kernel's interest set, and the machine of fibers that park in `do_io` on one
worker. `Worker` puts the objects together: a worker that holds an `IOManager` and a
`TimerManager` is in the state of the machine after every step it takes.

A data callback of the model is followed by a ghost note when the parser closes the field, so
that "the same field goes on" can be told from "another field follows"; `Merged` drops the notes.
Where the code departs from its intent the code is modelled, and the contract says when it meets
the intent: `ByteArray::write`, `read`, `setPosition` and `addWriteBuffers` at the edges of the
capacity, `readUint64`, the byte order of signed numbers, the digits of bytes from 0x80 on, the
commas and tabs in lists of codings and options, the bodies of responses that should have none, the 32-bit counter of header bytes, the handlers of `HttpRequestParser`, which keep the last piece
of a field only (cuts inside a field, chunks, folded values), `triggerEvent`, the idle pass after an error or hangup, a timeout
that comes when its wait is over, `Timer::refresh`, the vector that is too short for descriptors
0 and 1, and the hooked `sleep`. A comment beside the
call of `addEvent` (cczoecpp/Net/Hook/hook.h:79) says that without a callback the fiber is what
will be scheduled; as the code stands a callback left behind by an earlier event comes first
(`IoManager.StaleCallback`).

## Model

| member | source | states |
|---|---|---|
| HttpParser.Parsing.Execute | cczoecpp/Net/Http/parser/http_parser.cpp:641-2155 | one call over a whole buffer of any length, with marks, fast inner loops, bulk skips, re-executed bytes and one header count per loop, ends in the saved fields, return value and joined callbacks of the byte-by-byte run, and fails where that fails; only if the run fails for a header over the limit, and the buffer holds a stretch of name or value bytes so long that the 32-bit counter may come round in it, may the call go on; every assert of the switch holds whenever the loop enters it; the call terminates although loops move the cursor both ways, and never returns more than the length |
| HttpRoundTrip.LongNameInRequest | cczoecpp/Net/Http/parser/http_parser.cpp:1383-1391 | such an input: behind a request line a name of over 2^32 bytes, far over the limit, is accepted |
| HttpParser.LongNameIsAccepted | cczoecpp/Net/Http/parser/http_parser.cpp:1383-1391 | so it is by any parser in the middle of a name |
| HttpParser.LongNameFails | cczoecpp/Net/Http/parser/http_parser.cpp:712-719 | while byte by byte any name that passes the limit fails |
| HttpParser.Parsing.Eof | cczoecpp/Net/Http/parser/http_parser.cpp:665-685 | an empty buffer closes the connection: it completes a message read to the end of file, is harmless between messages, and is an error anywhere else |
| HttpParser.AtMostOneMark | cczoecpp/Net/Http/parser/http_parser.cpp:2135-2147 | when a buffer runs out at most one mark is set, and handing it over completes the trace of the run |
| HttpFragments.Feed | cczoecpp/Net/Http/parser/http_parser.cpp:687-710 | a connection fed buffer by buffer ends in the state and with the callbacks of the run over all its bytes at once, up to where the protocol changes, and fails where that fails unless the header counter came round in one of the buffers |
| HttpFragments.FeedBothWays | cczoecpp/Net/Http/parser/http_parser.cpp:641-2155 | two parsers fed the same bytes cut in different places agree: on success, on every saved field and on the callbacks with adjacent data merged when the run succeeds, and on failing otherwise, unless the header counter came round |
| HttpFragments.RunAppend | cczoecpp/Net/Http/parser/http_parser.cpp:712-719 | the run over two buffers is the run over the first, continued over the second, whatever way the first ends |
| HttpFragments.MergedJoined | cczoecpp/Net/Http/parser/http_parser.cpp:105-134 | merging adjacent data of a log loses nothing that joining pieces of one field keeps |
| HttpArms.SkipBody | cczoecpp/Net/Http/parser/http_parser.cpp:1944-1975 | skipping any number of body bytes short of the last is as many steps of one byte, told as one callback |
| HttpArms.SkipToEof | cczoecpp/Net/Http/parser/http_parser.cpp:1981-1985 | so is taking the rest of the buffer of a body read to the end of file |
| HttpArms.CountDownArm | cczoecpp/Net/Http/parser/http_parser.cpp:1944-1979 | the bulk arm of a counted body or chunk leaves exactly the run still to be done, and re-reads the last byte of a counted body as the end of the message |
| HttpScan.FieldArm | cczoecpp/Net/Http/parser/http_parser.cpp:1256-1391 | the loop over header-name bytes, with its inner loop for unknown names, does what its bytes do one by one, the limit checked once included, unless the counter came round within the name |
| HttpScan.ValueArm | cczoecpp/Net/Http/parser/http_parser.cpp:1482-1706 | the same for header values, where the inner loop can step over one byte unchecked at the length of the header limit: the run is an error by then anyway |
| HttpMachine.AgainLowersRank | cczoecpp/Net/Http/parser/http_parser.cpp:66-67 | every re-execution of a byte strictly lowers a rank on states, so a byte is left behind in the end |
| HttpInvariant.RunKeeps | cczoecpp/Net/Http/parser/http_parser.cpp:719-2123 | on any input over any number of buffers none of the asserts written in the switch can fail while its bytes are taken one at a time, and the invariant they rest on holds wherever the parser stops |
| HttpInvariant.DriveKeeps | cczoecpp/Net/Http/parser/http_parser.cpp:1994-2116 | while one byte is driven through the switch, re-executions included, every assert reached holds: chunk flag, counter of one at a chunk size, length neither zero nor the sentinel, legal header sub-states |
| HttpInvariant.ArmKeeps | cczoecpp/Net/Http/parser/http_parser.cpp:719-2123 | every arm of the switch keeps the invariant |
| HttpFraming.SizeIsExact | cczoecpp/Net/Http/parser/http_parser.cpp:2012-2047 | digits of a chunk size are accepted exactly when the number they spell, with the table's value for every digit, is at most 2^64 - 17; that number is then the length, so nothing wraps |
| HttpFraming.SizeMeansUsual | cczoecpp/Net/Http/parser/http_parser.cpp:2012-2047 | the digits accepted are hexadecimal digits spelling that number as usual if and only if none of them is a byte from 0x80 on |
| HttpFraming.HighByteEndsBody | cczoecpp/Net/Http/parser/http_parser.cpp:1996-2047 | the size line of the one byte 0x80 is taken for that of the last chunk |
| HttpFraming.LengthIsExact | cczoecpp/Net/Http/parser/http_parser.cpp:1408-1450 | a Content-Length value is accepted exactly when it is digits spelling at most 2^64 - 7 followed by spaces only; that number, below the sentinel, is the length, the value is handed over, and nothing else changes; a second length is refused at its first digit |
| HttpFraming.LengthRuns | cczoecpp/Net/Http/parser/http_parser.cpp:1528-1570 | the same from the middle of the digits on |
| HttpFraming.ChunkedRoundTrip | cczoecpp/Net/Http/parser/http_parser.cpp:1987-2116 | for any list of non-empty chunks, sizes in any spelling and with any extensions, the body callbacks hand over exactly the data in order, each chunk and the last one is completed once, the message once, and nothing is left unread |
| HttpFraming.BodyRuns | cczoecpp/Net/Http/parser/http_parser.cpp:1795-1804 | the run over an encoded body, its last chunk and blank line ends at the next message with exactly the encoded body's events |
| HttpFraming.SizeLineRuns | cczoecpp/Net/Http/parser/http_parser.cpp:1996-2076 | a size line with its digits and extensions leaves the size it spells, or the trailer state when that is zero |
| HttpFraming.SpelledIsChunk | cczoecpp/Net/Http/parser/http_parser.cpp:224-233 | every admissible piece of data has an encoding: the usual hexadecimal spelling reads back as its length |
| HttpMethods.MethodIsExact | cczoecpp/Net/Http/parser/http_parser.cpp:927-1022 | over any bytes, whatever follows the first space, the URL state is first reached with method m if and only if, empty lines apart, the bytes read are m's full name and a space, and those bytes are within the header limit |
| HttpMethods.OnlyNamesAreRead | cczoecpp/Net/Http/parser/http_parser.cpp:971-1022 | at each step the bytes read are the first index characters of the present guess, so the index never passes the name's end |
| HttpMethods.GuessStepComplete | cczoecpp/Net/Http/parser/http_parser.cpp:985-1009 | along a method's own name every byte is accepted and turns the guess into the one its bytes call for |
| HttpMethods.ToUrlIsRun | cczoecpp/Net/Http/parser/http_parser.cpp:927-1022 | the recogniser's steps are the start of the parser's run |
| HttpNames.NameIsExact | cczoecpp/Net/Http/parser/http_parser.cpp:1206-1391 | over any header name the parser ends knowing exactly whether it is one of the names that matter, case apart, and has set the transfer-encoding bit exactly when the name starts with that word |
| HttpNames.NameStepKnows | cczoecpp/Net/Http/parser/http_parser.cpp:1264-1372 | one more byte keeps what is known equal to what the bytes so far call for |
| UrlSplit.UrlParser.Parse | cczoecpp/Net/Http/parser/http_parser.cpp:2422-2543 | both passes and the port loop, on fields kept in 16 bits, compute the split for buffers of any length without leaving the buffer, and its range assertion holds |
| UrlSplit.UrlParser.ParseHost | cczoecpp/Net/Http/parser/http_parser.cpp:2335-2415 | the second pass over the host field computes userinfo, host and port in its place |
| UrlSound.SplitIsSound | cczoecpp/Net/Http/parser/http_parser.cpp:2422-2543 | a successful split of under 65536 bytes is sound: non-empty fields inside the buffer, disjoint and in their order, every other byte a delimiter, and the port the decimal value of its text and at most 65535 |
| UrlSound.OrderedIsDisjoint | cczoecpp/Net/Http/parser/http_parser.cpp:494-639 | fields in their order share no byte |
| UrlSound.WalkIsSound | cczoecpp/Net/Http/parser/http_parser.cpp:494-639 | the first pass leaves ordered fields that, with delimiters, cover what was read |
| UrlSound.HostWalkIsSound | cczoecpp/Net/Http/parser/http_parser.cpp:2253-2333 | the second pass does so within the host field and touches no other |
| UrlTarget.TargetSplits | cczoecpp/Net/Http/parser/http_parser.cpp:2440-2497 | a path, query and fragment printed one after another are found again where they were put |
| UrlHost.UrlSplits | cczoecpp/Net/Http/parser/http_parser.cpp:2253-2543 | a printed URL, of any letters as schema, with or without user, with a name or a bracketed address and zone, with or without port, and any target, splits into exactly these parts at their places, with the number of the port; it is refused if and only if that is over 65535 |
| UrlHost.ConnectSplits | cczoecpp/Net/Http/parser/http_parser.cpp:2422-2543 | the target of CONNECT is accepted exactly when it is a host and a port that fits, with no user |
| HttpRequest.HttpRequest.Dump | cczoecpp/Net/Http/http.cpp:42-82 | what is printed is the request line, connection line, header lines in the map's order, length line and body of the request's value |
| HttpRequest.HttpRequestParser.Execute | cczoecpp/Net/Http/HttpParser.cpp:9-92 | the callbacks of one call build the request in order, each piece of data overwriting what an earlier piece of its field left, until one of them stops the parser |
| HttpRequest.HttpRequestParser.Callback | cczoecpp/Net/Http/HttpParser.cpp:17-85 | each handler updates exactly its part of the request under construction |
| HttpRoundTrip.ReadBack | cczoecpp/Net/Http/http.cpp:42-82 | printing a well-formed request and parsing it in one buffer gives back its method, version, path, query, fragment and body, and every header, plus only the printed connection and length headers |
| HttpRoundTrip.PrintedRuns | cczoecpp/Net/Http/parser/http_parser.cpp:927-1975 | the run over a printed request consumes it to the end and tells of every part of it exactly once |
| HttpRoundTrip.PrintedKeeps | cczoecpp/Net/Http/http.cpp:44-58 | behind a printed request without connection headers of its own the parser waits for another if and only if the request was not to close the connection |
| HttpRoundTrip.HandleMessage | cczoecpp/Net/Http/HttpParser.cpp:17-82 | the handlers turn those callbacks into the request that was printed |
| HttpRoundTrip.HeadersAreRecovered | cczoecpp/Net/Http/http.h:135-189 | every header is found under its name, case apart, with its value; a connection header of the request wins over the printed one |
| HttpRoundTrip.OneBuffer | cczoecpp/Net/Http/parser/http_parser.cpp:2135-2147 | read in one buffer, a printed request is handed over with each part in one piece, so that overwriting loses nothing of it |
| HttpCuts.ReadCut | cczoecpp/Net/Http/HttpParser.cpp:9-92 | a request read in any number of buffers: two pieces of one field come side by side if and only if some cut is not clean, where a cut is clean if the bytes before it end with no data handed over, or behind the last byte of a chunk; if all are, the request built is that of one buffer, and is refused exactly if that is |
| HttpCuts.SpacedJoin | cczoecpp/Net/Http/parser/http_parser.cpp:687-710 | one more buffer puts two pieces side by side exactly when the cut in front of it was not clean, because a call in the middle of a field hands over data of it first, even if there is none |
| HttpCuts.CleanIs | cczoecpp/Net/Http/parser/http_parser.cpp:2135-2147 | whether a cut is clean can be told from the bytes before it or, as well, from the parser: its last callback and its state |
| HttpCuts.CutInTarget | cczoecpp/Net/Http/HttpParser.cpp:18-38 | an input that fails: cut in two behind /a, the target /a/b is read as /b |
| HttpCuts.ChunksBuilt | cczoecpp/Net/Http/HttpParser.cpp:55-59 | a chunked body is kept whole if and only if it has one chunk at most |
| HttpCuts.LinesBuilt | cczoecpp/Net/Http/HttpParser.cpp:45-54 | a header value is kept whole if and only if it is not folded over several lines |
| HttpCuts.FoldStarts | cczoecpp/Net/Http/parser/http_parser.cpp:1719-1728 | a folded line is handed over as another piece of the value |
| HttpLines.FirstLineRuns | cczoecpp/Net/Http/parser/http_parser.cpp:927-1204 | a request line of any method, with any URL the state machine of URLs accepts (that of CONNECT is an authority), and with two digits of a version or none, is handed over as its URL; it leaves its method and its version, 0.9 if it names none, and nothing of an earlier message |
| HttpLines.AnyLineRuns | cczoecpp/Net/Http/parser/http_parser.cpp:1206-1793 | a header line, of any name but Content-Length, is handed over name by value, and the flags it sets are those that its name and the lists in its value say |
| HttpLines.LengthLineRuns | cczoecpp/Net/Http/parser/http_parser.cpp:1408-1793 | a Content-Length line is refused, with its error, if it is empty, not a number that fits, or not the first; else it leaves the number |
| HttpLines.LineRuns | cczoecpp/Net/Http/parser/http_parser.cpp:1206-1793 | a header line is handed over name by value and changes nothing that body framing depends on, unless its name is a framing one |
| HttpLineEnds.LineFeedAlone | cczoecpp/Net/Http/parser/http_parser.cpp:1085-1186 | wherever a line at the head of a message may end, a line feed alone does what a carriage return and a line feed do |
| HttpLineEnds.BlanksAreSkipped | cczoecpp/Net/Http/parser/http_parser.cpp:1024-1400 | spaces in front of a URL, a version, a code or a value, tabs in front of a value and empty lines between messages are passed over, however many |
| HttpLineEnds.FoldedLength | cczoecpp/Net/Http/parser/http_parser.cpp:1454-1577 | a length that is folded goes on with nothing but spaces, or is refused |
| HttpLineEnds.FoldedList | cczoecpp/Net/Http/parser/http_parser.cpp:1719-1730 | a list that is folded anywhere but behind a comma is forgotten: neither the element that was broken nor anything behind the fold sets a flag |
| HttpLineEnds.IceStarts | cczoecpp/Net/Http/parser/http_parser.cpp:1097-1144 | the method SOURCE may name the protocol ICE |
| HttpTokens.CodingFlags | cczoecpp/Net/Http/parser/http_parser.cpp:1579-1612 | over any Transfer-Encoding value the chunked flag is set exactly when the last coding is read as one of its own and says chunked, in any case, with spaces around it |
| HttpTokens.OptionFlags | cczoecpp/Net/Http/parser/http_parser.cpp:1614-1693 | over any Connection value each of close, keep-alive and upgrade is found exactly when some element is read as one of its own and says it |
| HttpTokens.LastCoding | cczoecpp/Net/Http/parser/http_parser.cpp:1579-1612 | behind codings no comma is taken for a part of, which are those that are no part of the word and begin as a token does, the last one is found exactly when it is chunked |
| HttpTokens.OptionsApart | cczoecpp/Net/Http/parser/http_parser.cpp:1614-1693 | among options of that kind, or whole words, those found are those the list has |
| HttpTokens.TwoCodings | cczoecpp/Net/Http/parser/http_parser.cpp:1597-1612 | of two codings the second is found if and only if it is chunked and the first is no part of that word, from none of its letters to all of them: then the comma is taken for a letter |
| HttpTokens.EmptyCoding | cczoecpp/Net/Http/parser/http_parser.cpp:1579-1595 | behind an empty coding nothing is found any more |
| HttpTokens.ChunkedIsMissed | cczoecpp/Net/Http/parser/http_parser.cpp:1579-1612 | such inputs: chunked,chunked and c,chunked and ,chunked and gzip,,chunked |
| HttpSections.LinesRun | cczoecpp/Net/Http/parser/http_parser.cpp:1206-1793 | any lines, in a header section or behind the last chunk: the parser fails on the first length that is refused, and else has handed over every line and knows exactly what they say, besides what it knew before: coded, chunked, the length, close, keep-alive, upgrade |
| HttpSections.LinesRefused | cczoecpp/Net/Http/parser/http_parser.cpp:1436-1450 | no line is refused exactly when at most one tells a length, and it is a number that fits |
| HttpSections.AnyRequest | cczoecpp/Net/Http/parser/http_parser.cpp:1795-1942 | any request line and header lines lead to what follows by section 3.3.3 of RFC 7230: refused with a coding and a length, or with a coding that does not end in chunked; chunks if it does; as many bytes as the one length says; nothing; or another protocol |
| HttpMessages.OneRequest | cczoecpp/Net/Http/parser/http_parser.cpp:1874-2116 | with the body so announced, and trailer lines behind chunks, the request is read whole: each byte of it is handed over once, the message is completed once, and the parser is at the start of the next message if the connection stays open, dead if not, or has left for another protocol |
| HttpMessages.ChunkedUpload | cczoecpp/Net/Http/parser/http_parser.cpp:1895-1898 | from a fresh parser, any request line, any lines of which none tells a length and one is a Transfer-Encoding whose last coding is found to be chunked, and an encoded body with any trailer lines: exactly what the chunks hold is handed over, each chunk and the last is completed once, and one message |
| HttpMessages.Connection | cczoecpp/Net/Http/parser/http_parser.cpp:463-463 | requests of any kinds one behind another, each of which lets another follow, are all read, one by one |
| HttpMessages.NextIsRead | cczoecpp/Net/Http/parser/http_parser.cpp:2188-2204 | behind a whole request the next one is read exactly when, with a version above 0 in both digits, no option close was found in its lines and trailers or, with another version, an option keep-alive was; else its first byte is refused |
| HttpResponses.StatusLineRuns | cczoecpp/Net/Http/parser/http_parser.cpp:769-925 | a status line is handed over as its reason, and leaves its version and code; a code above 999 is refused |
| HttpResponses.AnyResponse | cczoecpp/Net/Http/parser/http_parser.cpp:1795-2184 | any status line and header lines lead to what follows: as for requests, but a body up to the end of the connection behind a coding that does not end in chunked, or when nothing is told and the code is not one of those without a body |
| HttpResponses.OneResponse | cczoecpp/Net/Http/parser/http_parser.cpp:1874-2116 | with a body so announced the response is read whole, and the parser is where the next one starts, or dead |
| HttpResponses.EitherKind | cczoecpp/Net/Http/parser/http_parser.cpp:731-767 | a parser for both kinds decides by the first two bytes and is one for that kind from the start |
| ByteBuffer.ByteArray.Write | cczoecpp/Net/ByteArray/bytearray.cpp:370-409 | with room left, or nothing to write, the flat sequence is overwritten or extended at the cursor and the current block stays in step; with no room left at all the bytes land exactly one block early and the block falls out of step |
| ByteBuffer.ByteArray.Read | cczoecpp/Net/ByteArray/bytearray.cpp:411-445 | reads the next bytes of the flat sequence and moves the cursor; throws beyond the data; follows a null pointer exactly for no bytes at the end of the last block |
| ByteBuffer.ByteArray.ReadAt | cczoecpp/Net/ByteArray/bytearray.cpp:447-482 | hands over what read would without moving, from the position whatever its argument |
| ByteBuffer.ByteArray.ToString | cczoecpp/Net/ByteArray/bytearray.cpp:527-536 | is the rest of the flat sequence |
| ByteBuffer.ByteArray.AddCapacity | cczoecpp/Net/ByteArray/bytearray.cpp:553-585 | the blocks added always suffice and are no more than needed: where less than a block was left, one block fewer would not hold the bytes, and else those added hold no more than them; nothing stored changes, and the current block is moved to the last old one exactly when no room was left |
| ByteBuffer.ByteArray.SetPosition | cczoecpp/Net/ByteArray/bytearray.cpp:688-700 | walks on from the current block: it throws beyond the data, follows a null pointer exactly when the blocks to walk run out, and keeps block and position in step exactly when the cursor was in the first block |
| ByteBuffer.ByteArray.Clear | cczoecpp/Net/ByteArray/bytearray.cpp:354-368 | empties the buffer, back to one block |
| ByteBuffer.ByteArray.AddReadBuffers | cczoecpp/Net/ByteArray/bytearray.cpp:623-657 | the ranges lie one after another from the cursor, each in one block, and concatenate to exactly the next min(len, readable) bytes; the cursor stays |
| ByteBuffer.ByteArray.AddWriteBuffers | cczoecpp/Net/ByteArray/bytearray.cpp:587-621 | the ranges cover exactly the next len positions from where the current block is, each in one block; it follows a null pointer exactly when they end at the capacity, and always adds len to the size |
| ByteBuffer.ByteArray.Scatter | cczoecpp/Net/ByteArray/bytearray.cpp:587-621 | data put into such ranges is data in the memory from where they start |
| ByteBuffer.ByteArray.NullAtEnd | cczoecpp/Net/ByteArray/bytearray.cpp:384-398 | the current block is null exactly when the position is at the capacity |
| ByteRuns.Step | cczoecpp/Net/ByteArray/bytearray.cpp:354-482 | an operation does what it does to a flat sequence with a cursor exactly when its guard holds: room left or nothing written, something read or not at the end, a position set from the first block to below the capacity |
| ByteRuns.Run | cczoecpp/Net/ByteArray/bytearray.cpp:354-482 | any run of guarded operations hands back what the flat sequence hands back and ends where it ends |
| ByteRuns.WithBlockFull | cczoecpp/Net/ByteArray/bytearray.cpp:370-700 | the guards are needed: in a new buffer whose block is full, writing more, reading nothing and going back each follow a null pointer or leave the block out of step |
| ByteRuns.RangesToTheEnd | cczoecpp/Net/ByteArray/bytearray.cpp:587-621 | and asking a new buffer for ranges up to its end follows a null pointer |
| ByteCodec.UnsignedIsPositional | cczoecpp/Net/ByteArray/endian.h:17-33 | on a host of either byte order an unsigned number is written as its digits to base 256 in the buffer's order |
| ByteCodec.UnsignedReadBack | cczoecpp/Net/ByteArray/bytearray.cpp:74-118 | and read back as itself |
| ByteCodec.SignedReadBack | cczoecpp/Net/ByteArray/bytearray.cpp:65-108 | signed numbers are read back although they are never swapped |
| ByteCodec.SignedOrder | cczoecpp/Net/ByteArray/endian.h:17-33 | a signed number is written in the buffer's order, as the unsigned one of its bits would be, if and only if the buffer's order is the host's or the bytes read the same both ways |
| ByteCodec.SignedIsInOrder | cczoecpp/Net/ByteArray/bytearray.cpp:65-108 | so that holds of every signed number of a width if and only if the orders agree or the width is one byte |
| ByteCodec.SignedIsNotSwapped | cczoecpp/Net/ByteArray/endian.h:32-32 | such an input: the 16-bit number 1 in a buffer of the other order |
| ByteCodec.ZigzagBijection | cczoecpp/Net/ByteArray/bytearray.cpp:660-686 | zigzag and its inverse undo each other on all signed and unsigned numbers of a width, under wrap-around |
| ByteCodec.BitsAre | cczoecpp/Net/ByteArray/bytearray.cpp:660-672 | a signed number has the bits of its value modulo the width |
| ByteCodec.LittleDigits | cczoecpp/Net/ByteArray/endian.h:17-33 | the bytes of a number, the low one first, are its digits to base 256 |
| ByteCodec.PutVarint | cczoecpp/Net/ByteArray/bytearray.cpp:165-176 | the loop of the writers produces the variable-length encoding |
| ByteCodec.VarintLengths | cczoecpp/Net/ByteArray/bytearray.cpp:165-194 | it takes at most five bytes for 32 bits and ten for 64 |
| ByteCodec.VarintIs | cczoecpp/Net/ByteArray/bytearray.cpp:165-194 | the encoding is the number in groups of seven bits, the low one first, each but the last with the top bit set, and as few as can be |
| ByteCodec.VarintPrefixFree | cczoecpp/Net/ByteArray/bytearray.cpp:165-194 | no encoding starts another |
| ByteCodec.ThirtyTwoReadBack | cczoecpp/Net/ByteArray/bytearray.cpp:258-275 | every 32-bit number is read back |
| ByteCodec.SixtyFourReadBack | cczoecpp/Net/ByteArray/bytearray.cpp:282-299 | reading back a 64-bit number gives it modulo 2^35, and stops behind its bytes with the number itself exactly when it is below 2^35 |
| ByteItems.GetVarint | cczoecpp/Net/ByteArray/bytearray.cpp:258-299 | the reading loop on the buffer puts at most five groups together, or throws when the bytes run out |
| ByteItems.ReadItem | cczoecpp/Net/ByteArray/bytearray.cpp:197-352 | each reader takes its value and its bytes from the rest of the flat sequence |
| ByteItems.WriteItem | cczoecpp/Net/ByteArray/bytearray.cpp:55-194 | each writer adds its value's encoding to the flat sequence |
| ByteItems.EncodedIs | cczoecpp/Net/ByteArray/bytearray.cpp:55-194 | the bytes each writer adds, by the kind of its value: digits to base 256 in an order or the other, groups of the zigzag number or of the number itself, and a length in front of a string |
| ByteItems.SignedInOneByte | cczoecpp/Net/ByteArray/bytearray.cpp:160-162 | a signed varint takes one byte exactly from -64 to 63 |
| ByteItems.ItemReadBack | cczoecpp/Net/ByteArray/bytearray.cpp:55-352 | every value is read back as it was written, to the end of its bytes |
| ByteItems.ListReadBack | cczoecpp/Net/ByteArray/bytearray.cpp:55-352 | any list of mixed integers, varints and length-prefixed strings is read back as the same list, ending at the same position |
| ByteItems.Exchange | cczoecpp/Net/ByteArray/bytearray.cpp:688-700 | on the buffer itself: written, gone back over with setPosition, and read again |
| Timers.TimerManager.GetExpired | cczoecpp/Timer/timerManager.cpp:64-98 | returns the callbacks of exactly the timers due, in the order of their times, wherever the probe lies in memory; leaves all others; re-arms each recurring one at now plus its interval, modulo 64 bits, and takes the callback of the rest |
| Timers.TimerManager.GetNextTimer | cczoecpp/Timer/timerManager.cpp:51-62 | the answer d means that nothing is due before now + d and something is at now + d |
| Timers.TimerManager.AddTimer | cczoecpp/Timer/timerManager.cpp:20-38 | the timer enters the ordered set at its place, due at now plus its interval, modulo 64 bits, and the caller is told whether that is the front |
| Timers.TimerManager.Cancel | cczoecpp/Timer/timer.cpp:42-53 | succeeds exactly while the callback is there; the timer is then in the set, and out of it afterwards |
| Timers.TimerManager.Refresh | cczoecpp/Timer/timer.cpp:76-93 | as written: the timer waits on, due its interval from now, without its callback |
| Timers.PassOnTime | cczoecpp/Timer/timerManager.cpp:64-98 | a pass fires exactly the timers whose last arming, by adding, firing or refreshing, was their interval ago or more, and nothing that was cancelled; what waits is always due exactly its interval after its last arming |
| Timers.AroundDeadline | cczoecpp/Timer/timerManager.cpp:64-98 | of two passes, one before and one at or after the arming plus the interval, exactly the second fires the timer |
| Timers.AddOnTime | cczoecpp/Timer/timerManager.cpp:20-38 | adding keeps every deadline exact, and arms the timer now |
| Timers.CancelOnTime | cczoecpp/Timer/timer.cpp:42-53 | so does cancelling, which disarms it |
| Timers.RefreshOnTime | cczoecpp/Timer/timer.cpp:76-93 | so does refreshing, which arms it now |
| Timers.FiresOnce | cczoecpp/Timer/timerManager.cpp:76-97 | a one-shot fires at most once in any past the manager allows |
| Timers.LawfulFiring | cczoecpp/Timer/timerManager.cpp:76-97 | a firing when a timer is due is never early, never after a cancel, and at least the interval after the last |
| Timers.Divided | cczoecpp/Timer/timer.cpp:7-30 | the ordered set cut at a time: all before are due, in order, and none behind |
| IoManager.IOManager.AddEvent | cczoecpp/Scheduler/iomanager.cpp:93-149 | asks the kernel to add the descriptor if nothing of it is armed, and to change it otherwise, which is legal; then arms the slot and counts it, and the interest set is what is armed; aborts exactly when the event is armed already, and finds no slot exactly for descriptors below 2 that were not there |
| IoManager.ChoiceIsLegal | cczoecpp/Scheduler/iomanager.cpp:118-235 | the choice between adding and changing is legal, and changing and deleting are, whenever the interest set is what is armed, which every operation keeps: on any sequence of operations the kernel is asked for nothing illegal |
| IoManager.IOManager.ContextFor | cczoecpp/Scheduler/iomanager.cpp:261-272 | after growing to one and a half times the descriptor, slot i is for descriptor i, and the slot exists exactly from descriptor 2 on |
| IoManager.IOManager.DelEvent | cczoecpp/Scheduler/iomanager.cpp:151-185 | undoes an add without scheduling anything; the kernel is asked to change the descriptor if another event is left, and to delete it otherwise |
| IoManager.IOManager.CancelEvent | cczoecpp/Scheduler/iomanager.cpp:187-219 | undoes an add, with the same request, and schedules what waits in the slot |
| IoManager.IOManager.CancelAll | cczoecpp/Scheduler/iomanager.cpp:221-259 | does so for both events, with one request to delete |
| IoManager.ReportMeans | cczoecpp/Scheduler/iomanager.cpp:345-353 | a report makes a slot ready for reading exactly by input, an error or a hangup, and one for writing by output, an error or a hangup |
| IoManager.IOManager.Handle | cczoecpp/Scheduler/iomanager.cpp:336-380 | in a pass that goes well, what waits to read is scheduled if and only if it is armed and input or an error or hangup was reported, what waits to write if and only if it is armed and output or an error or hangup was, and whoever is not reported stays armed; one legal request is made of the kernel; if the report also names an event that is not armed, and exactly then, it follows a null scheduler or, where that slot is empty, counts one event too many as let go of |
| IoManager.HangupIsMiscounted | cczoecpp/Scheduler/iomanager.cpp:337-378 | so a hangup, where only a reader waits, leaves the count of pending events wrapped around |
| IoManager.HangupFollowsNull | cczoecpp/Scheduler/iomanager.cpp:337-378 | and follows a null scheduler if a writer waited there before |
| IoManager.IOManager.HandleAll | cczoecpp/Scheduler/iomanager.cpp:323-380 | a whole pass goes well exactly when no report does that; each report then serves, in its turn, whoever waits to read if input, an error or a hangup was reported and whoever waits to write if output, an error or a hangup was; what is queued is that, in order, and conserved: fires, tasks queued and events no longer pending are equally many |
| IoManager.StaleCallback | cczoecpp/Scheduler/iomanager.cpp:34-47 | a callback left behind in a slot is scheduled again in place of the fiber that waits there next |
| IoManager.FiberIsScheduled | cczoecpp/Scheduler/iomanager.cpp:127-148 | the waiting fiber is what a slot will schedule exactly when no callback was left there |
| DoIo.NoFiberIsLost | cczoecpp/Net/Hook/hook.h:48-107 | on every run of one worker, whatever is scheduled or cancelled at whatever time by whichever thread, each unfinished fiber is exactly once in the queue or in exactly one armed slot whenever the main fiber is in control |
| DoIo.ResumeNeverAborts | cczoecpp/Fiber/Fiber.cpp:131-150 | on every such run, what the worker takes from its queue is never running nor ended, so the assertion in resume holds |
| DoIo.RunKeeps | cczoecpp/Scheduler/scheduler.cpp:59-80 | every step of every run keeps the invariants behind these |
| DoIo.LawHolds | cczoecpp/Net/Hook/hook.h:48-107 | on every run the notes of every fiber follow their law (each park is woken once and comes back once, and has timed out exactly when its own timeout came) if and only if no timeout finds its call in another park than the one its timer was armed for |
| DoIo.NoCancelIsFresh | cczoecpp/Scheduler/iomanager.cpp:305-320 | which never happens while no event is cancelled between the wait of an idle pass and its events |
| DoIo.StaleTimeout | cczoecpp/Net/Hook/hook.h:62-103 | but does when another thread cancels the event then and the fiber waits again: the old timeout ends the new wait |
| DoIo.BackTellsTheTruth | cczoecpp/Net/Hook/hook.h:92-103 | where the law holds, every return from a park was woken exactly once since, and reports a timeout if and only if the timeout of that very park had come |
| DoIo.SincePark | cczoecpp/Net/Hook/hook.h:48-107 | what the notes of one fiber that follow their law say about its present park |
| DoIo.TimeoutTouchesItsOwnPark | cczoecpp/Net/Hook/hook.h:66-74 | on every run a timeout that finds its call ends the park it was armed for, waking its fiber if that still waits and changing nothing else, if and only if its fiber has not parked anew and no other fiber waits for that event by now; one that does not find its call changes nothing |
| DoIo.UndisturbedTimeout | cczoecpp/Scheduler/iomanager.cpp:305-320 | that is so of every timeout while nothing is scheduled or cancelled between the wait of an idle pass and its events |
| DoIo.OtherFiberIsWoken | cczoecpp/Net/Hook/hook.h:66-74 | and is not when a fiber scheduled then waits for the event that has just fired: the timeout wakes it |
| Workers.Worker.RunTask | cczoecpp/Scheduler/scheduler.cpp:59-79 | with the tasks in the list, the slots in the contexts of IOManager and the timers in the ordered set of TimerManager, taking a task, resuming its fiber, cancelling its timer or running an expired timer's callback keeps the objects in the state of the machine after one step; it does not abort in any state a run can be in |
| Workers.Worker.ParkOn | cczoecpp/Net/Hook/hook.h:60-92 | so does a call that would block: its timer enters the ordered set, due when the time allowed is over, its event the context, and it yields, or without the event the timer is taken out again |
| Workers.Worker.ExpireTimers | cczoecpp/Scheduler/iomanager.cpp:312-320 | the callbacks the ordered set hands over are exactly those due, and scheduling them in order is as many steps |
| Workers.Worker.FireEvents | cczoecpp/Scheduler/iomanager.cpp:323-388 | acting on the reports of epoll_wait is firing, one step each, the armed slots to read whose report has input, an error or a hangup and the armed slots to write whose report has output, an error or a hangup, and then yielding, exactly when no report overshoots |
| Workers.Worker.CancelAll | cczoecpp/Scheduler/iomanager.cpp:221-259 | closing a descriptor is cancelling its two events |
| Workers.SleeperIsLost | cczoecpp/Net/Hook/hook.cpp:92-106 | a fiber that sleeps the hooked way yields before its timer is armed and is never resumed, on any run |

## Left out

- HttpParser.Parsing.Execute: does not say what becomes of a buffer in which the 32-bit header counter comes round inside one loop, beyond that the parser stays in a sound state; nor which of two errors is reported first, when a loop finds a bad byte behind the place where the limit is passed.
- HttpFragments.Feed: says nothing of what is fed after the protocol changed; the caller is to stop there.
- HttpRequest.HttpRequestParser.Execute: does not give the number returned and the parser's fields when the URL callback asks it to stop.
- HttpCuts.ReadCut: does not say what is built behind a cut that is not clean, which can be the right request by chance, as when a later header of the same name overwrites the one that was cut.
- HttpMessages.OneRequest: does not cover folded values (`HttpLineEnds` says what becomes of a length or a list), nor any blanks in front of a value but the one space, which change nothing (`HttpLineEnds.BlanksAreSkipped`).
- HttpRoundTrip.ReadBack: does not give back the close flag, which the parser does not set; it comes back as the connection header.
- Callbacks that fail or answer 1 or 2 to the end of the headers, pausing, lenient mode and a changed header limit: they multiply cases without adding depth.
- `HttpResponseParser` and `HttpResponse::dump`: one callback casts its parser to the wrong type; the status line itself is proved in `HttpResponses`.
- `HttpSession`: it feeds bytes again that were parsed already.
- The textual order of a header map: a request is printed in any order of its map.
- ByteBuffer.ByteArray.AddWriteBuffers: does not give the size behind a null pointer, where the program ends.
- ByteBuffer.ByteArray.Read: what it and the other methods do once the block has fallen out of step with the position; clear puts it right.
- ByteBuffer.ByteArray.Write: does not model sizes beyond 64 bits, which no memory holds.
- `ByteArray` files, hexadecimal text and floating point numbers: input and output, and copies of bits.
- ByteItems.Exchange: does not cover lists that do not fit in the first block, because setPosition cannot go back from a later one; `ByteItems.ListReadBack` holds for all.
- `Timer::reset`: it takes the manager's lock again while it holds it, and what then happens is up to the thread library.
- Timers.TimerManager.Refresh: keeps nothing for times that pass the end of 64 bits, after which a refreshed timer may be early.
- The conditional `addTimer` captures its parameters by reference; `DoIo` has them captured by value, as meant.
- The wait of the idle pass: it is always three seconds, because the choice between the two timeouts is the wrong way round; `DoIo` lets any time pass.
- IoManager.IOManager.HandleAll: does not model a kernel that refuses a legal change of its interest set during the pass, nor the wake-up pipe.
- DoIo.NoFiberIsLost: does not cover a second worker, which can resume a fiber between its event and its yield.
- Workers.Worker.ParkOn: does not cover descriptors 0 and 1 where the vector has no slot for them (`IoManager.IOManager.AddEvent` says when), nor has the worker a kernel that refuses to let go of an event when a timeout, a close or the idle pass asks for it.
- `Scheduler::stop`, joining threads and the end of `Scheduler::run`, which has none.
- Fiber stacks and context switches: the model records who is in control and each fiber's own state.
- Configuration, logging, addresses, servlets, servers and the system calls themselves.
