# A verified model of the file-upload client

The client sends one file to a server. It reconnects or registers, exchanges
keys, uploads the file encrypted with AES and hexadecimal-coded, and checks the
server's checksum of what arrived, sending again up to three times. The model
follows the C++ branch by branch and has two halves.

**The checksum** (`checksum.cpp`). `Checksum.Memcrc` is the table-driven loop
with its 64-bit state and both of its phases. It refines a bit-serial register
(`Register`), which computes the remainder of a division over GF(2) (`Gf2`,
`Remainder`). The literal tables in `Tables` are proved equal to what the
register says they hold (`TableProof`). `CrcTheorems`, `ZeroFiles` and `Slicing`
say what the checksum detects, which files collide, and that the seven unused
tables give an eight-bytes-at-a-time form of the same loop. This is the
algorithm of the `cksum` utility in POSIX.1-2017, Shell and Utilities.

**The protocol** (`ProtocolHandler.cpp`, `main.cpp`, `CryptoHandler.cpp`,
`FileHandler.cpp`). `ProtocolHandler` holds the objects and handlers, working on
buffers and on a connection's bytes. Every handler is proved to do what a
function in `Session` says, and the theorems are about those functions:

- `Wire`, `Payloads`, `Hex`, `FileHandler`: the formats, and exactly when what is
  written can be read back;
- `Network`: the two byte streams against an arbitrary server;
- `Language`: an automaton over requests and answers, and what follows for every
  trace it accepts;
- `Retry`, `SessionTheorems`, `ClientRuns`: how an upload can end; every session
  stays inside that language and its requests agree on the client id; what a
  whole run of `handleClient` can do on its two connections, when it uses the
  second one and what it leaves in `me.info`;
- `Composition`, `ServedRuns`: against a server that keeps to the protocol, the
  number of damaged deliveries decides the result;
- `RunFiles`: sessions and runs in terms of the texts of the files they start
  from and leave, and of the bytes on the wire;
- `Witnesses`: concrete servers for two places where the code departs from its
  description.

The server is a function from the bytes received so far to the bytes it sends,
so it may do anything at all. Clocks, random numbers, key generation, AES, RSA,
Base64 and uninitialised memory are functions of the moment, counted in events,
and are otherwise arbitrary. Thrown exceptions are outcomes: `RuntimeError` for
`std::runtime_error` and its subclasses, `OtherError` for the rest.

What the environment is taken to be: `send` transmits the whole buffer; integers
are little-endian and LP64, so that a request header is 24 bytes with one
padding byte at offset 17. `memcrc` counts its bytes in an `int`, so nothing is
assumed of what it makes of 2^31 bytes or more. A 2103 answer with fewer than
four payload bytes makes the client read in front of a string; the value read is
arbitrary here. A 2102 answer with fewer than sixteen makes `substr` throw
`std::out_of_range`.

## Where the code and its comments differ

- `ProtocolHandler.cpp:227` takes the file name to have been checked against 255
  characters. Only the client name is checked, so a longer path is cut off:
  `Payloads.FilePayloadRoundTrip` gives the exact condition.
- `FileHandler.cpp:90` calls the third line of `me.info` an encrypted key. It is
  the private key itself, in Base64.
- `main.cpp:9-11` says that the client registers when there is no `me.info`. It
  also registers, on a second connection, when a file cannot be opened during
  the reconnection, whatever the server said, and it does not register when the
  first connection fails. `ClientRuns.SecondConnectionExactly` gives the exact
  condition, with `ClientRuns.ReconnectFails` and `ClientRuns.FinishFails` saying
  which file stops a reconnection and where. `ClientRuns.RegistersWithoutMeInfo`
  shows that the described rule holds when the files are in order;
  `Witnesses.RegistersDespiteMeInfo` and `Witnesses.NoConnectionNoRegistration`
  are runs that depart from it.
- A registration answer with fewer than sixteen payload bytes is accepted. The
  rest of the client id is then what the stack held, and it is sent
  (`SessionTheorems.RequestsCarryAnswer`, `SessionTheorems.StackLeftOut`,
  `Witnesses.ShortAnswerReachesKeys`).
- `handleRetrySendFile` with a negative limit sends nothing, not even the final
  report (`Retry.NegativeLimit`).

## Model

| member | source | states |
|---|---|---|
| Checksum.Memcrc | checksum.cpp:448-465 | the program's loops, on 64-bit state and table lookups, compute the complement of the bit-serial register after the data and its minimal little-endian length, for every buffer; every index is inside the table |
| Checksum.TableStep | checksum.cpp:453-456 | one lookup in table 0 does what eight bit shifts do, for every register and byte |
| Checksum.WideStep | checksum.cpp:453-462 | the loop body on the 64-bit variable is that step: the index stays below the table's length and no bit above the 32nd survives |
| Checksum.CrcBits | checksum.cpp:453-463 | the checksum's bits are the complement of the register that has consumed the message bit by bit |
| TableProof.CrctabIsTable | checksum.cpp:11-444 | entry b of literal table k is the register after byte b and k zero bytes, for all eight tables |
| Remainder.RegisterIsRemainder | checksum.cpp:453-456 | the register holds the remainder of the bits times x^32 on division by 0x104C11DB7 over GF(2), after any bit string |
| Remainder.CrcIsRemainder | checksum.cpp:448-465 | a word is the checksum exactly when its complement is the remainder of (data, length) times x^32 |
| Remainder.UndetectedDamage | checksum.cpp:453-463 | two buffers of one length share a checksum exactly when the generator divides the bits that differ, times x^32 |
| Gf2.RemainderUnique | checksum.cpp:453-456 | division by a polynomial over GF(2) has one remainder, so the characterisation above pins the checksum down |
| Register.ConsumeInjective | checksum.cpp:453-456 | consuming the same bits keeps different registers different |
| CrcTheorems.BurstDetected | checksum.cpp:453-463 | different buffers of one length whose differing bits lie within 32 consecutive ones have different checksums, wherever the window is |
| CrcTheorems.FourBytesExist | checksum.cpp:453-463 | four bytes anywhere in a buffer can be chosen to give any checksum |
| CrcTheorems.FourBytesUnique | checksum.cpp:453-463 | and in one way only |
| CrcTheorems.FourBytesBijection | checksum.cpp:453-463 | so the checksum is a bijection of any four adjacent bytes onto the 32-bit words |
| CrcTheorems.CrcAffine | checksum.cpp:453-463 | three checksums of equally long buffers add up to the checksum of their bytewise sum |
| CrcTheorems.RegisterConcat | checksum.cpp:453-456 | the register after a and then b is b's own plus a's moved on by as many zero bytes as b has |
| ZeroFiles.ZeroFileCollisions | checksum.cpp:453-463 | all-zero files of lengths n and m collide exactly when one length is the other times a power of 256 |
| ZeroFiles.ZerosInFront | checksum.cpp:458-462 | length bytes that are k zeros and then those of m belong to m times 256^k only |
| Slicing.LookupMeaning | checksum.cpp:11-444 | entry i of table k is the register after byte i and then k zero bytes, byte by byte |
| Slicing.SliceStepIsEightFeeds | checksum.cpp:11-444 | eight lookups, the old register in the first four bytes, take in eight bytes at once |
| Slicing.SlicedIsByteWise | checksum.cpp:11-456 | eight bytes at a time and then the rest reaches the register of the byte-wise loop, for every length |
| Slicing.CrctabMeaning | checksum.cpp:11-444 | every entry of the program's own eight tables is that register |
| Slicing.CrctabSlicedIsByteWise | checksum.cpp:11-463 | the eight-byte form over the program's own tables reaches the byte-wise register and the program's checksum |
| FileChecksum.FileMemcrc | checksum.cpp:504-512 | the file's characters go through memcrc and its result is narrowed to 32 bits without loss: the number returned is a word's exactly when that word's complement is the remainder of (file, length) times x^32 |
| FileChecksum.FileCrcIsRemainder | checksum.cpp:491-513 | the same of the checksum of any file's bytes |
| FileChecksum.EmptyFile | checksum.cpp:504-512 | an empty file has checksum 0xFFFFFFFF |
| FileChecksum.ReadCrc | checksum.cpp:491-513 | that number for every file memcrc can count, and 0 for one that cannot be read |
| CryptoHandler.EncryptWithAes | CryptoHandler.cpp:31-46 | the hexadecimal text of the cipher text, or an error for a key that is not 16 bytes |
| Hex.HexRoundTrip | CryptoHandler.cpp:39-45 | the text has two digits a byte and decodes to the bytes |
| Hex.HexOfAt | CryptoHandler.cpp:39-45 | byte i is written as its high digit and then its low one, of 0-9 and a-f |
| Hex.HexIsText | CryptoHandler.cpp:39-45 | it holds digits only, so no NUL and no newline |
| Hex.SignedCharLowByte | FileHandler.cpp:103-105 | masking the sign-extended char gives the byte back, 0x80 and above included |
| Wire.FrameBytes | ProtocolHandler.h:12-18 | a frame byte by byte: id 0-15, version 16, code 18-19 and payload size 20-23 with the low byte first, payload from 24 |
| Wire.ParseFrameOfFrame | ProtocolHandler.cpp:54-65 | a frame followed by anything is read back as its request and the rest |
| Wire.ParseAllOfFrames | ProtocolHandler.cpp:54-79 | any list of requests written as one stream is parsed back to the same ids, versions, codes and payloads |
| Wire.ParseAllAppend | ProtocolHandler.cpp:54-79 | sending one more request appends exactly it to what a reader of the stream gets |
| Wire.FramesPrefixFree | ProtocolHandler.cpp:54-65 | no frame is a proper prefix of another |
| Bytes.BigEndian32 | ProtocolHandler.cpp:128 | ntohl and htonl put the high byte first |
| Wire.HeaderOfResponse | ProtocolHandler.cpp:120-128 | the offsets the client reads are those of an encoded response |
| Network.AnswerOfBytes | ProtocolHandler.cpp:109-141 | what getResponse makes of a stream, byte by byte: code and size have the high byte first and are kept even when the payload is cut short, which is then empty |
| Network.AnswerOfShortHeader | ProtocolHandler.cpp:114-118 | without a whole header no field is read |
| Network.PayloadIsNext | ProtocolHandler.cpp:109-141 | under any short receives the payload is empty or exactly the next payloadSize bytes of the stream, which are then consumed |
| Network.AnswerOfEncoded | ProtocolHandler.cpp:109-141 | with complete receives an encoded response is returned as it was and exactly its bytes are consumed |
| Network.AnswersInOrder | ProtocolHandler.cpp:109-141 | back-to-back responses come out in order and use up the stream |
| Network.TalkInStep | ProtocolHandler.cpp:54-79 | the bytes sent keep parsing to exactly the requests in the trace |
| Payloads.NamePayloadExact | ProtocolHandler.cpp:242-252 | the name is recovered from its field exactly when it has no NUL and at most 254 characters |
| Payloads.NamePayloadCut | ProtocolHandler.cpp:242-252 | of a longer name the first 254 characters are in it |
| Payloads.PublicKeyPayloadExact | ProtocolHandler.cpp:282-298 | name and key are recovered exactly when the name fits and the key holds only zeros after its first NUL |
| Payloads.CreateFilePayloadBuffer | ProtocolHandler.cpp:218-234 | the buffer built by memset, memcpy, strncpy and strcpy is size, padded name and content, with no copy out of bounds |
| Payloads.FilePayloadRoundTrip | ProtocolHandler.cpp:218-234 | a receiver gets name and hexadecimal content back exactly when the name has no NUL and at most 255 characters and the total fits 32 bits |
| Payloads.SizeFieldAgrees | ProtocolHandler.cpp:223-225 | the payload's first four bytes, the high one first, are the content's length modulo 2^32, and differ from payloadSize by 259 |
| Session.PathArrives | ProtocolHandler.cpp:156-159 | the path is recovered from a checksum report exactly when it has no NUL and its size fits 32 bits |
| Session.PathText | ProtocolHandler.cpp:156-159 | a path with a NUL arrives up to it |
| Session.MatchOfBytes | ProtocolHandler.cpp:182-187 | an answer matches exactly when its last four bytes, the low one first, are the file's checksum, or zero when the file cannot be read |
| FileHandler.SaveMeInfo | FileHandler.cpp:95-115 | the loop writes three lines: name, id in hexadecimal, key text without newlines |
| FileHandler.RemoveAll | FileHandler.cpp:109-112 | remove and erase close the gaps in place and keep the rest in order |
| FileHandler.JoinedWithout | FileHandler.cpp:109-112 | what is left of lines joined by newlines is all the lines, one after the other |
| FileHandler.LinesOf | FileHandler.cpp:109-112 | every text is such lines, so the row above is about every key text |
| FileHandler.MeInfoRoundTrip | FileHandler.cpp:31-115 | reading what was saved gives the name back exactly when it has no newline; then the hexadecimal line decodes to the id, the third line is all lines of the key text one after the other, and the file holds nothing else |
| FileHandler.MeInfoLines | FileHandler.cpp:31-41 | of any text the first three lines, missing ones being empty, are the fields |
| FileHandler.InputFile.ReadLine | FileHandler.cpp:34-38 | getline takes the characters before the first newline and leaves what follows it |
| FileHandler.GetLineExact | FileHandler.cpp:34-38 | line, newline and rest are the text, or the line is all of it |
| FileHandler.ReadMeInfo | FileHandler.cpp:31-41 | three lines into three fields, or the error of a file that cannot be opened |
| FileHandler.ReadTransferInfo | FileHandler.cpp:48-73 | the four fields read, the order of the checks on name, colon and port, and the error each leads to |
| FileHandler.TransferInfoParts | FileHandler.cpp:48-73 | for every text and for no file: a long name or an address without a colon is an error, else a port that is no number, else the fields are what the three lines say, whatever follows them |
| Language.PrefixClosed | ProtocolHandler.cpp:357-420 | helper: rejection is final, so the rows below hold at every moment of a session and not only at its end |
| Language.Alternates | ProtocolHandler.cpp:161-165 | each request is followed by exactly one answer before the next request |
| Language.CodesFollow | ProtocolHandler.cpp:357-420 | the codes form 1027? 1025? 1026, then any number of 1028 or 1028 1030, then 1028 1029 or 1031 |
| Language.NoFileBeforeKeys | ProtocolHandler.cpp:375-384 | no 1028 before a 1026 that was answered with 2102 |
| Language.AtMostTenRequests | ProtocolHandler.cpp:392-420 | at most ten requests from a reconnection, nine from a registration, and three files |
| Language.CountsFit | ProtocolHandler.cpp:176-210 | in every phase the numbers of files, resends, reports, matches and mismatches are tied together |
| Language.LastWord | ProtocolHandler.cpp:189-208 | whatever reports the end of the upload is the last request |
| Retry.UploadOutcome | ProtocolHandler.cpp:176-210 | for every server and limit: true exactly when a matching 2103 is reported and confirmed by 2104; 1031 exactly when nothing matched, once, last, with false; resends equal mismatches; all file requests identical |
| Retry.NegativeLimit | ProtocolHandler.cpp:176-210 | nothing is sent, and false returned, exactly for a negative limit |
| SessionTheorems.RequestsCarryAnswer | ProtocolHandler.cpp:242-260 | up to the next connection answer every request carries the first sixteen bytes of the last one, each in its place, and the stack's bytes where it was shorter |
| SessionTheorems.StackLeftOut | ProtocolHandler.cpp:257-258 | that id is independent of the stack exactly when the answer had sixteen bytes or more |
| Witnesses.ShortAnswerReachesKeys | ProtocolHandler.cpp:357-373 | for every shorter answer and every stack, a registration goes on to send 1026 under an id that ends as the stack does |
| Witnesses.StackReachesServer | ProtocolHandler.cpp:357-373 | two clients that differ in the stack alone carry different ids to the same server |
| SessionTheorems.RegisterIsSafe | ProtocolHandler.cpp:357-385 | against any server a registration stays in the language; each request has the version and payload of its code and carries the id last assigned; me.info holds that id; the bytes sent parse to the trace; any error comes before the first file; true is returned exactly when a matching checksum was reported and confirmed |
| SessionTheorems.ReconnectIsSafe | ProtocolHandler.cpp:392-420 | the same of a reconnection, the rejected one that registers included |
| ClientRuns.RunsAreSafe | main.cpp:15-34 | over both connections of any run: the file goes out on one of them only and three times at most, twelve requests at most; a runtime error, caught or not, precedes the first file; the run returns true exactly when one of the two servers confirmed the checksum |
| ClientRuns.FinishFails | ProtocolHandler.cpp:300-351 | from the keys on, a runtime error is exactly a key file that cannot be written, or a file to send that cannot be read once the key answer is there; any other error is exactly a key answer too short or not decrypting to sixteen bytes |
| ClientRuns.ReconnectFails | ProtocolHandler.cpp:392-420 | a reconnection ends in a runtime error exactly when such a file stops it, approved or rejected |
| ClientRuns.SecondConnectionExactly | main.cpp:15-34 | the exact condition under which the client registers on a second connection |
| ClientRuns.RegistersWithoutMeInfo | main.cpp:9-11 | when the files can be opened it does so exactly when there is no me.info |
| Witnesses.RegistersDespiteMeInfo | main.cpp:20-30 | with a me.info and an approved reconnection the client still registers when the private key file cannot be written |
| Witnesses.NoConnectionNoRegistration | main.cpp:22-33 | with a me.info and no first connection nothing is sent at all |
| ClientRuns.MeInfoAfterRun | main.cpp:15-34 | me.info ends as what the second connection wrote if it wrote, else the first, else as it was; what was written reads back as that connection's client name and the id its requests carried |
| ClientRuns.RegisterSaves | ProtocolHandler.cpp:363-373 | a registration writes me.info exactly when 2100 was answered and both key files can be written |
| ClientRuns.ReconnectSaves | ProtocolHandler.cpp:397-408 | the same of a reconnection, approved or rejected |
| RunFiles.ClientsFromFiles | main.cpp:17-30 | from the texts of the two files: 1027 goes out first under the first line of me.info, 1025 on a second connection under the second line of transfer.info, and every 1028 names the third |
| RunFiles.RunEnds | main.cpp:15-34 | a bad transfer.info is thrown before anything is sent, a missing connection returns false, and else the run ends as its last session does |
| RunFiles.PrivateKeyAfterRun | ProtocolHandler.cpp:275-305 | priv.key ends as what the second connection wrote if it wrote, else the first, else as it was; on each connection a 1026 carried the public half of the pair whose private half was written |
| RunFiles.RegistrationFrames | constants.h:10-26 | every frame of a registration has version '3', a code of 1025 to 1031 with its low byte first, and the payload of that code |
| RunFiles.ReconnectionFrames | constants.h:10-26 | the same of a reconnection |
| RunFiles.AnswerCodes | constants.h:31-37 | which two header bytes the client takes for each answer code |
| RunFiles.ConfirmedByHeader | ProtocolHandler.cpp:150-166 | a report counts as confirmed exactly when the answer's header says 2104, even if its payload is cut short |
| ClientRuns.CheckedNameArrives | FileHandler.cpp:54-61 | a name that passed the length check reaches the server whole unless it has a NUL |
| Composition.DamageNoticed | ProtocolHandler.cpp:184-187 | a copy damaged within 32 consecutive bits never has the file's checksum |
| Composition.CopyOfFile | ProtocolHandler.cpp:321-343 | what a server parses, decodes and decrypts out of a file request is the file that was encrypted |
| Composition.UploadDecided | ProtocolHandler.cpp:176-210 | with k damaged deliveries first, the loop returns true after k+1 files and k resends when k is below the limit, and otherwise false with 1031 last |
| Composition.EncryptAndSendDecided | ProtocolHandler.cpp:321-351 | the same from the encrypted AES key on, with the limit of three |
| ServedRuns.RegistrationDecided | ProtocolHandler.cpp:357-385 | against a server that registers the client, a whole registration returns true exactly when fewer than three deliveries are damaged |
| ServedRuns.ReconnectionDecided | ProtocolHandler.cpp:392-420 | the same of a whole reconnection, approved or rejected |
| ServedRuns.KnownClientDecided | main.cpp:19-24 | the same of a whole run with a me.info, on the first connection and without using the second |
| ServedRuns.NewClientDecided | main.cpp:25-30 | the same of a whole run without one, on the second connection |
| ServedRuns.DamagingServersExist | ProtocolHandler.cpp:357-420 | for every file and number of damaged deliveries there is a server of the kind assumed, so the four rows above are not empty |
| ProtocolHandler.ProtocolHandler.SendRequest | ProtocolHandler.cpp:54-79 | the buffer built by two copies is the request's frame, and it alone is appended to the bytes sent |
| ProtocolHandler.ProtocolHandler.SafeReceive | ProtocolHandler.cpp:89-103 | the bytes received are the next ones of the stream, as many as arrived, or -1 and none |
| ProtocolHandler.ProtocolHandler.GetResponse | ProtocolHandler.cpp:109-141 | header and payload by two receives, each path of a short one included |
| ProtocolHandler.ProtocolHandler.SendCRCStatusRequest | ProtocolHandler.cpp:150-166 | the report goes out with id, code and path, and the result says whether 2104 came back |
| ProtocolHandler.ProtocolHandler.HandleRetrySendFile | ProtocolHandler.cpp:176-210 | the while loop, its break and the final report do what the recursive specification says, for every limit |
| ProtocolHandler.ProtocolHandler.HandleConnectionRequest | ProtocolHandler.cpp:242-260 | the request carries no id; the answer's first bytes overwrite the caller's id buffer |
| ProtocolHandler.ProtocolHandler.HandleRSARegistration | ProtocolHandler.cpp:268-312 | key files first, then the request; a file that cannot be written ends the step before anything is sent |
| ProtocolHandler.ProtocolHandler.HandleFileEncryptionAndSend | ProtocolHandler.cpp:321-351 | the order of decrypting, reading and encrypting with the error of each, then the upload |
| ProtocolHandler.ProtocolHandler.HandleRegistration | ProtocolHandler.cpp:357-385 | the three steps and where each gives up, with an id buffer that starts uninitialised |
| ProtocolHandler.ProtocolHandler.HandleReconnection | ProtocolHandler.cpp:392-420 | the same, falling back to registration on the same connection when rejected |
| ProtocolHandler.HandleClient | main.cpp:15-34 | both connections' traces and bytes, the files left on disk and the outcome, fallback included |

## Left out

- Sockets, connecting and the error codes of `send` and `recv`: a connection succeeds or not, and a receive yields bytes or an error.
- AES, RSA, Base64 and random numbers: arbitrary functions, the checksum too in everything but `Composition` and the handlers; only `Composition` assumes that decrypting undoes encrypting.
- `readfile` in `checksum.cpp`: text around `memcrc` that the client does not use.
- Logging, console output and path constants.
- `std::stoi` on the port: any function from text to a number or an exception.
- `char payload_buffer[payloadSize]` overflowing the stack for a large answer.
- Fields of a response that a failed receive leaves unset: arbitrary.
- Releasing memory, and a response stored after the client gave up.
- Checksum.Memcrc: requires fewer than 2^31 bytes, because the source counts them in an `int`; what happens beyond is undefined.
- FileChecksum.ReadCrc: for files that long the checksum is an arbitrary number.
- A loop over the seven further tables: the source has the tables but no such loop, so the eight-byte step is a function.
