# A verified model of the RTMP play client

The client connects to an RTMP server, asks it to play a stream, takes the server's chunk stream apart and
hands audio and video on, either to a transport-stream writer or to an FLV file. This project models that
client (`Rtmp_User/rtmp_lib.cpp`, `Rtmp_User/rtmp_amf0.cpp` and their headers) in Dafny and proves what it
does with every byte stream, however the network cuts it.

`dafny verify dfyconfig.toml` checks everything.

## How it is built

The code changes buffers and fields in place, and so does the model: `Client.RtmpClient` has the client's fields,
its receive buffer and its table of chunk streams as arrays, and a method for each function of the source;
the splitter, the AMF0 writers, the NAL rewriting, the ADTS patching, the tag writers and the address parser
work on arrays as well. Each method is proved against a function on values, and the theorems are about those
functions and about the client.

| files | content |
|---|---|
| `Bytes`, `Protocol` | bytes, 32-bit words, big-endian fields, memory; statuses, messages, effects |
| `Doubles`, `Amf0`, `Amf0Values` | the numbers behind the bytes of a double; the AMF0 codec, sequences of values; a receiver of AMF0 |
| `MetaData` | the onMetaData object |
| `Audio`, `Video`, `Frames`, `Pictures` | ADTS headers over a run; length-prefixed NAL units to start codes; AAC frames and H.264 pictures among other messages |
| `Flv`, `FlvWriter`, `FlvFile` | tags, their writers, a reader of whole files and its theorem |
| `Commands`, `Writers`, `Splitter`, `Sayings` | what the client sends, laid out in place, cut into chunks in place; what it says to a receiver |
| `Handlers`, `Outcomes`, `Session` | what each message does; exactly when a handler ends well; the order of a session |
| `Chunks`, `Fragmentation`, `Demux`, `OtherChunks` | one parser call and many; every cut of the stream; every interleaving; chunks out of the ordinary |
| `Timestamps`, `Retries` | the clocks of audio and video; their exact error over any network |
| `Room` | when the receive buffer fills up |
| `Conservation`, `RoundTrip` | a byte count over runs; what is sent is read back |
| `Socket`, `RtmpClient`, `EndToEnd`, `ClientRuns`, `Offers`, `Playing` | the connection; the client; theorems about whole runs, received and sent; a session from its beginning |
| `Url` | the address fields and their parsing |

The main results, each for all inputs:

* However the stream is cut, the receive loop delivers what one parse of the whole stream delivers
  (`FragmentationIndependence`). The client is that loop behind exactly 3073 bytes, and it stops only if the
  receives have ended, a send, a handler or the parser has failed, or the buffer is full of bytes the parser takes
  nothing from (`RecvData`); a chunk longer than the buffer does that, and nothing else does.
* The parser is a left inverse of chunking, for every interleaving of chunks and every Set Chunk Size between
  them (`Demultiplex`). For a new client against any server and over any network: what it delivers is what was
  sent, all of it if nothing stood in the way, and it stops only if something did or a chunk was longer than the
  buffer (`PlaySession`); so down to the tags of the saved file (`ClientFile`), to the headers of the AAC frames
  (`ClientFrames`), to sounds of other formats (`ClientSounds`) and to the units of the H.264 pictures (`ClientPictures`).
* `EndsWellExactlyWhen` tells from the bytes of a message alone whether its handler ends well, for every type, both
  builds and every state of the client; so what stands in the way of a session is a matter of what the server sends
  (`KeptIsAccepted`), and every answer accepted brings the next bundle (`AnswersBringBundles`).
* The bytes handed to the connection are exactly C0C1, C2, connect, the createStream bundle and the play
  bundle, each at most once, in this order, each exactly when its answer has come (`ClientSession`), with the window size
  announced last and the byte of the stream id that the server has given (`ClientOffers`, `IdByteIsLowByte`). What
  they say is told by a receiver that reads AMF0 (`ConnectSays`, `CreateSays`, `PlaySays`). That the effects
  a client records for the server are the bytes it has sent is part of its invariant (`Linked` in `Valid`).
  Behind C0C1 and C2 a receiver reads back their messages in order (`OffersReadBack`).
* The in-place splitter is a functional chunker (`SplitPack`), deleting the markers undoes it
  (`UnpagedPages`), and its output is read back (`SplitReadsBack`).

Where the code does not do what is expected of it, the exact condition is proved:

* `PlayBundleReadsBack`: play and getStreamLength are never split, so the answer to createStream is readable
  exactly if the stream name has at most 97 bytes (`UnsplitReadsBack` for any such messages, `OffersReadBack` for all
  a client sends behind the handshake).
* `StallsExactlyWhen`: the receive loop asks for a chunk in one piece, so once its header is there the loop stalls with a
  full buffer exactly if the chunk, header and all, is longer than the 65536 bytes of the buffer. Whatever
  sizes are announced, chunks that fit never stall it (`FittingChunksLeaveRoom`), and sizes up to 65520 fit (`RoomLeft`).
* `RewriteIsAnnexB`: the NAL loop stops with 4 bytes left, so a list is rewritten exactly if it does not end
  in an empty unit; what it does to any bytes is told by `RewriteMarksUnits`. `ConfigSavesParameterSets`: neither
  parameter set may exceed 256 bytes.
* `FeedStamps`: every call of the parser that sees the header of a relative stamp whole adds the difference, also
  if the chunk is not complete. So, over any number of receives, an audio or video message is late by the differences
  that were added in vain since the last absolute stamp of its kind, its own and those of earlier messages, and
  its stamp is right exactly if these add up to a multiple of 2^32. `RetryAddsAgain` is the same for one header seen
  any number of times from any state, `CutFrame` one frame that comes out wrong, and `HarmlessCuts` and `CleanFeed`
  the runs on which nothing is added in vain. `RetriedWhere` counts the calls in vain: for each chunk, they are the
  receives that end behind its header or at its end, and in front of the end of the chunk.
* `SeenIsSame`: a comment at `Rtmp_User/rtmp_lib.cpp:654` calls the stream id little-endian, but the code below
  it reads the high byte first (as the model does); an id comes through exactly if its bytes are a palindrome.
* `WrittenListReadsBack`: an AMF0 list is read back whole exactly if no name in it is empty and every text
  leaves room for its NUL.
* `NumbersSkippedExactlyWhen`: behind an onMetaData name that the client does not know, as many bytes are skipped as the
  name and its length have; so a number behind such a name is skipped exactly if the name has 7 bytes, and a text exactly
  if it is one byte shorter than the name (`TextsSkippedExactlyWhen`). Objects in which this fits are read as their
  last values (`MetaHoldsLastValues`).
* `CopyStays`: a chunk that continues a message with a long header leaves the copy from which tags are built
  right exactly if it repeats size and type.
* `PrintedUrlReadsBack`: an application name is recovered exactly if the buffer had a zero behind it, that is,
  if no longer name was there from an earlier address.

More places where the code departs from the standards are stated as they are: a following chunk that repeats an
extended time stamp has that field taken for payload (`ExtensionIsPayload`), an end marker is accepted if any one
of its three bytes is in place (`ObjectEndAcceptance`), a chunk of format 2 or 3 opens an empty message of type 0
(`Format2Opens`, `Format3Opens`), and a chunk stream id from 64 on ends the parsing (`LargeIdsFail`).

Conventions. A double is its eight bytes, most significant first, and `ValueOf` is its number; `IdByte` takes the low
byte of the integer part of one, and 0 where the conversion to int is not defined. The outcome `Overread` marks messages whose
handler reads behind them (types 1, 5 and 6 shorter than four bytes, short audio and video headers, a
configuration record shorter than it says): what the code does from there on depends on other memory, so runs
end there, and likewise the address parser answers `None` where a copy leaves its buffer. `saveFlv` and
`fileOpens` stand for the `SAVE_FLV` build and for whether the file can be created. Fields the constructor
leaves unset start as zero. `Receive` delivers any non-empty part of what is coming, or an error or the end, which is remembered;
`Send` remembers every attempt and whether it succeeded. The overlapping `memcpy` of the receive loop is a move. Chunk stream ids 0 and
1 announce ids from 64 on, which `MAX_CHUNK_ID` (64) excludes.

## Model

| member | source | states |
|---|---|---|
| Client.RtmpClient.constructor | Rtmp_User/rtmp_lib.cpp:4-16 | a new client is valid, with no message in flight on any chunk stream, nothing delivered or sent and every field zero |
| Client.RtmpClient.StartPlay | Rtmp_User/rtmp_lib.cpp:95-113 | chunk size 128, C0C1 attempted, then the receive loop to its end, with the contract of RecvData; the pieces are those of the receives |
| Client.RtmpClient.RecvData | Rtmp_User/rtmp_lib.cpp:1231-1284 | for any server and any receives: when the loop ends, the bytes behind the first 3073 have been fed to the parser, no byte lost or seen twice, and in exactly the pieces the receives delivered, the first 3073 bytes cut off; before that fewer than 1537 or 3073 bytes have arrived, as the status says; and it ends only if the receives have ended, C2 or connect could not be sent, a handler or the parser failed, or the buffer is full of bytes the parser has left |
| Client.RtmpClient.Round | Rtmp_User/rtmp_lib.cpp:1235-1282 | one round of the loop is one receive and keeps the receive window: behind the handshake the buffer starts with exactly the received bytes the parser has not used; it ends the loop only for one of the reasons above |
| Client.RtmpClient.TakeHandshake | Rtmp_User/rtmp_lib.cpp:1246-1265 | 1537 and 1536 bytes are skipped by count though nothing is compacted between them; connect goes out only with 3073 bytes received, and the chunk bytes then start at stream byte 3073 |
| Client.RtmpClient.FirstChunks | Rtmp_User/rtmp_lib.cpp:1266-1282 | chunk bytes that came with the end of the handshake are parsed at once, from stream byte 3073, as the first piece |
| Client.RtmpClient.StepConnected | Rtmp_User/rtmp_lib.cpp:1266-1282 | the bytes of a later receive are fed to the parser as exactly one more piece |
| Client.RtmpClient.TakeChunks | Rtmp_User/rtmp_lib.cpp:1267-1276 | after parsing, the unused rest lies at the front of the buffer |
| Client.RtmpClient.ParseBuffer | Rtmp_User/rtmp_lib.cpp:1268-1281 | the inner loop ends within size + 1 calls and does what parsing all bytes at hand does |
| Client.RtmpClient.ProcessChunk | Rtmp_User/rtmp_lib.cpp:613-798 | one parser call on the arrays is the function Step, and every call keeps the reassembly invariant: position + remaining = size < buffer length, a multiple of 65536 at most size + 65536, and the buffer prefix is what was received |
| Client.RtmpClient.ReadChunkHeader | Rtmp_User/rtmp_lib.cpp:621-744 | header, time stamps and header copy after the switch over the four formats |
| Client.RtmpClient.HeaderFormat0 | Rtmp_User/rtmp_lib.cpp:643-676 | absolute stamp, extended stamp, remembered stamps and type, also when the data are too short |
| Client.RtmpClient.HeaderFormat1 | Rtmp_User/rtmp_lib.cpp:677-709 | a difference is added to the last stamp of its kind in 32 bits |
| Client.RtmpClient.HeaderFormat2 | Rtmp_User/rtmp_lib.cpp:710-735 | a difference alone goes by the type of the last long header |
| Client.BufLen | Rtmp_User/rtmp_lib.cpp:781 | the message buffer is the next multiple of 64K strictly above the size |
| Client.RtmpClient.NewBuffer | Rtmp_User/rtmp_lib.cpp:778-786 | a fresh buffer for one chunk stream; no two chunk streams share a buffer |
| Client.RtmpClient.TakeWhole | Rtmp_User/rtmp_lib.cpp:766-776 | a message of one chunk is handled where it lies in the receive buffer |
| Client.RtmpClient.TakeFirst | Rtmp_User/rtmp_lib.cpp:766-797 | the first chunk of a longer message |
| Client.RtmpClient.TakeNext | Rtmp_User/rtmp_lib.cpp:753-797 | a following chunk, with the chunk size in force now |
| Client.RtmpClient.GatherChunk | Rtmp_User/rtmp_lib.cpp:789-797 | the piece goes behind what was gathered; a complete message goes to its handler |
| Client.RtmpClient.ProcessMessage | Rtmp_User/rtmp_lib.cpp:803-867 | the dispatch does what Handle says and changes nothing outside the message's bytes |
| Client.RtmpClient.ProcessCommand | Rtmp_User/rtmp_lib.cpp:524-543 | `_result` is answered according to the status |
| Client.RtmpClient.ConnectResult | Rtmp_User/rtmp_lib.cpp:550-573 | the 78 bytes of the createStream bundle are handed to the connection and the status moves on |
| Client.RtmpClient.CreateStreamResult | Rtmp_User/rtmp_lib.cpp:579-606 | the stream id is kept and the play bundle is handed to the connection, or the message fails |
| Client.RtmpClient.ProcessData | Rtmp_User/rtmp_lib.cpp:839-858 | onMetaData starts the file and sets the last status |
| Client.RtmpClient.ProcessTag | Rtmp_User/rtmp_lib.cpp:1045-1073 | one tag per audio or video message, an error without a file |
| Client.RtmpClient.SendToServerC0C1 | Rtmp_User/rtmp_lib.cpp:126-142 | one attempt to send 1537 bytes, version 3 first, and the status after it |
| Client.RtmpClient.SendToServerC2 | Rtmp_User/rtmp_lib.cpp:148-164 | one attempt to send 1536 bytes, and the status after it |
| Client.RtmpClient.SendToServerConnect | Rtmp_User/rtmp_lib.cpp:169-274 | one attempt to send exactly the split connect command; the status moves only if it succeeds |
| Client.RtmpClient.SendPlay | Rtmp_User/rtmp_lib.cpp:600-602 | getStreamLength, play and Set Buffer Length are handed to the connection one behind the other, and nothing else |
| Playing.PlaySession | Rtmp_User/rtmp_lib.cpp:95-113 | from a new client on, against any server that sends 3073 bytes and then any schedule of chunks, over any network: the messages delivered are the first completed ones as they were sent, with the stamps of FeedStamps for the receives as they came, and all of them if every byte arrived, no send failed and every message was acceptable; the bytes sent are C0C1, C2, connect and the answers to what the server has said; the client stops only if the receives end, a send fails, a message is not acceptable, or its full buffer starts with a chunk that is longer, which the server must have sent |
| ClientRuns.ClientDelivers | Rtmp_User/rtmp_lib.cpp:1231-1284 | for every schedule of chunks behind the handshake and every network: the client has delivered the first completed messages as they were sent, and all of them once everything has arrived |
| ClientRuns.ClientSession | Rtmp_User/rtmp_lib.cpp:1247-1265 | over every run: the bytes handed to the connection are those of a prefix of C0C1, C2, connect, createStream, play; C2 needs 1537 bytes received, connect 3073; from there on there is exactly one more for each of the first two answers accepted; the status never falls back |
| ClientRuns.ClientFile | Rtmp_User/rtmp_lib.cpp:948-1073 | the file written by the client reads as a metadata tag and one tag for each audio or video message handled behind it, also when the run ended with a failing handler |
| ClientRuns.ClientFrames | Rtmp_User/rtmp_lib.cpp:1175-1225 | over every run of the client, other messages in between: each AAC frame is dropped before the first configuration and otherwise is the next audio packet, with a header that reads back as the last configuration and its own length |
| ClientRuns.ClientSounds | Rtmp_User/rtmp_lib.cpp:1175-1225 | over every run of the client each sound of another format is the next audio packet, as it was sent behind its tag byte |
| ClientRuns.ClientStamps | Rtmp_User/rtmp_lib.cpp:1231-1284 | the stamp of every message the client has delivered, over any receives and with the retries these receives cause, and exactly when it is right |
| ClientRuns.ClientPictures | Rtmp_User/rtmp_lib.cpp:1075-1173 | over every run of the client, other messages in between: each AVC message that is not a configuration is the next video packet, its units behind start codes, and on a key picture with the parameter sets saved last |
| Offers.ClientOffers | Rtmp_User/rtmp_lib.cpp:169-606 | over every run the connection has been given C0C1, C2 and the first of connect, createStream and play bundle, byte for byte: the second with the window size announced last in front of the first answer, the third with the low byte of the third value of the second answer, and as many as there were answers |
| Offers.RunReplies | Rtmp_User/rtmp_lib.cpp:524-606 | the same of the handlers over any messages that go well, from each status |
| Offers.IdIsThirdValue | Rtmp_User/rtmp_lib.cpp:579-596 | the stream id is the third value of the answer |
| Offers.OffersReadBack | Rtmp_User/rtmp_lib.cpp:169-518 | a receiver reads the first of these three back as their messages in order and to the last byte, whatever comes with them, exactly if the play bundle is not among them or the stream name has at most 97 bytes |
| EndToEnd.AnyCutDelivers | Rtmp_User/rtmp_lib.cpp:1266-1282 | any interleaving, cut anywhere, at any moment: the messages completed first, each as sent |
| EndToEnd.OnlyHandlersFail | Rtmp_User/rtmp_lib.cpp:1277-1280 | over the chunks of a schedule the loop fails only because a handler has failed |
| EndToEnd.PartOfRun | Rtmp_User/rtmp_lib.cpp:1266-1282 | what has been delivered of a part of a stream is never taken back |
| Room.RoomLeft | Rtmp_User/rtmp_lib.cpp:1237 | chunk sizes up to 65520 always leave room for another receive |
| Room.StuckExactlyWhen | Rtmp_User/rtmp_lib.cpp:746-763 | a full buffer is not enough for one call of the parser exactly if the chunk at its front, with its header, is longer than the buffer |
| Room.StallsExactlyWhen | Rtmp_User/rtmp_lib.cpp:1236-1237 | once a header is there and the buffer has been filled, the loop takes nothing out of it exactly if that chunk is longer than the buffer |
| Room.FullIsTooLong | Rtmp_User/rtmp_lib.cpp:1271-1276 | over any receives of any bytes: a buffer that the loop leaves full starts with a chunk that is longer |
| Room.FittingChunksLeaveRoom | Rtmp_User/rtmp_lib.cpp:1271-1276 | chunks of a schedule that are each no longer than the buffer never fill it, whatever chunk sizes are announced and wherever they are cut |
| Fragmentation.FragmentationIndependence | Rtmp_User/rtmp_lib.cpp:1231-1283 | the loop over any pieces ends as one parse of the whole stream: same outcome, same messages, same chunk streams, same bytes left, relative stamps aside |
| Fragmentation.TwoCuts | Rtmp_User/rtmp_lib.cpp:1231-1283 | two ways of cutting the same stream deliver the same |
| Fragmentation.FeedIsHandled | Rtmp_User/rtmp_lib.cpp:1266-1282 | what the loop does to the client is what the handlers make of the delivered messages |
| Fragmentation.FeedKept | Rtmp_User/rtmp_lib.cpp:1277-1280 | a run handles all its messages well, or all but the last |
| Fragmentation.PendingBounded | Rtmp_User/rtmp_lib.cpp:1271-1276 | what is kept for the next receive is less than a chunk |
| Fragmentation.StepRetry | Rtmp_User/rtmp_lib.cpp:643-763 | asking again with more bytes is as good as asking once, relative stamps aside |
| Fragmentation.ParseGrows | Rtmp_User/rtmp_lib.cpp:1268-1281 | parsing what is there and going on later is as good as parsing everything |
| Chunks.StepProgress | Rtmp_User/rtmp_lib.cpp:613-798 | a positive return moves nothing and delivers nothing; a zero return uses at least one byte and never more than there are |
| Chunks.PrepareKeeps | Rtmp_User/rtmp_lib.cpp:642-744 | what a call for more data leaves behind touches header copies and stamps only |
| Chunks.ChunkLen | Rtmp_User/rtmp_lib.cpp:746-759 | the payload of a chunk is the smaller of the chunk size and what is missing of the message |
| Chunks.ParseAll | Rtmp_User/rtmp_lib.cpp:1268-1281 | parsing ends, within one call more than there are bytes |
| Chunks.RunIsHandled | Rtmp_User/rtmp_lib.cpp:794-797 | effects are those of the handlers on the delivered messages; none comes behind one that failed |
| Chunks.KeptIsHandled | Rtmp_User/rtmp_lib.cpp:1277-1280 | a run has the effects of the messages in front of the first that failed; a failing handler has none |
| Demux.Demultiplex | Rtmp_User/rtmp_lib.cpp:746-797 | for every set of messages and every interleaving of their chunks, with chunk sizes changing in between: exactly the completed messages, in that order, up to the first failing handler |
| Demux.StartStep | Rtmp_User/rtmp_lib.cpp:766-797 | the first chunk of a message |
| Demux.GoStep | Rtmp_User/rtmp_lib.cpp:736-797 | a following chunk, whatever size is in force |
| Demux.SeenIsSame | Rtmp_User/rtmp_lib.cpp:655-656 | stream ids come through exactly if their bytes are a palindrome |
| Demux.ExtensionIsPayload | Rtmp_User/rtmp_lib.cpp:736-763 | a following chunk that repeats an extended stamp: the field is taken for payload, and as many bytes at the end are left behind |
| OtherChunks.LargeIdsFail | Rtmp_User/rtmp_lib.cpp:628-640 | a chunk stream id from 64 on fails and leaves the parser as it was |
| OtherChunks.Format3Opens | Rtmp_User/rtmp_lib.cpp:736-771 | without a message in flight a chunk of format 3 delivers an empty message of type 0 |
| OtherChunks.Format2Opens | Rtmp_User/rtmp_lib.cpp:710-771 | so does one of format 2, and its difference goes to the clock of the last long header's kind |
| OtherChunks.AnyHeaderContinues | Rtmp_User/rtmp_lib.cpp:753-797 | with a message in flight, a chunk of any format goes on with it: size, type, stream id and time stamp stay |
| Timestamps.ClockIsSum | Rtmp_User/rtmp_lib.cpp:700-706 | the clock is the last absolute stamp plus all differences since, modulo 2^32 |
| Retries.FeedStamps | Rtmp_User/rtmp_lib.cpp:669-763 | for every schedule and every cut: each delivered message carries the stamp of its start on the clock of its kind, whatever comes between, plus all differences added again since the last absolute stamp; right exactly if these are a multiple of 2^32 |
| Retries.WorkStamps | Rtmp_User/rtmp_lib.cpp:1266-1282 | the same at every call of the parser |
| Retries.FeedIsWork | Rtmp_User/rtmp_lib.cpp:1266-1282 | the receive loop call by call is the receive loop |
| Retries.RetriedWhere | Rtmp_User/rtmp_lib.cpp:1266-1282 | the calls in vain that count for a chunk are exactly the receives that end at or behind the end of its header, with its extended stamp, and in front of the end of the chunk |
| Retries.HarmlessCuts | Rtmp_User/rtmp_lib.cpp:669-763 | if no receive ends between the end of an audio or video header with a difference and the end of its chunk (or so many do that their number times the difference is a multiple of 2^32), all stamps are right, over any number of receives |
| Retries.CleanFeed | Rtmp_User/rtmp_lib.cpp:1266-1282 | for any bytes: if no cut leaves a difference that was added already, the loop ends in exactly the state and with exactly the messages of one parse |
| Retries.RetryAddsAgain | Rtmp_User/rtmp_lib.cpp:700-763 | from any state: a header seen k times in vain puts the stamp ahead by k times the difference; right exactly if that is a multiple of 2^32 |
| Retries.CutFrame | Rtmp_User/rtmp_lib.cpp:700-763 | one AAC frame cut behind its header: 10 milliseconds instead of 5 |
| Conservation.RunCost | Rtmp_User/rtmp_lib.cpp:746-797 | over any bytes: payload and headers of all that was delivered or is in flight are covered by the bytes used |
| Conservation.StaysInFlight | Rtmp_User/rtmp_lib.cpp:789-796 | a message that is never continued is never delivered |
| Session.SessionOrder | Rtmp_User/rtmp_lib.cpp:534-606 | over every list of messages: the bundles sent are the first of those owed, as many as there were answers, and the status never falls back |
| Session.OneMessage | Rtmp_User/rtmp_lib.cpp:803-867 | which messages move the session, and that no other does |
| Session.KeptIsAccepted | Rtmp_User/rtmp_lib.cpp:803-867 | over every list of messages: the ones handled well are the ones in front of the first not accepted, told from their bytes |
| Session.AnswersBringBundles | Rtmp_User/rtmp_lib.cpp:534-606 | over every list of messages: all go well exactly if all are accepted, and exactly as many of the bundles owed go out as answers are accepted |
| Outcomes.EndsWellExactlyWhen | Rtmp_User/rtmp_lib.cpp:803-867 | for every message, both builds and every state: the handler ends well exactly if the bytes and the state are as stated for its type, and reads behind the message exactly where that is said |
| Outcomes.ConnectIsAnswered | Rtmp_User/rtmp_lib.cpp:534-573 | waiting for connect, every `_result`, whatever follows, is answered with the createStream bundle and nothing else |
| Outcomes.StreamIsCreated | Rtmp_User/rtmp_lib.cpp:536-606 | waiting for the stream, `_result`, a number, a null and a number are answered with the play bundle for that number, which is kept |
| Handlers.IdByteIsLowByte | Rtmp_User/rtmp_lib.cpp:457 | for every double: the low byte of its whole part in the range of int |
| Handlers.HandleIgnoresStamp | Rtmp_User/rtmp_lib.cpp:803-867 | time stamps reach the outputs only |
| Handlers.HandleNeverMore | Rtmp_User/rtmp_lib.cpp:803-867 | no handler asks for more data |
| Handlers.HandleChunkSize | Rtmp_User/rtmp_lib.cpp:808-812 | Set Chunk Size sets the chunk size, and nothing else does |
| Handlers.HandleOtherWords | Rtmp_User/rtmp_lib.cpp:814-824 | type 5 sets the window size, type 6 the bandwidth, and nothing else sets either |
| Splitter.SplitPack | Rtmp_User/rtmp_amf0.cpp:122-149 | in place and from the back: header, page 0, marker, page 1, and so on, for every length; no move destroys a byte still to be moved |
| Splitter.UnpagedPages | Rtmp_User/rtmp_amf0.cpp:133-148 | deleting the markers restores the body |
| Splitter.PagesOfPrefix | Rtmp_User/rtmp_amf0.cpp:142 | moving a full page for a short last one does not reach the result |
| RoundTrip.SplitReadsBack | Rtmp_User/rtmp_lib.cpp:258-263 | a split message of any length is used whole and comes out as it was, whatever else is in flight |
| RoundTrip.ConnectReadsBack | Rtmp_User/rtmp_lib.cpp:169-274 | the connect command is read back for every application and URL |
| RoundTrip.UnsplitReadsBack | Rtmp_User/rtmp_lib.cpp:746-797 | unsplit messages are read back exactly if none is longer than the chunk size |
| RoundTrip.CreateBundleReadsBack | Rtmp_User/rtmp_lib.cpp:550-573 | the createStream bundle is read back as its three messages |
| RoundTrip.PlayBundleReadsBack | Rtmp_User/rtmp_lib.cpp:395-518 | the play bundle is read back exactly if the stream name has at most 97 bytes |
| Writers.WriteConnect | Rtmp_User/rtmp_lib.cpp:169-274 | the connect command with its back-patched length, split |
| Writers.WriteWinAck | Rtmp_User/rtmp_lib.cpp:279-310 | the window acknowledgement message, or nothing without room |
| Writers.WriteShortCommand | Rtmp_User/rtmp_lib.cpp:315-390 | createStream and _checkbw, or nothing without room |
| Writers.WriteStreamLength | Rtmp_User/rtmp_lib.cpp:395-433 | getStreamLength with its back-patched length |
| Writers.WritePlay | Rtmp_User/rtmp_lib.cpp:438-480 | play, with the low byte of the stream id first |
| Writers.WriteBufferLength | Rtmp_User/rtmp_lib.cpp:485-518 | Set Buffer Length |
| Sayings.ConnectSays | Rtmp_User/rtmp_lib.cpp:169-274 | an AMF0 receiver reads connect as its name, 1 and an object of eight properties with these names, texts, numbers and truth value |
| Sayings.CreateSays | Rtmp_User/rtmp_lib.cpp:279-390 | the createStream bundle says the window size, createStream as transaction 2 and _checkbw as transaction 3 |
| Sayings.PlaySays | Rtmp_User/rtmp_lib.cpp:395-518 | the play bundle asks for the length of the stream by name as transaction 4, plays it by name from -2000 on as transaction 5 on the given stream id, and sets a buffer of 3000 milliseconds for stream 1 |
| Amf0.WrittenListReadsBack | Rtmp_User/rtmp_amf0.cpp:12-223 | a written list is read back whole, and to its last byte, exactly if no name is empty and every text leaves room for its NUL |
| Amf0.PopWritten | Rtmp_User/rtmp_amf0.cpp:151-223 | one written value in front of anything is read back, or refused |
| Amf0.PushString | Rtmp_User/rtmp_amf0.cpp:12-35 | the string value, or nothing and -1 |
| Amf0.PushNumber | Rtmp_User/rtmp_amf0.cpp:37-51 | the number value, or nothing and -1 |
| Amf0.PushObjectHeader | Rtmp_User/rtmp_amf0.cpp:53-62 | the object marker, or nothing and -1 |
| Amf0.PushObjectEnder | Rtmp_User/rtmp_amf0.cpp:64-74 | the end marker, or nothing and -1 |
| Amf0.PushName | Rtmp_User/rtmp_amf0.cpp:76-95 | a property name, or nothing and -1 |
| Amf0.PushBool | Rtmp_User/rtmp_amf0.cpp:97-109 | the boolean value, or nothing and -1 |
| Amf0.PushNull | Rtmp_User/rtmp_amf0.cpp:111-120 | the null marker, or nothing and -1 |
| Amf0.PopString | Rtmp_User/rtmp_amf0.cpp:151-165 | what is accepted is exactly a written string value that leaves room for its NUL |
| Amf0.PopNumber | Rtmp_User/rtmp_amf0.cpp:167-178 | what is accepted is exactly a written number value |
| Amf0.PopName | Rtmp_User/rtmp_amf0.cpp:207-223 | what is accepted is a written name, or an empty one without moving on |
| Amf0.PopStringInto | Rtmp_User/rtmp_amf0.cpp:151-165 | the text and a NUL in the caller's buffer, or nothing |
| Amf0.PopNameInto | Rtmp_User/rtmp_amf0.cpp:207-223 | the name and a NUL in the caller's buffer, or nothing |
| Amf0.ObjectEndAcceptance | Rtmp_User/rtmp_amf0.cpp:198-205 | an end marker is accepted exactly if one of its bytes is in place |
| MetaData.ProcessMetaData | Rtmp_User/rtmp_lib.cpp:873-947 | the loop ends on every input and reads nothing outside the message, though it may skip a name's length twice |
| MetaData.TakeEntry | Rtmp_User/rtmp_lib.cpp:890-938 | every entry takes at least three bytes and stays inside the message |
| MetaData.ForeignName | Rtmp_User/rtmp_lib.cpp:883-938 | behind an unrecognised name of n bytes n + 2 bytes are skipped, and the object fails if they are not there |
| MetaData.NumbersSkippedExactlyWhen | Rtmp_User/rtmp_lib.cpp:883-938 | whatever number stands behind an unrecognised name and whatever follows: it is skipped exactly if the name has 7 bytes |
| MetaData.TextsSkippedExactlyWhen | Rtmp_User/rtmp_lib.cpp:883-938 | and a text exactly if it is one byte shorter than the name |
| MetaData.MetaHoldsLastValues | Rtmp_User/rtmp_lib.cpp:873-947 | for every object of recognised keys, with other names of values that fit the skip between them: every key holds the last value given for it in front of the end, or of the place where no entry can be read |
| MetaData.MetaNeedsObject | Rtmp_User/rtmp_lib.cpp:883-888 | without an object behind the title, an array for one, nothing is read |
| MetaData.KeyOfName | Rtmp_User/rtmp_lib.cpp:900-928 | the chain of comparisons tells all names apart |
| Video.RewriteInPlace | Rtmp_User/rtmp_lib.cpp:1156-1170 | the loop ends on every content, also when the length wraps, writes in its span only, and is the function RewriteNals |
| Video.RewriteIsAnnexB | Rtmp_User/rtmp_lib.cpp:1156-1170 | a list of units with up to 4 bytes behind it is taken, and comes out behind start codes, every byte kept, exactly if it does not end in an empty unit |
| Video.RewriteMarksUnits | Rtmp_User/rtmp_lib.cpp:1156-1170 | for every content, wrapped lengths included and told from the bytes as they came: the loop fails exactly if the units do not fit, and otherwise puts a start code in front of each |
| Video.MarkedIsAnnexB | Rtmp_User/rtmp_lib.cpp:1156-1170 | for a list of units that is its start-code form, exactly if it does not end in an empty unit |
| Video.RewriteUnit | Rtmp_User/rtmp_lib.cpp:1158-1169 | one unit is rewritten whatever follows it |
| Video.ConfigSavesParameterSets | Rtmp_User/rtmp_lib.cpp:1101-1147 | both parameter sets are saved behind start codes exactly if neither exceeds 256 bytes, whatever follows them |
| Video.SaveInPlace | Rtmp_User/rtmp_lib.cpp:1101-1147 | the parameter sets in the header buffer, with every error branch |
| Video.ProcessVideo | Rtmp_User/rtmp_lib.cpp:1075-1173 | the packet handed on, the saved header, and nothing written outside the message |
| Audio.FrameHeaders | Rtmp_User/rtmp_lib.cpp:1186-1224 | over every run of the audio handler: a frame is dropped before the first configuration and otherwise has a header that reads back as the last configuration and the frame's length modulo 8192 |
| Pictures.PicturesOfRun | Rtmp_User/rtmp_lib.cpp:1151-1172 | over every run of the handlers each AVC message that is not a configuration is the next video packet among the effects, with its times, its units behind start codes, and the sets saved last |
| Pictures.SavedSetsAre | Rtmp_User/rtmp_lib.cpp:1099-1148 | the sets saved last are those of the last configuration record, in start-code form |
| Frames.FramesOfRun | Rtmp_User/rtmp_lib.cpp:803-867 | the same among any other messages, as packets among the effects of the run |
| Frames.OtherSoundsOfRun | Rtmp_User/rtmp_lib.cpp:1175-1225 | over every run of the handlers each sound of another format is the next audio packet, with its stamp, no header and the bytes behind the tag byte, and no configuration is one |
| Audio.PatchedReadsBack | Rtmp_User/rtmp_lib.cpp:1214-1223 | one patched header; restoring byte 3 keeps the length bits from adding up |
| Audio.HeadFollowsRun | Rtmp_User/rtmp_lib.cpp:1189-1223 | between frames the header always belongs to the last configuration |
| Audio.ProcessAudio | Rtmp_User/rtmp_lib.cpp:1175-1225 | the handler on its buffer, with every branch |
| FlvWriter.WriteTag | Rtmp_User/rtmp_lib.cpp:1045-1073 | the tag in a new buffer |
| FlvWriter.WriteMetaTag | Rtmp_User/rtmp_lib.cpp:948-1043 | the metadata tag with its back-patched sizes |
| FlvFile.FileReadsBack | Rtmp_User/rtmp_lib.cpp:948-1073 | over every run with one onMetaData, also one that ends with a failing handler: a file of version 1 with audio and video, its metadata tag, then one tag per audio or video message in front of the failure in order, with body, stamp modulo 2^24 and matching sizes |
| FlvFile.NoFileWithoutMeta | Rtmp_User/rtmp_lib.cpp:1050-1053 | a run without onMetaData writes nothing |
| FlvFile.StreamToFile | Rtmp_User/rtmp_lib.cpp:948-1073 | the same from the sender's chunks on, over any cut |
| FlvFile.MetaBodyReadsBack | Rtmp_User/rtmp_lib.cpp:967-1027 | the metadata body is an array of exactly seven properties |
| FlvFile.MetaBodySays | Rtmp_User/rtmp_lib.cpp:967-1027 | the seven properties by name, in order: duration 60, video data rate 0, file size 1048576, and the four numbers of the server |
| FlvFile.FileTellsLastValues | Rtmp_User/rtmp_lib.cpp:979-1022 | size, frame rate and codec in the file are the last ones the server gave, also in an object that cannot be read to its end |
| FlvFile.CopyStays | Rtmp_User/rtmp_lib.cpp:657-688 | a continuing chunk keeps the header copy right exactly if its header is short or repeats size and type |
| FlvFile.OneMessageWrites | Rtmp_User/rtmp_lib.cpp:826-858 | which messages write a tag, and that they fail without a file |
| Url.Address.ParseCurUrl | Rtmp_User/rtmp_lib.cpp:25-78 | host, port, application and stream buffers after parsing |
| Url.PrintedUrlReadsBack | Rtmp_User/rtmp_lib.cpp:25-78 | printing and parsing recovers host, port (or 1935) and stream, prefixed exactly when it names an MP4 file without a colon, and the application exactly if its buffer held a zero behind it |
| Url.ParseTwice | Rtmp_User/rtmp_lib.cpp:46-54 | parsing is idempotent on the stream |
| Url.NamedTwice | Rtmp_User/rtmp_lib.cpp:46-54 | when the prefix is added, and that it is added once |
| Url.NamedIs | Rtmp_User/rtmp_lib.cpp:46-51 | `mp4:` goes in front of exactly the streams with mp4 somewhere and no colon |
| Url.PrintedUrlFits | Rtmp_User/rtmp_lib.cpp:25-78 | a printed address is taken exactly if every text and its NUL fit their buffers |
| Url.NoPathInUrl | Rtmp_User/rtmp_lib.cpp:39-40 | without any slash host and port are set, application and stream stay as they were |
| Url.NoStreamInUrl | Rtmp_User/rtmp_lib.cpp:55-58 | without a second slash: application "live", no stream |
| Url.DigitsReadBack | Rtmp_User/rtmp_lib.cpp:74 | atoi of printed digits is the number |
| Url.NumberIsRead | Rtmp_User/rtmp_lib.cpp:74 | a number is read behind blanks and a sign up to the first other character |

## Left out

- Sockets, name resolution, threads, sleeping and the command line: the connection is `Network.Socket`, and which
  bytes arrive when is left open.
- Closing the connection and everything behind the end of the receive loop: the source has none.
- The contents of C0C1, C2, S0S1 and S2 beyond their lengths; clock readings in them are zeros here.
- The transport-stream writer: a packet handed to it is recorded among the effects.
- File handles and file errors behind a successful open; the file is new when it is opened.
- A second onMetaData in one run, which opens the file a second time: the file theorems ask for one.
- `printf` and memory management: replacing a message buffer is replacing the array.
- Infinities and what is not a number among AMF0 numbers: the codec carries their bytes, a receiver refuses them.
- A URL that is NULL, a length argument other than the length of the text, and ports beyond the range of int.
- Retries.FeedStamps: covers senders that open messages with formats 0 and 1; a format 2 chunk opens a message of size 0 and type 0 in the code.
- Demux.Demultiplex: chunk stream ids 2 to 63, messages opened with formats 0 and 1 and continued with format 3, extended time stamps on messages of one chunk only; the code handles the other forms differently from the standard (`ExtensionIsPayload`, `SeenIsSame`, module `OtherChunks`).
- Fragmentation.FragmentationIndependence: says nothing of relative time stamps, which do depend on the cuts: how, is `FeedStamps`.
- Writers.WritePlay: enters the byte of the stream id last, where the code enters it with the header; the buffer is the same.
