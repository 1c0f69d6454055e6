# BatteryTesterSystem protocol core in Dafny

BatteryTesterSystem drives 32 battery-tester boards over TCP. Each board has 4
channels, and the channels are numbered 1..128 across all boards. This project
models the byte-level protocol layer and the bookkeeping around it:

- the packed `StepDataReq` / `StepDataAck` structs with their in-place
  `Convert()` byte swap, and their marshalling to and from bytes on a
  little-endian host (`ProtocolHelper`);
- the 16-byte command frame, the board endpoints, the connection tables of
  `TcpCommunicationService`, the "send only to a registered stream" gate and
  the receive loop's rule for accepting a read;
- the splitting of an 800-byte board frame into four 200-byte channel blocks,
  the parsing of each block, and the latest-value registry of
  `ChannelDataManager`;
- the channel-addressed routing of `CommandProcessor`: a range check, then one
  message to the channel's board, or 128 messages for a broadcast.

Struct marshalling is written out as an explicit layout. A layout is the
sequence of field widths (`Layout.Size`, `Layout.Offset`). A struct value is
the sequence of raw field values, with signed fields in two's complement. Both
`StructToByteArray` and `ByteArrayToStruct` are methods over byte arrays that
loop field by field, and each is proved against `Layout.Encode` or
`Layout.Decode`. The two round trips are lemmas about those functions.

The sockets are abstract:

- the outcome of each connect attempt is a parameter;
- the bytes each `ReadAsync` returns are a parameter;
- ghost logs on the service record every endpoint dialled, every receive loop
  started, every `SendCommandAsync` call and every frame handed to a stream.

`DateTime.Now` is a parameter too: ticks for a single command, and a
`clock: nat -> ...` function giving the k-th reading inside loops.

The receive loop does not assemble frames. It accepts only a single read of
exactly 800 bytes, ends on a read of 0, and drops every other read, including
the partial reads a stream is allowed to return.
`TcpCommunication.SplitFrameIsLost` shows the consequence: a frame that
arrives in two pieces is never delivered.

The files are:

- `binary.dfy`: integer widths, little-endian encode and decode, the 16-bit
  swap, two's complement, and C# 32-bit wrap-around;
- `layout.dfy`: packed struct layouts and their round trips;
- `sequences.dfy`: general facts about slicing and concatenation;
- `errors.dfy`: the exceptions as values;
- `addressing.dfy`: board and channel numbering;
- `channel_data.dfy`: `Models/ChannelData.cs`;
- `protocol_helper.dfy`: `Utils/ProtocolHelper.cs`;
- `tcp_communication_service.dfy`: `Services/TcpCommunicationService.cs`;
- `channel_data_manager.dfy`: `Services/ChannelDataManager.cs`;
- `command_processor.dfy`: `Commands/CommandProcessor.cs`.

## Model

| member | source | states |
|---|---|---|
| Models.StepDataReqLayoutSize | Models/ChannelData.cs:6-14 | the packed StepDataReq is 8 bytes, with CH at offset 0, ID at 2 and StepDataIndex at 4 |
| Models.StepDataAckLayoutSize | Models/ChannelData.cs:23-55 | the packed StepDataAck is 50 bytes; its 15 fields sit back to back in declaration order, at offsets 0, 2, 4, 8, …, 38, 46 |
| Models.StepDataReq.constructor | Utils/ProtocolHelper.cs:68-73 | the object initialiser sets CH, ID and StepDataIndex to the given values |
| Models.StepDataReq.Convert | Models/ChannelData.cs:16-20 | CH and ID become their 16-bit byte reversals; StepDataIndex is unchanged |
| Models.StepDataReq.Fields | Models/ChannelData.cs:7-14 | the record's raw field values fit the StepDataReq layout, in field order |
| Models.StepDataAck.Convert | Models/ChannelData.cs:57-61 | CH and ID become their byte reversals; each of the other 13 fields keeps its old value |
| Models.StepDataAck.FieldsFit | Models/ChannelData.cs:24-55 | the 15 raw field values fit the StepDataAck layout; CH, ID and StepDataIndex appear unchanged |
| Models.StepDataAck.FieldsSigned | Models/ChannelData.cs:41-51 | the signed fields TargetVoltage, TargetCurrent, TargetPower, TargetResistance (I4) and TargetChamberTemp (I2) are stored in two's complement: reading the pattern back as signed gives the field |
| Models.TypeCode | Models/ChannelData.cs:85-93 | each CommandType code is at most 5, so it fits in one byte |
| Models.TypeOfCode | Models/ChannelData.cs:85-93 | a code names a CommandType exactly when it lies in 0..5 |
| Models.TypeCodeRoundTrip | Models/ChannelData.cs:85-93 | TypeOfCode inverts TypeCode: distinct types have distinct codes, and each code names its own type |
| Models.DefaultChannelData | Models/ChannelData.cs:64-76 | a new ChannelData has a 200-byte RawData that is all zero; ChannelNumber, Timestamp, the five measurement words, StepNumber and CycleNumber are all zero |
| Models.DefaultCommandMessage | Models/ChannelData.cs:78-83 | a new CommandMessage has type code 0 (Start), channel 0 and empty Data |
| Binary.Swap16 | Models/ChannelData.cs:18-19 | the little-endian bytes of the result are those of the input, in reverse order |
| Binary.SwapTwice | Models/ChannelData.cs:18-19 | a 16-bit byte swap is an involution, so Convert() applied twice restores CH and ID |
| Binary.FromLEOfLE | Utils/ProtocolHelper.cs:9-44 | reading back a little-endian encoding gives the value, provided it fits the width |
| Binary.LEOfFromLE | Utils/ProtocolHelper.cs:9-44 | re-encoding the value read from n bytes gives those n bytes back |
| Binary.FromLEBound | Utils/ProtocolHelper.cs:28-44 | the value read from n bytes is below 256^n |
| Binary.SignedRoundTrip | Models/ChannelData.cs:40-51 | signed-to-bit-pattern followed by bit-pattern-to-signed is the identity on the n-byte signed range |
| Binary.ReadUInt32LEBytes | Services/ChannelDataManager.cs:72-76 | the 32-bit read at an offset is the little-endian value of exactly those four bytes |
| Binary.ReadInt32LEBytes | Services/ChannelDataManager.cs:77-78 | BitConverter.ToInt32 is the two's-complement reading of the four bytes at the offset, and it re-encodes to them |
| Binary.Int32RoundTrip | Services/ChannelDataManager.cs:77-78 | an int32 whose bytes sit at any offset of a buffer is read back from that offset |
| Binary.Int64RoundTrip | Utils/ProtocolHelper.cs:52 | the 8 bytes of a 64-bit tick count decode back to the ticks |
| Binary.WrapInt32 | Services/ChannelDataManager.cs:36 | unchecked int arithmetic leaves every value in the 32-bit range unchanged |
| Binary.WrapInt32Congruent | Services/ChannelDataManager.cs:36 | the wrapped value differs from the exact one by a multiple of 2^32 |
| Layout.Encode | Utils/ProtocolHelper.cs:11-12 | the encoding of a struct value is exactly Marshal.SizeOf bytes long |
| Layout.Decode | Utils/ProtocolHelper.cs:28-39 | decoding yields one value per field |
| Layout.FieldPlacement | Utils/ProtocolHelper.cs:9-26 | field k occupies bytes [Offset(k), Offset(k) + width(k)) and holds the field's little-endian value |
| Layout.DecodeEncode | Utils/ProtocolHelper.cs:9-44 | round trip: ByteArrayToStruct of StructToByteArray of a fitting value gives the value back, even with trailing bytes appended |
| Layout.EncodeDecode | Utils/ProtocolHelper.cs:28-44 | the other round trip: the decoded fields fit the layout, and re-encoding them gives back the first Size bytes that were read |
| ProtocolHelper.WriteLE | Utils/ProtocolHelper.cs:9-26 | the buffer gets the value's little-endian bytes at the offset; every other byte is unchanged |
| ProtocolHelper.ReadLE | Utils/ProtocolHelper.cs:28-44 | the result is the little-endian value of the bytes at the offset |
| ProtocolHelper.StructToByteArray | Utils/ProtocolHelper.cs:9-26 | a buffer of Marshal.SizeOf bytes, filled field by field, holds exactly the packed encoding of the struct |
| ProtocolHelper.ByteArrayToStruct | Utils/ProtocolHelper.cs:28-44 | ArgumentException (expected size, actual length) when the input is shorter than the struct; otherwise the fields decoded from the first Size bytes only |
| ProtocolHelper.CreateStartCommand | Utils/ProtocolHelper.cs:46-54 | type Start, the given channel, and 8 bytes of Data that decode to the tick count |
| ProtocolHelper.CreateStopCommand | Utils/ProtocolHelper.cs:56-64 | type Stop, the given channel, and 8 bytes of Data that decode to the tick count |
| ProtocolHelper.CreateStepDataRequest | Utils/ProtocolHelper.cs:66-77 | a new request with CH = swap16(channel), ID = 0x0202 and StepDataIndex unswapped |
| ProtocolHelper.StepDataReqIdSwapInvariant | Utils/ProtocolHelper.cs:71 | 0x0202 is unchanged by the byte swap |
| ProtocolHelper.StepDataRequestBytes | Utils/ProtocolHelper.cs:66-77 | the marshalled request is channel high byte, channel low byte, 02, 02, then the step index as 4 little-endian bytes |
| ProtocolHelper.StepDataRequestExample | Utils/ProtocolHelper.cs:66-77 | channel 5 with index 10 marshals to 00 05 02 02 0A 00 00 00 |
| TcpCommunication.BoardEndpointsDistinct | Services/TcpCommunicationService.cs:22-23 | boards 1..32 get addresses 192.168.1.101..132 and ports 8001..8032; a port names its board; distinct boards have distinct endpoints |
| TcpCommunication.EndpointsUpTo | Services/TcpCommunicationService.cs:38-42 | the attempted endpoints are those of boards 1..n, each once, in order |
| TcpCommunication.TryAdd | Services/TcpCommunicationService.cs:63-64 | the key is present afterwards; an existing entry is never overwritten; an absent key maps to the new value; the other keys are unchanged |
| TcpCommunication.ClientsAfterConnects | Services/TcpCommunicationService.cs:33-75 | after StartAsync a board is in the client table exactly when it was there before or its connect succeeded; old entries are kept; new entries are the connected clients |
| TcpCommunication.StreamsAfterConnects | Services/TcpCommunicationService.cs:33-75 | the same for the stream table |
| TcpCommunication.LoopsAfterConnects | Services/TcpCommunicationService.cs:48-67 | a receive loop is started exactly for the boards whose connect succeeded, each once, in increasing board order |
| TcpCommunication.CommandFrameLayout | Services/TcpCommunicationService.cs:126-139 | a command frame is 16 bytes: the type code, the channel mod 256, the first min(len, 14) payload bytes, and zeros after them |
| TcpCommunication.CommandFrameRoundTrip | Services/TcpCommunicationService.cs:126-139 | with a one-byte channel and at most 14 payload bytes, the type, channel and payload are read back from the frame |
| TcpCommunication.DefaultCommandFrame | Services/TcpCommunicationService.cs:126-139 | the default CommandMessage serialises to 16 zero bytes |
| TcpCommunication.Writes | Services/TcpCommunicationService.cs:107-124 | a sequence of sends produces at most one write per send |
| TcpCommunication.WritesAppend | Services/TcpCommunicationService.cs:107-124 | the writes of a sequence of sends concatenate |
| TcpCommunication.WritesOnlyToRegistered | Services/TcpCommunicationService.cs:111 | every write goes to a board with a registered stream; with no streams nothing is written; when every board is registered, each send writes once |
| TcpCommunication.AcceptedFramesAreWholeReads | Services/TcpCommunicationService.cs:85-93 | every delivered frame is one read of exactly 800 bytes, tagged with the board; there are never more deliveries than reads |
| TcpCommunication.WholeReadDelivered | Services/TcpCommunicationService.cs:85-92 | a read of exactly 800 bytes is delivered, tagged with the board, before everything the later reads deliver |
| TcpCommunication.AcceptedFramesAppend | Services/TcpCommunicationService.cs:83-99 | until a read of 0 bytes, deliveries follow the reads in order: two runs of reads deliver the first run's frames, then the second's |
| TcpCommunication.ZeroReadEndsLoop | Services/TcpCommunicationService.cs:94-98 | after a read of 0 bytes nothing more is delivered |
| TcpCommunication.ShortReadDropped | Services/TcpCommunicationService.cs:85-99 | a read of any other size is dropped and has no effect on later deliveries |
| TcpCommunication.SplitFrameIsLost | Services/TcpCommunicationService.cs:85-99 | an 800-byte frame that arrives in two reads is never delivered |
| TcpCommunication.TcpCommunicationService.constructor | Services/TcpCommunicationService.cs:25-31 | both tables are empty, nothing is cancelled, and all logs are empty |
| TcpCommunication.TcpCommunicationService.ConnectToBoardAsync | Services/TcpCommunicationService.cs:48-75 | the board's endpoint is dialled once; on success client and stream are TryAdded, and a receive loop starts unless the service was already stopped (its cancellation token is never reset); on failure nothing else changes |
| TcpCommunication.TcpCommunicationService.StartAsync | Services/TcpCommunicationService.cs:33-46 | boards 1..32 are each dialled once, in order; the tables are TablesAfter of the connect outcomes; the receive loops are LoopsAfter of them, or none once the service was stopped |
| TcpCommunication.TcpCommunicationService.ReceiveDataFromBoard | Services/TcpCommunicationService.cs:77-105 | the frames delivered are exactly the accepted frames of the reads, and none once cancelled |
| TcpCommunication.TcpCommunicationService.SerializeCommand | Services/TcpCommunicationService.cs:126-139 | the filled 16-byte array is the command frame |
| TcpCommunication.TcpCommunicationService.SendCommandAsync | Services/TcpCommunicationService.cs:107-124 | the call is logged; the frame is written to the board's stream only when one is registered, and otherwise nothing happens and no error is raised |
| TcpCommunication.TcpCommunicationService.IsConnected | Services/TcpCommunicationService.cs:141-144 | a board not in the client table is never connected |
| TcpCommunication.TcpCommunicationService.StopAsync | Services/TcpCommunicationService.cs:146-168 | afterwards it is cancelled, both tables are empty, and IsConnected is false for every board |
| Addressing.BoardOfRange | Commands/CommandProcessor.cs:62 | for a channel in 1..128 the board is in 1..32 and the slot in 0..3; channel 1 is on board 1 and channel 128 on board 32 |
| Addressing.BoardOfChannelOf | Commands/CommandProcessor.cs:29 | the board formula inverts the (board, slot) enumeration |
| Addressing.ChannelOfBoardOf | Commands/CommandProcessor.cs:62 | (board, slot) recovers the channel |
| Addressing.ChannelsCoverOnce | Services/ChannelDataManager.cs:36 | the 32 × 4 (board, slot) pairs give channels in 1..128, and distinct pairs give distinct channels |
| ChannelDataManagement.ParseChannelData | Services/ChannelDataManager.cs:58-82 | the record carries the given channel, the timestamp and the block as RawData |
| ChannelDataManagement.ParseChannelDataFields | Services/ChannelDataManager.cs:70-78 | for a block of at least 200 bytes, StepNumber and CycleNumber are the int32 at bytes 20..23 and 24..27, and the five measurements are the 32-bit words at 0, 4, 8, 12 and 16; a shorter block leaves every parsed field at zero |
| ChannelDataManagement.ParseStepAndCycle | Services/ChannelDataManager.cs:77-78 | the step and cycle numbers written into a block are the ones parsed back |
| ChannelDataManagement.BlockChannelInRange | Services/ChannelDataManager.cs:36 | for boards 1..32 block i is channel (board-1)*4+i+1 with no wrap; it lies in 1..128 and belongs to that board |
| ChannelDataManagement.BlockChannelsDistinct | Services/ChannelDataManager.cs:36 | the four blocks of one frame name four different channels, even under 32-bit wrap-around |
| ChannelDataManagement.BlockFits | Services/ChannelDataManager.cs:40 | block i lies wholly inside the data exactly when more than i whole blocks fit |
| ChannelDataManagement.DecodeBlocksHandled | Services/ChannelDataManager.cs:40-44 | block i is handled exactly when all 200 of its bytes are present, so a short input handles a prefix of the blocks |
| ChannelDataManagement.DecodeBlocksStep | Services/ChannelDataManager.cs:34-50 | one more loop pass adds that block's record when the block fits and nothing otherwise |
| ChannelDataManagement.BlockAtFields | Services/ChannelDataManager.cs:36-44 | the record of block i carries bytes [200i, 200i+200), its channel, its time, and the step and cycle numbers at block bytes 20 and 24 |
| ChannelDataManagement.DecodeFrameFields | Services/ChannelDataManager.cs:34-50 | each record a frame produces comes from a block that is wholly present, and carries that block's bytes, channel, time, step and cycle number |
| ChannelDataManagement.StoreSnoc | Services/ChannelDataManager.cs:46 | storing one more record replaces its channel's entry |
| ChannelDataManagement.StoreAppend | Services/ChannelDataManager.cs:46 | storing two runs of records is storing the first run, then the second |
| ChannelDataManagement.StoreLookup | Services/ChannelDataManager.cs:46 | after storing records with distinct channels, each record is its channel's entry, and every other channel keeps its entry or stays absent |
| ChannelDataManagement.StoreKeys | Services/ChannelDataManager.cs:84-88 | the registry's keys are exactly the channels that some notification named |
| ChannelDataManagement.ProcessStep | Services/ChannelDataManager.cs:40-48 | one loop pass appends one notification and updates one registry entry when the block fits, and changes neither otherwise |
| ChannelDataManagement.DecodeFrameDistinct | Services/ChannelDataManager.cs:34-36 | the records of one frame name distinct channels |
| ChannelDataManagement.ChannelDataManager.constructor | Services/ChannelDataManager.cs:18-22 | the registry and the notification log start empty |
| ChannelDataManagement.ChannelDataManager.ProcessRawDataAsync | Services/ChannelDataManager.cs:29-56 | exactly one notification per handled block, in increasing offset order; the registry is the old one updated with each record; the registry keeps holding, for each channel, the most recently notified record |
| ChannelDataManagement.ChannelDataManager.GetLatestChannelData | Services/ChannelDataManager.cs:84-88 | null (None) exactly for a channel never notified; otherwise the stored record |
| ChannelDataManagement.LatestAfterFrame | Services/ChannelDataManager.cs:46 | after a frame, every handled channel reads back its new record and every other channel reads back what it read before |
| ChannelDataManagement.FullFrameChannels | Services/ChannelDataManager.cs:34-36 | a full 800-byte frame from board b updates channels (b-1)*4+1 .. (b-1)*4+4, in increasing order |
| Commands.ChannelCommand | Commands/CommandProcessor.cs:30 | the start or stop message for a channel: its kind, its channel, and 8 bytes of Data that decode to the ticks |
| Commands.BroadcastStep | Commands/CommandProcessor.cs:25-33 | one more pass of the loops sends the message for the next channel to that channel's board |
| Commands.BroadcastStepLogs | Commands/CommandProcessor.cs:28-31 | the logs extended by one send of the next channel are the logs of one more broadcast message |
| Commands.BroadcastCoversEveryChannel | Commands/CommandProcessor.cs:25-33 | a broadcast is 128 messages of the requested kind for channels 1..128 in increasing order, each stamped with its own time, each sent to board b exactly when its channel is one of 4b-3..4b |
| Commands.StepDataRequestCommand | Commands/CommandProcessor.cs:91-99 | a GetStatus message for the channel whose Data is the 8-byte marshalled request |
| Commands.StepRequestFrame | Commands/CommandProcessor.cs:91-101 | on the wire the step request for channel c is 05 c, then the 8 request bytes 00 c 02 02 and the index in little-endian, then six zero bytes |
| Commands.CommandProcessor.constructor | Commands/CommandProcessor.cs:15-19 | the processor holds the given TCP service |
| Commands.CommandProcessor.StartChannelAsync | Commands/CommandProcessor.cs:55-67 | ArgumentException exactly for a channel outside 1..128, and then nothing is sent; otherwise one start message, to board ((c-1)/4)+1 only |
| Commands.CommandProcessor.StopChannelAsync | Commands/CommandProcessor.cs:69-81 | ArgumentException exactly for a channel outside 1..128, and then nothing is sent; otherwise one stop message, to board ((c-1)/4)+1 only |
| Commands.CommandProcessor.SendStepDataRequestAsync | Commands/CommandProcessor.cs:83-103 | ArgumentException exactly outside 1..128, and then nothing is sent; otherwise one GetStatus message whose Data is the marshalled step request, to the channel's board |
| Commands.CommandProcessor.BroadcastOneAsync | Commands/CommandProcessor.cs:27-31 | one pass of the inner loop adds the next broadcast message to the logs |
| Commands.CommandProcessor.BroadcastBoardAsync | Commands/CommandProcessor.cs:27-31 | one pass of the outer loop adds the board's four messages to the logs |
| Commands.CommandProcessor.BroadcastAsync | Commands/CommandProcessor.cs:25-33 | the requests log grows by exactly the 128 broadcast messages; the writes are those the stream gate lets through |
| Commands.CommandProcessor.StartAllChannelsAsync | Commands/CommandProcessor.cs:21-36 | exactly 128 start messages, for channels 1..128 in order, each to its own board |
| Commands.CommandProcessor.StopAllChannelsAsync | Commands/CommandProcessor.cs:38-53 | exactly 128 stop messages, for channels 1..128 in order, each to its own board |

## Left out

- Floating-point fields of `ParseChannelData` (Services/ChannelDataManager.cs:72-76): the five measurements are kept as the raw 32-bit word read at each offset, with the scale constants alongside. `BitConverter.ToSingle` and the double division are not modelled.
- Sockets: `ConnectAsync`, `ReadAsync` and `WriteAsync` are abstract. A connect outcome is a parameter, the reads of a loop are a parameter, and a write is an entry in the `written` log. The buffer sizes (8192 receive, 4096 send) are not modelled, and neither are `Close()` / `Dispose()` in `StopAsync`.
- Concurrency: the 32 concurrent connects in `StartAsync`, `Task.Run` for the receive loops, and the atomicity of `ConcurrentDictionary` are not modelled. Connects run sequentially in board order, and each receive loop is modelled on its own. `StartAsync` records only that a loop was started for a board.
- Cancellation: `ReceiveDataFromBoard` reads the cancellation flag as it was when the loop started. A cancel that happens while a read is pending, and the exception after an aborted read, appear only as the end of the `chunks` parameter.
- Exceptions swallowed by the source: a failed connect is a `Refused` outcome. A failing write, a failing read and an exception thrown by an event subscriber are not modelled, because their only effect is a log line.
- Events: `DataReceived` and `ChannelDataReceived` are modelled as value logs (the delivered frames and the `notifications` ghost log). Subscribers are not modelled.
- Logging (`ILogger`) and `Initialize()` have no effect on state and are not modelled.
- `TcpClient.Connected` is a fixed field of the client value; its changes over time are not modelled.
- IP addresses: an address is its four octets. `IPAddress.Parse` of the formatted string is not modelled.
- `null` inputs: `rawData` can never be null, and a null `Data` cannot occur because `data` is a sequence. A null `Data` behaves like an empty one in the source.
- `ChannelData.RawData` is a value sequence, so the record does not alias the copied buffer.
- `DateTime.Now`: time is a parameter. Int64 ticks are used for the start and stop payloads; in `ProcessRawDataAsync`, `clock(i)` is the timestamp of block i.
- The nested broadcast loops of `StartAllChannelsAsync` / `StopAllChannelsAsync` are written as `BroadcastAsync`, an outer loop over boards. Its body is `BroadcastBoardAsync`, whose body is `BroadcastOneAsync`. This keeps each proof small and does not change the order of the sends.
- The try/catch around the block loop of `ProcessRawDataAsync` is not modelled: every slice is bounds-checked first, so apart from a subscriber exception (see Events) nothing in the loop can throw.
- Configuration, the display, storage, performance monitoring and hosting are not part of this model. The reconnect settings are read nowhere in the code, so no reconnect policy is modelled either.
