/**
 * CommandProcessor: turns operator requests into CommandMessages and hands
 * them to the TCP service, one SendCommandAsync per message.  Single-channel
 * requests check the channel number first; the broadcasts walk every board
 * and every slot in order.  The tick counts DateTime.Now gives are parameters.
 */
module Commands {
  import opened Binary
  import opened Sequences
  import opened Layout
  import opened Errors
  import opened Models
  import opened ProtocolHelper
  import Addressing
  import opened TcpCommunication

  /** A start (start == true) or stop request for one channel at the given time. */
  function ChannelCommand(start: bool, channelNumber: int32, ticks: int64): (r: CommandMessage)
    ensures r.kind == (if start then Start else Stop) && r.channelNumber == channelNumber
    ensures |r.data| == 8 && FromLE(r.data) < Pow256(8) && ToSigned(FromLE(r.data), 8) == ticks
  {
    if start then CreateStartCommand(channelNumber, ticks) else CreateStopCommand(channelNumber, ticks)
  }

  /**
   * The sends of a broadcast, after its first n messages: message k goes to
   * channel k+1 on that channel's board, stamped clock(k).
   */
  function BroadcastSends(start: bool, clock: nat -> int64, n: nat): seq<(CommandMessage, int)>
    requires n <= Addressing.ChannelCount
  {
    seq(n, k requires 0 <= k < n => (ChannelCommand(start, (k + 1) as int32, clock(k)), Addressing.BoardOf(k + 1)))
  }

  /** One more message of a broadcast. */
  lemma BroadcastStep(start: bool, clock: nat -> int64, n: nat)
    requires n < Addressing.ChannelCount
    ensures BroadcastSends(start, clock, n + 1)
         == BroadcastSends(start, clock, n) + [(ChannelCommand(start, (n + 1) as int32, clock(n)), Addressing.BoardOf(n + 1))]
  {
    var next, done := BroadcastSends(start, clock, n + 1), BroadcastSends(start, clock, n);
    forall k | 0 <= k < n + 1
      ensures next[k] == (done + [(ChannelCommand(start, (n + 1) as int32, clock(n)), Addressing.BoardOf(n + 1))])[k]
    {
      if k < n {
        assert next[k] == done[k];
      }
    }
  }

  /**
   * One message of a broadcast: when the logs held the first n messages and
   * message n, for channel c = n + 1, is then sent, they hold the first n + 1.
   */
  lemma BroadcastStepLogs(requests0: seq<(CommandMessage, int)>, written0: seq<(int, seq<uint8>)>,
                          streams: map<int, NetworkStream>, start: bool, clock: nat -> int64, n: nat, c: int32,
                          command: CommandMessage, board: int,
                          before: seq<(CommandMessage, int)>, beforeWritten: seq<(int, seq<uint8>)>,
                          after: seq<(CommandMessage, int)>, afterWritten: seq<(int, seq<uint8>)>)
    requires n < Addressing.ChannelCount && c == n + 1
    requires command == ChannelCommand(start, c, clock(n)) && board == Addressing.BoardOf(c)
    requires before == requests0 + BroadcastSends(start, clock, n)
    requires beforeWritten == written0 + Writes(streams, BroadcastSends(start, clock, n))
    requires after == before + [(command, board)]
    requires afterWritten == beforeWritten + Writes(streams, [(command, board)])
    ensures after == requests0 + BroadcastSends(start, clock, n + 1)
    ensures afterWritten == written0 + Writes(streams, BroadcastSends(start, clock, n + 1))
  {
    BroadcastStep(start, clock, n);
    WritesAppend(streams, BroadcastSends(start, clock, n), [(command, board)]);
    AppendAssoc(requests0, BroadcastSends(start, clock, n), [(command, board)]);
    AppendAssoc(written0, Writes(streams, BroadcastSends(start, clock, n)), Writes(streams, [(command, board)]));
  }

  /**
   * A broadcast is 128 messages of the requested kind in increasing channel
   * order; each goes to its channel's board, carries its own time stamp, and
   * goes to board b exactly when its channel is one of 4b-3 .. 4b.
   */
  lemma BroadcastCoversEveryChannel(start: bool, clock: nat -> int64)
    ensures var sends := BroadcastSends(start, clock, Addressing.ChannelCount);
      && |sends| == Addressing.ChannelCount
      && (forall k :: 0 <= k < |sends| ==>
            && sends[k].0.kind == (if start then Start else Stop)
            && sends[k].0.channelNumber == k + 1
            && FromLE(sends[k].0.data) < Pow256(8) && ToSigned(FromLE(sends[k].0.data), 8) == clock(k)
            && 1 <= sends[k].1 <= Addressing.BoardCount
            && 4 * (sends[k].1 - 1) < k + 1 <= 4 * sends[k].1)
  {
    var sends := BroadcastSends(start, clock, Addressing.ChannelCount);
    forall k | 0 <= k < |sends|
      ensures sends[k].0.kind == (if start then Start else Stop) && sends[k].0.channelNumber == k + 1
      ensures FromLE(sends[k].0.data) < Pow256(8) && ToSigned(FromLE(sends[k].0.data), 8) == clock(k)
      ensures 1 <= sends[k].1 <= Addressing.BoardCount
      ensures 4 * (sends[k].1 - 1) < k + 1 <= 4 * sends[k].1
    {
      var command := ChannelCommand(start, (k + 1) as int32, clock(k));
      assert sends[k] == (command, Addressing.BoardOf(k + 1));
      Addressing.BoardOfRange(k + 1);
      Addressing.ChannelOfBoardOf(k + 1);
    }
  }

  /**
   * The GetStatus message SendStepDataRequestAsync sends: the marshalled
   * step-data request for the channel's low 16 bits (the `(ushort)` cast).
   */
  function StepDataRequestCommand(channelNumber: int32, stepDataIndex: uint32): (r: CommandMessage)
    ensures r.kind == GetStatus && r.channelNumber == channelNumber && |r.data| == 8
  {
    var channel: uint16 := channelNumber % 0x1_0000;
    StepDataReqLayoutSize();
    CommandMessage(GetStatus, channelNumber, Encode(StepDataReqLayout, [Swap16(channel), StepDataReqId, stepDataIndex]))
  }

  /**
   * On the wire a step-data request for channel c (1..128) is the 16-byte
   * frame 05 c | 00 c 02 02 | index (4 bytes LE) | six zero bytes.
   */
  lemma StepRequestFrame(channelNumber: int32, stepDataIndex: uint32)
    requires Addressing.ValidChannel(channelNumber)
    ensures CommandFrame(StepDataRequestCommand(channelNumber, stepDataIndex))
         == [5, channelNumber, 0, channelNumber, 2, 2] + LE(stepDataIndex, 4) + Zeros(6)
  {
    var command := StepDataRequestCommand(channelNumber, stepDataIndex);
    var low := LE(stepDataIndex, 4);
    assert channelNumber % 0x1_0000 == channelNumber && channelNumber / 256 == 0 && channelNumber % 256 == channelNumber;
    StepDataRequestBytes(channelNumber, stepDataIndex);
    assert command.data == [0, channelNumber, 2, 2] + low;
    assert command.data[..CommandPayloadCapacity - 6] == command.data;
    assert CommandFrame(command) == [5, channelNumber] + command.data + Zeros(6);
    assert [5, channelNumber] + ([0, channelNumber, 2, 2] + low) == [5, channelNumber, 0, channelNumber, 2, 2] + low;
  }

  class CommandProcessor {
    const tcpService: TcpCommunicationService

    constructor (tcpService: TcpCommunicationService)
      ensures this.tcpService == tcpService
    {
      this.tcpService := tcpService;
    }

    /** StartChannelAsync: ArgumentException outside 1..128, else one start message to the channel's board. */
    method StartChannelAsync(channelNumber: int32, ticks: int64) returns (r: Outcome)
      modifies tcpService`requests, tcpService`written
      ensures r.Fail? <==> !Addressing.ValidChannel(channelNumber)
      ensures r.Fail? ==>
        (r.error == ChannelOutOfRange
         && tcpService.requests == old(tcpService.requests) && tcpService.written == old(tcpService.written))
      ensures r.Pass? ==>
        var send := (CreateStartCommand(channelNumber, ticks), Addressing.BoardOf(channelNumber));
        && tcpService.requests == old(tcpService.requests) + [send]
        && tcpService.written == old(tcpService.written) + Writes(tcpService.boardStreams, [send])
    {
      if channelNumber < 1 || channelNumber > 128 {
        return Fail(ChannelOutOfRange);
      }
      var boardNumber := ((channelNumber - 1) / 4) + 1;
      var command := CreateStartCommand(channelNumber, ticks);
      tcpService.SendCommandAsync(command, boardNumber);
      r := Pass;
    }

    /** StopChannelAsync: ArgumentException outside 1..128, else one stop message to the channel's board. */
    method StopChannelAsync(channelNumber: int32, ticks: int64) returns (r: Outcome)
      modifies tcpService`requests, tcpService`written
      ensures r.Fail? <==> !Addressing.ValidChannel(channelNumber)
      ensures r.Fail? ==>
        (r.error == ChannelOutOfRange
         && tcpService.requests == old(tcpService.requests) && tcpService.written == old(tcpService.written))
      ensures r.Pass? ==>
        var send := (CreateStopCommand(channelNumber, ticks), Addressing.BoardOf(channelNumber));
        && tcpService.requests == old(tcpService.requests) + [send]
        && tcpService.written == old(tcpService.written) + Writes(tcpService.boardStreams, [send])
    {
      if channelNumber < 1 || channelNumber > 128 {
        return Fail(ChannelOutOfRange);
      }
      var boardNumber := ((channelNumber - 1) / 4) + 1;
      var command := CreateStopCommand(channelNumber, ticks);
      tcpService.SendCommandAsync(command, boardNumber);
      r := Pass;
    }

    /**
     * SendStepDataRequestAsync: ArgumentException outside 1..128; otherwise
     * build the request, convert it, marshal it and send it as a GetStatus
     * message to the channel's board.
     */
    method SendStepDataRequestAsync(channelNumber: int32, stepDataIndex: uint32) returns (r: Outcome)
      modifies tcpService`requests, tcpService`written
      ensures r.Fail? <==> !Addressing.ValidChannel(channelNumber)
      ensures r.Fail? ==>
        (r.error == ChannelOutOfRange
         && tcpService.requests == old(tcpService.requests) && tcpService.written == old(tcpService.written))
      ensures r.Pass? ==>
        var send := (StepDataRequestCommand(channelNumber, stepDataIndex), Addressing.BoardOf(channelNumber));
        && tcpService.requests == old(tcpService.requests) + [send]
        && tcpService.written == old(tcpService.written) + Writes(tcpService.boardStreams, [send])
    {
      if channelNumber < 1 || channelNumber > 128 {
        return Fail(ChannelOutOfRange);
      }
      var boardNumber := ((channelNumber - 1) / 4) + 1;
      assert channelNumber % 0x1_0000 == channelNumber;
      var request := CreateStepDataRequest(channelNumber as uint16, stepDataIndex);
      var fields := request.Fields();
      assert fields == [Swap16(channelNumber % 0x1_0000), StepDataReqId, stepDataIndex];
      var requestBytes := StructToByteArray(StepDataReqLayout, fields);
      var command := CommandMessage(GetStatus, channelNumber, requestBytes);
      assert command == StepDataRequestCommand(channelNumber, stepDataIndex);
      tcpService.SendCommandAsync(command, boardNumber);
      r := Pass;
    }

    /**
     * One pass of the inner loop of StartAllChannelsAsync / StopAllChannelsAsync:
     * the message for slot `channel` of `board`.  The logs held the
     * broadcast's first `sent` messages; they then hold its first sent + 1.
     */
    method BroadcastOneAsync(start: bool, clock: nat -> int64, board: int, channel: int, ghost sent: nat,
                             ghost requests0: seq<(CommandMessage, int)>, ghost written0: seq<(int, seq<uint8>)>)
      requires 1 <= board <= Addressing.BoardCount && 1 <= channel <= Addressing.ChannelsPerBoard
      requires sent == 4 * (board - 1) + channel - 1
      requires tcpService.requests == requests0 + BroadcastSends(start, clock, sent)
      requires tcpService.written == written0 + Writes(tcpService.boardStreams, BroadcastSends(start, clock, sent))
      modifies tcpService`requests, tcpService`written
      ensures tcpService.requests == requests0 + BroadcastSends(start, clock, sent + 1)
      ensures tcpService.written == written0 + Writes(tcpService.boardStreams, BroadcastSends(start, clock, sent + 1))
    {
      var channelNumber := (board - 1) * 4 + channel;
      assert sent == channelNumber - 1 && Addressing.ChannelOf(board, channel - 1) == channelNumber;
      Addressing.BoardOfChannelOf(board, channel - 1);
      var command := ChannelCommand(start, channelNumber, clock(channelNumber - 1));
      ghost var before, beforeWritten := tcpService.requests, tcpService.written;
      tcpService.SendCommandAsync(command, board);
      BroadcastStepLogs(requests0, written0, tcpService.boardStreams, start, clock, sent, channelNumber, command, board,
                        before, beforeWritten, tcpService.requests, tcpService.written);
    }

    /**
     * The inner loop of StartAllChannelsAsync / StopAllChannelsAsync: slots
     * 1..4 of one board, in order.  The logs held the broadcast's first
     * `sent` = 4 * (board - 1) messages; they then hold its first sent + 4.
     */
    method BroadcastBoardAsync(start: bool, clock: nat -> int64, board: int, ghost sent: nat,
                               ghost requests0: seq<(CommandMessage, int)>, ghost written0: seq<(int, seq<uint8>)>)
      requires 1 <= board <= Addressing.BoardCount && sent == 4 * (board - 1)
      requires tcpService.requests == requests0 + BroadcastSends(start, clock, sent)
      requires tcpService.written == written0 + Writes(tcpService.boardStreams, BroadcastSends(start, clock, sent))
      modifies tcpService`requests, tcpService`written
      ensures tcpService.requests == requests0 + BroadcastSends(start, clock, sent + 4)
      ensures tcpService.written == written0 + Writes(tcpService.boardStreams, BroadcastSends(start, clock, sent + 4))
    {
      ghost var done := sent;
      var channel := 1;
      while channel <= 4
        invariant 1 <= channel <= 5 && done == sent + channel - 1
        invariant tcpService.requests == requests0 + BroadcastSends(start, clock, done)
        invariant tcpService.written == written0 + Writes(tcpService.boardStreams, BroadcastSends(start, clock, done))
      {
        BroadcastOneAsync(start, clock, board, channel, done, requests0, written0);
        channel, done := channel + 1, done + 1;
      }
    }

    /** StartAllChannelsAsync / StopAllChannelsAsync: for board 1..32, for slot 1..4, send to that board. */
    method BroadcastAsync(start: bool, clock: nat -> int64)
      modifies tcpService`requests, tcpService`written
      ensures tcpService.requests == old(tcpService.requests) + BroadcastSends(start, clock, Addressing.ChannelCount)
      ensures tcpService.written
           == old(tcpService.written) + Writes(tcpService.boardStreams, BroadcastSends(start, clock, Addressing.ChannelCount))
    {
      ghost var requests0, written0 := tcpService.requests, tcpService.written;
      // messages sent so far
      ghost var sent := 0;
      var board := 1;
      while board <= 32
        invariant 1 <= board <= 33 && sent == 4 * (board - 1)
        invariant tcpService.requests == requests0 + BroadcastSends(start, clock, sent)
        invariant tcpService.written == written0 + Writes(tcpService.boardStreams, BroadcastSends(start, clock, sent))
      {
        BroadcastBoardAsync(start, clock, board, sent, requests0, written0);
        board, sent := board + 1, sent + 4;
      }
    }

    /** StartAllChannelsAsync: a start message for every channel, in board and slot order. */
    method StartAllChannelsAsync(clock: nat -> int64)
      modifies tcpService`requests, tcpService`written
      ensures tcpService.requests == old(tcpService.requests) + BroadcastSends(true, clock, Addressing.ChannelCount)
      ensures tcpService.written
           == old(tcpService.written) + Writes(tcpService.boardStreams, BroadcastSends(true, clock, Addressing.ChannelCount))
    {
      BroadcastAsync(true, clock);
    }

    /** StopAllChannelsAsync: a stop message for every channel, in board and slot order. */
    method StopAllChannelsAsync(clock: nat -> int64)
      modifies tcpService`requests, tcpService`written
      ensures tcpService.requests == old(tcpService.requests) + BroadcastSends(false, clock, Addressing.ChannelCount)
      ensures tcpService.written
           == old(tcpService.written) + Writes(tcpService.boardStreams, BroadcastSends(false, clock, Addressing.ChannelCount))
    {
      BroadcastAsync(false, clock);
    }
  }
}
