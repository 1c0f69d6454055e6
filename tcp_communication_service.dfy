/**
 * TcpCommunicationService: one TCP connection per board, the per-board
 * receive loop, the 16-byte command frame and the connection tables.
 * Sockets are abstract: a connect attempt's outcome and the bytes each read
 * returns are parameters, and the ghost logs record what the service asked
 * the network to do.
 */
module TcpCommunication {
  import opened Binary
  import opened Models
  import Addressing

  const BasePort := 8000
  /** Bytes asked for by each ReadAsync, and the only read size that is delivered. */
  const BoardFrameSize := 800
  /** The receive buffer the loop reuses for every read. */
  const ReceiveBufferSize := 8192
  const CommandFrameSize := 16
  /** Payload bytes a command frame carries after its type and channel bytes. */
  const CommandPayloadCapacity := 14

  datatype IPv4Address = IPv4Address(a: uint8, b: uint8, c: uint8, d: int)
  datatype Endpoint = Endpoint(address: IPv4Address, port: int)

  /** "192.168.1." followed by board + 100. */
  function BoardAddress(board: int): IPv4Address
  {
    IPv4Address(192, 168, 1, board + 100)
  }

  function BoardPort(board: int): int
  {
    BasePort + board
  }

  function BoardEndpoint(board: int): Endpoint
  {
    Endpoint(BoardAddress(board), BoardPort(board))
  }

  /** The board a port belongs to: the inverse of BoardPort. */
  function BoardOfPort(port: int): int
  {
    port - BasePort
  }

  /** Boards 1..32 sit at 192.168.1.101..132, ports 8001..8032, each endpoint naming its board. */
  lemma BoardEndpointsDistinct(board: int, board': int)
    requires 1 <= board <= Addressing.BoardCount && 1 <= board' <= Addressing.BoardCount
    ensures 101 <= BoardAddress(board).d <= 132 && 8001 <= BoardPort(board) <= 8032
    ensures BoardOfPort(BoardPort(board)) == board
    ensures BoardEndpoint(board) == BoardEndpoint(board') <==> board == board'
  {
  }

  /** The endpoints StartAsync dials, in order: boards 1, 2, .., n. */
  function EndpointsUpTo(n: nat): (r: seq<Endpoint>)
    ensures |r| == n
    ensures forall k :: 0 <= k < n ==> r[k] == BoardEndpoint(k + 1)
  {
    if n == 0 then [] else EndpointsUpTo(n - 1) + [BoardEndpoint(n)]
  }

  /** A socket handle as the tables hold it; Connected is the socket's own state. */
  datatype TcpClient = TcpClient(handle: nat, connected: bool)
  datatype NetworkStream = NetworkStream(handle: nat)

  /** What the network answers to one ConnectAsync. */
  datatype ConnectResult = Refused | Established(client: TcpClient, stream: NetworkStream)

  /** ConcurrentDictionary.TryAdd: insert only if the key is absent. */
  function TryAdd<V>(m: map<int, V>, key: int, value: V): (r: map<int, V>)
    ensures key in r && (key in m ==> r[key] == m[key]) && (key !in m ==> r[key] == value)
    ensures r.Keys == m.Keys + {key}
    ensures forall k :: k in m && k != key ==> r[k] == m[k]
  {
    if key in m then m else m[key := value]
  }

  /**
   * The client and stream tables after connection attempts to boards 1..n,
   * in order, starting from the given tables: each board the network accepts
   * is TryAdded to both.
   */
  function TablesAfter(clients: map<int, TcpClient>, streams: map<int, NetworkStream>,
                       network: int -> ConnectResult, n: nat): (map<int, TcpClient>, map<int, NetworkStream>)
  {
    if n == 0 then (clients, streams)
    else
      var previous := TablesAfter(clients, streams, network, n - 1);
      if network(n).Established? then
        (TryAdd(previous.0, n, network(n).client), TryAdd(previous.1, n, network(n).stream))
      else previous
  }

  /** The boards among 1..n whose connection succeeded, in order: each gets a receive loop. */
  function LoopsAfter(network: int -> ConnectResult, n: nat): seq<int>
  {
    if n == 0 then []
    else LoopsAfter(network, n - 1) + (if network(n).Established? then [n] else [])
  }

  /**
   * After connecting to boards 1..n a board is in the client table exactly
   * when it was there before or the network accepted it; existing entries
   * are kept; new entries are the clients the network returned.
   */
  lemma {:induction false} ClientsAfterConnects(clients: map<int, TcpClient>, streams: map<int, NetworkStream>,
                                                network: int -> ConnectResult, n: nat)
    ensures forall b :: (b in TablesAfter(clients, streams, network, n).0
      <==> b in clients || (1 <= b <= n && network(b).Established?))
    ensures forall b :: b in clients ==> TablesAfter(clients, streams, network, n).0[b] == clients[b]
    ensures forall b :: (b in TablesAfter(clients, streams, network, n).0 && b !in clients
      ==> TablesAfter(clients, streams, network, n).0[b] == network(b).client)
  {
    if n > 0 {
      ClientsAfterConnects(clients, streams, network, n - 1);
    }
  }

  /** The same for the stream table. */
  lemma {:induction false} StreamsAfterConnects(clients: map<int, TcpClient>, streams: map<int, NetworkStream>,
                                                network: int -> ConnectResult, n: nat)
    ensures forall b :: (b in TablesAfter(clients, streams, network, n).1
      <==> b in streams || (1 <= b <= n && network(b).Established?))
    ensures forall b :: b in streams ==> TablesAfter(clients, streams, network, n).1[b] == streams[b]
    ensures forall b :: (b in TablesAfter(clients, streams, network, n).1 && b !in streams
      ==> TablesAfter(clients, streams, network, n).1[b] == network(b).stream)
  {
    if n > 0 {
      StreamsAfterConnects(clients, streams, network, n - 1);
    }
  }

  /** The receive loops started are for the accepted boards, each once, in increasing order. */
  lemma {:induction false} LoopsAfterConnects(network: int -> ConnectResult, n: nat)
    ensures forall b :: b in LoopsAfter(network, n) <==> 1 <= b <= n && network(b).Established?
    ensures forall i :: 0 <= i < |LoopsAfter(network, n)| ==> 1 <= LoopsAfter(network, n)[i] <= n
    ensures forall i, j :: 0 <= i < j < |LoopsAfter(network, n)| ==> LoopsAfter(network, n)[i] < LoopsAfter(network, n)[j]
  {
    if n > 0 {
      LoopsAfterConnects(network, n - 1);
    }
  }

  /** The 16-byte command frame: type code, channel's low byte, payload cut or zero-padded to 14. */
  function CommandFrame(command: CommandMessage): seq<uint8>
  {
    var n := if |command.data| < CommandPayloadCapacity then |command.data| else CommandPayloadCapacity;
    [TypeCode(command.kind), command.channelNumber % 256] + command.data[..n] + Zeros(CommandPayloadCapacity - n)
  }

  /**
   * Layout of a command frame: exactly 16 bytes; byte 0 the type code; byte 1
   * the channel truncated to a byte; then the first min(|Data|, 14) payload
   * bytes; zero after them.
   */
  lemma CommandFrameLayout(command: CommandMessage)
    ensures var f := CommandFrame(command);
      var n := if |command.data| < CommandPayloadCapacity then |command.data| else CommandPayloadCapacity;
      && |f| == CommandFrameSize
      && f[0] == TypeCode(command.kind)
      && f[1] == command.channelNumber % 256
      && f[2..2 + n] == command.data[..n]
      && (forall i :: 2 + n <= i < CommandFrameSize ==> f[i] == 0)
  {
  }

  /** A command with a one-byte channel and at most 14 payload bytes can be read back from its frame. */
  lemma CommandFrameRoundTrip(command: CommandMessage)
    requires 0 <= command.channelNumber < 256 && |command.data| <= CommandPayloadCapacity
    ensures TypeOfCode(CommandFrame(command)[0]) == Some(command.kind)
    ensures CommandFrame(command)[1] == command.channelNumber
    ensures CommandFrame(command)[2..2 + |command.data|] == command.data
  {
    CommandFrameLayout(command);
    TypeCodeRoundTrip(command.kind);
    assert command.data[..|command.data|] == command.data;
  }

  /** The default CommandMessage serialises to sixteen zero bytes. */
  lemma DefaultCommandFrame()
    ensures CommandFrame(DefaultCommandMessage()) == Zeros(CommandFrameSize)
  {
  }

  /** The frames handed to streams for a sequence of SendCommandAsync calls, given the stream table. */
  function Writes(streams: map<int, NetworkStream>, sends: seq<(CommandMessage, int)>): (r: seq<(int, seq<uint8>)>)
    ensures |r| <= |sends|
  {
    if sends == [] then []
    else
      var last := sends[|sends| - 1];
      Writes(streams, sends[..|sends| - 1])
        + (if last.1 in streams then [(last.1, CommandFrame(last.0))] else [])
  }

  lemma {:induction false} WritesAppend(streams: map<int, NetworkStream>, a: seq<(CommandMessage, int)>, b: seq<(CommandMessage, int)>)
    ensures Writes(streams, a + b) == Writes(streams, a) + Writes(streams, b)
    decreases |b|
  {
    if b == [] {
      assert a + b == a;
    } else {
      var n := |b| - 1;
      assert (a + b)[..|a + b| - 1] == a + b[..n];
      WritesAppend(streams, a, b[..n]);
    }
  }

  /** Every write goes to a board that has a stream, and with no stream table nothing is written. */
  lemma {:induction false} WritesOnlyToRegistered(streams: map<int, NetworkStream>, sends: seq<(CommandMessage, int)>)
    ensures forall i :: 0 <= i < |Writes(streams, sends)| ==> Writes(streams, sends)[i].0 in streams
    ensures streams == map[] ==> Writes(streams, sends) == []
    ensures (forall i :: 0 <= i < |sends| ==> sends[i].1 in streams) ==> |Writes(streams, sends)| == |sends|
  {
    if sends != [] {
      WritesOnlyToRegistered(streams, sends[..|sends| - 1]);
      var front := sends[..|sends| - 1];
      assert forall i :: 0 <= i < |front| ==> front[i] == sends[i];
    }
  }

  /** Frames the receive loop delivers for the given reads: whole 800-byte reads, until a read of 0. */
  function AcceptedFrames(chunks: seq<seq<uint8>>, board: int): (r: seq<(seq<uint8>, int)>)
  {
    if chunks == [] then []
    else if |chunks[0]| == BoardFrameSize then [(chunks[0], board)] + AcceptedFrames(chunks[1..], board)
    else if |chunks[0]| == 0 then []
    else AcceptedFrames(chunks[1..], board)
  }

  /**
   * Each delivered frame is a single read of exactly 800 bytes, tagged with the
   * board, and deliveries keep the order of the reads.
   */
  lemma {:induction false} AcceptedFramesAreWholeReads(chunks: seq<seq<uint8>>, board: int)
    ensures |AcceptedFrames(chunks, board)| <= |chunks|
    ensures forall i :: 0 <= i < |AcceptedFrames(chunks, board)| ==>
      |AcceptedFrames(chunks, board)[i].0| == BoardFrameSize
      && AcceptedFrames(chunks, board)[i].1 == board
      && AcceptedFrames(chunks, board)[i].0 in chunks
  {
    if chunks != [] {
      AcceptedFramesAreWholeReads(chunks[1..], board);
      var rest := AcceptedFrames(chunks[1..], board);
      forall i | 0 <= i < |rest| ensures rest[i].0 in chunks {
        assert rest[i].0 in chunks[1..];
      }
    }
  }

  /** A whole 800-byte read is delivered, ahead of everything the later reads deliver. */
  lemma WholeReadDelivered(chunk: seq<uint8>, rest: seq<seq<uint8>>, board: int)
    requires |chunk| == BoardFrameSize
    ensures AcceptedFrames([chunk] + rest, board) == [(chunk, board)] + AcceptedFrames(rest, board)
  {
    assert ([chunk] + rest)[1..] == rest;
  }

  /**
   * Until a read of 0 bytes, deliveries follow the reads in order: the frames
   * of two runs of reads, the first without an empty read, are those of the
   * first run followed by those of the second.
   */
  lemma {:induction false} AcceptedFramesAppend(a: seq<seq<uint8>>, b: seq<seq<uint8>>, board: int)
    requires forall i :: 0 <= i < |a| ==> |a[i]| != 0
    ensures AcceptedFrames(a + b, board) == AcceptedFrames(a, board) + AcceptedFrames(b, board)
  {
    if a != [] {
      assert (a + b)[0] == a[0] && (a + b)[1..] == a[1..] + b;
      AcceptedFramesAppend(a[1..], b, board);
    } else {
      assert a + b == b;
    }
  }

  /** A read of 0 bytes ends the loop: nothing read after it is ever delivered. */
  lemma {:induction false} ZeroReadEndsLoop(before: seq<seq<uint8>>, after: seq<seq<uint8>>, board: int)
    ensures AcceptedFrames(before + [[]] + after, board) == AcceptedFrames(before, board)
  {
    if before == [] {
      assert (before + [[]] + after)[0] == [];
    } else {
      assert (before + [[]] + after)[1..] == before[1..] + [[]] + after;
      ZeroReadEndsLoop(before[1..], after, board);
    }
  }

  /** A read of any other size is dropped, with no effect on later deliveries. */
  lemma ShortReadDropped(chunk: seq<uint8>, rest: seq<seq<uint8>>, board: int)
    requires 0 < |chunk| != BoardFrameSize
    ensures AcceptedFrames([chunk] + rest, board) == AcceptedFrames(rest, board)
  {
    assert ([chunk] + rest)[1..] == rest;
  }

  /** The loop does not reassemble: a frame that arrives in two pieces is lost. */
  lemma SplitFrameIsLost(frame: seq<uint8>, cut: nat, board: int)
    requires |frame| == BoardFrameSize && 0 < cut < BoardFrameSize
    ensures AcceptedFrames([frame[..cut], frame[cut..]], board) == []
  {
    var first, second := frame[..cut], frame[cut..];
    assert 0 < |first| < BoardFrameSize && 0 < |second| < BoardFrameSize;
    assert [first, second][1..] == [second];
    var tail: seq<seq<uint8>> := [second][1..];
    assert tail == [];
    assert AcceptedFrames([second], board) == AcceptedFrames(tail, board) == [];
    assert AcceptedFrames([first, second], board) == AcceptedFrames([second], board);
  }

  class TcpCommunicationService {
    var boardClients: map<int, TcpClient>
    var boardStreams: map<int, NetworkStream>
    /** The cancellation token source's state. */
    var cancelled: bool
    /** Every endpoint a connection was attempted to, in order. */
    ghost var attempts: seq<Endpoint>
    /** Boards whose receive loop was launched, in order. */
    ghost var receiveLoops: seq<int>
    /** Every SendCommandAsync call, as (command, board), in order. */
    ghost var requests: seq<(CommandMessage, int)>
    /** Every frame handed to a board's stream, as (board, bytes), in order. */
    ghost var written: seq<(int, seq<uint8>)>

    constructor ()
      ensures boardClients == map[] && boardStreams == map[] && !cancelled
      ensures attempts == [] && receiveLoops == [] && requests == [] && written == []
    {
      boardClients, boardStreams, cancelled := map[], map[], false;
      attempts, receiveLoops, requests, written := [], [], [], [];
    }

    /**
     * ConnectToBoardAsync: dial the board's endpoint; on success TryAdd the
     * client and stream (an existing entry is kept) and launch a receive loop.
     * The loop is launched with the service's cancellation token, so once
     * StopAsync has cancelled it no loop runs.  A failed connect is logged and
     * changes nothing else.
     */
    method ConnectToBoardAsync(boardNumber: int, result: ConnectResult)
      modifies this`boardClients, this`boardStreams, this`attempts, this`receiveLoops
      ensures attempts == old(attempts) + [BoardEndpoint(boardNumber)]
      ensures result.Refused? ==> boardClients == old(boardClients) && boardStreams == old(boardStreams)
      ensures result.Refused? ==> receiveLoops == old(receiveLoops)
      ensures result.Established? ==> boardClients == TryAdd(old(boardClients), boardNumber, result.client)
      ensures result.Established? ==> boardStreams == TryAdd(old(boardStreams), boardNumber, result.stream)
      ensures result.Established? ==> receiveLoops == old(receiveLoops) + (if cancelled then [] else [boardNumber])
    {
      attempts := attempts + [BoardEndpoint(boardNumber)];
      if result.Established? {
        boardClients := TryAdd(boardClients, boardNumber, result.client);
        boardStreams := TryAdd(boardStreams, boardNumber, result.stream);
        if !cancelled {
          receiveLoops := receiveLoops + [boardNumber];
        }
      }
    }

    /**
     * StartAsync: one connect attempt to each board 1..32, in board order;
     * what the tables and the receive loops then hold is stated by
     * ClientsAfterConnects, StreamsAfterConnects and LoopsAfterConnects.
     */
    method StartAsync(network: int -> ConnectResult)
      modifies this`boardClients, this`boardStreams, this`attempts, this`receiveLoops
      ensures attempts == old(attempts) + EndpointsUpTo(Addressing.BoardCount)
      ensures (boardClients, boardStreams) == TablesAfter(old(boardClients), old(boardStreams), network, Addressing.BoardCount)
      ensures receiveLoops == old(receiveLoops) + (if cancelled then [] else LoopsAfter(network, Addressing.BoardCount))
    {
      var boardNumber := 1;
      while boardNumber <= Addressing.BoardCount
        invariant 1 <= boardNumber <= Addressing.BoardCount + 1
        invariant attempts == old(attempts) + EndpointsUpTo(boardNumber - 1)
        invariant (boardClients, boardStreams) == TablesAfter(old(boardClients), old(boardStreams), network, boardNumber - 1)
        invariant receiveLoops == old(receiveLoops) + (if cancelled then [] else LoopsAfter(network, boardNumber - 1))
      {
        ConnectToBoardAsync(boardNumber, network(boardNumber));
        boardNumber := boardNumber + 1;
      }
    }

    /**
     * ReceiveDataFromBoard: each ReadAsync asks for 800 bytes into the reused
     * buffer; a read of exactly 800 is copied out and delivered with the board
     * number, a read of 0 ends the loop, any other count is dropped.  `chunks`
     * are the byte runs the successive reads return before the loop is
     * cancelled or the stream fails.
     */
    method ReceiveDataFromBoard(boardNumber: int, chunks: seq<seq<uint8>>) returns (delivered: seq<(seq<uint8>, int)>)
      requires forall k :: 0 <= k < |chunks| ==> |chunks[k]| <= BoardFrameSize
      ensures delivered == if cancelled then [] else AcceptedFrames(chunks, boardNumber)
    {
      var buffer := new uint8[ReceiveBufferSize](_ => 0);
      delivered := [];
      var k := 0;
      while !cancelled && k < |chunks|
        invariant 0 <= k <= |chunks|
        invariant cancelled ==> k == 0 && delivered == []
        invariant delivered + AcceptedFrames(chunks[k..], boardNumber) == AcceptedFrames(chunks, boardNumber)
      {
        var chunk := chunks[k];
        forall j | 0 <= j < |chunk| {
          buffer[j] := chunk[j];
        }
        var bytesRead := |chunk|;
        assert chunks[k..][1..] == chunks[k + 1..];
        if bytesRead == BoardFrameSize {
          var data := buffer[..bytesRead];
          assert data == chunk;
          delivered := delivered + [(data, boardNumber)];
        } else if bytesRead == 0 {
          break;
        }
        k := k + 1;
      }
      assert !cancelled && k == |chunks| ==> chunks[k..] == [];
    }

    /** SerializeCommand: fill a zeroed 16-byte buffer with type, channel byte and payload prefix. */
    method SerializeCommand(command: CommandMessage) returns (frame: seq<uint8>)
      ensures frame == CommandFrame(command)
    {
      var data := new uint8[CommandFrameSize](_ => 0);
      data[0] := TypeCode(command.kind);
      data[1] := command.channelNumber % 256;
      var n := if |command.data| < CommandPayloadCapacity then |command.data| else CommandPayloadCapacity;
      if |command.data| > 0 {
        for j := 0 to n
          invariant data[0] == TypeCode(command.kind) && data[1] == command.channelNumber % 256
          invariant forall i :: 0 <= i < j ==> data[2 + i] == command.data[i]
          invariant forall i :: 2 + j <= i < CommandFrameSize ==> data[i] == 0
        {
          data[2 + j] := command.data[j];
        }
      }
      frame := data[..];
      assert forall i :: 0 <= i < n ==> frame[2..2 + n][i] == command.data[..n][i];
      assert frame[2..2 + n] == command.data[..n];
      assert frame[2 + n..] == Zeros(CommandPayloadCapacity - n);
      assert frame == frame[..2] + frame[2..2 + n] + frame[2 + n..];
    }

    /**
     * SendCommandAsync: serialise and write only when the board has a
     * registered stream; otherwise nothing happens and no error is raised.
     * A failing write is swallowed.
     */
    method SendCommandAsync(command: CommandMessage, boardNumber: int)
      modifies this`requests, this`written
      ensures requests == old(requests) + [(command, boardNumber)]
      ensures written == old(written) + Writes(boardStreams, [(command, boardNumber)])
    {
      requests := requests + [(command, boardNumber)];
      assert [(command, boardNumber)][..0] == [];
      if boardNumber in boardStreams {
        var commandData := SerializeCommand(command);
        written := written + [(boardNumber, commandData)];
      }
    }

    /** IsConnected: the board has a client in the table and that socket reports Connected. */
    predicate IsConnected(boardNumber: int)
      reads this
      ensures IsConnected(boardNumber) ==> boardNumber in boardClients
    {
      boardNumber in boardClients && boardClients[boardNumber].connected
    }

    /** StopAsync: cancel every loop, close the sockets and clear both tables. */
    method StopAsync()
      modifies this`cancelled, this`boardClients, this`boardStreams
      ensures cancelled && boardClients == map[] && boardStreams == map[]
      ensures forall b :: !IsConnected(b)
    {
      cancelled := true;
      boardClients := map[];
      boardStreams := map[];
    }
  }
}
