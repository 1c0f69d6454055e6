/**
 * ChannelDataManager: splits an 800-byte board frame into four 200-byte
 * channel blocks, parses each into a ChannelData record, stores it as the
 * channel's latest value and raises one notification per record.
 */
module ChannelDataManagement {
  import opened Binary
  import opened Models
  import Addressing

  /** Channel blocks per board frame. */
  const BlocksPerFrame := 4
  const StepNumberOffset := 20
  const CycleNumberOffset := 24

  /**
   * ParseChannelData.  For a block of at least 200 bytes every measurement is
   * read at its offset (floats at 0, 4, 8, 12, 16; signed step and cycle
   * numbers at 20 and 24); a shorter block keeps the zero defaults.  What is
   * read from where is stated by ParseChannelDataFields.
   */
  function ParseChannelData(rawData: seq<uint8>, channelNumber: int32, timestamp: int): (r: ChannelData)
    ensures r.channelNumber == channelNumber && r.timestamp == timestamp && r.rawData == rawData
  {
    if |rawData| >= ChannelBlockSize then
      ChannelData(channelNumber, timestamp,
        ReadUInt32LE(rawData, 0), ReadUInt32LE(rawData, 4), ReadUInt32LE(rawData, 8), ReadUInt32LE(rawData, 12), ReadUInt32LE(rawData, 16),
        ReadInt32LE(rawData, StepNumberOffset), ReadInt32LE(rawData, CycleNumberOffset), rawData)
    else
      ChannelData(channelNumber, timestamp, 0, 0, 0, 0, 0, 0, 0, rawData)
  }

  /** Each parsed field is the bit pattern of the bytes at its offset; a short block parses to zeros. */
  lemma ParseChannelDataFields(rawData: seq<uint8>, channelNumber: int32, timestamp: int)
    ensures var r := ParseChannelData(rawData, channelNumber, timestamp);
      |rawData| >= ChannelBlockSize ==>
      && Int32Bytes(r.stepNumber) == rawData[StepNumberOffset..StepNumberOffset + 4]
      && Int32Bytes(r.cycleNumber) == rawData[CycleNumberOffset..CycleNumberOffset + 4]
      && LE(r.voltageBits, 4) == rawData[0..4] && LE(r.currentBits, 4) == rawData[4..8]
      && LE(r.powerBits, 4) == rawData[8..12] && LE(r.capacityBits, 4) == rawData[12..16]
      && LE(r.temperatureBits, 4) == rawData[16..20]
    ensures var r := ParseChannelData(rawData, channelNumber, timestamp);
      |rawData| < ChannelBlockSize ==>
      r == DefaultChannelData().(channelNumber := channelNumber, timestamp := timestamp, rawData := rawData)
  {
    if |rawData| >= ChannelBlockSize {
      ReadInt32LEBytes(rawData, StepNumberOffset);
      ReadInt32LEBytes(rawData, CycleNumberOffset);
      ReadUInt32LEBytes(rawData, 0);
      ReadUInt32LEBytes(rawData, 4);
      ReadUInt32LEBytes(rawData, 8);
      ReadUInt32LEBytes(rawData, 12);
      ReadUInt32LEBytes(rawData, 16);
    }
  }

  /** The step and cycle numbers written into a block are the ones parsed back from it. */
  lemma ParseStepAndCycle(block: seq<uint8>, step: int32, cycle: int32, channelNumber: int32, timestamp: int)
    requires |block| == ChannelBlockSize
    requires block[StepNumberOffset..StepNumberOffset + 4] == Int32Bytes(step)
    requires block[CycleNumberOffset..CycleNumberOffset + 4] == Int32Bytes(cycle)
    ensures ParseChannelData(block, channelNumber, timestamp).stepNumber == step
    ensures ParseChannelData(block, channelNumber, timestamp).cycleNumber == cycle
  {
    Int32RoundTrip(step, block[..StepNumberOffset], block[StepNumberOffset + 4..]);
    assert block == block[..StepNumberOffset] + Int32Bytes(step) + block[StepNumberOffset + 4..];
    Int32RoundTrip(cycle, block[..CycleNumberOffset], block[CycleNumberOffset + 4..]);
    assert block == block[..CycleNumberOffset] + Int32Bytes(cycle) + block[CycleNumberOffset + 4..];
  }

  /** C#'s `(boardNumber - 1) * 4 + channelOffset + 1` in unchecked 32-bit arithmetic. */
  function BlockChannel(boardNumber: int32, offset: nat): int32
  {
    WrapInt32(Addressing.ChannelOf(boardNumber, offset))
  }

  /** For boards 1..32 the wrap never happens: block i is channel (board-1)*4+i+1, within 1..128. */
  lemma BlockChannelInRange(boardNumber: int32, offset: nat)
    requires 1 <= boardNumber <= Addressing.BoardCount && offset < BlocksPerFrame
    ensures BlockChannel(boardNumber, offset) == Addressing.ChannelOf(boardNumber, offset)
    ensures Addressing.ValidChannel(BlockChannel(boardNumber, offset))
    ensures Addressing.BoardOf(BlockChannel(boardNumber, offset)) == boardNumber
  {
    Addressing.ChannelsCoverOnce(boardNumber, offset, boardNumber, offset);
    Addressing.BoardOfChannelOf(boardNumber, offset);
  }

  /** The four blocks of one frame always name four different channels, wrapped or not. */
  lemma BlockChannelsDistinct(boardNumber: int32, i: nat, j: nat)
    requires i < j < BlocksPerFrame
    ensures BlockChannel(boardNumber, i) != BlockChannel(boardNumber, j)
  {
    var x, y := Addressing.ChannelOf(boardNumber, i), Addressing.ChannelOf(boardNumber, j);
    var M := 0x1_0000_0000;
    assert y == x + (j - i);
    var ux, uy := x % M, y % M;
    if ux + (j - i) < M {
      assert uy == ux + (j - i);
    } else {
      assert uy == ux + (j - i) - M;
    }
  }

  /** First byte of block `offset` in a board frame. */
  function BlockStart(offset: nat): nat
  {
    200 * offset
  }

  /** Block `offset` lies wholly inside `len` bytes exactly when fewer than offset+1 blocks fit. */
  lemma BlockFits(len: nat, offset: nat)
    ensures BlockStart(offset + 1) == BlockStart(offset) + ChannelBlockSize
    ensures len >= BlockStart(offset) + ChannelBlockSize <==> len / ChannelBlockSize > offset
  {
    var q := len / ChannelBlockSize;
    assert len == q * ChannelBlockSize + len % ChannelBlockSize;
    if q > offset {
      assert q * ChannelBlockSize >= (offset + 1) * ChannelBlockSize;
    } else {
      assert q * ChannelBlockSize <= offset * ChannelBlockSize;
    }
  }

  /** The record parsed from block `offset`: its 200 bytes, for its channel, at time clock(offset). */
  function BlockAt(rawData: seq<uint8>, boardNumber: int32, clock: nat -> int, offset: nat): ChannelData
    requires BlockStart(offset) + ChannelBlockSize <= |rawData|
  {
    ParseChannelData(rawData[BlockStart(offset)..BlockStart(offset) + ChannelBlockSize],
                     BlockChannel(boardNumber, offset), clock(offset))
  }

  function Min(a: int, b: int): int { if a < b then a else b }

  /**
   * The records produced by blocks 0..n-1, in block order: a block is handled
   * when it lies wholly inside the data, so the handled blocks are the first
   * min(n, |rawData| / 200).  `clock(i)` is the time DateTime.Now gives while
   * block i is parsed.
   */
  function DecodeBlocks(rawData: seq<uint8>, boardNumber: int32, clock: nat -> int, n: nat): seq<ChannelData>
  {
    seq(Min(n, |rawData| / ChannelBlockSize), i requires 0 <= i < Min(n, |rawData| / ChannelBlockSize) =>
      BlockFits(|rawData|, i);
      BlockAt(rawData, boardNumber, clock, i))
  }

  /** The records one board frame produces. */
  function DecodeFrame(rawData: seq<uint8>, boardNumber: int32, clock: nat -> int): seq<ChannelData>
  {
    DecodeBlocks(rawData, boardNumber, clock, BlocksPerFrame)
  }

  /** Block i (i < n) is handled exactly when all of its 200 bytes are present. */
  lemma DecodeBlocksHandled(rawData: seq<uint8>, boardNumber: int32, clock: nat -> int, n: nat, i: nat)
    requires i < n
    ensures i < |DecodeBlocks(rawData, boardNumber, clock, n)| <==> BlockStart(i) + ChannelBlockSize <= |rawData|
    ensures i < |DecodeBlocks(rawData, boardNumber, clock, n)| ==>
      DecodeBlocks(rawData, boardNumber, clock, n)[i] == BlockAt(rawData, boardNumber, clock, i)
  {
    BlockFits(|rawData|, i);
  }

  /** One more block: the records grow by that block's record when it fits, and stay otherwise. */
  lemma DecodeBlocksStep(rawData: seq<uint8>, boardNumber: int32, clock: nat -> int, k: nat)
    ensures |rawData| >= BlockStart(k) + ChannelBlockSize ==>
      DecodeBlocks(rawData, boardNumber, clock, k + 1)
      == DecodeBlocks(rawData, boardNumber, clock, k) + [BlockAt(rawData, boardNumber, clock, k)]
    ensures |rawData| < BlockStart(k) + ChannelBlockSize ==>
      DecodeBlocks(rawData, boardNumber, clock, k + 1) == DecodeBlocks(rawData, boardNumber, clock, k)
  {
    BlockFits(|rawData|, k);
    var next, done := DecodeBlocks(rawData, boardNumber, clock, k + 1), DecodeBlocks(rawData, boardNumber, clock, k);
    if |rawData| >= BlockStart(k) + ChannelBlockSize {
      assert |next| == |done| + 1;
      forall i | 0 <= i < |next| ensures next[i] == (done + [BlockAt(rawData, boardNumber, clock, k)])[i] {
        if i < |done| {
          assert next[i] == done[i];
        }
      }
    } else {
      assert |next| == |done|;
    }
  }

  /** The record of block i carries the block's bytes, its channel, its time and its step and cycle numbers. */
  lemma BlockAtFields(rawData: seq<uint8>, boardNumber: int32, clock: nat -> int, i: nat)
    requires BlockStart(i) + ChannelBlockSize <= |rawData|
    ensures var r := BlockAt(rawData, boardNumber, clock, i);
      && r.channelNumber == BlockChannel(boardNumber, i)
      && r.rawData == rawData[BlockStart(i)..BlockStart(i) + ChannelBlockSize]
      && r.timestamp == clock(i)
      && r.stepNumber == ReadInt32LE(rawData, BlockStart(i) + StepNumberOffset)
      && r.cycleNumber == ReadInt32LE(rawData, BlockStart(i) + CycleNumberOffset)
  {
    var base := BlockStart(i);
    var block := rawData[base..base + ChannelBlockSize];
    assert ReadUInt32LE(block, StepNumberOffset) == ReadUInt32LE(rawData, base + StepNumberOffset);
    assert ReadUInt32LE(block, CycleNumberOffset) == ReadUInt32LE(rawData, base + CycleNumberOffset);
  }

  /** The records of a frame carry each block's bytes, its channel, its time and its step and cycle numbers. */
  lemma DecodeFrameFields(rawData: seq<uint8>, boardNumber: int32, clock: nat -> int, i: nat)
    requires i < |DecodeFrame(rawData, boardNumber, clock)|
    ensures BlockStart(i) + ChannelBlockSize <= |rawData|
    ensures var r := DecodeFrame(rawData, boardNumber, clock)[i];
      && r.channelNumber == BlockChannel(boardNumber, i)
      && r.rawData == rawData[BlockStart(i)..BlockStart(i) + ChannelBlockSize]
      && r.timestamp == clock(i)
      && r.stepNumber == ReadInt32LE(rawData, BlockStart(i) + StepNumberOffset)
      && r.cycleNumber == ReadInt32LE(rawData, BlockStart(i) + CycleNumberOffset)
  {
    DecodeBlocksHandled(rawData, boardNumber, clock, BlocksPerFrame, i);
    BlockAtFields(rawData, boardNumber, clock, i);
  }

  /** Storing records one after another into the channel map, each replacing the channel's entry. */
  function Store(m: map<int, ChannelData>, records: seq<ChannelData>): map<int, ChannelData>
  {
    if records == [] then m
    else
      var last := records[|records| - 1];
      Store(m, records[..|records| - 1])[last.channelNumber as int := last]
  }

  lemma StoreSnoc(m: map<int, ChannelData>, records: seq<ChannelData>, r: ChannelData)
    ensures Store(m, records + [r]) == Store(m, records)[r.channelNumber as int := r]
  {
    assert (records + [r])[..|records|] == records;
  }

  lemma {:induction false} StoreAppend(m: map<int, ChannelData>, a: seq<ChannelData>, b: seq<ChannelData>)
    ensures Store(m, a + b) == Store(Store(m, a), b)
    decreases |b|
  {
    if b == [] {
      assert a + b == a;
    } else {
      assert (a + b)[..|a + b| - 1] == a + b[..|b| - 1];
      StoreAppend(m, a, b[..|b| - 1]);
    }
  }

  /** Channels named by some record. */
  predicate Names(records: seq<ChannelData>, channel: int)
  {
    exists i :: 0 <= i < |records| && records[i].channelNumber == channel
  }

  /**
   * After storing records with distinct channels, each record is its channel's
   * entry, and a channel no record names keeps its old entry (or stays absent).
   */
  lemma {:induction false} StoreLookup(m: map<int, ChannelData>, records: seq<ChannelData>)
    requires forall i, j :: 0 <= i < j < |records| ==> records[i].channelNumber != records[j].channelNumber
    ensures forall i :: 0 <= i < |records| ==>
      records[i].channelNumber as int in Store(m, records) && Store(m, records)[records[i].channelNumber as int] == records[i]
    ensures forall c :: !Names(records, c) ==>
      (c in Store(m, records) <==> c in m) && (c in m ==> Store(m, records)[c] == m[c])
  {
    if records != [] {
      var n := |records| - 1;
      var front := records[..n];
      StoreLookup(m, front);
    }
  }

  /** The registry's keys are exactly the channels some notification named. */
  lemma {:induction false} StoreKeys(records: seq<ChannelData>, c: int)
    ensures c in Store(map[], records) <==> Names(records, c)
  {
    if records != [] {
      var n := |records| - 1;
      StoreKeys(records[..n], c);
      if Names(records[..n], c) {
        var i :| 0 <= i < n && records[..n][i].channelNumber == c;
        assert records[i].channelNumber == c;
      }
      if Names(records, c) && records[n].channelNumber != c {
        var i :| 0 <= i < |records| && records[i].channelNumber == c;
        assert records[..n][i].channelNumber == c;
      }
    }
  }

  /** One loop step of ProcessRawDataAsync, on the notification log and on the registry. */
  lemma ProcessStep(before: seq<ChannelData>, m: map<int, ChannelData>, rawData: seq<uint8>, boardNumber: int32, clock: nat -> int, k: nat)
    ensures |rawData| >= BlockStart(k) + ChannelBlockSize ==>
      var r := BlockAt(rawData, boardNumber, clock, k);
      && before + DecodeBlocks(rawData, boardNumber, clock, k + 1) == before + DecodeBlocks(rawData, boardNumber, clock, k) + [r]
      && Store(m, DecodeBlocks(rawData, boardNumber, clock, k + 1))
         == Store(m, DecodeBlocks(rawData, boardNumber, clock, k))[r.channelNumber as int := r]
    ensures |rawData| < BlockStart(k) + ChannelBlockSize ==>
      DecodeBlocks(rawData, boardNumber, clock, k + 1) == DecodeBlocks(rawData, boardNumber, clock, k)
  {
    DecodeBlocksStep(rawData, boardNumber, clock, k);
    if |rawData| >= BlockStart(k) + ChannelBlockSize {
      var r := BlockAt(rawData, boardNumber, clock, k);
      StoreSnoc(m, DecodeBlocks(rawData, boardNumber, clock, k), r);
    }
  }

  /** The records of one frame name distinct channels. */
  lemma DecodeFrameDistinct(rawData: seq<uint8>, boardNumber: int32, clock: nat -> int)
    ensures var rs := DecodeFrame(rawData, boardNumber, clock);
      forall i, j :: 0 <= i < j < |rs| ==> rs[i].channelNumber != rs[j].channelNumber
  {
    var rs := DecodeFrame(rawData, boardNumber, clock);
    forall i, j | 0 <= i < j < |rs| ensures rs[i].channelNumber != rs[j].channelNumber {
      BlockChannelsDistinct(boardNumber, i, j);
    }
  }

  class ChannelDataManager {
    var latestChannelData: map<int, ChannelData>
    /** Every ChannelDataReceived notification raised, in order. */
    ghost var notifications: seq<ChannelData>

    /** The registry holds, for each channel, the most recently notified record. */
    ghost predicate Valid()
      reads this
    {
      latestChannelData == Store(map[], notifications)
    }

    constructor ()
      ensures Valid() && latestChannelData == map[] && notifications == []
    {
      latestChannelData := map[];
      notifications := [];
    }

    /**
     * ProcessRawDataAsync: for offsets 0..3, if the whole block is in the data,
     * copy it out, parse it, store it as the channel's latest record and raise
     * one notification.
     */
    method ProcessRawDataAsync(rawData: seq<uint8>, boardNumber: int32, clock: nat -> int)
      requires Valid()
      modifies this
      ensures Valid()
      ensures notifications == old(notifications) + DecodeFrame(rawData, boardNumber, clock)
      ensures latestChannelData == Store(old(latestChannelData), DecodeFrame(rawData, boardNumber, clock))
    {
      var channelOffset := 0;
      while channelOffset < BlocksPerFrame
        invariant 0 <= channelOffset <= BlocksPerFrame
        invariant notifications == old(notifications) + DecodeBlocks(rawData, boardNumber, clock, channelOffset)
        invariant latestChannelData == Store(old(latestChannelData), DecodeBlocks(rawData, boardNumber, clock, channelOffset))
      {
        ProcessStep(old(notifications), old(latestChannelData), rawData, boardNumber, clock, channelOffset);
        var channelNumber := BlockChannel(boardNumber, channelOffset);
        var start := BlockStart(channelOffset);
        if |rawData| >= start + ChannelBlockSize {
          var channelRawData := rawData[start..start + ChannelBlockSize];
          var channelData := ParseChannelData(channelRawData, channelNumber, clock(channelOffset));
          assert channelData == BlockAt(rawData, boardNumber, clock, channelOffset);
          latestChannelData := latestChannelData[channelNumber as int := channelData];
          notifications := notifications + [channelData];
        }
        channelOffset := channelOffset + 1;
      }
      StoreAppend(map[], old(notifications), DecodeFrame(rawData, boardNumber, clock));
    }

    /** GetLatestChannelData: the stored record, or null (None) for a channel never stored. */
    function GetLatestChannelData(channelNumber: int): (r: Option<ChannelData>)
      reads this
      requires Valid()
      ensures r.None? <==> !Names(notifications, channelNumber)
      ensures r.Some? ==> channelNumber in latestChannelData && r.value == latestChannelData[channelNumber]
    {
      StoreKeys(notifications, channelNumber);
      if channelNumber in latestChannelData then Some(latestChannelData[channelNumber]) else None
    }
  }

  /**
   * After a frame is processed, every handled channel reads back its new
   * record and every other channel reads back what it read before.
   */
  lemma LatestAfterFrame(before: map<int, ChannelData>, rawData: seq<uint8>, boardNumber: int32, clock: nat -> int)
    ensures var rs := DecodeFrame(rawData, boardNumber, clock);
      var after := Store(before, rs);
      && (forall i :: 0 <= i < |rs| ==> rs[i].channelNumber as int in after && after[rs[i].channelNumber as int] == rs[i])
      && (forall c :: !Names(rs, c) ==> (c in after <==> c in before) && (c in before ==> after[c] == before[c]))
  {
    DecodeFrameDistinct(rawData, boardNumber, clock);
    StoreLookup(before, DecodeFrame(rawData, boardNumber, clock));
  }

  /**
   * A full 800-byte frame from board b (1..32) updates exactly the channels
   * (b-1)*4+1 .. (b-1)*4+4, notifying them in increasing order.
   */
  lemma FullFrameChannels(rawData: seq<uint8>, boardNumber: int32, clock: nat -> int)
    requires |rawData| == BlocksPerFrame * ChannelBlockSize && 1 <= boardNumber <= Addressing.BoardCount
    ensures |DecodeFrame(rawData, boardNumber, clock)| == BlocksPerFrame
    ensures forall i :: 0 <= i < BlocksPerFrame ==>
      DecodeFrame(rawData, boardNumber, clock)[i].channelNumber == (boardNumber - 1) * 4 + i + 1
  {
    forall i | 0 <= i < BlocksPerFrame
      ensures DecodeFrame(rawData, boardNumber, clock)[i].channelNumber == (boardNumber - 1) * 4 + i + 1
    {
      BlockChannelInRange(boardNumber, i);
    }
  }
}
