/**
 * ProtocolHelper: marshalling of packed structs to and from bytes, written as
 * an explicit little-endian writer and reader over a byte buffer, and the
 * factories for start, stop and step-data-request messages.
 */
module ProtocolHelper {
  import opened Binary
  import opened Sequences
  import opened Layout
  import opened Errors
  import opened Models

  /** Write `value` as `width` little-endian bytes at `offset`; nothing else in `buf` changes. */
  method WriteLE(buf: array<uint8>, offset: nat, width: nat, value: nat)
    requires offset + width <= buf.Length
    modifies buf
    ensures buf[..] == old(buf[..])[..offset] + LE(value, width) + old(buf[..])[offset + width..]
  {
    var v, k := value, 0;
    while k < width
      invariant 0 <= k <= width
      invariant LE(value, width) == buf[offset..offset + k] + LE(v, width - k)
      invariant buf[..offset] == old(buf[..])[..offset]
      invariant buf[offset + width..] == old(buf[..])[offset + width..]
    {
      assert LE(v, width - k) == [v % 256] + LE(v / 256, width - k - 1);
      buf[offset + k] := v % 256;
      assert buf[offset..offset + k + 1] == buf[offset..offset + k] + [v % 256];
      v, k := v / 256, k + 1;
    }
    assert buf[..] == buf[..offset] + buf[offset..offset + width] + buf[offset + width..];
  }

  /** Read the unsigned little-endian value of `width` bytes at `offset`. */
  method ReadLE(bytes: array<uint8>, offset: nat, width: nat) returns (v: nat)
    requires offset + width <= bytes.Length
    ensures v == FromLE(bytes[offset..offset + width])
  {
    v := 0;
    var k := width;
    while k > 0
      invariant 0 <= k <= width
      invariant v == FromLE(bytes[offset + k..offset + width])
    {
      k := k - 1;
      assert bytes[offset + k..offset + width][1..] == bytes[offset + k + 1..offset + width];
      v := bytes[offset + k] + 256 * v;
    }
  }

  /**
   * StructToByteArray: allocate Marshal.SizeOf bytes and write every field at
   * its offset.  The result is the content of the returned array.
   */
  method StructToByteArray(layout: seq<nat>, values: seq<nat>) returns (bytes: seq<uint8>)
    requires Fits(layout, values)
    ensures bytes == Encode(layout, values)
  {
    var buf := new uint8[Size(layout)](_ => 0);
    var i, offset := 0, 0;
    while i < |layout|
      invariant 0 <= i <= |layout|
      invariant offset == Size(layout[..i]) <= Size(layout)
      invariant buf[..offset] == Encode(layout[..i], values[..i])
    {
      SizePrefix(layout, i);
      SizePrefix(layout, i + 1);
      ghost var before := buf[..];
      WriteLE(buf, offset, layout[i], values[i]);
      PrefixOfAppend(before[..offset], LE(values[i], layout[i]), before[offset + layout[i]..]);
      EncodeSnoc(layout, values, i);
      offset, i := offset + layout[i], i + 1;
    }
    assert layout[..i] == layout && values[..i] == values;
    bytes := buf[..];
  }

  /**
   * ByteArrayToStruct: ArgumentException when the input is shorter than the
   * struct; otherwise the fields read from its first Size(layout) bytes.
   */
  method ByteArrayToStruct(layout: seq<nat>, byteArray: array<uint8>) returns (r: Result<seq<nat>>)
    ensures byteArray.Length < Size(layout) ==> r == Failure(ByteArrayTooSmall(Size(layout), byteArray.Length))
    ensures byteArray.Length >= Size(layout) ==> r == Success(Decode(layout, byteArray[..]))
  {
    var size := Size(layout);
    if byteArray.Length < size {
      return Failure(ByteArrayTooSmall(size, byteArray.Length));
    }
    var values: seq<nat> := [];
    var i, offset := 0, 0;
    while i < |layout|
      invariant 0 <= i <= |layout|
      invariant offset == Size(layout[..i]) <= size
      invariant values == Decode(layout[..i], byteArray[..])
    {
      DecodeSnoc(layout, byteArray[..], i);
      SizePrefix(layout, i + 1);
      var v := ReadLE(byteArray, offset, layout[i]);
      assert byteArray[offset..offset + layout[i]] == byteArray[..][offset..offset + layout[i]];
      values := values + [v];
      offset, i := offset + layout[i], i + 1;
    }
    assert layout[..i] == layout;
    r := Success(values);
  }

  /** CreateStartCommand: type Start, the given channel, Data = the tick count as 8 LE bytes. */
  function CreateStartCommand(channelNumber: int32, ticks: int64): (r: CommandMessage)
    ensures r.kind == Start && r.channelNumber == channelNumber && |r.data| == 8
    ensures FromLE(r.data) < Pow256(8) && ToSigned(FromLE(r.data), 8) == ticks
  {
    Int64RoundTrip(ticks);
    CommandMessage(Start, channelNumber, Int64Bytes(ticks))
  }

  /** CreateStopCommand: type Stop, the given channel, Data = the tick count as 8 LE bytes. */
  function CreateStopCommand(channelNumber: int32, ticks: int64): (r: CommandMessage)
    ensures r.kind == Stop && r.channelNumber == channelNumber && |r.data| == 8
    ensures FromLE(r.data) < Pow256(8) && ToSigned(FromLE(r.data), 8) == ticks
  {
    Int64RoundTrip(ticks);
    CommandMessage(Stop, channelNumber, Int64Bytes(ticks))
  }

  /** The fixed message id of a step-data request. */
  const StepDataReqId: uint16 := 0x0202

  /**
   * CreateStepDataRequest: build the struct with ID 0x0202, then Convert() it
   * in place, so CH and ID are byte-swapped and StepDataIndex is not.
   */
  method CreateStepDataRequest(channel: uint16, stepDataIndex: uint32) returns (request: StepDataReq)
    ensures fresh(request)
    ensures request.ch == Swap16(channel) && request.id == StepDataReqId
    ensures request.stepDataIndex == stepDataIndex
  {
    request := new StepDataReq(channel, StepDataReqId, stepDataIndex);
    request.Convert();
    StepDataReqIdSwapInvariant();
  }

  /** 0x0202 reads the same after a byte swap. */
  lemma StepDataReqIdSwapInvariant()
    ensures Swap16(StepDataReqId) == StepDataReqId
  {
  }

  /**
   * The serialised step-data request: channel big-endian, id 02 02, step index
   * little-endian (the device's mixed byte order).
   */
  lemma StepDataRequestBytes(channel: uint16, stepDataIndex: uint32)
    ensures Encode(StepDataReqLayout, [Swap16(channel), StepDataReqId, stepDataIndex])
         == [channel / 256, channel % 256, 0x02, 0x02] + LE(stepDataIndex, 4)
  {
    EncodeThree(2, 2, 4, Swap16(channel), StepDataReqId, stepDataIndex);
    assert LE(channel, 2) == [channel % 256, (channel / 256) % 256];
    assert LE(Swap16(channel), 2) == [channel / 256, channel % 256];
    assert LE(StepDataReqId, 2) == [0x02, 0x02];
  }

  /** `CreateStepDataRequest(5, 10)` serialises to 00 05 02 02 0A 00 00 00. */
  lemma StepDataRequestExample()
    ensures Encode(StepDataReqLayout, [Swap16(5), StepDataReqId, 10]) == [0x00, 0x05, 0x02, 0x02, 0x0A, 0x00, 0x00, 0x00]
  {
    StepDataRequestBytes(5, 10);
    assert 5 / 256 == 0 && 5 % 256 == 5;
    assert LE(0, 1) == [0];
    assert LE(10, 4) == [10] + LE(0, 3);
  }
}
