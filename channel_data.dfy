/**
 * The protocol records: the step-data request and acknowledgement structs
 * (packed, sequential, little-endian host), the command types, and the
 * channel-data and command-message records with their defaults.
 */
module Models {
  import opened Binary
  import opened Layout

  /** StepDataReq: CH (u16), ID (u16), StepDataIndex (u32). */
  const StepDataReqLayout: seq<nat> := [2, 2, 4]

  /**
   * StepDataAck: CH, ID, StepDataIndex, TestType, TestMode, CycleNo, StepNo,
   * TargetVoltage, TargetCurrent, TargetChamberMode, TargetChamberTemp,
   * TargetPower, TargetResistance, EndTime, TimeEndIndex.
   */
  const StepDataAckLayout: seq<nat> := [2, 2, 4, 2, 2, 2, 4, 4, 4, 2, 2, 4, 4, 8, 4]

  /** The byte offsets of the StepDataAck fields, as the packed layout places them. */
  const StepDataAckOffsets: seq<nat> := [0, 2, 4, 8, 10, 12, 14, 18, 22, 26, 28, 30, 34, 38, 46]

  lemma StepDataReqLayoutSize()
    ensures Size(StepDataReqLayout) == 8
    ensures Offset(StepDataReqLayout, 0) == 0
    ensures Offset(StepDataReqLayout, 1) == 2
    ensures Offset(StepDataReqLayout, 2) == 4
  {
    assert StepDataReqLayout[..0] == [];
    assert StepDataReqLayout[..1] == [2];
    assert StepDataReqLayout[..2] == [2, 2];
    assert [2, 2][..1] == [2];
    assert StepDataReqLayout[..3][..2] == [2, 2];
  }

  /** Offsets of a layout from field k on, given the offset of field k. */
  lemma {:induction false} OffsetsFrom(widths: seq<nat>, offsets: seq<nat>, k: nat)
    requires |offsets| == |widths| && k <= |widths|
    requires k < |widths| ==> Offset(widths, k) == offsets[k]
    requires forall j :: 0 <= j < |widths| - 1 ==> offsets[j + 1] == offsets[j] + widths[j]
    ensures forall j :: k <= j < |widths| ==> Offset(widths, j) == offsets[j]
    decreases |widths| - k
  {
    if k < |widths| {
      if k + 1 < |widths| {
        SizePrefix(widths, k);
        OffsetsFrom(widths, offsets, k + 1);
      }
    }
  }

  /** The packed StepDataAck is 50 bytes long, its fields at consecutive offsets. */
  lemma StepDataAckLayoutSize()
    ensures Size(StepDataAckLayout) == 50
    ensures forall k :: 0 <= k < 15 ==> Offset(StepDataAckLayout, k) == StepDataAckOffsets[k]
  {
    var w, o := StepDataAckLayout, StepDataAckOffsets;
    assert w[..0] == [];
    assert |w| == 15 && |o| == 15;
    assert forall j :: 0 <= j < |w| - 1 ==> o[j + 1] == o[j] + w[j];
    OffsetsFrom(w, o, 0);
    assert Offset(w, 14) == Size(w[..14]) == 46;
    SizePrefix(w, 14);
    assert w[..15] == w;
  }

  /** The struct StepDataReq; Convert() rewrites its first two fields in place. */
  class StepDataReq {
    var ch: uint16
    var id: uint16
    var stepDataIndex: uint32

    /** The object initialiser `new StepDataReq { CH = .., ID = .., StepDataIndex = .. }`. */
    constructor (ch: uint16, id: uint16, stepDataIndex: uint32)
      ensures this.ch == ch && this.id == id && this.stepDataIndex == stepDataIndex
    {
      this.ch := ch;
      this.id := id;
      this.stepDataIndex := stepDataIndex;
    }

    /** Byte-reverse CH and ID; StepDataIndex is left as it is. */
    method Convert()
      modifies this
      ensures ch == Swap16(old(ch)) && id == Swap16(old(id))
      ensures stepDataIndex == old(stepDataIndex)
    {
      ch := Swap16(ch);
      id := Swap16(id);
    }

    /** The raw field values, in StepDataReqLayout order. */
    function Fields(): (r: seq<nat>)
      reads this
      ensures Fits(StepDataReqLayout, r)
      ensures r[0] == ch && r[1] == id && r[2] == stepDataIndex
    {
      [ch as nat, id as nat, stepDataIndex as nat]
    }
  }

  /** Fifteen values, each within its StepDataAck field's width, fit the layout. */
  lemma FitsStepDataAck(r: seq<nat>)
    requires |r| == 15
    requires r[0] < 0x1_0000 && r[1] < 0x1_0000 && r[2] < 0x1_0000_0000 && r[3] < 0x1_0000
    requires r[4] < 0x1_0000 && r[5] < 0x1_0000 && r[6] < 0x1_0000_0000 && r[7] < 0x1_0000_0000
    requires r[8] < 0x1_0000_0000 && r[9] < 0x1_0000 && r[10] < 0x1_0000 && r[11] < 0x1_0000_0000
    requires r[12] < 0x1_0000_0000 && r[13] < 0x1_0000_0000_0000_0000 && r[14] < 0x1_0000_0000
    ensures Fits(StepDataAckLayout, r)
  {
    Pow256Widths();
  }

  /** The struct StepDataAck; Convert() rewrites CH and ID in place. */
  class StepDataAck {
    var ch: uint16
    var id: uint16
    var stepDataIndex: uint32
    var testType: uint16
    var testMode: uint16
    var cycleNo: uint16
    var stepNo: uint32
    var targetVoltage: int32
    var targetCurrent: int32
    var targetChamberMode: uint16
    var targetChamberTemp: int16
    var targetPower: int32
    var targetResistance: int32
    var endTime: uint64
    var timeEndIndex: uint32

    /** Byte-reverse CH and ID; the other thirteen fields are left as they are. */
    method Convert()
      modifies this
      ensures ch == Swap16(old(ch)) && id == Swap16(old(id))
      ensures stepDataIndex == old(stepDataIndex) && testType == old(testType)
      ensures testMode == old(testMode) && cycleNo == old(cycleNo) && stepNo == old(stepNo)
      ensures targetVoltage == old(targetVoltage) && targetCurrent == old(targetCurrent)
      ensures targetChamberMode == old(targetChamberMode) && targetChamberTemp == old(targetChamberTemp)
      ensures targetPower == old(targetPower) && targetResistance == old(targetResistance)
      ensures endTime == old(endTime) && timeEndIndex == old(timeEndIndex)
    {
      ch := Swap16(ch);
      id := Swap16(id);
    }

    /** The raw field values (signed ones as two's complement), in StepDataAckLayout order. */
    function Fields(): (r: seq<nat>)
      reads this
    {
      Pow256Widths();
      var r := [ch as nat, id as nat, stepDataIndex as nat, testType as nat, testMode as nat,
                cycleNo as nat, stepNo as nat,
                ToUnsigned(targetVoltage, 4), ToUnsigned(targetCurrent, 4),
                targetChamberMode as nat, ToUnsigned(targetChamberTemp, 2),
                ToUnsigned(targetPower, 4), ToUnsigned(targetResistance, 4),
                endTime as nat, timeEndIndex as nat];
      r
    }

    /** The raw field values fit the packed layout, so Encode can lay them out. */
    lemma FieldsFit()
      ensures Fits(StepDataAckLayout, Fields())
      ensures Fields()[0] == ch && Fields()[1] == id && Fields()[2] == stepDataIndex
    {
      Pow256Widths();
      FitsStepDataAck(Fields());
    }

    /** The signed fields are stored as two's complement: reading them back signed gives the field. */
    lemma FieldsSigned()
      ensures Fields()[7] < Pow256(4) && ToSigned(Fields()[7], 4) == targetVoltage
      ensures Fields()[8] < Pow256(4) && ToSigned(Fields()[8], 4) == targetCurrent
      ensures Fields()[10] < Pow256(2) && ToSigned(Fields()[10], 2) == targetChamberTemp
      ensures Fields()[11] < Pow256(4) && ToSigned(Fields()[11], 4) == targetPower
      ensures Fields()[12] < Pow256(4) && ToSigned(Fields()[12], 4) == targetResistance
    {
      Pow256Widths();
      SignedRoundTrip(targetVoltage, 4);
      SignedRoundTrip(targetCurrent, 4);
      SignedRoundTrip(targetChamberTemp, 2);
      SignedRoundTrip(targetPower, 4);
      SignedRoundTrip(targetResistance, 4);
    }
  }

  /** CommandType: Start, Stop, Pause, Resume, Reset, GetStatus. */
  datatype CommandType = Start | Stop | Pause | Resume | Reset | GetStatus

  /** The enum's integer value: declaration order from 0. */
  function TypeCode(t: CommandType): (r: uint8)
    ensures r <= 5
  {
    match t
    case Start => 0
    case Stop => 1
    case Pause => 2
    case Resume => 3
    case Reset => 4
    case GetStatus => 5
  }

  /** The command type a code stands for, if any. */
  function TypeOfCode(code: int): (r: Option<CommandType>)
    ensures r.Some? <==> 0 <= code <= 5
  {
    if code == 0 then Some(Start)
    else if code == 1 then Some(Stop)
    else if code == 2 then Some(Pause)
    else if code == 3 then Some(Resume)
    else if code == 4 then Some(Reset)
    else if code == 5 then Some(GetStatus)
    else None
  }

  datatype Option<+T> = None | Some(value: T)

  /** Distinct command types have distinct one-byte codes, and each code names its type. */
  lemma TypeCodeRoundTrip(t: CommandType)
    ensures TypeOfCode(TypeCode(t)) == Some(t)
  {
  }

  /**
   * ChannelData.  The five measurements are kept as the 32-bit pattern of the
   * single-precision float read from the block; the value the source stores is
   * that float divided by the scale constant below.  Timestamp is DateTime ticks.
   */
  datatype ChannelData = ChannelData(
    channelNumber: int32,
    timestamp: int,
    voltageBits: uint32,
    currentBits: uint32,
    powerBits: uint32,
    capacityBits: uint32,
    temperatureBits: uint32,
    stepNumber: int32,
    cycleNumber: int32,
    rawData: seq<uint8>)

  const VoltageScale := 1000000     // µV to V
  const CurrentScale := 1000000     // µA to A
  const PowerScale := 1000000       // µW to W
  const CapacityScale := 1000       // mAh to Ah
  const TemperatureScale := 100     // 0.01 °C to °C

  /** Size of one channel's block in a board frame, and of ChannelData.RawData. */
  const ChannelBlockSize := 200

  /** `new ChannelData()`: all fields zero, RawData a fresh 200-byte zero buffer. */
  function DefaultChannelData(): (r: ChannelData)
    ensures |r.rawData| == ChannelBlockSize
    ensures forall i :: 0 <= i < |r.rawData| ==> r.rawData[i] == 0
    ensures r.channelNumber == 0 && r.timestamp == 0 && r.stepNumber == 0 && r.cycleNumber == 0
    ensures r.voltageBits == 0 && r.currentBits == 0 && r.powerBits == 0 && r.capacityBits == 0 && r.temperatureBits == 0
  {
    ChannelData(0, 0, 0, 0, 0, 0, 0, 0, 0, Zeros(ChannelBlockSize))
  }

  /** CommandMessage; ChannelNumber is a C# int. */
  datatype CommandMessage = CommandMessage(kind: CommandType, channelNumber: int32, data: seq<uint8>)

  /** `new CommandMessage()`: type Start (the enum's zero), channel 0, empty Data. */
  function DefaultCommandMessage(): (r: CommandMessage)
    ensures TypeCode(r.kind) == 0 && r.channelNumber == 0 && r.data == []
  {
    CommandMessage(Start, 0, [])
  }
}
