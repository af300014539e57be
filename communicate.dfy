/**
 * Telemetry framing of include/communicate.h and src/communicate.cpp.
 *
 * A `dataBlob` is a tag byte, a 64-bit word used as an 8-byte buffer and a
 * write cursor `dataUsed`. Appending a byte ORs it into the slot the cursor
 * names (slot k holds bits 8k..8k+7 of the word) and advances the cursor;
 * sending emits the tag and then the used slots, low slot first.
 *
 * The serial sink is modelled by the byte sequence a send emits.
 */
module Communicate {
  import opened RobotStates

  const SENSOR_DATA_BLOB_HEADER: Byte := 0xAA
  const ACTION_DATA_BLOB_HEADER: Byte := 0xBB
  const PIN_DATA_BLOB_HEADER: Byte := 0xCC

  /** Width in bits of `DATA_BLOB_DATA_TYPE` (`uint64_t`). */
  const DATA_BLOB_DATA_BITS: nat := 64

  /** `DATA_BLOB_DATA_SIZE`: `sizeof(uint64_t)` bytes. */
  const DATA_BLOB_DATA_SIZE: nat := DATA_BLOB_DATA_BITS / 8

  /** `COMM_STATUS` is a `uint8_t`. */
  type Status = Byte

  const COMM_STATUS_OK: Status := 0
  const COMM_STATUS_FAIL: Status := 1
  const STATUS_DATA_BLOB_FILLED: Status := 2

  /** `uint8_t` used as a counter. */
  type Uint8 = x: int | 0 <= x < 256

  /** A `float`, seen as its four bytes in memory order. */
  type FloatBytes = s: seq<Byte> | |s| == 4 witness [0, 0, 0, 0]

  lemma HeaderTagsDistinct()
    ensures SENSOR_DATA_BLOB_HEADER != ACTION_DATA_BLOB_HEADER
    ensures SENSOR_DATA_BLOB_HEADER != PIN_DATA_BLOB_HEADER
    ensures ACTION_DATA_BLOB_HEADER != PIN_DATA_BLOB_HEADER
  {
  }

  lemma StatusCodesDistinct()
    ensures COMM_STATUS_OK == 0 && COMM_STATUS_FAIL == 1 && STATUS_DATA_BLOB_FILLED == 2
    ensures COMM_STATUS_OK != COMM_STATUS_FAIL && COMM_STATUS_OK != STATUS_DATA_BLOB_FILLED
    ensures COMM_STATUS_FAIL != STATUS_DATA_BLOB_FILLED
  {
  }

  /** The payload capacity is the number of bytes in the 64-bit word. */
  lemma CapacityIsWordBytes()
    ensures DATA_BLOB_DATA_SIZE == 8
    ensures 8 * DATA_BLOB_DATA_SIZE == DATA_BLOB_DATA_BITS
  {
  }

  // ------------------------------------------------------------------
  // The payload word as eight byte slots
  // ------------------------------------------------------------------

  /** `x << (8 * k)`, one byte at a time. */
  function ShiftToSlot(x: bv64, k: nat): bv64
    requires k < 8
  {
    if k == 0 then x else ShiftToSlot(x, k - 1) << 8
  }

  /** `w >> (8 * k)`, one byte at a time. */
  function ShiftFromSlot(w: bv64, k: nat): bv64
    requires k <= 8
  {
    if k == 0 then w else ShiftFromSlot(w, k - 1) >> 8
  }

  /** The value of `ShiftToSlot` for each slot. */
  lemma {:induction false} ShiftToSlotValue(x: bv64, k: nat)
    requires k < 8
    ensures k == 0 ==> ShiftToSlot(x, k) == x
    ensures k == 1 ==> ShiftToSlot(x, k) == x << 8
    ensures k == 2 ==> ShiftToSlot(x, k) == x << 16
    ensures k == 3 ==> ShiftToSlot(x, k) == x << 24
    ensures k == 4 ==> ShiftToSlot(x, k) == x << 32
    ensures k == 5 ==> ShiftToSlot(x, k) == x << 40
    ensures k == 6 ==> ShiftToSlot(x, k) == x << 48
    ensures k == 7 ==> ShiftToSlot(x, k) == x << 56
  {
    if k > 0 {
      ShiftToSlotValue(x, k - 1);
    }
  }

  /** The value of `ShiftFromSlot` for each slot. */
  lemma {:induction false} ShiftFromSlotValue(w: bv64, k: nat)
    requires k <= 8
    ensures k == 0 ==> ShiftFromSlot(w, k) == w
    ensures k == 1 ==> ShiftFromSlot(w, k) == w >> 8
    ensures k == 2 ==> ShiftFromSlot(w, k) == w >> 16
    ensures k == 3 ==> ShiftFromSlot(w, k) == w >> 24
    ensures k == 4 ==> ShiftFromSlot(w, k) == w >> 32
    ensures k == 5 ==> ShiftFromSlot(w, k) == w >> 40
    ensures k == 6 ==> ShiftFromSlot(w, k) == w >> 48
    ensures k == 7 ==> ShiftFromSlot(w, k) == w >> 56
    ensures k == 8 ==> ShiftFromSlot(w, k) == 0
  {
    if k > 0 {
      ShiftFromSlotValue(w, k - 1);
    }
  }

  /** Byte slot `i` of the word: `(uint8_t)(w >> (8 * i))`. */
  function ByteAt(w: bv64, i: nat): Byte
    requires i < 8
  {
    (ShiftFromSlot(w, i) & 0xFF) as Byte
  }

  /** Every slot at or above `k` is zero. */
  predicate ZeroFrom(w: bv64, k: nat)
    requires k <= 8
  {
    ShiftFromSlot(w, k) == 0
  }

  /** The first `n` slots of the word, lowest first. */
  function Payload(w: bv64, n: nat): (r: seq<Byte>)
    requires n <= 8
    ensures |r| == n
  {
    if n == 0 then [] else Payload(w, n - 1) + [ByteAt(w, n - 1)]
  }

  /** Item i of the read-back is slot i of the word. */
  lemma {:induction false} PayloadAt(w: bv64, n: nat)
    requires n <= 8
    ensures forall i :: 0 <= i < n ==> Payload(w, n)[i] == ByteAt(w, i)
  {
    if n > 0 {
      PayloadAt(w, n - 1);
    }
  }

  /** Two words that agree on their first n slots read back the same. */
  lemma {:induction false} PayloadAgrees(a: bv64, b: bv64, n: nat)
    requires n <= 8
    requires forall j :: 0 <= j < n ==> ByteAt(a, j) == ByteAt(b, j)
    ensures Payload(a, n) == Payload(b, n)
  {
    if n > 0 {
      PayloadAgrees(a, b, n - 1);
    }
  }

  /** The word after `dataBlob |= (uint64_t)data << (8 * k)`. */
  function Insert(w: bv64, k: nat, d: Byte): bv64
    requires k < 8
  {
    w | ShiftToSlot(d as bv64, k)
  }

  lemma ByteAtOr(a: bv64, b: bv64, j: nat)
    requires j < 8
    ensures ByteAt(a | b, j) == ByteAt(a, j) | ByteAt(b, j)
  {
    ShiftFromSlotValue(a | b, j);
    ShiftFromSlotValue(a, j);
    ShiftFromSlotValue(b, j);
    if j == 0 {} else if j == 1 {} else if j == 2 {} else if j == 3 {}
    else if j == 4 {} else if j == 5 {} else if j == 6 {} else {}
  }

  lemma ShiftedByteBelow(d: Byte, k: nat, j: nat)
    requires j < k < 8
    ensures ByteAt(ShiftToSlot(d as bv64, k), j) == 0
  {
    ShiftToSlotValue(d as bv64, k);
    ShiftFromSlotValue(ShiftToSlot(d as bv64, k), j);
    if j == 0 {} else if j == 1 {} else if j == 2 {} else if j == 3 {}
    else if j == 4 {} else if j == 5 {} else {}
  }

  /** A byte moved up to slot `k` and back down is unchanged. */
  lemma ShiftToSlotAndBack(y: bv64, k: nat)
    requires k < 8 && y < 256
    ensures ShiftFromSlot(ShiftToSlot(y, k), k) == y
  {
    ShiftToSlotValue(y, k);
    ShiftFromSlotValue(ShiftToSlot(y, k), k);
  }

  lemma ShiftedByteAt(d: Byte, k: nat)
    requires k < 8
    ensures ByteAt(ShiftToSlot(d as bv64, k), k) == d
  {
    ShiftToSlotAndBack(d as bv64, k);
  }

  lemma InsertKeepsZeroAbove(w: bv64, k: nat, d: Byte)
    requires k < 8 && ZeroFrom(w, k)
    ensures ZeroFrom(Insert(w, k, d), k + 1)
  {
    ShiftToSlotValue(d as bv64, k);
    ShiftFromSlotValue(w, k);
    ShiftFromSlotValue(Insert(w, k, d), k + 1);
    if k == 0 {} else if k == 1 {} else if k == 2 {} else if k == 3 {}
    else if k == 4 {} else if k == 5 {} else if k == 6 {} else {}
  }

  lemma InsertSlotAt(w: bv64, k: nat, d: Byte)
    requires k < 8
    ensures ByteAt(Insert(w, k, d), k) == ByteAt(w, k) | d
  {
    ByteAtOr(w, ShiftToSlot(d as bv64, k), k);
    ShiftedByteAt(d, k);
  }

  lemma InsertSlotBelow(w: bv64, k: nat, d: Byte, j: nat)
    requires j < k < 8
    ensures ByteAt(Insert(w, k, d), j) == ByteAt(w, j)
  {
    ByteAtOr(w, ShiftToSlot(d as bv64, k), j);
    ShiftedByteBelow(d, k, j);
  }

  /** ORing into slot `k` ORs that slot and leaves every slot below it alone. */
  lemma InsertSlots(w: bv64, k: nat, d: Byte)
    requires k < 8
    ensures ByteAt(Insert(w, k, d), k) == ByteAt(w, k) | d
    ensures forall j :: 0 <= j < k ==> ByteAt(Insert(w, k, d), j) == ByteAt(w, j)
  {
    InsertSlotAt(w, k, d);
    forall j | 0 <= j < k
      ensures ByteAt(Insert(w, k, d), j) == ByteAt(w, j)
    {
      InsertSlotBelow(w, k, d, j);
    }
  }

  lemma ZeroFromByte(w: bv64, k: nat)
    requires k < 8 && ZeroFrom(w, k)
    ensures ByteAt(w, k) == 0
  {
    ShiftFromSlotValue(w, k);
    if k == 0 {} else if k == 1 {} else if k == 2 {} else if k == 3 {}
    else if k == 4 {} else if k == 5 {} else if k == 6 {} else {}
  }

  /**
   * Appending a byte to a word whose free slots are clear: the payload grows
   * by exactly that byte and the slots above it stay clear.
   */
  lemma InsertAppends(w: bv64, k: nat, d: Byte)
    requires k < 8 && ZeroFrom(w, k)
    ensures ZeroFrom(Insert(w, k, d), k + 1)
    ensures Payload(Insert(w, k, d), k + 1) == Payload(w, k) + [d]
  {
    InsertKeepsZeroAbove(w, k, d);
    InsertSlots(w, k, d);
    ZeroFromByte(w, k);
    PayloadAgrees(Insert(w, k, d), w, k);
  }

  /**
   * One append at slot `k`: the slot is ORed with `d`, the slots below are
   * kept, and on a word whose free slots are clear the read-back grows by `d`.
   */
  lemma MarshallByte(w: bv64, k: nat, d: Byte)
    requires k < 8
    ensures ByteAt(Insert(w, k, d), k) == ByteAt(w, k) | d
    ensures forall j :: 0 <= j < k ==> ByteAt(Insert(w, k, d), j) == ByteAt(w, j)
    ensures ZeroFrom(w, k) ==>
      && ZeroFrom(Insert(w, k, d), k + 1)
      && Payload(Insert(w, k, d), k + 1) == Payload(w, k) + [d]
  {
    InsertSlots(w, k, d);
    if ZeroFrom(w, k) {
      InsertAppends(w, k, d);
    }
  }

  /** The word a cleared blob holds after the bytes `bs` were appended to it one by one. */
  function Packed(bs: seq<Byte>): bv64
    requires |bs| <= 8
  {
    if |bs| == 0 then 0 else Insert(Packed(bs[..|bs| - 1]), |bs| - 1, bs[|bs| - 1])
  }

  /**
   * Byte-level round trip: reading back the slots of a cleared word after
   * appending `bs` gives `bs` in append order, and the free slots stay clear.
   */
  lemma {:induction false} PackedRoundTrip(bs: seq<Byte>)
    requires |bs| <= 8
    ensures ZeroFrom(Packed(bs), |bs|)
    ensures Payload(Packed(bs), |bs|) == bs
  {
    if |bs| > 0 {
      var init, last := bs[..|bs| - 1], bs[|bs| - 1];
      PackedRoundTrip(init);
      InsertAppends(Packed(init), |init|, last);
      assert Packed(bs) == Insert(Packed(init), |init|, last);
      assert init + [last] == bs;
    }
  }

  /** Free slots left when `used` slots are taken. */
  function Room(used: int): nat
  {
    if used >= DATA_BLOB_DATA_SIZE then 0 else DATA_BLOB_DATA_SIZE - used
  }

  /** The first `n` bytes of `s`, or all of `s` if it is shorter. */
  function Take(s: seq<Byte>, n: nat): (r: seq<Byte>)
    ensures |r| == if n < |s| then n else |s|
    ensures r <= s
  {
    if n < |s| then s[..n] else s
  }

  /** `(uint8_t)data` */
  function LowByte(v: bv16): Byte
  {
    (v & 0xFF) as Byte
  }

  /** `(uint8_t)(data >> 8)` */
  function HighByte(v: bv16): Byte
  {
    (v >> 8) as Byte
  }

  /** The two bytes of a 16-bit value, low byte first, recombine to the value. */
  lemma LittleEndianRoundTrip(v: bv16)
    ensures ((HighByte(v) as bv16) << 8) | (LowByte(v) as bv16) == v
  {
  }

  /** `struct dataBlob` */
  class DataBlob {
    /** The payload word `dataBlob`. */
    var dataBlob: bv64
    var header: Byte
    var dataUsed: Uint8

    /** Every blob that has been initialised: the cursor is within capacity and the free slots are clear. */
    ghost predicate Valid()
      reads this
    {
      dataUsed <= DATA_BLOB_DATA_SIZE && ZeroFrom(dataBlob, dataUsed)
    }

    /** The bytes appended so far, in append order. */
    ghost function Contents(): seq<Byte>
      reads this
      requires dataUsed <= DATA_BLOB_DATA_SIZE
    {
      Payload(dataBlob, dataUsed)
    }

    /** `NEW_DATA_BLOB()`: freshly allocated storage, contents indeterminate. */
    constructor Allocate()
    {
    }

    /** `initializeBlob` */
    method InitializeBlob(header: Byte)
      modifies this
      ensures this.dataBlob == 0 && this.dataUsed == 0 && this.header == header
      ensures Valid() && Contents() == []
    {
      this.dataBlob := 0;
      this.dataUsed := 0;
      this.header := header;
    }

    /**
     * `dataMarshall_uint8`: a full blob refuses and is left unchanged; otherwise
     * `data` is ORed into slot `dataUsed` and the cursor advances. On an
     * initialised blob that appends exactly `data` to the contents.
     */
    method DataMarshallUint8(data: Byte) returns (status: Status)
      modifies this
      ensures header == old(header)
      ensures status == if old(dataUsed) >= DATA_BLOB_DATA_SIZE then STATUS_DATA_BLOB_FILLED else COMM_STATUS_OK
      ensures status != COMM_STATUS_OK ==> dataBlob == old(dataBlob) && dataUsed == old(dataUsed)
      ensures status == COMM_STATUS_OK ==>
        && dataUsed == old(dataUsed) + 1
        && dataBlob == Insert(old(dataBlob), old(dataUsed), data)
        && ByteAt(dataBlob, old(dataUsed)) == ByteAt(old(dataBlob), old(dataUsed)) | data
        && forall j :: 0 <= j < old(dataUsed) ==> ByteAt(dataBlob, j) == ByteAt(old(dataBlob), j)
      ensures old(Valid()) ==>
        && Valid()
        && Contents() == if status == COMM_STATUS_OK then old(Contents()) + [data] else old(Contents())
    {
      // A full cursor refuses the byte
      if dataUsed >= DATA_BLOB_DATA_SIZE {
        return STATUS_DATA_BLOB_FILLED;
      }
      ghost var w, k := dataBlob, dataUsed as nat;
      MarshallByte(w, k, data);
      // Shift the byte to the slot the cursor names and OR it in
      var package := ShiftToSlot(data as bv64, dataUsed);
      dataBlob := dataBlob | package;
      assert dataBlob == Insert(w, k, data);
      dataUsed := dataUsed + 1;
      assert dataUsed == k + 1;
      return COMM_STATUS_OK;
    }

    /**
     * `dataMarshall_uint16`: low byte, then high byte, stopping at the first
     * refusal, so with one free slot only the low byte is appended.
     */
    method DataMarshallUint16(data: bv16) returns (status: Status)
      modifies this
      ensures header == old(header)
      ensures old(dataUsed) >= DATA_BLOB_DATA_SIZE ==>
        status == STATUS_DATA_BLOB_FILLED && dataBlob == old(dataBlob) && dataUsed == old(dataUsed)
      ensures old(dataUsed) == DATA_BLOB_DATA_SIZE - 1 ==>
        status == STATUS_DATA_BLOB_FILLED && dataUsed == DATA_BLOB_DATA_SIZE
      ensures old(dataUsed) < DATA_BLOB_DATA_SIZE - 1 ==>
        status == COMM_STATUS_OK && dataUsed == old(dataUsed) + 2
      ensures old(Valid()) ==>
        && Valid()
        && Contents() == old(Contents()) + Take([LowByte(data), HighByte(data)], Room(old(dataUsed)))
    {
      status := DataMarshallUint8(LowByte(data));
      // A refused low byte is returned and the high byte is not tried
      if status != COMM_STATUS_OK {
        return status;
      }
      status := DataMarshallUint8(HighByte(data));
    }

    /**
     * `dataMarshall_float`: the four bytes of the float in memory order,
     * stopping at the first refusal and returning it.
     */
    method DataMarshallFloat(value: FloatBytes) returns (status: Status)
      modifies this
      ensures header == old(header)
      ensures var n := if Room(old(dataUsed)) < 4 then Room(old(dataUsed)) else 4;
        && dataUsed == old(dataUsed) + n
        && status == (if n == 4 then COMM_STATUS_OK else STATUS_DATA_BLOB_FILLED)
        && (n == 0 ==> dataBlob == old(dataBlob))
        && (old(Valid()) ==> Valid() && Contents() == old(Contents()) + value[..n])
    {
      ghost var used0, valid0 := dataUsed, Valid();
      ghost var contents0 := if valid0 then Contents() else [];
      var i := 0;
      while i < 4
        invariant 0 <= i <= 4 && i <= Room(used0)
        invariant header == old(header)
        invariant dataUsed == used0 + i
        invariant i == 0 ==> dataBlob == old(dataBlob)
        invariant valid0 ==> Valid() && Contents() == contents0 + value[..i]
      {
        status := DataMarshallUint8(value[i]);
        if status != COMM_STATUS_OK {
          return status;
        }
        assert value[..i + 1] == value[..i] + [value[i]];
        i := i + 1;
      }
      return COMM_STATUS_OK;
    }

    /**
     * `sendMarshalledData`: the header, then the `dataUsed` used slots, low
     * slot first, is what reaches the serial sink.
     */
    method SendMarshalledData() returns (emitted: seq<Byte>, status: Status)
      requires dataUsed <= DATA_BLOB_DATA_SIZE
      ensures |emitted| == 1 + dataUsed
      ensures emitted == [header] + Contents()
      ensures status == COMM_STATUS_OK
    {
      emitted := [header];
      var i := 0;
      while i < dataUsed
        invariant 0 <= i <= dataUsed
        invariant emitted == [header] + Payload(dataBlob, i)
      {
        var payload := ByteAt(dataBlob, i);
        emitted := emitted + [payload];
        i := i + 1;
      }
      status := COMM_STATUS_OK;
    }
  }

  /** `newSensorDataBlob` */
  method NewSensorDataBlob() returns (blob: DataBlob)
    ensures fresh(blob) && blob.Valid()
    ensures blob.header == SENSOR_DATA_BLOB_HEADER && blob.Contents() == []
  {
    blob := new DataBlob.Allocate();
    blob.InitializeBlob(SENSOR_DATA_BLOB_HEADER);
  }

  /** `newActionDataBlob` */
  method NewActionDataBlob() returns (blob: DataBlob)
    ensures fresh(blob) && blob.Valid()
    ensures blob.header == ACTION_DATA_BLOB_HEADER && blob.Contents() == []
  {
    blob := new DataBlob.Allocate();
    blob.InitializeBlob(ACTION_DATA_BLOB_HEADER);
  }

  /** `newPinDataBlob` */
  method NewPinDataBlob() returns (blob: DataBlob)
    ensures fresh(blob) && blob.Valid()
    ensures blob.header == PIN_DATA_BLOB_HEADER && blob.Contents() == []
  {
    blob := new DataBlob.Allocate();
    blob.InitializeBlob(PIN_DATA_BLOB_HEADER);
  }

  // ------------------------------------------------------------------
  // Status results of the two send functions as written
  // ------------------------------------------------------------------

  /**
   * How control leaves the body of a function declared to return a
   * `COMM_STATUS`: through a `return` with a value, or by reaching the
   * closing brace, which is undefined behaviour in C++ for a function that
   * returns a value.
   */
  datatype Exit = Returned(status: Status) | FellOffEnd

  /** As written, `sendMarshalledData` has no `return`: whatever the cursor, the body ends after the write loop. */
  function SendMarshalledDataExitAsWritten(dataUsed: nat): Exit
  {
    FellOffEnd
  }

  /** As written, `sendPinData` has no `return`: the body ends after the send and the `free`. */
  function SendPinDataExitAsWritten(pin: Byte, data: FloatBytes): Exit
  {
    FellOffEnd
  }

  /** Neither send function as written delivers a status to its caller, on any input. */
  lemma MissingStatusReturns(dataUsed: nat, pin: Byte, data: FloatBytes)
    ensures !SendMarshalledDataExitAsWritten(dataUsed).Returned?
    ensures !SendPinDataExitAsWritten(pin, data).Returned?
  {
  }

  // ------------------------------------------------------------------
  // Frames
  // ------------------------------------------------------------------

  /**
   * `marshallLightData`: the four light flags packed as
   * `down | left<<1 | right<<2 | up<<3`, truncated to a byte. With 0/1 flags
   * the packed value is a nibble whose bit i is the i-th flag of down, left,
   * right, up.
   */
  function MarshallLightData(data: DetectionData): (r: Byte)
    ensures var l := data.lightDetected;
      LightFlagsAreBits(l) ==>
        && r < 16
        && (r >> 0) & 1 == l.down && (r >> 1) & 1 == l.left
        && (r >> 2) & 1 == l.right && (r >> 3) & 1 == l.up
  {
    var l := data.lightDetected;
    (l.down << 0) | (l.left << 1) | (l.right << 2) | (l.up << 3)
  }

  /** Light flags that are C booleans. */
  predicate LightFlagsAreBits(l: LightDetected)
  {
    && (l.down == 0 || l.down == 1) && (l.left == 0 || l.left == 1)
    && (l.right == 0 || l.right == 1) && (l.up == 0 || l.up == 1)
  }

  /** The bytes `printRobotData` emits. */
  function SensorFrame(data: DetectionData): seq<Byte>
  {
    [SENSOR_DATA_BLOB_HEADER, MarshallLightData(data), data.collisionDetected, data.capacitiveTouchDetected]
  }

  /** The bytes `printRobotActions` emits. */
  function ActionFrame(actions: ActionState): seq<Byte>
  {
    [ACTION_DATA_BLOB_HEADER, actions.Collision, actions.Drive, actions.Servo]
  }

  /** The bytes `sendPinData` emits. */
  function PinFrame(pin: Byte, data: FloatBytes): seq<Byte>
  {
    [PIN_DATA_BLOB_HEADER, pin] + data
  }

  /**
   * `sendPinData`: a pin frame carrying the pin number and the raw float. The
   * status is the first refusal among the appends and the send, else OK; all
   * five appends fit, so it is always OK.
   */
  method SendPinData(pin: Byte, data: FloatBytes) returns (emitted: seq<Byte>, status: Status)
    ensures |emitted| == 6
    ensures emitted == PinFrame(pin, data)
    ensures status == COMM_STATUS_OK
  {
    var dataBlob := NewPinDataBlob();
    var s1 := dataBlob.DataMarshallUint8(pin);
    var s2 := dataBlob.DataMarshallFloat(data);
    var s3;
    emitted, s3 := dataBlob.SendMarshalledData();
    assert data[..4] == data;
    status := if s1 != COMM_STATUS_OK then s1 else if s2 != COMM_STATUS_OK then s2 else s3;
  }

  /** `printRobotData`: a sensor frame of the light nibble, the collision flag and the touch flag. */
  method PrintRobotData(data: DetectionData) returns (emitted: seq<Byte>)
    ensures emitted == SensorFrame(data)
  {
    var dataBlob := NewSensorDataBlob();
    var _ := dataBlob.DataMarshallUint8(MarshallLightData(data));
    assert dataBlob.Valid() && dataBlob.Contents() == [MarshallLightData(data)];
    var _ := dataBlob.DataMarshallUint8(data.collisionDetected);
    assert dataBlob.Valid() && dataBlob.Contents() == [MarshallLightData(data), data.collisionDetected];
    var _ := dataBlob.DataMarshallUint8(data.capacitiveTouchDetected);
    var sent, _ := dataBlob.SendMarshalledData();
    emitted := sent;
  }

  /** `printRobotActions`: an action frame of the collision, drive and servo states. */
  method PrintRobotActions(actions: ActionState) returns (emitted: seq<Byte>)
    ensures emitted == ActionFrame(actions)
  {
    var actionBlob := NewActionDataBlob();
    var _ := actionBlob.DataMarshallUint8(actions.Collision);
    assert actionBlob.Valid() && actionBlob.Contents() == [actions.Collision];
    var _ := actionBlob.DataMarshallUint8(actions.Drive);
    assert actionBlob.Valid() && actionBlob.Contents() == [actions.Collision, actions.Drive];
    var _ := actionBlob.DataMarshallUint8(actions.Servo);
    var sent, _ := actionBlob.SendMarshalledData();
    emitted := sent;
  }

  /** `printRobotState`: the sensor frame, then the action frame. */
  method PrintRobotState(data: DetectionData, actions: ActionState) returns (emitted: seq<Byte>)
    ensures |emitted| == 8
    ensures emitted == SensorFrame(data) + ActionFrame(actions)
  {
    var sensor := PrintRobotData(data);
    var action := PrintRobotActions(actions);
    emitted := sensor + action;
  }

  /** The sensor frame for up and left lit and a collision: `[0xAA, 0b1010, 1, 0]`. */
  lemma SensorFrameExample()
    ensures SensorFrame(DetectionData(LightDetected(0, 1, 1, 0), 1, 0)) == [0xAA, 0x0A, 0x01, 0x00]
  {
  }
}
