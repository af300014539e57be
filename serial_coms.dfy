/**
 * The host-side decoder of src/serialComs.py: reading one tag-prefixed packet
 * from the serial byte stream, unpacking the bit-packed fields, and ordering
 * them for display.
 *
 * The stream is the sequence of bytes that arrives before the port's read
 * timeout. Python byte values and list items are integers; a Python `bool`
 * in a displayed list is its integer value (`True == 1`).
 */
module SerialComs {
  import opened RobotStates
  import opened Communicate

  datatype Option<T> = None | Some(value: T)

  const DATA_PACKET_HEADER: int := 0xF1
  const ACTION_PACKET_HEADER: int := 0xF2

  /** `HEADERS`: accepted tag (the integer value of the tag byte) -> payload length. */
  const HEADERS: map<int, nat> := map[DATA_PACKET_HEADER := 3, ACTION_PACKET_HEADER := 3]

  /** The only tags the host accepts are 0xF1 and 0xF2, each with three payload bytes. */
  lemma HostHeaders()
    ensures HEADERS.Keys == {0xF1, 0xF2}
    ensures forall h :: h in HEADERS ==> HEADERS[h] == 3
  {
  }

  /** `DRIVE_STATES` */
  const DRIVE_STATES: map<string, Byte> := map["left" := 0x01, "right" := 0x10]

  /** `SERVO_STATES` */
  const SERVO_STATES: map<string, Byte> := map["down" := 0x10, "up" := 0x01]

  /** Display labels of a sensor row, in row order. */
  const SENSORS: seq<string> :=
    ["Light Down", "Light Left", "Collision", "Light Right", "Light Up", "Capacitive"]

  /** Display labels of an action row, in row order. */
  const ACTIONS: seq<string> :=
    ["Servo Down", "Drive Left", "Collision!", "Drive Right", "Servo Up"]

  /** A packet as `read_packet` returns it: the tag and its payload. */
  datatype Packet = Packet(header: Byte, payload: seq<Byte>)

  /** What `readPayload` hands to the plot buffers. */
  datatype Row = SensorRow(data: seq<int>) | ActionRow(actions: seq<int>)

  /**
   * `read_packet`: read one tag byte, then as many payload bytes as the tag
   * calls for (fewer if the stream runs out). Returns the packet and the
   * unread rest of the stream.
   */
  function ReadPacket(stream: seq<Byte>): (r: (Option<Packet>, seq<Byte>))
    // No tag byte available: nothing read
    ensures |stream| == 0 ==> r == (None, stream)
    // An unknown tag is consumed and rejected
    ensures |stream| > 0 && stream[0] as int !in HEADERS ==> r == (None, stream[1..])
    // A known tag with a short payload consumes all that is left and is rejected
    ensures |stream| > 0 && stream[0] as int in HEADERS && |stream| < 1 + HEADERS[stream[0] as int] ==> r == (None, [])
    // A packet is returned exactly when a known tag is followed by its full payload
    ensures r.0.Some? <==> |stream| > 0 && stream[0] as int in HEADERS && |stream| >= 1 + HEADERS[stream[0] as int]
    ensures r.0.Some? ==>
      && r.0.value.header == stream[0]
      && r.0.value.header as int in HEADERS
      && |r.0.value.payload| == HEADERS[r.0.value.header as int]
      && stream == [r.0.value.header] + r.0.value.payload + r.1
    // What is left is always a suffix of the stream
    ensures |r.1| <= |stream| && r.1 == stream[|stream| - |r.1|..]
  {
    HostHeaders();
    if |stream| == 0 then
      (None, stream)
    else
      var header := stream[0];
      var rest := stream[1..];
      if header as int !in HEADERS then
        (None, rest)
      else
        var packetSize := HEADERS[header as int];
        var n := if packetSize <= |rest| then packetSize else |rest|;
        var payload := rest[..n];
        // An empty or short payload is rejected
        if |payload| == 0 || |payload| != packetSize then
          (None, rest[n..])
        else
          (Some(Packet(header, payload)), rest[n..])
  }

  /** A host packet framed as tag followed by payload is read back intact, and reading stops right after it. */
  lemma ReadPacketFraming(header: Byte, payload: seq<Byte>, more: seq<Byte>)
    requires header as int in HEADERS && |payload| == HEADERS[header as int]
    ensures ReadPacket([header] + payload + more) == (Some(Packet(header, payload)), more)
  {
    var s := [header] + payload + more;
    assert s[1..][..|payload|] == payload;
    assert s[1..][|payload|..] == more;
  }

  /** `(byte >> i) & 1` */
  function Bit(b: Byte, i: nat): int
    requires i < 8
  {
    ((b >> i) & 1) as int
  }

  /** `unpack_light_data`: item i is bit i of the byte. */
  function UnpackLightData(b: Byte): (r: seq<int>)
    ensures |r| == 4
    ensures forall i :: 0 <= i < 4 ==> r[i] == 0 || r[i] == 1
    // Repacking the four items as down, left, right, up gives back the low nibble
    ensures MarshallLightData(DetectionData(LightDetected(r[2] as Byte, r[1] as Byte, r[3] as Byte, r[0] as Byte), 0, 0)) == b & 0x0F
  {
    seq(4, i requires 0 <= i < 4 => Bit(b, i))
  }

  /** `True` or `False` as the integer a Python list of numbers sees. */
  function BoolToInt(b: bool): (r: int)
  {
    if b then 1 else 0
  }

  /** `parseDriveData`: [left, right]. */
  function ParseDriveData(driveData: Byte): (r: seq<bool>)
    ensures |r| == 2
    ensures r == [driveData & DRIVE_LEFT != 0, driveData & DRIVE_RIGHT != 0]
  {
    [driveData & DRIVE_STATES["left"] != 0, driveData & DRIVE_STATES["right"] != 0]
  }

  /** `parseServoData`: [down, up]. */
  function ParseServoData(servoData: Byte): (r: seq<bool>)
    ensures |r| == 2
    ensures r == [servoData & SERVO_MOVE_DOWN != 0, servoData & SERVO_MOVE_UP != 0]
  {
    [servoData & SERVO_STATES["down"] != 0, servoData & SERVO_STATES["up"] != 0]
  }

  /**
   * The decoding part of `readPayload`: read a packet and order its fields as
   * the display rows list them.
   */
  function ReadPayload(stream: seq<Byte>): (r: (Option<Row>, seq<Byte>))
    ensures r.1 == ReadPacket(stream).1
    ensures r.0.Some? <==> ReadPacket(stream).0.Some?
    ensures r.0.Some? && r.0.value.SensorRow? ==> |r.0.value.data| == |SENSORS|
    ensures r.0.Some? && r.0.value.ActionRow? ==> |r.0.value.actions| == |ACTIONS|
  {
    HostHeaders();
    var (reading, rest) := ReadPacket(stream);
    if reading.None? then
      (None, rest)
    else
      var header := reading.value.header;
      var payload := reading.value.payload;
      if header as int == DATA_PACKET_HEADER then
        var lightData := UnpackLightData(payload[0]);
        (Some(SensorRow(lightData[0..2] + [payload[1] as int] + lightData[2..4] + [payload[2] as int])), rest)
      else
        // The only other accepted tag is ACTION_PACKET_HEADER
        var collision := payload[0] as int;
        var drive := ParseDriveData(payload[1]);
        var servo := ParseServoData(payload[2]);
        (Some(ActionRow([BoolToInt(servo[0]), BoolToInt(drive[0]), collision, BoolToInt(drive[1]), BoolToInt(servo[1])])), rest)
  }

  /** The host reads the drive flags with the robot's DRIVE_LEFT and DRIVE_RIGHT bits. */
  lemma DriveStatesMatchRobot()
    ensures DRIVE_STATES["left"] == DRIVE_LEFT && DRIVE_STATES["right"] == DRIVE_RIGHT
    ensures ParseDriveData(DRIVE_STOP) == [false, false]
    ensures ParseDriveData(DRIVE_LEFT) == [true, false]
    ensures ParseDriveData(DRIVE_RIGHT) == [false, true]
    ensures ParseDriveData(DRIVE_STRAIGHT) == [true, true]
  {
  }

  /** The host reads the servo flags with the robot's SERVO_MOVE_DOWN and SERVO_MOVE_UP bits. */
  lemma ServoStatesMatchRobot()
    ensures SERVO_STATES["down"] == SERVO_MOVE_DOWN && SERVO_STATES["up"] == SERVO_MOVE_UP
    ensures ParseServoData(SERVO_MOVE_STOP) == [false, false]
    ensures ParseServoData(SERVO_MOVE_DOWN) == [true, false]
    ensures ParseServoData(SERVO_MOVE_UP) == [false, true]
    ensures ParseServoData(SERVO_MOVE_UP_DOWN) == [true, true]
  {
  }

  /** Unpacking inverts the robot's light-nibble packing for 0/1 flags: [down, left, right, up]. */
  lemma UnpackInvertsMarshall(data: DetectionData)
    requires LightFlagsAreBits(data.lightDetected)
    ensures var l := data.lightDetected;
      UnpackLightData(MarshallLightData(data)) == [l.down as int, l.left as int, l.right as int, l.up as int]
  {
  }

  /** A sensor packet becomes [bit 0, bit 1, collision, bit 2, bit 3, capacitive]. */
  lemma SensorRowLayout(p: seq<Byte>, more: seq<Byte>)
    requires |p| == 3
    ensures var l := UnpackLightData(p[0]);
      ReadPayload([DATA_PACKET_HEADER as Byte] + p + more) ==
        (Some(SensorRow([l[0], l[1], p[1] as int, l[2], l[3], p[2] as int])), more)
  {
    ReadPacketFraming(DATA_PACKET_HEADER as Byte, p, more);
    var l := UnpackLightData(p[0]);
    assert l[0..2] + [p[1] as int] + l[2..4] + [p[2] as int] == [l[0], l[1], p[1] as int, l[2], l[3], p[2] as int];
  }

  /** An action packet becomes [servo down, drive left, collision, drive right, servo up]. */
  lemma ActionRowLayout(p: seq<Byte>, more: seq<Byte>)
    requires |p| == 3
    ensures ReadPayload([ACTION_PACKET_HEADER as Byte] + p + more) ==
      (Some(ActionRow([
        BoolToInt(p[2] & SERVO_MOVE_DOWN != 0), BoolToInt(p[1] & DRIVE_LEFT != 0),
        p[0] as int,
        BoolToInt(p[1] & DRIVE_RIGHT != 0), BoolToInt(p[2] & SERVO_MOVE_UP != 0)])), more)
  {
    ReadPacketFraming(ACTION_PACKET_HEADER as Byte, p, more);
  }

  // ------------------------------------------------------------------
  // Robot frames as the host sees them
  // ------------------------------------------------------------------

  /**
   * The robot tags its frames 0xAA, 0xBB and 0xCC, none of which the host
   * accepts: each frame's tag is consumed and rejected.
   */
  lemma HostRejectsRobotFrames(data: DetectionData, actions: ActionState, pin: Byte, v: FloatBytes, more: seq<Byte>)
    ensures ReadPacket(SensorFrame(data) + more) == (None, (SensorFrame(data) + more)[1..])
    ensures ReadPacket(ActionFrame(actions) + more) == (None, (ActionFrame(actions) + more)[1..])
    ensures ReadPacket(PinFrame(pin, v) + more) == (None, (PinFrame(pin, v) + more)[1..])
  {
  }

  /**
   * Bit-level round trip: the payload of a sensor frame, under the host's
   * data tag, displays the detection flags in label order.
   */
  lemma SensorPayloadDisplays(data: DetectionData, more: seq<Byte>)
    requires LightFlagsAreBits(data.lightDetected)
    ensures var l := data.lightDetected;
      ReadPayload([DATA_PACKET_HEADER as Byte] + SensorFrame(data)[1..] + more) ==
        (Some(SensorRow([l.down as int, l.left as int, data.collisionDetected as int,
                         l.right as int, l.up as int, data.capacitiveTouchDetected as int])), more)
  {
    UnpackInvertsMarshall(data);
    SensorRowLayout(SensorFrame(data)[1..], more);
  }

  /**
   * Bit-level round trip: the payload of an action frame, under the host's
   * action tag, displays the servo and drive bits and the collision phase.
   */
  lemma ActionPayloadDisplays(actions: ActionState, more: seq<Byte>)
    ensures ReadPayload([ACTION_PACKET_HEADER as Byte] + ActionFrame(actions)[1..] + more) ==
      (Some(ActionRow([
        BoolToInt(actions.Servo & SERVO_MOVE_DOWN != 0), BoolToInt(actions.Drive & DRIVE_LEFT != 0),
        actions.Collision as int,
        BoolToInt(actions.Drive & DRIVE_RIGHT != 0), BoolToInt(actions.Servo & SERVO_MOVE_UP != 0)])), more)
  {
    ActionRowLayout(ActionFrame(actions)[1..], more);
  }
}
