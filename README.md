# Robot telemetry and collision cycle

This is a model of the core of a small two-part robot system:

- **Robot firmware (C++).** Each cycle runs detection, then planning, then action.
  - Detection samples the collision button.
  - Planning maps the detection flag to a collision phase.
  - Action drives the collision LED.
  - The firmware then reports its state over the serial line as tagged frames, built with a fixed-capacity "data blob" encoder.
- **Host decoder (Python).** It reads tag-prefixed packets from the serial byte stream, unpacks the bit-packed fields and orders them for display.

The model has three modules, one per part of the source:

- `RobotStates` (`robot_states.dfy`) holds:
  - the phase constants and state structs of `include/robot_states.h`;
  - the detection, planning and action stages of `src/robot_states.cpp`.

  The two process-wide snapshots `detectedData` and `actionStates` are fields of the class `Robot`, and so are the pin output levels (a `map<Pin, Level>`). The analog inputs are a function `Pin -> int` that each detection receives. Each stage is a method. Each method is proved against a specification function (`Detected`, `Planned`, `Driven`), and the lemmas are about those functions.
- `Communicate` (`communicate.dfy`) holds:
  - the frame tags, capacity and status codes of `include/communicate.h`;
  - the blob encoder of `src/communicate.cpp`.

  A `DataBlob` is a class with a `bv64` payload word, a tag byte and the `dataUsed` cursor, and the marshalling operations update it in place. Slot k of the word is bits 8k..8k+7. The ghost `Valid()` holds for every blob the encoder creates: the cursor is at most 8 and every slot from the cursor up is zero. The ghost `Contents()` is the bytes appended so far. A send returns the byte sequence the serial sink would receive, together with the status the function is declared to return (see Findings).
- `SerialComs` (`serial_coms.dfy`) holds the decoder of `src/serialComs.py`.
  - The stream is a `seq<bv8>`.
  - `read_packet` returns an optional packet together with the unread rest of the stream.
  - `readPayload` returns the display row it would hand to the plot buffers.

The host side and the robot side are reproduced as written, and the two disagree on tags:

- The robot tags its frames 0xAA, 0xBB and 0xCC.
- The host accepts only 0xF1 and 0xF2.

`SerialComs.HostRejectsRobotFrames` proves that the host consumes and rejects every robot frame's tag. The bit-level packing does invert: `SerialComs.SensorPayloadDisplays` and `SerialComs.ActionPayloadDisplays` show that a robot frame's payload, placed after a host tag, decodes to the robot's fields in display order.

Where the headers' own documentation and the code differ, the model follows the code:

- `include/robot_states.h:148-166` documents steering and servo state machines, but planning and action handle only the collision path: those machines and the speed machine are declared without bodies.
- `include/params.h:52-53` describes `BUTTON_VTHRESHOLD` (3.5) as a voltage, but `buttonPushed` compares it with the raw `analogRead` count, so a button counts as pushed at a count of 4 or more.

## Model

| member | source | states |
|---|---|---|
| RobotStates.DriveFlagLayout | include/robot_states.h:37-41 | STOP is 0; STRAIGHT is LEFT and RIGHT together; LEFT and RIGHT share no bit |
| RobotStates.ServoFlagLayout | include/robot_states.h:43-47 | STOP is 0; UP_DOWN is UP and DOWN together; UP and DOWN share no bit |
| RobotStates.PhaseValues | include/robot_states.h:29-35 | collision ACTIVE/INACTIVE and detection TRUE/FALSE are 1/0 |
| RobotStates.DefaultStructs | include/robot_states.h:75-90 | the default detection struct has every flag FALSE; the default action struct is INACTIVE, DRIVE_STOP, SERVO_MOVE_STOP |
| RobotStates.ButtonPushed | src/robot_states.cpp:27-32 | the raw count promoted to real is at least 3.5 exactly when the count is at least 4, equivalently 2*count >= 7 |
| RobotStates.CollisionDetected | src/robot_states.cpp:34-40 | a collision is reported exactly when the collision button's count is at least 4 |
| RobotStates.Detected | src/robot_states.cpp:34-49 | the collision flag is TRUE iff the collision button is pushed and FALSE iff it is not; the light and touch flags are kept |
| RobotStates.DetectionFollowsReading | src/robot_states.cpp:34-49 | whatever the previous snapshot held, the new collision flag is 1 when the collision pin reads at least 4 and 0 otherwise |
| RobotStates.Planned | src/robot_states.cpp:53-65 | FALSE gives INACTIVE and TRUE gives ACTIVE; any other flag value leaves the action state as it was; Drive and Servo are never touched |
| RobotStates.PlanningIdempotent | src/robot_states.cpp:53-69 | planning twice on the same snapshot equals planning once |
| RobotStates.DetectThenPlan | src/robot_states.cpp:42-69 | after detection then planning, the collision phase equals the detected flag, is 0 or 1, and is ACTIVE iff the collision pin reads at least 4; Drive and Servo are kept |
| RobotStates.Driven | src/robot_states.cpp:77-95 | ACTIVE sets the collision LED HIGH and INACTIVE sets it LOW; other values write nothing; no other pin changes |
| RobotStates.CycleDrivesCollisionLed | src/robot_states.cpp:42-95 | after a full cycle the collision LED is HIGH iff the collision pin reads at least 4, it has been written, and no other pin has changed |
| RobotStates.Robot.constructor | src/robot_states.cpp:16-18 | the zero-initialised globals equal the default structs; no pin has been written |
| RobotStates.Robot.RobotDetection | src/robot_states.cpp:42-49 | the detection snapshot becomes `Detected` of the old snapshot and the reading |
| RobotStates.Robot.FsmCollisionDetection | src/robot_states.cpp:53-65 | the action snapshot becomes `Planned` of the detection snapshot and the old action snapshot |
| RobotStates.Robot.RobotPlanning | src/robot_states.cpp:67-69 | the same as `fsmCollisionDetection` |
| RobotStates.Robot.ActivateLED | src/robot_states.cpp:88-90 | the given pin is now HIGH and every other pin is as before |
| RobotStates.Robot.DisableLED | src/robot_states.cpp:92-95 | the given pin is now LOW and every other pin is as before |
| RobotStates.Robot.HandleCollisionAction | src/robot_states.cpp:77-86 | the pins become `Driven` of the action snapshot and the old pins |
| RobotStates.Robot.RobotAction | src/robot_states.cpp:73-75 | the same as `handleCollisionAction` |
| Communicate.HeaderTagsDistinct | include/communicate.h:20-22 | the three frame tags are pairwise distinct |
| Communicate.StatusCodesDistinct | include/communicate.h:27-30 | the status codes are 0, 1, 2 and pairwise distinct |
| Communicate.CapacityIsWordBytes | include/communicate.h:24-25 | the payload capacity is 8 bytes, the size of the 64-bit word |
| Communicate.ByteAt | src/communicate.cpp:107 | slot i of the word: the word shifted right by 8i and truncated to a byte (definition) |
| Communicate.Payload | src/communicate.cpp:106-108 | the read-back of the first n slots has length n |
| Communicate.PayloadAt | src/communicate.cpp:106-108 | item i of the read-back is slot i of the word (bits 8i..8i+7) |
| Communicate.PayloadAgrees | src/communicate.cpp:106-108 | two words that agree on their first n slots read back the same n bytes |
| Communicate.Insert | src/communicate.cpp:66-69 | the word with the byte shifted to slot k ORed in (definition; its slot-by-slot effect is `Communicate.InsertSlots`) |
| Communicate.InsertSlots | src/communicate.cpp:66-69 | after ORing a byte into slot k, slot k is the old slot k OR the byte, lower slots are kept, and slots above k stay zero when they were |
| Communicate.MarshallByte | src/communicate.cpp:66-72 | one append at slot k < 8 ORs the byte into slot k, keeps the lower slots, and on a word clear from k appends exactly that byte to the read-back and leaves the word clear from k+1 |
| Communicate.InsertAppends | src/communicate.cpp:66-69 | ORing a byte into the first free slot of a word whose free slots are zero appends exactly that byte to the read-back and keeps the slots above it zero |
| Communicate.PackedRoundTrip | src/communicate.cpp:59-75 | appending bytes one by one to a cleared word and reading back the used slots gives the same bytes in append order |
| Communicate.Take | src/communicate.cpp:77-101 | the prefix that fits has length min(n, length of s) and is a prefix of s |
| Communicate.LowByte | src/communicate.cpp:80 | the `(uint8_t)` cast of a 16-bit value: its low eight bits (definition) |
| Communicate.HighByte | src/communicate.cpp:85 | `(uint8_t)(data >> 8)`: the high eight bits (definition) |
| Communicate.LittleEndianRoundTrip | src/communicate.cpp:80-85 | the low byte and the high byte `dataMarshall_uint16` appends recombine to the 16-bit value |
| Communicate.DataBlob.Allocate | include/communicate.h:32 | `NEW_DATA_BLOB()`: a new blob whose fields are not yet set (no contract; `InitializeBlob` sets them) |
| Communicate.DataBlob.InitializeBlob | src/communicate.cpp:29-33 | the word and cursor are 0 and the header is the given tag; the blob is valid with empty contents |
| Communicate.DataBlob.DataMarshallUint8 | src/communicate.cpp:59-75 | a full blob returns FILLED and is unchanged; otherwise the byte is ORed into slot `dataUsed`, lower slots are kept, the cursor advances by one and OK is returned; a valid blob stays valid and its contents grow by exactly that byte |
| Communicate.DataBlob.DataMarshallUint16 | src/communicate.cpp:77-88 | with no room: FILLED and unchanged; with one slot: only the low byte is appended and FILLED is returned; otherwise low then high byte and OK |
| Communicate.DataBlob.DataMarshallFloat | src/communicate.cpp:90-101 | appends the first min(room, 4) representation bytes in memory order; OK exactly when all four fit, else the FILLED of the first refusal |
| Communicate.DataBlob.SendMarshalledData | src/communicate.cpp:103-110 | emits exactly 1 + dataUsed bytes: the header, then the appended bytes in append order; with the missing `return` supplied, the status is OK |
| Communicate.NewSensorDataBlob | src/communicate.cpp:35-41 | a fresh valid empty blob tagged 0xAA |
| Communicate.NewActionDataBlob | src/communicate.cpp:43-49 | a fresh valid empty blob tagged 0xBB |
| Communicate.NewPinDataBlob | src/communicate.cpp:51-57 | a fresh valid empty blob tagged 0xCC |
| Communicate.MarshallLightData | src/communicate.cpp:113-122 | with 0/1 flags the packed light byte is below 16 and its bits 0..3 are down, left, right, up |
| Communicate.SendPinData | src/communicate.cpp:124-134 | emits the six bytes 0xCC, pin, then the four float bytes; with the missing `return` supplied, the status (the first refusal of the two appends and the send, else OK) is OK, so both appends succeed |
| Communicate.PrintRobotData | src/communicate.cpp:136-146 | emits 0xAA, the light nibble, the collision flag, the touch flag |
| Communicate.PrintRobotActions | src/communicate.cpp:149-159 | emits 0xBB, Collision, Drive, Servo |
| Communicate.SendMarshalledDataExitAsWritten | src/communicate.cpp:103-110 | the body of `sendMarshalledData` ends at its closing brace, not at a `return` (definition) |
| Communicate.SendPinDataExitAsWritten | src/communicate.cpp:124-134 | the body of `sendPinData` ends at its closing brace, not at a `return` (definition) |
| Communicate.MissingStatusReturns | src/communicate.cpp:103-110 | as written, neither `sendMarshalledData` nor `sendPinData` (lines 124-134) leaves through a `return` with a status, on any input |
| Communicate.PrintRobotState | src/communicate.cpp:161-164 | emits the sensor frame followed by the action frame, eight bytes |
| Communicate.SensorFrame | src/communicate.cpp:136-146 | the four bytes `printRobotData` writes: 0xAA, the light nibble, the collision flag, the touch flag (definition) |
| Communicate.ActionFrame | src/communicate.cpp:149-159 | the four bytes `printRobotActions` writes: 0xBB, Collision, Drive, Servo (definition) |
| Communicate.PinFrame | src/communicate.cpp:124-134 | the six bytes `sendPinData` writes: 0xCC, the pin, the four float bytes (definition) |
| Communicate.SensorFrameExample | src/communicate.cpp:113-146 | left and up lit with a collision is sent as 0xAA, 0x0A, 0x01, 0x00 |
| SerialComs.HostHeaders | src/serialComs.py:59-65 | the host accepts exactly the tags 0xF1 and 0xF2, each with a three-byte payload |
| SerialComs.ReadPacket | src/serialComs.py:89-108 | no byte gives no packet and reads nothing; an unknown tag is consumed and rejected; a known tag with a short payload is rejected after reading what is there; a packet comes back exactly when a known tag is followed by its full payload, and then tag, payload and rest make up the stream |
| SerialComs.ReadPacketFraming | src/serialComs.py:89-108 | a known tag followed by a payload of its length is read back intact and reading stops right after it |
| SerialComs.UnpackLightData | src/serialComs.py:110-111 | four items, each 0 or 1; repacked as down, left, right, up with the robot's packing they give back the low nibble of the byte |
| SerialComs.UnpackInvertsMarshall | src/serialComs.py:110-111 | unpacking the robot's packed light byte gives down, left, right, up for 0/1 flags |
| SerialComs.ParseDriveData | src/serialComs.py:192-194 | a two-item list: whether the robot's DRIVE_LEFT bit is set, then whether its DRIVE_RIGHT bit is set |
| SerialComs.DriveStatesMatchRobot | src/serialComs.py:45-48 | the host's left/right masks are the robot's DRIVE_LEFT/DRIVE_RIGHT, and each drive phase decodes to its [left, right] pair |
| SerialComs.ParseServoData | src/serialComs.py:196-198 | a two-item list: whether the robot's SERVO_MOVE_DOWN bit is set, then whether its SERVO_MOVE_UP bit is set |
| SerialComs.ServoStatesMatchRobot | src/serialComs.py:50-53 | the host's down/up masks are the robot's SERVO_MOVE_DOWN/SERVO_MOVE_UP, and each servo phase decodes to its [down, up] pair |
| SerialComs.ReadPayload | src/serialComs.py:200-221 | a row is produced exactly when a packet is read, the rest of the stream is what reading the packet left, and the row has one item per display label |
| SerialComs.SensorRowLayout | src/serialComs.py:208-211 | a sensor packet becomes light bits 0 and 1, the collision byte, light bits 2 and 3, the touch byte |
| SerialComs.ActionRowLayout | src/serialComs.py:215-221 | an action packet becomes servo down, drive left, collision, drive right, servo up |
| SerialComs.HostRejectsRobotFrames | src/serialComs.py:89-108 | a sensor, action or pin frame as the robot emits it is rejected, with only its tag consumed |
| SerialComs.SensorPayloadDisplays | src/serialComs.py:200-211 | for 0/1 light flags, a robot sensor payload under the host's data tag displays down, left, collision, right, up, touch |
| SerialComs.ActionPayloadDisplays | src/serialComs.py:200-221 | a robot action payload under the host's action tag displays the servo and drive bits and the collision phase in label order |

## Left out

- Serial output (`Serial.write` and the `print`/`println`/`debug` wrappers): a send returns the bytes it would write instead.
- `digitalWrite` and `analogRead`: pin levels are the `pins` map and readings are a function argument. Pins are a `Pin` datatype (analog or digital number) without the board's numbering of `A4`.
- `readPinVoltage`: a floating-point stub that nothing in the core calls.
- `malloc`/`free` of blobs: each frame is a freshly allocated object, and none is freed.
- `Communicate.DataBlob.SendMarshalledData` and `Communicate.SendPinData` return a status although the source functions have no `return` (see Findings). Flowing off the end of a value-returning function is undefined behaviour in C++ ([stmt.return]), so there is no as-written value to model.
- The header prototypes that disagree with the definitions in `src/communicate.cpp`: the definitions are modelled.
- The steering, servo and speed state machines, `driveControl` and `toggleLEDs`: they are declared in `include/robot_states.h` without bodies.
- `Communicate.DataBlob.SendMarshalledData`: requires `dataUsed <= 8`. In C++, a larger cursor shifts the word by 64 bits or more, which is undefined behaviour. Every blob the encoder creates meets this bound.
- `Communicate.ShiftToSlot` and `Communicate.ShiftFromSlot`: they shift one byte at a time, k times, instead of by `8 * k` in one step. Their per-slot values are proved, but the single-shift form is not stated.
- The host's plotting, its main loop and serial-port handling, and the deque buffers of `update_data`/`update_actions`. `SerialComs.ReadPayload` returns the row it would hand to those buffers, not Python's `None`.
- `read_packet` reads the global port rather than its parameter: the model reads the stream it is given. The port's read timeout is represented by the stream ending.
- Python booleans in an action row are their integer values.
- The bytes of a `float` (`(uint8_t*)&value` in `dataMarshall_float`, `src/communicate.cpp:91`): the model takes the four bytes in memory order as a `FloatBytes` value and does not model the IEEE 754 encoding.
- The `print(...)` calls in `readPayload` (`src/serialComs.py:213` and `:223`): console output only.

## Findings

| source | as written | input that shows it | evidently intended | confidence | as-written member | corrected member |
|---|---|---|---|---|---|---|
| src/communicate.cpp:103-110 | `sendMarshalledData` is declared to return `COMM_STATUS` but has no `return`; control flows off the closing brace after the write loop, which is undefined behaviour in C++ | any call, e.g. on a fresh sensor blob | return `COMM_STATUS_OK` after the bytes are written | not executed | Communicate.MissingStatusReturns | Communicate.DataBlob.SendMarshalledData |
| src/communicate.cpp:124-134 | `sendPinData` is declared to return `COMM_STATUS` but has no `return`; the statuses of its two appends are discarded and control flows off the closing brace | any call, e.g. `sendPinData(3, 1.0f)` | return the first failing status of the two appends and the send, else `COMM_STATUS_OK` | not executed | Communicate.MissingStatusReturns | Communicate.SendPinData |
