/**
 * The robot's detection -> planning -> action cycle: the phase constants and
 * state structs of include/robot_states.h, and the collision path that
 * src/robot_states.cpp implements over the two process-wide snapshots
 * `detectedData` and `actionStates`.
 *
 * Hardware access is explicit: `analogRead` is a total function from pin to
 * raw reading, and `digitalWrite` updates a map from pin to output level.
 */
module RobotStates {

  /** An unsigned 8-bit value (`uint8_t`). */
  type Byte = bv8

  // Detection phases
  const DETECTION_FALSE: Byte := 0
  const DETECTION_TRUE: Byte := 1

  // Collision phases
  const COLLISION_ACTIVE: Byte := 1
  const COLLISION_INACTIVE: Byte := 0

  // Driving phases: one bit per direction, in separate nibbles
  const DRIVE_STOP: Byte := 0x00
  const DRIVE_LEFT: Byte := 0x01
  const DRIVE_RIGHT: Byte := 0x10
  const DRIVE_STRAIGHT: Byte := 0x11

  // Servo movement phases
  const SERVO_MOVE_STOP: Byte := 0x00
  const SERVO_MOVE_UP: Byte := 0x01
  const SERVO_MOVE_DOWN: Byte := 0x10
  const SERVO_MOVE_UP_DOWN: Byte := SERVO_MOVE_UP | SERVO_MOVE_DOWN

  /** The nested `lightDetected` struct: one detection flag per direction. */
  datatype LightDetected = LightDetected(right: Byte, left: Byte, up: Byte, down: Byte)

  /** `detectionDataStruct`: the latest sampled detection flags. */
  datatype DetectionData = DetectionData(
    lightDetected: LightDetected,
    collisionDetected: Byte,
    capacitiveTouchDetected: Byte)

  /** `actionStateStruct`: the latest planned actuator intent. */
  datatype ActionState = ActionState(Collision: Byte, Drive: Byte, Servo: Byte)

  /** `NEW_DETECTION_DATA_STRUCT` */
  const NEW_DETECTION_DATA_STRUCT: DetectionData :=
    DetectionData(
      LightDetected(DETECTION_FALSE, DETECTION_FALSE, DETECTION_FALSE, DETECTION_FALSE),
      DETECTION_FALSE,
      DETECTION_FALSE)

  /** `NEW_ACTION_STATE_STRUCT` */
  const NEW_ACTION_STATE_STRUCT: ActionState :=
    ActionState(COLLISION_INACTIVE, DRIVE_STOP, SERVO_MOVE_STOP)

  /** The drive phases are bit flags: STRAIGHT is LEFT and RIGHT together, and the two do not overlap. */
  lemma DriveFlagLayout()
    ensures DRIVE_STOP == 0
    ensures DRIVE_STRAIGHT == DRIVE_LEFT | DRIVE_RIGHT
    ensures DRIVE_LEFT & DRIVE_RIGHT == 0
  {
  }

  /** The servo phases are bit flags: UP_DOWN is UP and DOWN together, and STOP has no bit set. */
  lemma ServoFlagLayout()
    ensures SERVO_MOVE_STOP == 0
    ensures SERVO_MOVE_UP_DOWN == SERVO_MOVE_UP | SERVO_MOVE_DOWN
    ensures SERVO_MOVE_UP & SERVO_MOVE_DOWN == 0
  {
  }

  /** Collision and detection phases are the C booleans 1 and 0. */
  lemma PhaseValues()
    ensures COLLISION_ACTIVE == 1 && COLLISION_INACTIVE == 0
    ensures DETECTION_TRUE == 1 && DETECTION_FALSE == 0
  {
  }

  /** The default initialisers clear every flag and select no action. */
  lemma DefaultStructs()
    ensures var l := NEW_DETECTION_DATA_STRUCT.lightDetected;
      l.right == l.left == l.up == l.down == DETECTION_FALSE
    ensures NEW_DETECTION_DATA_STRUCT.collisionDetected == DETECTION_FALSE
    ensures NEW_DETECTION_DATA_STRUCT.capacitiveTouchDetected == DETECTION_FALSE
    ensures NEW_ACTION_STATE_STRUCT.Collision == COLLISION_INACTIVE
    ensures NEW_ACTION_STATE_STRUCT.Drive == DRIVE_STOP
    ensures NEW_ACTION_STATE_STRUCT.Servo == SERVO_MOVE_STOP
  {
  }

  // ------------------------------------------------------------------
  // Board
  // ------------------------------------------------------------------

  /** A board pin: the analog inputs `A0`, `A1`, ... and the numbered digital pins. */
  datatype Pin = Analog(a: nat) | Digital(d: nat)

  /** `digitalWrite` levels. */
  datatype Level = LOW | HIGH

  /** The pin wired to the collision button (`BUTTON_COLLISION`, which is `A4`). */
  const BUTTON_COLLISION: Pin := Analog(4)

  /** The collision indicator LED (`LED_COLLISION`). */
  const LED_COLLISION: Pin := Digital(3)

  /** The threshold `BUTTON_VTHRESHOLD` at which a button counts as pressed. */
  const BUTTON_VTHRESHOLD: real := 3.5

  // ------------------------------------------------------------------
  // Detection
  // ------------------------------------------------------------------

  /**
   * `buttonPushed`: the raw `analogRead` count of the pin, promoted to
   * floating point, is compared with the threshold. The count is not
   * converted to a voltage, so a button counts as pressed exactly when its
   * count is at least 4.
   */
  function ButtonPushed(analogRead: Pin -> int, buttonPin: Pin): (r: bool)
    ensures r <==> analogRead(buttonPin) >= 4
    ensures r <==> 2 * analogRead(buttonPin) >= 7
  {
    analogRead(buttonPin) as real >= BUTTON_VTHRESHOLD
  }

  /** `collisionDetected`: a press of the collision button stands in for a collision. */
  function CollisionDetected(analogRead: Pin -> int): (r: bool)
    ensures r <==> analogRead(BUTTON_COLLISION) >= 4
  {
    ButtonPushed(analogRead, BUTTON_COLLISION)
  }

  /** The detection snapshot after `RobotDetection` has sampled `analogRead`. */
  function Detected(d: DetectionData, analogRead: Pin -> int): (r: DetectionData)
    ensures r.collisionDetected == DETECTION_TRUE <==> CollisionDetected(analogRead)
    ensures r.collisionDetected == DETECTION_FALSE <==> !CollisionDetected(analogRead)
    ensures r.lightDetected == d.lightDetected
    ensures r.capacitiveTouchDetected == d.capacitiveTouchDetected
  {
    d.(collisionDetected := if CollisionDetected(analogRead) then DETECTION_TRUE else DETECTION_FALSE)
  }

  /**
   * Detection is a function of the current reading alone: whatever the previous
   * snapshot held, the collision flag is 1 exactly when the collision pin
   * reads at least 4, and 0 otherwise.
   */
  lemma DetectionFollowsReading(d: DetectionData, analogRead: Pin -> int)
    ensures Detected(d, analogRead).collisionDetected ==
      if analogRead(BUTTON_COLLISION) >= 4 then DETECTION_TRUE else DETECTION_FALSE
  {
  }

  // ------------------------------------------------------------------
  // Planning
  // ------------------------------------------------------------------

  /** The action snapshot after `fsmCollisionDetection` has read the detection snapshot `d`. */
  function Planned(d: DetectionData, a: ActionState): (r: ActionState)
    ensures d.collisionDetected == DETECTION_FALSE ==> r.Collision == COLLISION_INACTIVE
    ensures d.collisionDetected == DETECTION_TRUE ==> r.Collision == COLLISION_ACTIVE
    ensures d.collisionDetected != DETECTION_FALSE && d.collisionDetected != DETECTION_TRUE ==> r == a
    ensures r.Drive == a.Drive && r.Servo == a.Servo
  {
    if d.collisionDetected == DETECTION_FALSE then a.(Collision := COLLISION_INACTIVE)
    else if d.collisionDetected == DETECTION_TRUE then a.(Collision := COLLISION_ACTIVE)
    else a
  }

  /** Planning keeps no hidden state: planning twice on the same snapshot is planning once. */
  lemma PlanningIdempotent(d: DetectionData, a: ActionState)
    ensures Planned(d, Planned(d, a)) == Planned(d, a)
  {
  }

  /**
   * Detection followed by planning: the collision action mirrors the detected
   * flag, is a valid collision phase, and is ACTIVE exactly when the collision
   * pin reads at least 4.
   */
  lemma DetectThenPlan(d: DetectionData, a: ActionState, analogRead: Pin -> int)
    ensures var d' := Detected(d, analogRead);
      var a' := Planned(d', a);
      && a'.Collision == d'.collisionDetected
      && (a'.Collision == COLLISION_INACTIVE || a'.Collision == COLLISION_ACTIVE)
      && (a'.Collision == COLLISION_ACTIVE <==> analogRead(BUTTON_COLLISION) >= 4)
      && a'.Drive == a.Drive && a'.Servo == a.Servo
  {
    DetectionFollowsReading(d, analogRead);
  }

  // ------------------------------------------------------------------
  // Action
  // ------------------------------------------------------------------

  /** The pin levels after `handleCollisionAction` has acted on `a`. */
  function Driven(a: ActionState, pins: map<Pin, Level>): (r: map<Pin, Level>)
    ensures a.Collision == COLLISION_ACTIVE ==> LED_COLLISION in r && r[LED_COLLISION] == HIGH
    ensures a.Collision == COLLISION_INACTIVE ==> LED_COLLISION in r && r[LED_COLLISION] == LOW
    ensures a.Collision != COLLISION_ACTIVE && a.Collision != COLLISION_INACTIVE ==> r == pins
    ensures r.Keys == pins.Keys + (if a.Collision == COLLISION_ACTIVE || a.Collision == COLLISION_INACTIVE then {LED_COLLISION} else {})
    ensures forall p :: p in pins && p != LED_COLLISION ==> r[p] == pins[p]
  {
    if a.Collision == COLLISION_INACTIVE then pins[LED_COLLISION := LOW]
    else if a.Collision == COLLISION_ACTIVE then pins[LED_COLLISION := HIGH]
    else pins
  }

  /**
   * After a full cycle the collision LED is HIGH when the collision pin reads
   * at least 4 and LOW otherwise, and no other pin has changed.
   */
  lemma CycleDrivesCollisionLed(d: DetectionData, a: ActionState, pins: map<Pin, Level>, analogRead: Pin -> int)
    ensures var r := Driven(Planned(Detected(d, analogRead), a), pins);
      && LED_COLLISION in r
      && (r[LED_COLLISION] == HIGH <==> analogRead(BUTTON_COLLISION) >= 4)
      && r.Keys == pins.Keys + {LED_COLLISION}
      && forall p :: p in pins && p != LED_COLLISION ==> r[p] == pins[p]
  {
    DetectThenPlan(d, a, analogRead);
  }

  /**
   * The process-wide state of src/robot_states.cpp: the globals `detectedData`
   * and `actionStates`, and the output levels the board's pins were last
   * written to.
   */
  class Robot {
    var detectedData: DetectionData
    var actionStates: ActionState
    /** The level last written to each output pin; a pin not yet written is absent. */
    var pins: map<Pin, Level>

    /**
     * The globals have static storage and start zero-filled, which is exactly
     * the default initialisers; no pin has been written yet.
     */
    constructor ()
      ensures detectedData == NEW_DETECTION_DATA_STRUCT
      ensures actionStates == NEW_ACTION_STATE_STRUCT
      ensures pins == map[]
    {
      detectedData := DetectionData(LightDetected(0, 0, 0, 0), 0, 0);
      actionStates := ActionState(0, 0, 0);
      pins := map[];
    }

    /** `RobotDetection`: refresh the collision flag from the collision button. */
    method RobotDetection(analogRead: Pin -> int)
      modifies this`detectedData
      ensures detectedData == Detected(old(detectedData), analogRead)
    {
      if CollisionDetected(analogRead) {
        detectedData := detectedData.(collisionDetected := DETECTION_TRUE);
      } else {
        detectedData := detectedData.(collisionDetected := DETECTION_FALSE);
      }
    }

    /** `fsmCollisionDetection`: map the detection flag to a collision phase; other values change nothing. */
    method FsmCollisionDetection()
      modifies this`actionStates
      ensures actionStates == Planned(detectedData, old(actionStates))
    {
      if detectedData.collisionDetected == DETECTION_FALSE {
        actionStates := actionStates.(Collision := COLLISION_INACTIVE);
      } else if detectedData.collisionDetected == DETECTION_TRUE {
        actionStates := actionStates.(Collision := COLLISION_ACTIVE);
      }
    }

    /** `RobotPlanning`: only the collision state machine is run. */
    method RobotPlanning()
      modifies this`actionStates
      ensures actionStates == Planned(detectedData, old(actionStates))
    {
      FsmCollisionDetection();
    }

    /** `activateLED` */
    method ActivateLED(ledPin: Pin)
      modifies this`pins
      ensures pins == old(pins)[ledPin := HIGH]
    {
      pins := pins[ledPin := HIGH];
    }

    /** `disableLED` */
    method DisableLED(ledPin: Pin)
      modifies this`pins
      ensures pins == old(pins)[ledPin := LOW]
    {
      pins := pins[ledPin := LOW];
    }

    /** `handleCollisionAction`: drive the collision LED from the collision phase. */
    method HandleCollisionAction()
      modifies this`pins
      ensures pins == Driven(actionStates, old(pins))
    {
      if actionStates.Collision == COLLISION_INACTIVE {
        DisableLED(LED_COLLISION);
      } else if actionStates.Collision == COLLISION_ACTIVE {
        ActivateLED(LED_COLLISION);
      }
    }

    /** `RobotAction`: only the collision action is handled. */
    method RobotAction()
      modifies this`pins
      ensures pins == Driven(actionStates, old(pins))
    {
      HandleCollisionAction();
    }
  }
}
