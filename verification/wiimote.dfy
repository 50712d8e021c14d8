/** The controller-input thread: each iteration either tries to connect to
    the Wiimote or scans one batch of Wiimote messages for the shoot button
    (B), the recharge button (A) and the infrared sources in view. */
module Wiimote {
  import opened SharedState

  /** Infrared sources reported in one IR message. */
  const CWIID_IR_SRC_COUNT: nat := 4
  /** Button bit masks of the Wiimote protocol library. */
  const CWIID_BTN_B: int := 0x0004
  const CWIID_BTN_A: int := 0x0008
  /** IR sources that mark the recharge station. */
  const RECHARGE_LED_COUNT: nat := 4

  newtype uint16 = x: int | 0 <= x < 0x1_0000

  /** One infrared source slot; `valid` is the library's char flag. */
  datatype IrSource = IrSource(valid: int)

  /** A message of a batch: a button report (the mask of buttons held down),
      an infrared report, or any other kind (status, accelerometer, ...). */
  datatype Message =
    | ButtonMessage(buttons: uint16)
    | IrMessage(src: seq<IrSource>)
    | OtherMessage

  /** Each IR message carries exactly CWIID_IR_SRC_COUNT slots. */
  predicate WellFormed(m: Message)
  {
    m.IrMessage? ==> |m.src| == CWIID_IR_SRC_COUNT
  }

  /** Slots of `src` that hold a valid source. */
  function ValidSources(src: seq<IrSource>): (n: nat)
    ensures n <= |src|
  {
    if src == [] then 0
    else ValidSources(src[..|src| - 1]) + (if src[|src| - 1].valid != 0 then 1 else 0)
  }

  /** Sources an IR message adds to the running count. */
  function LedsIn(m: Message): nat
  {
    if m.IrMessage? then ValidSources(m.src) else 0
  }

  /** The running LED count after the messages of `msgs`: it is never reset
      between the IR messages of one batch. */
  function LedCount(msgs: seq<Message>): nat
  {
    if msgs == [] then 0 else LedCount(msgs[..|msgs| - 1]) + LedsIn(msgs[|msgs| - 1])
  }

  /** Some button message has exactly the B button down. */
  predicate ShootPressed(msgs: seq<Message>)
  {
    exists i :: 0 <= i < |msgs| && msgs[i] == ButtonMessage(CWIID_BTN_B as uint16)
  }

  /** Some button message has exactly the A button down. */
  predicate RechargePressed(msgs: seq<Message>)
  {
    exists i :: 0 <= i < |msgs| && msgs[i] == ButtonMessage(CWIID_BTN_A as uint16)
  }

  /** After some IR message the running count was exactly four. */
  predicate RechargeLedsSeen(msgs: seq<Message>)
  {
    exists i :: 0 <= i < |msgs| && msgs[i].IrMessage? && LedCount(msgs[..i + 1]) == RECHARGE_LED_COUNT
  }

  /** After some IR message the running count was positive but not four. */
  predicate DroneLedsSeen(msgs: seq<Message>)
  {
    exists i :: 0 <= i < |msgs| && msgs[i].IrMessage? &&
      LedCount(msgs[..i + 1]) > 0 && LedCount(msgs[..i + 1]) != RECHARGE_LED_COUNT
  }

  /** The scan of one message batch.  The five results start cleared; the
      button and LED flags, once set, stay set for the rest of the batch. */
  method ScanBatch(msgs: seq<Message>)
    returns (shootButton: bool, rechargingButton: bool, numberOfLed: nat, rechargingLed: bool, droneLed: bool)
    requires forall k :: 0 <= k < |msgs| ==> WellFormed(msgs[k])
    ensures shootButton == ShootPressed(msgs)
    ensures rechargingButton == RechargePressed(msgs)
    ensures numberOfLed == LedCount(msgs)
    ensures rechargingLed == RechargeLedsSeen(msgs)
    ensures droneLed == DroneLedsSeen(msgs)
  {
    shootButton, rechargingButton := false, false;
    numberOfLed, rechargingLed, droneLed := 0, false, false;
    var i := 0;
    while i < |msgs|
      invariant 0 <= i <= |msgs|
      invariant numberOfLed == LedCount(msgs[..i])
      invariant shootButton == ShootPressed(msgs[..i])
      invariant rechargingButton == RechargePressed(msgs[..i])
      invariant rechargingLed == RechargeLedsSeen(msgs[..i])
      invariant droneLed == DroneLedsSeen(msgs[..i])
    {
      var m := msgs[i];
      ButtonsStep(msgs, i);
      LedsStep(msgs, i);
      if m.ButtonMessage? {
        if m.buttons == CWIID_BTN_B as uint16 {
          shootButton := true;
        }
        if m.buttons == CWIID_BTN_A as uint16 {
          rechargingButton := true;
        }
      }
      if m.IrMessage? {
        var j := 0;
        while j < CWIID_IR_SRC_COUNT
          invariant 0 <= j <= CWIID_IR_SRC_COUNT
          invariant numberOfLed == LedCount(msgs[..i]) + ValidSources(m.src[..j])
        {
          assert m.src[..j + 1][..j] == m.src[..j];
          if m.src[j].valid != 0 {
            numberOfLed := numberOfLed + 1;
          }
          j := j + 1;
        }
        assert m.src[..j] == m.src;
        if numberOfLed == RECHARGE_LED_COUNT {
          rechargingLed := true;
        } else if numberOfLed > 0 {
          droneLed := true;
        }
      }
      i := i + 1;
    }
    assert msgs[..i] == msgs;
  }

  /** How one more message extends the button predicates of a prefix. */
  lemma ButtonsStep(msgs: seq<Message>, i: nat)
    requires i < |msgs|
    ensures ShootPressed(msgs[..i + 1]) <==>
              ShootPressed(msgs[..i]) || msgs[i] == ButtonMessage(CWIID_BTN_B as uint16)
    ensures RechargePressed(msgs[..i + 1]) <==>
              RechargePressed(msgs[..i]) || msgs[i] == ButtonMessage(CWIID_BTN_A as uint16)
  {
    var longer := msgs[..i + 1];
    assert forall k :: 0 <= k < i ==> longer[k] == msgs[..i][k];
    assert longer[i] == msgs[i];
  }

  /** How one more message extends the running count and the LED predicates. */
  lemma LedsStep(msgs: seq<Message>, i: nat)
    requires i < |msgs|
    ensures LedCount(msgs[..i + 1]) == LedCount(msgs[..i]) + LedsIn(msgs[i])
    ensures RechargeLedsSeen(msgs[..i + 1]) <==>
              RechargeLedsSeen(msgs[..i]) ||
              (msgs[i].IrMessage? && LedCount(msgs[..i + 1]) == RECHARGE_LED_COUNT)
    ensures DroneLedsSeen(msgs[..i + 1]) <==>
              DroneLedsSeen(msgs[..i]) ||
              (msgs[i].IrMessage? && LedCount(msgs[..i + 1]) > 0 &&
               LedCount(msgs[..i + 1]) != RECHARGE_LED_COUNT)
  {
    var longer := msgs[..i + 1];
    var shorter := msgs[..i];
    assert longer[..i] == shorter;
    assert longer[..i + 1] == longer;
    if RechargeLedsSeen(longer) {
      var k :| 0 <= k < i + 1 && longer[k].IrMessage? && LedCount(longer[..k + 1]) == RECHARGE_LED_COUNT;
      if k < i {
        assert shorter[..k + 1] == longer[..k + 1] && shorter[k] == longer[k];
      }
    }
    if RechargeLedsSeen(shorter) {
      var k :| 0 <= k < i && shorter[k].IrMessage? && LedCount(shorter[..k + 1]) == RECHARGE_LED_COUNT;
      assert shorter[..k + 1] == longer[..k + 1] && shorter[k] == longer[k];
    }
    if DroneLedsSeen(longer) {
      var k :| 0 <= k < i + 1 && longer[k].IrMessage? &&
               LedCount(longer[..k + 1]) > 0 && LedCount(longer[..k + 1]) != RECHARGE_LED_COUNT;
      if k < i {
        assert shorter[..k + 1] == longer[..k + 1] && shorter[k] == longer[k];
      }
    }
    if DroneLedsSeen(shorter) {
      var k :| 0 <= k < i && shorter[k].IrMessage? &&
               LedCount(shorter[..k + 1]) > 0 && LedCount(shorter[..k + 1]) != RECHARGE_LED_COUNT;
      assert shorter[..k + 1] == longer[..k + 1] && shorter[k] == longer[k];
    }
  }

  /** The running count never decreases along a batch. */
  lemma {:induction false} LedCountMonotone(msgs: seq<Message>, k: nat)
    requires k <= |msgs|
    ensures LedCount(msgs[..k]) <= LedCount(msgs)
  {
    if k < |msgs| {
      var init := msgs[..|msgs| - 1];
      assert init[..k] == msgs[..k];
      LedCountMonotone(init, k);
    } else {
      assert msgs[..k] == msgs;
    }
  }

  /** Once more than four sources have been counted in a batch, no later IR
      message of that batch can raise the recharge flag. */
  lemma NoRechargeAfterOvercount(msgs: seq<Message>, k: nat, i: nat)
    requires k <= i < |msgs|
    requires LedCount(msgs[..k]) > RECHARGE_LED_COUNT
    ensures LedCount(msgs[..i + 1]) != RECHARGE_LED_COUNT
  {
    var prefix := msgs[..i + 1];
    assert prefix[..k] == msgs[..k];
    LedCountMonotone(prefix, k);
  }

  /** Both LED flags can end up set in one batch: two IR messages of two
      sources each give the running counts 2 and then 4. */
  lemma BothLedFlagsCanBeSet()
    ensures var two := IrMessage([IrSource(1), IrSource(1), IrSource(0), IrSource(0)]);
            DroneLedsSeen([two, two]) && RechargeLedsSeen([two, two])
  {
    var two := IrMessage([IrSource(1), IrSource(1), IrSource(0), IrSource(0)]);
    var src := two.src;
    assert src[..1][..0] == [] && ValidSources(src[..1]) == 1;
    assert src[..2][..1] == src[..1] && ValidSources(src[..2]) == 2;
    assert src[..3][..2] == src[..2] && ValidSources(src[..3]) == 2;
    assert src[..3] == src[..|src| - 1];
    assert ValidSources(src) == 2;
    var batch := [two, two];
    assert batch[..1] == [two] && [two][..0] == [] && batch[..2] == batch;
    assert batch[..2][..1] == [two];
    assert LedCount([two]) == 2;
    assert LedCount(batch[..2]) == 4;
  }

  /** A press of B together with any other button is not a shot. */
  lemma CombinedPressIsNoShot(other: uint16)
    requires other != CWIID_BTN_B as uint16
    ensures !ShootPressed([ButtonMessage(other)])
  {
  }

  /** The local state of the controller thread, kept across iterations. */
  class WiimoteThread {
    var connected: bool
    /** Shots left; the thread never changes it. */
    var ammunitions: int
    var shootButton: bool
    var rechargingButton: bool
    var numberOfLed: nat
    var rechargingLed: bool
    var droneLed: bool

    ghost predicate FlagsCleared()
      reads this
    {
      !shootButton && !rechargingButton && numberOfLed == 0 && !rechargingLed && !droneLed
    }

    constructor ()
      ensures !connected && ammunitions == MAGAZINE_CAPACITY && FlagsCleared()
    {
      connected := false;
      ammunitions := MAGAZINE_CAPACITY;
      shootButton, rechargingButton := false, false;
      numberOfLed, rechargingLed, droneLed := 0, false, false;
    }

    /** One iteration of the thread loop.  `openSucceeded` is whether the attempt to
        open the Wiimote succeeds (consulted only while disconnected) and
        `batch` is the batch the blocking read returns (consulted only while
        connected). */
    method Iterate(openSucceeded: bool, batch: seq<Message>)
      requires forall k :: 0 <= k < |batch| ==> WellFormed(batch[k])
      modifies this
      ensures connected == (old(connected) || openSucceeded)
      ensures ammunitions == old(ammunitions)
      ensures !old(connected) ==> FlagsCleared()
      ensures old(connected) ==>
                shootButton == ShootPressed(batch) &&
                rechargingButton == RechargePressed(batch) &&
                numberOfLed == LedCount(batch) &&
                rechargingLed == RechargeLedsSeen(batch) &&
                droneLed == DroneLedsSeen(batch)
    {
      shootButton, rechargingButton := false, false;
      numberOfLed, rechargingLed, droneLed := 0, false, false;
      if !connected {
        if openSucceeded {
          connected := true;
        }
      } else {
        shootButton, rechargingButton, numberOfLed, rechargingLed, droneLed := ScanBatch(batch);
      }
    }
  }
}
