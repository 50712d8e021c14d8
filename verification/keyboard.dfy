/** Keyboard commands read from the video window: the key code is cast to a
    signed `char` and dispatched.  Only esc and `s` touch the shared
    lifecycle flags; `l`, `t` and `z` send commands to the drone. */
module Keyboard {
  import opened SharedState

  newtype int8 = x: int | -128 <= x < 128

  const KEY_ESC: int8 := 27
  const KEY_L: int8 := 108
  const KEY_S: int8 := 115
  const KEY_T: int8 := 116
  const KEY_Z: int8 := 122

  /** The `(char)` cast of the key code: its low eight bits read as a signed
      byte (two's complement, as the toolchain does it). */
  function KeyChar(keyboardInput: int): (c: int8)
    ensures -128 <= keyboardInput < 128 ==> c as int == keyboardInput
    ensures (keyboardInput - c as int) % 256 == 0
  {
    var low := keyboardInput % 256;
    if low >= 128 then (low - 256) as int8 else low as int8
  }

  /** The three lifecycle flags the dispatch may write. */
  datatype Lifecycle = Lifecycle(matchActive: int, gameActive: int, exitProgram: int)

  /** What else a key asks for besides the flag updates. */
  datatype KeyAction = Shutdown | LandDrone | StartMatch | TakeOff | ZapChannel | NoAction

  function ActionOf(key: int8): (a: KeyAction)
    ensures a == Shutdown <==> key == KEY_ESC
    ensures a == LandDrone <==> key == KEY_L
    ensures a == StartMatch <==> key == KEY_S
    ensures a == TakeOff <==> key == KEY_T
    ensures a == ZapChannel <==> key == KEY_Z
    ensures a == NoAction <==> key !in {KEY_ESC, KEY_L, KEY_S, KEY_T, KEY_Z}
  {
    if key == KEY_ESC then Shutdown
    else if key == KEY_L then LandDrone
    else if key == KEY_S then StartMatch
    else if key == KEY_T then TakeOff
    else if key == KEY_Z then ZapChannel
    else NoAction
  }

  /** The flags after one key: esc clears all three, `s` starts a match, any
      other key leaves them alone. */
  function Dispatch(flags: Lifecycle, key: int8): (r: Lifecycle)
    ensures key == KEY_ESC ==> r == Lifecycle(0, 0, 0)
    ensures key != KEY_ESC ==> r.gameActive == flags.gameActive && r.exitProgram == flags.exitProgram
    ensures key == KEY_S ==> r.matchActive == 1
    ensures key != KEY_ESC && key != KEY_S ==> r == flags
  {
    if key == KEY_ESC then Lifecycle(0, 0, 0)
    else if key == KEY_S then flags.(matchActive := 1)
    else flags
  }

  /** The flags after a sequence of keys; esc ends the process, so the keys
      after it are never read. */
  function RunKeys(flags: Lifecycle, keys: seq<int8>): (r: Lifecycle)
    ensures KEY_ESC in keys ==> r == Lifecycle(0, 0, 0)
    decreases keys
  {
    if keys == [] then flags
    else if keys[0] == KEY_ESC then Dispatch(flags, KEY_ESC)
    else RunKeys(Dispatch(flags, keys[0]), keys[1..])
  }

  /** No key can make the game active again once it has been stopped. */
  lemma {:induction false} GameActiveNeverReasserted(flags: Lifecycle, keys: seq<int8>)
    requires flags.gameActive == 0
    ensures RunKeys(flags, keys).gameActive == 0
    decreases keys
  {
    if keys != [] && keys[0] != KEY_ESC {
      GameActiveNeverReasserted(Dispatch(flags, keys[0]), keys[1..]);
    }
  }

  /** Starting from a running game, the game is stopped after a key sequence
      exactly when it contains esc, and then the tool is told to exit and the
      match is over. */
  lemma {:induction false} StopIffEsc(flags: Lifecycle, keys: seq<int8>)
    requires flags.gameActive == 1
    ensures RunKeys(flags, keys).gameActive == 0 <==> KEY_ESC in keys
    ensures KEY_ESC in keys ==> RunKeys(flags, keys) == Lifecycle(0, 0, 0)
    decreases keys
  {
    if keys != [] && keys[0] != KEY_ESC {
      StopIffEsc(Dispatch(flags, keys[0]), keys[1..]);
      assert KEY_ESC in keys <==> KEY_ESC in keys[1..];
    }
  }

  /** Without esc, a match is running afterwards exactly when it was already,
      or some key was `s`; the other two flags never change. */
  lemma {:induction false} MatchStartedOnlyByS(flags: Lifecycle, keys: seq<int8>)
    requires KEY_ESC !in keys
    ensures RunKeys(flags, keys).matchActive == if KEY_S in keys then 1 else flags.matchActive
    ensures RunKeys(flags, keys).gameActive == flags.gameActive
    ensures RunKeys(flags, keys).exitProgram == flags.exitProgram
    decreases keys
  {
    if keys != [] {
      assert keys[0] != KEY_ESC;
      MatchStartedOnlyByS(Dispatch(flags, keys[0]), keys[1..]);
      assert KEY_S in keys <==> keys[0] == KEY_S || KEY_S in keys[1..];
    }
  }

  /** The dispatch of one key on the shared flags; the returned action stands
      for the drone command, channel switch or shutdown the key triggers. */
  method KeyboardCommandAttuator(g: GameState, key: int8) returns (action: KeyAction)
    modifies g`matchActive, g`gameActive, g`exitProgram
    ensures Lifecycle(g.matchActive, g.gameActive, g.exitProgram) ==
            Dispatch(old(Lifecycle(g.matchActive, g.gameActive, g.exitProgram)), key)
    ensures action == ActionOf(key)
    ensures old(g.LifecycleFlagsBoolean()) ==> g.LifecycleFlagsBoolean()
  {
    action := ActionOf(key);
    if key == KEY_ESC {
      g.matchActive := 0;
      g.gameActive := 0;
      g.exitProgram := 0;
    } else if key == KEY_S {
      g.matchActive := 1;
    }
  }

  /** The key handling at the end of the overlay refresh: the key code is
      cast to `char` and dispatched. */
  method HandleKey(g: GameState, keyboardInput: int) returns (action: KeyAction)
    modifies g`matchActive, g`gameActive, g`exitProgram
    ensures Lifecycle(g.matchActive, g.gameActive, g.exitProgram) ==
            Dispatch(old(Lifecycle(g.matchActive, g.gameActive, g.exitProgram)), KeyChar(keyboardInput))
    ensures action == ActionOf(KeyChar(keyboardInput))
  {
    action := KeyboardCommandAttuator(g, KeyChar(keyboardInput));
  }

  /** A key code carrying extra high bits (modifier flags) still dispatches on
      its low byte: adding any multiple of 256 changes neither the cast nor
      the action, so 0x100073 acts as `s`; "no key" (-1) matches no case. */
  lemma HighBitsIgnored(keyboardInput: int, highBits: int)
    ensures KeyChar(keyboardInput + 256 * highBits) == KeyChar(keyboardInput)
    ensures ActionOf(KeyChar(keyboardInput + 256 * highBits)) == ActionOf(KeyChar(keyboardInput))
    ensures KeyChar(0x10_0073) == KEY_S
    ensures KeyChar(-1) !in {KEY_ESC, KEY_L, KEY_S, KEY_T, KEY_Z}
  {
  }
}
