# King of the Hill: a Dafny model of the game-control core

The game pits a quadrotor against a human player who holds a Wiimote.
Perception code estimates how far away the "hill" (a coloured balloon) and
the "enemy" are. The controller thread reads the Wiimote's buttons and
infrared sources. The drone-logic thread decides what to do each cycle.
Keyboard keys start and stop a match. A small command-line parser
configures the video stream before all of this starts.

Much of the game is still `TODO` in the code. This model covers the logic
that does exist:

- `SharedState` (`shared_state.dfy`): the thresholds, the magazine
  capacity and the initial values of every shared flag, distance and score (and of
  `active_cam`),
  as a `GameState` class.
- `Launch` (`launch.dfy`): the scan of `-e<name>`, `-c` and `-b` in `main`.
  This is a `LaunchConfig` class that holds the 256-byte name buffer as an
  `array<char>`, with C-string semantics for `strncpy`. It also covers the
  codec choice, the copy of the name into the recorder configuration, and
  the bytes-per-pixel and line-size switch of `ardrone_tool_init_custom`.
- `Wiimote` (`wiimote.dfy`): the nested scan of one message batch. It
  yields the shoot and recharge buttons, the running infrared-source count
  and the two sticky LED flags, proved against specification predicates.
  One iteration of the controller thread is modelled as a class.
- `DroneLogic` (`drone_logic.dfy`): the branch that each drone-logic cycle
  takes. This covers match gating, hill-over-enemy priority, the strict
  distance bands whose boundary values fall through, and the wound check.
- `Vision` (`vision.dfy`): the pinhole distance estimates in C
  truncating-division arithmetic. It also models the two perception
  globals, `pixel_radius` and `pixel_height`, whose value zero makes the
  division trap.
- `ScoreLabels` (`score_labels.dfy`): `%i` formatting of the scores and the
  fixed 3/16/17-byte buffers of the overlay labels.
- `Keyboard` (`keyboard.dfy`): the `(char)` cast of the key code and the
  dispatch of esc, `l`, `s`, `t` and `z` on the shared lifecycle flags.

The drone-logic thread compares against lower-case names
(`hill_min_distance`, …) that no file defines. The model binds them to the
upper-case constants of `global_variables.h`. The controller thread
initialises its ammunition from `number_of_ammo`, which is also undefined.
The model binds it to `magazine_capacity`. Every shared global flag is
modelled as an `int` tested against zero, as the code tests it. The
controller thread's local flags (`wiimote_connected`, `shoot_button`,
`recharging_button`, `recharging_led`, `drone_led`) are C `int`s that only
ever hold 0 or 1; they are modelled as `bool`, with 1 as `true`.
`exit_program` is declared in `ardrone_testing_tool.c` but is kept in
`GameState` with the other shared flags. No file assigns `hill_in_sight`
or `enemy_in_sight` after their initialisation to 0, and nothing assigns
`pixel_height`; as written, every match cycle of `drone_logic` therefore
takes the search branch, and `DecideCycle` treats the sighting flags as
inputs.

Facts about the code that the model keeps:

- The enemy bands are strict: a distance equal to `ENEMY_MIN_DISTANCE` or
  `ENEMY_SHOOTING_DISTANCE` selects no band.
- Hill arrival needs `distance < HILL_MIN_DISTANCE`; a distance equal to
  it selects no band.
- No game thread (`drone_logic`, `fly_control`, `wiimote`) sends a flight
  command; the only ones in the code are the keyboard's `l` (land) and `t`
  (take-off) test keys, modelled as the returned `KeyAction`. No
  ammunition change, score change or hill-scoring edge trigger exists in
  the code, so none is modelled.

## Model

| member | source | states |
|---|---|---|
| SharedState.GameState.constructor | Examples/Linux/video_demo/Sources/global_variables.h:20-56 | game active, no match, every sighting flag, distance, offset, wound and add-score flag 0, both scores 10, active camera 0; also `exit_program` 1, whose initialiser is not in this header but at ardrone_testing_tool.c:52 |
| Launch.LaunchConfig.constructor | Examples/Linux/video_demo/Sources/ardrone_testing_tool.c:57-62 | defaults: empty (all-zero) name buffer of 256 bytes, P264 / H264 360p codecs, horizontal channel |
| Launch.ScannedArgs | Examples/Linux/video_demo/Sources/ardrone_testing_tool.c:84-85 | only `argv[1..argc-1]` is scanned; with `argc` 0 or 1 nothing is |
| Launch.LaunchConfig.ParseArguments | Examples/Linux/video_demo/Sources/ardrone_testing_tool.c:84-107 | the name buffer becomes `FileNameAfter` of the scanned entries; the codecs become UVLC / 720p iff some entry starts `-c`, the channel vertical iff some entry starts `-b`, otherwise they keep their values |
| Launch.FileNameAfter | Examples/Linux/video_demo/Sources/ardrone_testing_tool.c:85-93 | the name buffer keeps exactly FILENAMESIZE bytes through any scan |
| Launch.LastFileFlagWins | Examples/Linux/video_demo/Sources/ardrone_testing_tool.c:85-93 | the last `-e` entry decides the name: it is the `strncpy` of the text after `-e`, whatever earlier entries said |
| Launch.NoFileFlagKeepsName | Examples/Linux/video_demo/Sources/ardrone_testing_tool.c:85-93 | without `-e` the name buffer is unchanged |
| Launch.StrncpyCString | Examples/Linux/video_demo/Sources/ardrone_testing_tool.c:92 | after `strncpy(dst, src, n)` a reader sees the source string cut to `n` characters; a terminator is written iff the source is shorter than `n` |
| Launch.Strncpy | Examples/Linux/video_demo/Sources/ardrone_testing_tool.c:92 | exactly `n` bytes are written: the source's bytes up to its terminator, then terminators up to `n` |
| Launch.FlagPresenceIgnoresOrder | Examples/Linux/video_demo/Sources/ardrone_testing_tool.c:95-106 | whether `-c`/`-b` took effect depends only on which entries occur, not on their order or repetition |
| Launch.AlternativeCodecIffFlag | Examples/Linux/video_demo/Sources/ardrone_testing_tool.c:126-134 | the configured codec is a drone-2 codec iff on an AR.Drone 2, and the alternative codec iff `-c` was given |
| Launch.ConfiguredCodec | Examples/Linux/video_demo/Sources/ardrone_testing_tool.c:126-133 | on an AR.Drone 2 the drone-2 codec setting, otherwise the drone-1 setting; never any other codec |
| Launch.RecorderSeesNamePrefix | Examples/Linux/video_demo/Sources/ardrone_testing_tool.c:225 | the recorder sees the first min(len, 255) characters of the `-e` name; the 256-byte buffer holds a terminator iff the name is shorter than 256 |
| Launch.OutputName | Examples/Linux/video_demo/Sources/ardrone_testing_tool.c:225 | exactly 255 bytes are written; the recorder's string is the stored name's string cut to min(len, 255) characters |
| Launch.AllocatePicture | Examples/Linux/video_demo/Sources/ardrone_testing_tool.c:168-196 | accepted iff RGB24 or RGB565; bytes per pixel times 8 is the sum of the channel widths (24 resp. 16 bits); the Y line is width·bpp, the buffer is one line per row, and there are no chroma lines |
| Launch.ConfiguredPictureLayout | Examples/Linux/video_demo/Sources/ardrone_testing_tool.c:160-181 | the 640×360 RGB24 picture the tool configures is accepted with 3 bytes per pixel, 1920-byte lines and a 691200-byte buffer |
| Wiimote.ValidSources | Examples/Linux/video_demo/Sources/ardrone_testing_tool.c:422-426 | an IR message contributes at most one count per source slot |
| Wiimote.ScanBatch | Examples/Linux/video_demo/Sources/ardrone_testing_tool.c:406-436 | shoot iff some button message is exactly B; recharge iff some is exactly A; the LED count is the running total over all IR messages; the recharge LED flag iff the running total after some IR message was 4; the drone LED flag iff it was positive and not 4 |
| Wiimote.LedCountMonotone | Examples/Linux/video_demo/Sources/ardrone_testing_tool.c:421-426 | the running LED count is never reset within a batch and never decreases |
| Wiimote.NoRechargeAfterOvercount | Examples/Linux/video_demo/Sources/ardrone_testing_tool.c:427-434 | once more than four sources were counted, no later IR message in the batch can raise the recharge flag |
| Wiimote.BothLedFlagsCanBeSet | Examples/Linux/video_demo/Sources/ardrone_testing_tool.c:427-434 | the flags are sticky: two IR messages of two sources each set both the drone and the recharge flag |
| Wiimote.CombinedPressIsNoShot | Examples/Linux/video_demo/Sources/ardrone_testing_tool.c:408-412 | a button report other than exactly B, e.g. A+B together, is no shot |
| Wiimote.WiimoteThread.constructor | Examples/Linux/video_demo/Sources/ardrone_testing_tool.c:358-374 | not connected, a full magazine, all five flags clear |
| Wiimote.WiimoteThread.Iterate | Examples/Linux/video_demo/Sources/ardrone_testing_tool.c:376-451 | the five flags are cleared each iteration; while disconnected only the connection attempt happens; while connected the flags are those of the batch scan; the ammunition is never changed |
| DroneLogic.HillBranch | Examples/Linux/video_demo/Sources/ardrone_testing_tool.c:314-323 | approach iff strictly between min and max; arrival iff strictly below min; no branch exactly at min or at/above max |
| DroneLogic.EnemyBranch | Examples/Linux/video_demo/Sources/ardrone_testing_tool.c:324-335 | back up iff below min; shoot iff strictly inside (min, shooting); move closer iff strictly inside (shooting, max); no branch at min, at shooting, or at/above max |
| DroneLogic.DecideCycle | Examples/Linux/video_demo/Sources/ardrone_testing_tool.c:308-350 | land iff no match; during a match a hill branch iff the hill is in sight, and then `HillBranch` of the hill distance; an enemy branch iff only the enemy is, and then `EnemyBranch` of the enemy distance; search iff neither; the wound branch runs iff the drone is wounded |
| DroneLogic.HillHasPriority | Examples/Linux/video_demo/Sources/ardrone_testing_tool.c:313-324 | with the hill in sight the enemy's values are not consulted |
| DroneLogic.EnemyTooCloseBacksUp | Examples/Linux/video_demo/Sources/ardrone_testing_tool.c:324-326 | during a match with no hill and the enemy in sight, the drone backs up iff the enemy is closer than the minimum distance; exactly at the minimum no action runs |
| DroneLogic.StaleDistancesIgnored | Examples/Linux/video_demo/Sources/ardrone_testing_tool.c:314-336 | the distance of a target that is not in sight, or that is shadowed by the hill, never changes the decision |
| DroneLogic.NoMatchOnlyLands | Examples/Linux/video_demo/Sources/ardrone_testing_tool.c:311-349 | outside a match only the land branch is reached |
| DroneLogic.WoundCheckedEveryCycle | Examples/Linux/video_demo/Sources/ardrone_testing_tool.c:340-344 | during a match the wound branch runs whenever the drone is wounded, whatever sighting branch ran |
| DroneLogic.EveryBandReachable | Examples/Linux/video_demo/Sources/global_variables.h:3-9 | with the configured thresholds every hill and enemy action band is non-empty |
| DroneLogic.EnemyBandsOrdered | Examples/Linux/video_demo/Sources/global_variables.h:7-9 | back-up distances lie below shooting distances, which lie below move-closer distances |
| Vision.CDiv | Examples/Linux/video_demo/Sources/Video/detection_functions.c:206 | integer division in C truncates toward zero: the quotient's magnitude is the quotient of the magnitudes, and a non-zero quotient is positive iff the operands have the same sign |
| Vision.CDivBracket | Examples/Linux/video_demo/Sources/Video/detection_functions.c:206 | C division truncates toward zero: the magnitude of the quotient times the divisor brackets the dividend |
| Vision.HillDistance | Examples/Linux/video_demo/Sources/Video/detection_functions.c:204-206 | for a positive radius r the distance d satisfies d·r ≤ 210·20 < (d+1)·r |
| Vision.EnemyDistance | Examples/Linux/video_demo/Sources/Video/detection_functions.c:273-275 | for a positive height h the distance d satisfies d·h ≤ 210·25 < (d+1)·h |
| Vision.DistanceAntitone | Examples/Linux/video_demo/Sources/Video/detection_functions.c:204-206 | a bigger apparent size never gives a larger distance (hill and enemy) |
| Vision.HillDistanceRange | Examples/Linux/video_demo/Sources/Video/detection_functions.c:174-206 | every radius within the circle search's limits 20..200 gives a hill distance in 21..210 |
| Vision.Detector.constructor | Examples/Linux/video_demo/Sources/Video/detection_functions.c:51-60 | the apparent radius and height start at 0 |
| Vision.Detector.RecognizeHills | Examples/Linux/video_demo/Sources/Video/detection_functions.c:179-206 | the first circle's radius is kept (or the old one if none was found); the distance is updated iff that radius is non-zero, otherwise the division traps and the distance is untouched |
| Vision.Detector.RecognizeEnemy | Examples/Linux/video_demo/Sources/Video/detection_functions.c:271-275 | the distance is updated iff the apparent height is non-zero; nothing assigns that height, so from the start it always traps |
| ScoreLabels.DecimalRoundTrip | Examples/Linux/video_demo/Sources/Video/detection_functions.c:297-303 | the `%i` text of a score reads back as that score |
| ScoreLabels.DecimalTextShort | Examples/Linux/video_demo/Sources/Video/detection_functions.c:294-295 | `%i` needs at most two characters exactly for -9..99 |
| ScoreLabels.DecimalTextCanonical | Examples/Linux/video_demo/Sources/Video/detection_functions.c:298 | `%i` prints an optional minus sign and digits without a leading zero, and never `-0` |
| ScoreLabels.DecimalTextUnique | Examples/Linux/video_demo/Sources/Video/detection_functions.c:298 | the `%i` text is the only canonical decimal text that reads back as the score |
| ScoreLabels.ScoreLabel | Examples/Linux/video_demo/Sources/Video/detection_functions.c:292-306 | the label fits iff the value with its terminator fits 3 bytes and label plus value plus terminator fit the label buffer; it is then the prefix followed by canonical decimal text (optional minus, no leading zero) that reads back as the score, which by `DecimalTextUnique` is exactly the `%i` text |
| ScoreLabels.LabelsFitIff | Examples/Linux/video_demo/Sources/Video/detection_functions.c:292-306 | both overlay labels fit exactly for scores in -9..99; any other score overflows the 3-byte value buffer |
| ScoreLabels.ShowGuiLabels | Examples/Linux/video_demo/Sources/Video/detection_functions.c:292-306 | each label that fits stays within its buffer, starts with its text and ends with the canonical decimal text of its score |
| Keyboard.KeyChar | Examples/Linux/video_demo/Sources/Video/detection_functions.c:315-316 | the cast keeps the key code when it fits a signed byte and is otherwise congruent to it mod 256 |
| Keyboard.HighBitsIgnored | Examples/Linux/video_demo/Sources/Video/detection_functions.c:315-316 | for every key code, adding any multiple of 256 (high modifier bits) changes neither the `char` it is cast to nor the action; 0x100073 acts as `s`; "no key" (-1) matches no case |
| Keyboard.ActionOf | Examples/Linux/video_demo/Sources/Video/detection_functions.c:325-358 | shutdown iff esc, land iff `l`, start match iff `s`, take off iff `t`, zap channel iff `z`, no action iff the key is none of these |
| Keyboard.Dispatch | Examples/Linux/video_demo/Sources/Video/detection_functions.c:325-358 | esc clears all three flags; any other key keeps game_active and exit_program; `s` sets match; every other key changes nothing |
| Keyboard.RunKeys | Examples/Linux/video_demo/Sources/Video/detection_functions.c:325-358 | once esc is among the keys the flags end all 0 (esc ends the process, later keys are never read) |
| Keyboard.KeyboardCommandAttuator | Examples/Linux/video_demo/Sources/Video/detection_functions.c:321-359 | esc clears match, game_active and exit_program; `s` sets match only; every other key leaves all three unchanged; flags that were 0/1 stay 0/1 |
| Keyboard.HandleKey | Examples/Linux/video_demo/Sources/Video/detection_functions.c:315-316 | the key code is cast to `char` before dispatch |
| Keyboard.GameActiveNeverReasserted | Examples/Linux/video_demo/Sources/Video/detection_functions.c:325-358 | no key sequence re-activates a stopped game |
| Keyboard.StopIffEsc | Examples/Linux/video_demo/Sources/Video/detection_functions.c:326-338 | from a running game, the game is stopped after a key sequence iff it contains esc, and then all three flags are 0 |
| Keyboard.MatchStartedOnlyByS | Examples/Linux/video_demo/Sources/Video/detection_functions.c:345-348 | without esc, a match runs afterwards iff it already did or some key was `s`; game_active and exit_program never change |

## Left out

- Threads, joins, the thread table, the busy `while (game_active)` loops
  and mutex locking are left out. Each thread is modelled as one iteration
  or one batch. The score reads under a lock are plain reads.
- `fly_control` and `score_logic` are empty. The ammunition branch and
  every drone-logic branch body are empty (`TODO`). So no game thread sends
  a flight command (only the keyboard's `l` and `t` test keys do, modelled
  as the returned `KeyAction`), and the model has no ammunition or score
  changes and no hill scoring.
  The float constants YAW_COEFF and THETA_COEFF are unused.
- The OpenCV image processing is left out: colour thresholding, Hough
  circles, contours, drawing and `testingVision`. The circle radii and the
  apparent height are inputs.
- Examples/Linux/video_demo/Sources/Video/display_stage.c is not part of
  this model.
- The library and process calls are replaced by inputs and outputs:
  - `cwiid_open` becomes the `openSucceeded` parameter.
  - `cwiid_get_mesg` becomes the message batch.
  - The `l`, `t`, `z` and esc effects become the returned `KeyAction`.
  - `cwiid_command`, `printf`, `signal`/`controlCHandler`, `gtk_init`,
    `ardrone_tool_main`, `sleep` and `exit` are not modelled.
- The rest of `ardrone_tool_init_custom` is not modelled: navdata options,
  stage lists, thread parameters and `bitrate_ctrl_mode`. The Wiimote
  library's constants (CWIID_BTN_A = 0x0008, CWIID_BTN_B = 0x0004, four IR
  slots) come from its public header, which is not part of this model.
- The size of `precfg.outputName` is declared in pre_stage.h, which is not
  part of this model. `OutputName` models only the 255 bytes that
  `strncpy` writes.
- Launch.AllocatePicture: does not model uint32 wrap-around of width·height·bpp, because the tool only uses 640×360, where no wrap occurs.
- ScoreLabels.ScoreLabel: builds the label as a value and reports bytes that would be written past a buffer as an overflow outcome; the memory those bytes would corrupt is not modelled.
- Vision.Detector.RecognizeHills: reports a zero divisor as the `DivisionByZero` outcome; the trap that ends the process is not modelled.
