# Janela Inteligente: window-actuation controller in Dafny

This project models the controller of a motorised window on a Raspberry Pi Pico W. It also proves properties of that model.

The controller combines several inputs:

- a rain sensor, a PIR motion sensor, an infrared (TCRT) obstacle sensor and a BMP280 temperature reading;
- a remote command channel.

From these it drives a ULN2003 stepper motor that opens or closes the window. While closing, the motor stops as soon as a person or an obstacle appears.

The repository holds two revisions of the controller, and the model keeps them apart:

- `main.c`: the MQTT revision. It publishes telemetry on a broker, accepts `abrir`/`fechar` commands that start a 60-second manual override, and uses the thresholds of `configura_geral.h` (33.0 °C to open, 25.0 °C to close).
- `picow_access_point.c`: the access-point revision. It serves a status page and a `/control?janela=N` command. It latches rain, motion and obstacle sightings for 3 seconds, and uses hard-coded thresholds (28.0 °C / 23.0 °C).

## Modules

| file | module | what it holds |
|---|---|---|
| `wrappers.dfy` | `Wrappers` | `Option`, used wherever the C code answers NULL or "no match", and `Min` |
| `config.dfy` | `Config` | the constants of `configura_geral.h` and facts about them |
| `clock.dfy` | `Clock` | the 64-bit microsecond clock: wrapping add and wrapping elapsed time |
| `c_string.dfy` | `CString` | NUL-terminated strings in fixed buffers, `strchr` |
| `signal_filter.dfy` | `SignalFilter` | the PIR counter debounce, shared by both revisions |
| `stepper.dfy` | `Stepper` | the half-step table, the index walk, the live interlock, what one `move_window` writes to the coils |
| `bmp280.dfy` | `Bmp280` | byte assembly and the 32-bit integer temperature compensation |
| `http_request.dfy` | `HttpRequest` | the headers copy, the in-place request-line split, the `janela=%d` scan, the send-completion test |
| `mqtt_window.dfy` | `MqttWindow` | the `main.c` revision |
| `access_point_window.dfy` | `AccessPointWindow` | the `picow_access_point.c` revision |

### How each revision is modelled

Each revision has a `State` datatype holding the firmware's globals. Every operation appears twice:

- as a function `After…` from the old state to the new one; the lemmas speak about these functions;
- as a method of a `Controller` class, which has the same fields and updates them in place, as the C code does.

Each method is proved to land on its function: `ensures Snapshot() == After…(old(Snapshot()), …)`.

The hardware and the environment enter as parameters:

- **Pin levels:** passed as read, `true` meaning high.
- **The live interlock:** the PIR and TCRT levels that `move_window` reads before each closing step are a sequence of `TOTAL_PASSOS` reads.
- **Time:** the boot clock in microseconds, one value per call.
- **Temperature:** the integer hundredths of a degree that `bmp280_compensate_T` returns. The C code compares `current_temp_c = t / 100.0` with 33.0, 25.0, 28.0 or 23.0. The quotient is a `double` that is then stored into the `float` `current_temp_c`, and the comparison promotes it back to `double`. For an integer `t` this is the same as comparing `t` with 3300, 2500, 2800 or 2300. Correctly rounded division and the rounding from `double` to `float` are both monotone. The four thresholds are exact in both formats. An integer one hundredth past a threshold, such as 33.01, still rounds to a value strictly past it.
- **Coil writes and publications:** appended to two logs, `coils` and `published`.

`publicar` appends only while `mqtt_connected` holds; `Gated` expresses this.

## Model

| member | source | states |
|---|---|---|
| Config.ThresholdsOrdered | configura_geral.h:25-26 | the closing threshold (25.0 °C) lies below the opening one (33.0 °C), so no temperature satisfies both automatic conditions |
| Config.OverrideIsSixtySeconds | configura_geral.h:23 | the override lasts TEMPO_OVERRIDE_MS * 1000 = 60,000,000 µs on the boot clock |
| Config.StepAndFilterConstants | configura_geral.h:48-53 | a move has TOTAL_PASSOS = 1366 > 0 half-steps; the debounce threshold CICLOS_FILTRO_MOVIMENTO = 20 is at least 1 |
| Config.PinsDistinct | configura_geral.h:44-57 | the four coil pins are pairwise distinct; no coil pin is a sensor or I2C pin; the three sensor pins are distinct and are not I2C pins |
| Config.CommandTopicNotPublished | configura_geral.h:31-39 | the subscribed command topic is none of the published topics |
| Clock.AddU64 | main.c:102 | `now + 60000000` on uint64_t: the exact sum, or the sum less 2^64 when it overflows |
| Clock.Elapsed | main.c:202 | `time_us_64() - stamp` on uint64_t: the true difference when the stamp is not later, otherwise the difference plus 2^64 |
| SignalFilter.DebounceStep | main.c:177-182 | a low sample resets the counter to 0; a high sample adds one below the cap; a high sample never leaves it above 20 |
| SignalFilter.ReachedIffCapped | picow_access_point.c:358-368 | `motion_confirmed_now` holds exactly when the new counter sits at its cap of 20 |
| SignalFilter.DebounceRunCounts | main.c:177-182 | after any run of samples from boot, the counter equals the length of the current streak of high samples, capped at 20 |
| SignalFilter.TrailingHighsAtLeast | main.c:177-182 | the high streak is at least m long exactly when the last m samples are all high |
| SignalFilter.DebounceConfirms | main.c:177-182 | the counter is at its cap exactly when the last 20 samples were all high; a single low sample brings it to 0; it stays within 0..20 |
| Bmp280.ReadU16 | main.c:34 | `read_u16`, buf[1] shifted up 8 bits OR buf[0], is a 16-bit word |
| Bmp280.ReadU16Bytes | main.c:34 | the word gives back buf[0] as its low byte and buf[1] as its high byte |
| Bmp280.ReadS16 | main.c:35 | `(int16_t)` of a word is in the int16 range: unchanged below 0x8000, negative from 0x8000 on |
| Bmp280.ReadS16RoundTrip | main.c:35 | casting the signed value back to 16 bits gives the original word |
| Bmp280.ReadCalibration | picow_access_point.c:110-114 | dig_T1 is the little-endian word of registers 0x88-0x89; the two's-complement patterns of dig_T2 and dig_T3 are the words of 0x8A-0x8B and 0x8C-0x8D |
| Bmp280.AdcT | main.c:38 | adc_T, assembled from data[3] shifted by 12, data[4] shifted by 4 and the top four bits of data[5], is a 20-bit value |
| Bmp280.AdcTFields | main.c:38 | the 20-bit value splits back into d3, d4 and the top four bits of d5 |
| Bmp280.CompensateT | main.c:37 | t_fine = var1 + var2; when every intermediate fits in int32, the result is t_fine * 5 / 256 rounded to the nearest hundredth of a degree and fits in int32 |
| Bmp280.DatasheetExample | picow_access_point.c:122-127 | the worked example of the BMP280 datasheet (adc_T 519888, dig_T 27504/26435/-1000) fits int32 and gives t_fine 128422, 25.08 °C |
| Bmp280.ReadTemperature | picow_access_point.c:129-135 | the temperature of the 6-byte burst from register 0xF7 is compensated from bytes 3..5 and rounds t_fine * 5 / 256 |
| CString.CEnd | picow_access_point.c:256 | the end of a C string is its first NUL, or the buffer end when there is none |
| CString.CStr | main.c:96-99 | the C string at an index is NUL-free and is the buffer's characters up to the terminator |
| CString.CEndAt | picow_access_point.c:256-257 | a NUL at i with none before it ends the string at i |
| CString.Strchr | picow_access_point.c:256-257 | `strchr` finds the first occurrence of the character before the terminator, or reports none when it does not occur there |
| CString.StrchrAt | picow_access_point.c:256-257 | with no match and no NUL before i, `strchr` finds the character at i |
| Stepper.HalfStep | main.c:42 | move_step's coil levels for index idx: row idx of the eight-row half-step table |
| Stepper.HalfStepRows | picow_access_point.c:141-144 | every row of the half-step table energises one or two coils; each row differs from the next, cyclically, in exactly one coil |
| Stepper.NextIndex | picow_access_point.c:175-176 | the step index moves +1 mod 8 when opening and -1 mod 8 when closing, staying in 0..7 |
| Stepper.IndexAfter | main.c:58-79 | the index after any number of steps of one move is in 0..7; every move starts again from 0 |
| Stepper.IndexAfterOpening | main.c:79 | after n opening steps the index is n mod 8 |
| Stepper.IndexAfterClosing | main.c:79 | after n closing steps the index is -n mod 8 |
| Stepper.IndexAfterClosedForm | main.c:79 | after n steps the index is n mod 8 forward, -n mod 8 backward |
| Stepper.PhaseWritesSnoc | main.c:79-80 | each further step appends the table row the index moves to |
| Stepper.PhaseWritesAt | main.c:79-80 | step k of a move writes row (k+1) mod 8 when opening and -(k+1) mod 8 when closing |
| Stepper.PhaseWritesChangeOneCoil | main.c:79-80 | consecutive writes of one move differ in exactly one coil, in either direction |
| Stepper.FirstTrip | main.c:62-66 | the step found is one whose live read shows PIR high or TCRT low, with no such read before it; none exactly when no read trips |
| Stepper.MoveOutcome | main.c:51-81 | the move is a no-op exactly when the window is already at the target; an open always completes; only a close aborts, at a tripped read with none before it; a completed close saw no tripped read |
| Stepper.MoveCoilsShape | picow_access_point.c:163-180 | a real move writes one row per step taken (TOTAL_PASSOS, or the steps before the abort), each row walking ±1 mod 8 from 0 and changing one coil, then all coils off |
| Stepper.MovePosition | picow_access_point.c:158-181 | the window ends at the target unless a close aborted, which leaves it open; the abort happens exactly at the first tripped step |
| HttpRequest.CopyHeaders | picow_access_point.c:254 | a freshly zeroed headers buffer receives at most 127 bytes of the segment, and its remaining bytes, the last included, stay NUL |
| HttpRequest.SplitBuffer | picow_access_point.c:254-257 | the headers buffer after the split: the first '?' and the first space of the request string become NUL, the length is unchanged |
| HttpRequest.ParseRequest | picow_access_point.c:253-257 | the (path, params) pair the handler receives, present exactly for a non-empty segment that starts with `GET` |
| HttpRequest.ParamsStart | picow_access_point.c:256-257 | `params` points just past the first '?' of the request string (before or after the space), and is NULL exactly when that string holds no '?' |
| HttpRequest.SplitInPlace | picow_access_point.c:256-257 | the in-place split on the headers array leaves exactly the split buffer and returns where the parameters start |
| HttpRequest.SplitAtQuestion | picow_access_point.c:256-257 | with a '?' before the first space, the path is the text between "GET " and the '?'; the parameters run from the '?' to the space |
| HttpRequest.SplitAtSpace | picow_access_point.c:256-257 | without a '?', the path ends at the first space and `params` is NULL |
| HttpRequest.CopyPrefix | picow_access_point.c:254 | a segment shorter than the buffer is copied whole |
| HttpRequest.SplitWithQuery | picow_access_point.c:254-257 | a segment "GET path?query rest" that fits gives the handler exactly `path` and `query` |
| HttpRequest.SplitWithoutQuery | picow_access_point.c:254-257 | a segment "GET path rest" with no '?' gives the handler `path` and NULL |
| HttpRequest.DecimalRoundTrip | picow_access_point.c:243 | the digits "%d" prints for a non-negative number read back as that number |
| HttpRequest.DigitSpanOf | picow_access_point.c:214 | a digit run followed by a non-digit is scanned to exactly its length |
| HttpRequest.ScanInt | picow_access_point.c:214 | the restricted `%d`: an optional sign then decimal digits; it yields a value exactly when the text starts with a digit or with a sign followed by a digit |
| HttpRequest.ParseJanela | picow_access_point.c:214 | `sscanf(params, "janela=%d")`: a value only after the literal `janela=` prefix |
| HttpRequest.ScanIntFormat | picow_access_point.c:214 | `%d` reads back any number printed with "%d", whatever non-digit text follows |
| HttpRequest.ParseJanelaFormat | picow_access_point.c:214 | `sscanf(params, "janela=%d")` reads back any N printed after "janela=" |
| HttpRequest.CoveredIsRunningTotal | picow_access_point.c:199-200 | acknowledgement j completes the response exactly when sent_len plus the lengths of acks 0..j reaches header_len + result_len |
| HttpRequest.ClosesAtFirstCompleteAck | picow_access_point.c:198-203 | over a series of acknowledgements, the connection closes at the first one that completes the response (whose running total of bytes sent reaches header_len + result_len), at no earlier one, and stays open exactly when no acknowledgement completes it |
| HttpRequest.SentAccumulates | picow_access_point.c:198-203 | two acknowledgements count as one of their sum; once complete, the connection stays complete |
| MqttWindow.TopicName | configura_geral.h:31-39 | every topic the controller publishes on is a declared topic and never the command topic |
| MqttWindow.Controller.Publicar | main.c:46-48 | a publication is appended to the log only while connected |
| MqttWindow.Controller.StopMotor | main.c:41 | all four coils are written low |
| MqttWindow.Controller.MoveStep | main.c:42 | the row of the given index is written to the coils |
| MqttWindow.AfterMove | main.c:51-88 | a move changes only the window flag, the coil log and the publication log |
| MqttWindow.MoveNoOp | main.c:52 | a move to where the window already is writes no coil, publishes nothing, changes nothing |
| MqttWindow.MoveEffect | main.c:58-83 | a real move leaves the window at the target, or open when a close was stopped; the coils get one phase per step taken, then all-off; nothing else changes |
| MqttWindow.MoveReportsStatus | main.c:55-87 | a real move publishes, while connected, its reason, then the status matching the new position, then "concluida" or the block notice for a stopped close |
| MqttWindow.MoveUnfolds | main.c:51-88 | a real move is the reason publication, the stepping, the stop, the new position and the two final publications, in that order |
| MqttWindow.OpeningIgnoresInterlock | main.c:62 | an open does not depend on the live sensor reads |
| MqttWindow.CloseCompletesIffClear | main.c:60-83 | a close ends with the window closed exactly when no live read along the whole travel tripped |
| MqttWindow.Controller.DriveSteps | main.c:58-81 | the step loop writes the phases of the steps taken and reports the first tripped step of a close |
| MqttWindow.Controller.FinishMove | main.c:66-87 | the coils are stopped, the window is taken as open after an abort and as the target otherwise, and the matching status and detail are published |
| MqttWindow.Controller.MoveWindow | main.c:51-88 | `move_window` updates the globals in place exactly as the move function says |
| MqttWindow.CStrIsWord | main.c:96-99 | the NUL-terminated payload equals a word exactly when the buffer spells the word and then ends or has a NUL |
| MqttWindow.DecodeCommand | main.c:94-99 | the command in a payload: truncated to 31 bytes, its C string must be exactly `abrir` (open) or `fechar` (close); anything else is no command |
| MqttWindow.AfterCommand | main.c:93-115 | mqtt_incoming_data_cb: an accepted command arms the override (deadline now + 60 s, MANUAL_TEMP announced) and requests the move; any other payload changes nothing |
| MqttWindow.DecodeCommandExact | main.c:93-115 | a payload is an open command exactly when it spells "abrir" and then ends or has a NUL, a close command likewise for "fechar"; truncation to 31 bytes cannot make or break a match |
| MqttWindow.CommandIgnored | main.c:99-114 | any other payload changes nothing |
| MqttWindow.CommandArmsOverride | main.c:101-103 | an accepted command activates the override with deadline now + 60 s (wrapping on uint64_t) and leaves the sensed values and the filter alone |
| MqttWindow.CommandMoves | main.c:104-112 | an accepted command moves the window as requested, gated only by the live interlock, not by rain, motion or obstacle flags |
| MqttWindow.CommandDeadlineIsFlat | main.c:102 | a second command replaces the deadline with 60 s after itself; deadlines never add up |
| MqttWindow.Controller.ArmOverride | main.c:101-103 | the override flag, the flat deadline and the MANUAL_TEMP publication |
| MqttWindow.Controller.OnCommand | main.c:93-115 | the data callback updates the globals exactly as the command function says |
| MqttWindow.Controller.OnConnection | main.c:119-128 | the connection flag follows the broker's answer |
| MqttWindow.Controller.constructor | main.c:143-162 | globals at their initial values, the coils stopped once, and prev_* sampled from the raw pins |
| MqttWindow.StartupOpens | main.c:148-166 | startup always ends open after one uninterrupted travel: initial stop, TOTAL_PASSOS opening phases, final stop; with the connection flag false and no callback during the move, it publishes nothing; the override stays off |
| MqttWindow.Controller.Startup | main.c:166 | the forced open, in place |
| MqttWindow.AfterSensing | main.c:173-185 | sensing leaves the window, the coils, the override and the temperature alone |
| MqttWindow.InitFilterValid | main.c:13-23 | at boot the counter is 0 and motion is not flagged |
| MqttWindow.SensingEffect | main.c:173-185 | the counter stays in 0..20 with motion flagged exactly at the cap; motion is flagged exactly when this sample was high and completed a streak of 20; rain and obstacle are the raw levels; nothing else changes |
| MqttWindow.Controller.Sense | main.c:173-185 | the pin sampling and the PIR filter, in place |
| MqttWindow.AfterChangeAlerts | main.c:188-199 | the change alerts touch neither the window, the coils, the override nor the sensed values |
| MqttWindow.ChangeAlertsPublish | main.c:188-199 | the alerts publish the change report as one list, gated by the connection |
| MqttWindow.ChangeReportExact | main.c:188-199 | every report names a changed value on its own topic with its new value; each changed value is reported once, an unchanged one never |
| MqttWindow.ChangeAlertsIdempotent | main.c:188-199 | after the alerts every prev_* equals its value, so a second round publishes nothing |
| MqttWindow.Controller.PublicarIfChanged | main.c:188-189 | one conditional publication |
| MqttWindow.Controller.ChangeAlerts | main.c:188-199 | the three conditional publications and prev_* updates, in place |
| MqttWindow.AfterTemperatureRead | main.c:202 | the temperature read touches neither the window, the coils, the override nor the sensed values |
| MqttWindow.Controller.ReadTemperature | main.c:202 | a fresh reading replaces the temperature once more than 2 s have passed |
| MqttWindow.AfterPeriodic | main.c:204-224 | the status round touches neither the window, the coils, the override nor the sensed values |
| MqttWindow.PeriodicRoundPublishes | main.c:204-224 | a round due after more than 3 s publishes, only while connected, the temperature, then the rain flag, then the blocked-in-rain alert when a sensor holds an open window in rain under automatic control; it restarts the period even when disconnected; a round not yet due changes nothing |
| MqttWindow.BlockAlertMeansRefusedClose | main.c:216-220 | the dashboard alert fires exactly when the open window is in rain under automatic control and the rule refuses to close it |
| MqttWindow.PeriodicSpacing | main.c:202-224 | right after a status round (or temperature read), none follows until more than 3 s (2 s) have passed |
| MqttWindow.Controller.PublishStatus | main.c:204-224 | the status round, in place; the period restarts even when disconnected |
| MqttWindow.AfterOverrideTimer | main.c:227-231 | the override stays active exactly when it was active and now has not passed the deadline; window and sensed values are untouched |
| MqttWindow.OverrideTimerEffect | main.c:227-231 | the override survives up to and including its deadline, ends on the first pass after it, which publishes AUTO and the return-to-automatic detail (when connected); a later pass publishes nothing more |
| MqttWindow.Controller.OverrideTimer | main.c:227-231 | the timer check, in place |
| MqttWindow.AutoRequest | main.c:234-246 | the move the automatic rule asks for in one pass: none under override; rain closes an open window with motion and obstacle clear; else heat above 33 °C opens a closed window; else cold below 25 °C closes an open, clear window; a request is never for the current position |
| MqttWindow.AutoRequestProperties | main.c:234-246 | under override no request; never a request for the current position; never a close while motion or an obstacle is flagged; an open is asked for only in dry weather above 33 °C, and a close only in rain or below 25 °C; none between the thresholds in dry weather; rain with clear sensors closes an open window; dry heat opens a closed one; dry cold with clear sensors closes an open one |
| MqttWindow.AutoRequestSettles | main.c:234-246 | no chattering: once the window is where the rule asked, the same readings ask for nothing more, because 25 °C < 33 °C |
| MqttWindow.AfterControl | main.c:234-246 | the control step changes only the window, the coils and the log |
| MqttWindow.Controller.ControlLogic | main.c:234-246 | the automatic rule, in place |
| MqttWindow.AfterTick | main.c:173-246 | one pass of the main loop: sensing, change alerts, temperature read, status round, override timer, then the automatic rule, in that order with one clock value |
| MqttWindow.BeforeControlKeepsWindow | main.c:173-231 | the stages before the control step never move the window; they keep the sensed values of this pass; the override is active afterwards exactly when it was active and not past its deadline |
| MqttWindow.TickKeepsFilter | main.c:173-246 | one pass keeps the debounce invariant |
| MqttWindow.TickMovesAtMostOnce | main.c:234-246 | one pass writes no coil at all, or exactly the writes of one `move_window` from the window's position at the start of the pass |
| MqttWindow.TickHonoursOverride | main.c:227-234 | while the override runs, a pass moves nothing and the override stays on |
| MqttWindow.RainCloses | main.c:235-237 | rain closes an open window in the same pass under automatic control, with the sensors and the interlock clear |
| MqttWindow.GatedConcat | main.c:46-48 | gating by the connection distributes over consecutive publications |
| MqttWindow.Controller.Tick | main.c:173-246 | one pass of the loop updates the globals exactly as the tick function says |
| AccessPointWindow.AfterMove | picow_access_point.c:157-183 | a move changes only the window flag and the coil log |
| AccessPointWindow.MoveNoOp | picow_access_point.c:158 | a move to where the window already is changes nothing |
| AccessPointWindow.MoveEffect | picow_access_point.c:159-181 | a real move leaves the window at the target, or open when a close was stopped; the coils get one phase per step taken, then all-off |
| AccessPointWindow.Controller.StopMotor | picow_access_point.c:153-155 | all four coils are written low |
| AccessPointWindow.Controller.MoveStep | picow_access_point.c:146-151 | the row of the given index is written to the coils |
| AccessPointWindow.Controller.DriveSteps | picow_access_point.c:159-179 | the step loop writes the phases of the steps taken and reports the first tripped step of a close |
| AccessPointWindow.Controller.MoveWindow | picow_access_point.c:157-183 | `move_window` updates the globals in place exactly as the move function says |
| AccessPointWindow.AfterSensing | picow_access_point.c:353-376 | sensing leaves the window, the coils, the temperature and the alert stamp alone |
| AccessPointWindow.SensingEffect | picow_access_point.c:358-376 | the counter stays in 0..20; each flag is raised exactly when its stamp is under 3 s old; stamps refresh exactly on raw rain, confirmed motion and raw obstacle, so a sighting raises its flag at once |
| AccessPointWindow.LatchExpires | picow_access_point.c:374-376 | a flag drops once its last sighting is 3 s old and this pass has none |
| AccessPointWindow.BootLatch | picow_access_point.c:370-376 | the stamps start at 0, so during the first 3 s of uptime rain, motion and obstacle are all latched whatever the pins read |
| AccessPointWindow.Controller.Sense | picow_access_point.c:353-376 | the PIR filter and the three latches, in place |
| AccessPointWindow.AfterTemperatureRead | picow_access_point.c:378-381 | only the temperature and its read stamp change |
| AccessPointWindow.Controller.ReadTemperature | picow_access_point.c:378-381 | a fresh reading replaces the temperature once more than 2 s have passed |
| AccessPointWindow.AutoAction | picow_access_point.c:404-433 | the automatic rule's choice in one pass: in rain, close an open window or hold the close when motion or an obstacle is latched; in dry weather open a closed window above 28 °C, or close (or hold) an open one below 23 °C; otherwise stay; an open is only of a closed window, a close only of an open one |
| AccessPointWindow.AutoActionProperties | picow_access_point.c:404-433 | a close only of an open window with motion and obstacle clear; a held close only of an open window with one latched; a close or a held close only in rain or below 23 °C; an open exactly of a closed window in dry weather above 28 °C; nothing between the thresholds when dry; rain, or dry cold below 23 °C, closes an open window when both sensors are clear and holds the close exactly when one of them is latched |
| AccessPointWindow.AutoActionSettles | picow_access_point.c:404-433 | no chattering: after the move the rule made, the same readings call for no further move, because 23 °C < 28 °C |
| AccessPointWindow.AfterControl | picow_access_point.c:404-433 | except for a held close, the control step changes only the window and the coils |
| AccessPointWindow.BlockAlertSpacing | picow_access_point.c:406-410 | the alert stamp moves, to now, only for a held close more than 0.5 s after the last alert; a held close moves nothing |
| AccessPointWindow.Controller.BlockAlert | picow_access_point.c:407-410 | the alert stamp is renewed only after more than 0.5 s |
| AccessPointWindow.Controller.ControlLogic | picow_access_point.c:404-433 | the automatic rule, in place |
| AccessPointWindow.TickKeepsFilter | picow_access_point.c:353-433 | one pass keeps the counter in 0..20 |
| AccessPointWindow.TickNeverClosesWhileLatched | picow_access_point.c:404-433 | a pass with motion or an obstacle latched never lowers an open window |
| AccessPointWindow.TickNeverOpensInRain | picow_access_point.c:404-416 | a pass with rain latched never opens a closed window |
| AccessPointWindow.Controller.Tick | picow_access_point.c:353-433 | one pass of the loop updates the globals exactly as the tick function says |
| AccessPointWindow.Controller.constructor | picow_access_point.c:326-342 | globals zero or false, the coils stopped once, the window taken as closed with no startup move |
| AccessPointWindow.WebMove | picow_access_point.c:211-222 | the move a scanned `janela=N` asks for: none in rain, an open for N == 1, otherwise a close unless motion or an obstacle is latched; a move is asked only when dry and a close only when both are clear |
| AccessPointWindow.WebMoveProperties | picow_access_point.c:211-222 | rain blocks every web command; an open is asked for exactly when it is dry and N == 1; a close exactly when it is dry, N != 1 and neither motion nor an obstacle is latched; nothing exactly in rain or for N != 1 under a latch |
| AccessPointWindow.AfterWebCommand | picow_access_point.c:212-224 | a web command changes only the window and the coils |
| AccessPointWindow.RecvResponse | picow_access_point.c:250-268 | an empty or non-GET segment gets no answer; a /control path without parameters (the only non-zero result_len) gets a 200 with the page of the unchanged state; every other GET gets the 302 redirect |
| AccessPointWindow.ContentHandler | picow_access_point.c:206-248 | server_content_handler: a /control path with parameters runs a scanned `janela=N` command and yields no body; /control without parameters yields the page; any other path yields no body; the state changes only by a move |
| AccessPointWindow.View | picow_access_point.c:227-246 | the page shows the temperature, the position and the three latched flags, and its button requests janela=0 exactly when the window is open and janela=1 exactly when it is closed |
| AccessPointWindow.AfterRecv | picow_access_point.c:250-272 | tcp_server_recv for one segment: no answer unless it is a non-empty GET; otherwise the handler on the split request line and the response for its content; the state changes only by a move |
| AccessPointWindow.ResponseChoice | picow_access_point.c:206-248 | the page, with no change of state, exactly for a /control path without parameters; a redirect for a command and for any other path; only a command changes the state, and only by a move |
| AccessPointWindow.RainIgnoresWeb | picow_access_point.c:215 | while rain is latched no request changes anything |
| AccessPointWindow.WebNeverClosesWhileLatched | picow_access_point.c:217-219 | while motion or an obstacle is latched no request lowers an open window |
| AccessPointWindow.ToggleRoundTrip | picow_access_point.c:243 | following the page's button moves the window to the other position, with a close still held by the latches and the interlock and nothing done in rain, and answers with a redirect |
| AccessPointWindow.ViewPage | picow_access_point.c:227-246 | loading /control without parameters shows the page for the current state and changes nothing |
| AccessPointWindow.Controller.ServerContentHandler | picow_access_point.c:206-248 | `server_content_handler` updates the globals and chooses the content exactly as the handler function says |
| AccessPointWindow.Controller.TcpServerRecv | picow_access_point.c:250-272 | one received segment: copy, GET test, in-place split, handler and response choice, exactly as the receive function says |

## Behaviour worth knowing

The model follows the code in each of these places:

- **Override expiry.** The override ends only when `now > fim_do_override` (main.c:227). At exactly the deadline it is still active, and it ends on the first pass after it (`OverrideTimerEffect`).
- **Motor phase.** The coil phase is not carried over from one move to the next. Both revisions restart the step index at 0 on every call (main.c:58, picow_access_point.c:160), so a move's first phase is row 1 when opening and row 7 when closing, whatever row the previous move ended on (`IndexAfter`, `PhaseWritesAt`).
- **Manual commands.** The two revisions gate them differently:
  - The MQTT revision passes an accepted `abrir`/`fechar` straight to `move_window`, so a manual close is stopped only by the live interlock (`CommandMoves`).
  - The access-point revision ignores every web command while rain is latched, opens included (picow_access_point.c:215).
  - It also refuses a web close while motion or an obstacle is latched (picow_access_point.c:218).
- **Rain and obstacle conditioning.** `main.c` takes rain and obstacle as read on every pass, with no hold (main.c:184-185). Only `picow_access_point.c` latches them for 3 s, and it latches confirmed motion too.
- **Interlock stop.** `main.c` publishes two alert messages when the interlock stops a close. `picow_access_point.c` publishes nothing and only prints a console message.
- **The 23 °C threshold.** The comment above the access-point rule mentions a different closing temperature from the 23.0 the code compares with (picow_access_point.c:402, 422). The model uses 23.0.

## Left out

- Wi-Fi association, access-point mode, and the DHCP and DNS servers are not modelled. Neither is the lwIP plumbing (`tcp_arg`, `tcp_write`, `tcp_recved`, `pbuf_free`, `tcp_close`, `calloc`/`free`) or the MQTT client's connect, subscribe and transport. These are foreign library calls.
- The I2C transactions (`bmp_read`, `bmp_write`, the register writes of `bmp280_init`) are foreign hardware calls. The bytes they return are parameters of `Bmp280.ReadCalibration` and `Bmp280.ReadTemperature`.
- Floating point is not modelled:
  - `current_temp_c = t / 100.0`: the model keeps the integer hundredths, an equivalent comparison as explained above.
  - The `%.1f` text of the temperature publication: it is the `Temperature(hundredths)` payload.
  - The HTML text of the status page: it is the `PageView` it displays.
- `printf` console output is not modelled. Neither are the access-point loop's `prev_rain_raw`, `prev_motion_confirmed`, `prev_obst_raw` and `last_print_time` (picow_access_point.c:340-346, 383-399), which feed only `printf`.
- `sleep_ms`/`sleep_us` are not modelled. They only pace the loop and the steps.
- `cyw43_arch_poll` inside the step loop is treated as a no-op. In the firmware it may deliver an MQTT or web callback that re-enters `move_window` in the middle of a move. That re-entrancy is a concurrency hazard outside a sequential model, so no callback runs during a move here. One consequence: the connection flag starts false and no callback can set it during the startup move, so in this model that move publishes nothing (`StartupOpens`). In the firmware, `mqtt_connection_cb` may run inside that move and the final status could then be published.
- The `!p` branch of `tcp_server_recv`, which closes the connection, and the poll and error callbacks belong to the TCP plumbing and are not modelled.
- AccessPointWindow.Controller.TcpServerRecv: models the first segment on a fresh connection, whose headers buffer is zeroed by `calloc`. On a later segment of the same connection, the copy is not NUL-terminated by the C code and would run into the previous contents. That case is not modelled.
- HttpRequest.ScanInt: a restricted `%d`: an optional sign and at least one digit. Leading whitespace and values beyond `int` are not modelled.
- MqttWindow.Controller.Tick: takes one clock value for the whole pass. The C loop reads `time_us_64()` several times per pass, microseconds apart. The same holds for AccessPointWindow.Controller.Tick.
- MqttWindow.Controller.OnCommand: takes the arrival time as a parameter. It stands for `get_absolute_time()` at line 102.
- The global `t_fine` that `bmp280_compensate_T` writes is returned as part of `Bmp280.Compensation` rather than stored.
