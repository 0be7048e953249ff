/**
 * The access-point revision of the window controller (picow_access_point.c):
 * the motor move with its live interlock, one pass of the main loop (the PIR
 * filter, the 3-second latches on rain, motion and obstacle, the temperature
 * read and the automatic rule with its 28/23 degree thresholds) and the web
 * server's request handling (the `/control?janela=N` command, the status page
 * and the choice between a 200 page and a 302 redirect).
 *
 * As in the MQTT revision, every operation is a function from the old State
 * to the new one (After*), about which the lemmas speak, and a method of
 * Controller that changes the same fields in place and is proved to land on
 * the function's result. This revision publishes nothing: its only outputs
 * are the coil writes, the web responses and console text, which is not
 * modelled.
 */
module AccessPointWindow {
  import opened Wrappers
  import opened Config
  import opened Clock
  import opened Stepper
  import opened SignalFilter
  import opened CString
  import opened HttpRequest

  /** The hard-coded thresholds of the automatic rule, in hundredths of a degree (28.0 and 23.0). */
  const LIMIAR_ABRIR := 2800
  const LIMIAR_FECHAR := 2300

  /** How long a rain, motion or obstacle sighting keeps its flag raised. */
  const LATCH_US := 3000000
  /** The delay between temperature reads. */
  const TEMP_READ_PERIOD_US := 2000000
  /** The least gap between two blocked-close alerts. */
  const BLOCK_ALERT_GAP_US := 500000

  /** WINDOW_CONTROL_URL. */
  const WINDOW_CONTROL_URL := "/control"

  /** The file-scope variables and the loop's locals that outlive one pass. */
  datatype State = State(
    windowIsOpen: bool,
    isRaining: bool,          // latched: rain seen within the last 3 s
    motionDetected: bool,     // latched: confirmed motion within the last 3 s
    obstacleDetected: bool,   // latched: obstacle seen within the last 3 s
    currentTemp: int,         // hundredths of a degree
    lastRainTime: u64,
    lastMotionTime: u64,
    lastObstacleTime: u64,
    pirFilterCounter: int,
    lastTempReadTime: u64,
    lastBlockAlertTime: u64,
    coils: seq<Coils>)        // every write to IN1..IN4, oldest first

  /** The state main() has built when it enters the loop: everything zero or false, the coils stopped once. */
  function Init(): State {
    State(false, false, false, false, 0, 0, 0, 0, 0, 0, 0, [ALL_OFF])
  }

  /** Only the window flag and the coil trace may differ. */
  predicate MovesOnly(s: State, t: State) {
    t.(windowIsOpen := s.windowIsOpen, coils := s.coils) == s
  }

  // ---- move_window ----

  /** move_window(abrindo), given the live interlock reads its closing loop would take. */
  function AfterMove(s: State, abrindo: bool, live: seq<LiveRead>): (t: State)
    requires |live| == TOTAL_PASSOS
    ensures MovesOnly(s, t)
  {
    var o := MoveOutcome(s.windowIsOpen, abrindo, live);
    if o.Unchanged? then s
    else s.(windowIsOpen := PositionAfter(s.windowIsOpen, abrindo, o),
            coils := s.coils + MoveCoils(abrindo, o))
  }

  /** A move to where the window already is does nothing at all. */
  lemma MoveNoOp(s: State, abrindo: bool, live: seq<LiveRead>)
    requires |live| == TOTAL_PASSOS
    requires s.windowIsOpen == abrindo
    ensures AfterMove(s, abrindo, live) == s
  {
  }

  /**
   * A real move ends with the window where it was sent, except that a close
   * the interlock stopped leaves it open with no phase written after the
   * tripped read; the coils receive one phase per step taken and then all-off.
   */
  lemma MoveEffect(s: State, abrindo: bool, live: seq<LiveRead>)
    requires |live| == TOTAL_PASSOS
    requires s.windowIsOpen != abrindo
    ensures var t := AfterMove(s, abrindo, live);
            && t.windowIsOpen == (abrindo || FirstTrip(live, 0).Some?)
            && t.coils == s.coils + PhaseWrites(abrindo, StepsTaken(abrindo, live)) + [ALL_OFF]
  {
    MovePosition(s.windowIsOpen, abrindo, live);
  }

  // ---- one pass of the main loop ----

  /** `now - since < 3000000` on uint64_t: a sighting at `since` still holds its flag at `now`. */
  predicate Latched(now: u64, since: u64) {
    Elapsed(now, since) < LATCH_US
  }

  /**
   * Lines 353-376: sample the pins, run the PIR filter, stamp each sighting
   * (raw rain, confirmed motion, raw obstacle) with the pass's time, and raise
   * each flag while its last stamp is under 3 s old.
   */
  function AfterSensing(s: State, now: u64, rainLevel: bool, pirLevel: bool, tcrtLevel: bool): (t: State)
    ensures t.windowIsOpen == s.windowIsOpen && t.coils == s.coils
    ensures t.currentTemp == s.currentTemp && t.lastTempReadTime == s.lastTempReadTime
    ensures t.lastBlockAlertTime == s.lastBlockAlertTime
  {
    var confirmed := ReachedThreshold(s.pirFilterCounter, pirLevel);
    var rainTime := if !rainLevel then now else s.lastRainTime;
    var motionTime := if confirmed then now else s.lastMotionTime;
    var obstacleTime := if !tcrtLevel then now else s.lastObstacleTime;
    s.(pirFilterCounter := DebounceStep(s.pirFilterCounter, pirLevel),
       lastRainTime := rainTime, lastMotionTime := motionTime, lastObstacleTime := obstacleTime,
       isRaining := Latched(now, rainTime),
       motionDetected := Latched(now, motionTime),
       obstacleDetected := Latched(now, obstacleTime))
  }

  /** The counter invariant of the PIR filter. */
  predicate FilterValid(s: State) {
    0 <= s.pirFilterCounter <= CICLOS_FILTRO_MOVIMENTO
  }

  /**
   * Sensing keeps the counter in 0..20; each flag is raised exactly when its
   * stamp is under 3 s old; a stamp is refreshed exactly on raw rain (rain
   * output low), on confirmed motion (this sample high and completing a
   * streak of 20) and on a raw obstacle (TCRT output low), so each sighting
   * raises its flag at once.
   */
  lemma SensingEffect(s: State, now: u64, rainLevel: bool, pirLevel: bool, tcrtLevel: bool)
    requires FilterValid(s)
    ensures var t := AfterSensing(s, now, rainLevel, pirLevel, tcrtLevel);
            && FilterValid(t)
            && (t.isRaining <==> Elapsed(now, t.lastRainTime) < LATCH_US)
            && (t.motionDetected <==> Elapsed(now, t.lastMotionTime) < LATCH_US)
            && (t.obstacleDetected <==> Elapsed(now, t.lastObstacleTime) < LATCH_US)
            && t.lastRainTime == (if !rainLevel then now else s.lastRainTime)
            && t.lastMotionTime
               == (if pirLevel && s.pirFilterCounter + 1 >= CICLOS_FILTRO_MOVIMENTO then now else s.lastMotionTime)
            && t.lastObstacleTime == (if !tcrtLevel then now else s.lastObstacleTime)
            && (!rainLevel ==> t.isRaining)
            && (!tcrtLevel ==> t.obstacleDetected)
  {
  }

  /**
   * A flag drops once its sighting is 3 s old and nothing has refreshed it:
   * with no rain at this pass and the last rain stamp 3 s old or more, it is
   * not raining; likewise for motion and obstacle.
   */
  lemma LatchExpires(s: State, now: u64, rainLevel: bool, pirLevel: bool, tcrtLevel: bool)
    ensures var t := AfterSensing(s, now, rainLevel, pirLevel, tcrtLevel);
            && (rainLevel && Elapsed(now, s.lastRainTime) >= LATCH_US ==> !t.isRaining)
            && (!pirLevel && Elapsed(now, s.lastMotionTime) >= LATCH_US ==> !t.motionDetected)
            && (tcrtLevel && Elapsed(now, s.lastObstacleTime) >= LATCH_US ==> !t.obstacleDetected)
  {
  }

  /**
   * The stamps start at 0, so during the first 3 s of uptime every pass finds
   * rain, motion and an obstacle latched, whatever the pins read.
   */
  lemma BootLatch(now: u64, rainLevel: bool, pirLevel: bool, tcrtLevel: bool)
    requires now < LATCH_US
    ensures var t := AfterSensing(Init(), now, rainLevel, pirLevel, tcrtLevel);
            t.isRaining && t.motionDetected && t.obstacleDetected
  {
  }

  /** Lines 378-381: a fresh reading replaces the temperature once more than 2 s have passed. */
  function AfterTemperatureRead(s: State, now: u64, reading: int): (t: State)
    ensures t.(currentTemp := s.currentTemp, lastTempReadTime := s.lastTempReadTime) == s
  {
    if Elapsed(now, s.lastTempReadTime) > TEMP_READ_PERIOD_US
    then s.(currentTemp := reading, lastTempReadTime := now)
    else s
  }

  /** What the automatic rule does in one pass. */
  datatype Action =
    | Stay          // nothing to do
    | Open          // move_window(true)
    | Close         // move_window(false)
    | HoldBlocked   // a close is called for but motion or an obstacle is latched

  /** Lines 404-433: the automatic rule. */
  function AutoAction(s: State): (a: Action)
    ensures a == Open ==> !s.windowIsOpen
    ensures a == Close || a == HoldBlocked ==> s.windowIsOpen
  {
    if s.isRaining then
      if !s.windowIsOpen then Stay
      else if s.motionDetected || s.obstacleDetected then HoldBlocked
      else Close
    else if s.currentTemp > LIMIAR_ABRIR && !s.windowIsOpen then Open
    else if s.currentTemp < LIMIAR_FECHAR && s.windowIsOpen then
      if s.motionDetected || s.obstacleDetected then HoldBlocked else Close
    else Stay
  }

  /**
   * What the rule guarantees: a close only of an open window and never while
   * motion or an obstacle is latched; an open only of a closed window, in dry
   * weather and above 28 degrees; nothing in dry weather between the two
   * thresholds; rain, or dry cold below 23 degrees, closes an open window
   * whenever both sensors are clear, and holds the close exactly when one of
   * them is latched.
   */
  lemma AutoActionProperties(s: State)
    ensures AutoAction(s) == Close ==> s.windowIsOpen && !s.motionDetected && !s.obstacleDetected
    ensures AutoAction(s) == HoldBlocked ==> s.windowIsOpen && (s.motionDetected || s.obstacleDetected)
    ensures AutoAction(s) == Open <==> !s.isRaining && !s.windowIsOpen && s.currentTemp > LIMIAR_ABRIR
    ensures !s.isRaining && LIMIAR_FECHAR <= s.currentTemp <= LIMIAR_ABRIR ==> AutoAction(s) == Stay
    ensures s.isRaining && s.windowIsOpen && !s.motionDetected && !s.obstacleDetected
            ==> AutoAction(s) == Close
    ensures !s.isRaining && s.currentTemp < LIMIAR_FECHAR && s.windowIsOpen
            && !s.motionDetected && !s.obstacleDetected
            ==> AutoAction(s) == Close
    ensures s.windowIsOpen && (s.isRaining || s.currentTemp < LIMIAR_FECHAR)
            && (s.motionDetected || s.obstacleDetected)
            ==> AutoAction(s) == HoldBlocked
    ensures AutoAction(s) == Close || AutoAction(s) == HoldBlocked
            ==> s.isRaining || s.currentTemp < LIMIAR_FECHAR
  {
  }

  /**
   * No chattering: once the window is where the rule moved it, the rule asks
   * for no further move under the same readings, because 23 < 28.
   */
  lemma AutoActionSettles(s: State)
    requires AutoAction(s) == Open || AutoAction(s) == Close
    ensures var t := s.(windowIsOpen := AutoAction(s) == Open);
            AutoAction(t) == Stay
  {
  }

  /**
   * The control step at time `now`: the move the rule asks for, or for a held
   * close the alert stamp, renewed only when the last alert is more than
   * 0.5 s old.
   */
  function AfterControl(s: State, now: u64, live: seq<LiveRead>): (t: State)
    requires |live| == TOTAL_PASSOS
    ensures AutoAction(s) != HoldBlocked ==> MovesOnly(s, t)
  {
    match AutoAction(s)
    case Stay => s
    case Open => AfterMove(s, true, live)
    case Close => AfterMove(s, false, live)
    case HoldBlocked =>
      if Elapsed(now, s.lastBlockAlertTime) > BLOCK_ALERT_GAP_US then s.(lastBlockAlertTime := now) else s
  }

  /**
   * The blocked-close alert fires (its stamp moves to now) only for a held
   * close and only when more than 0.5 s have passed since the last one; a
   * held close moves nothing.
   */
  lemma BlockAlertSpacing(s: State, now: u64, live: seq<LiveRead>)
    requires |live| == TOTAL_PASSOS
    ensures var t := AfterControl(s, now, live);
            && (t.lastBlockAlertTime != s.lastBlockAlertTime
                ==> AutoAction(s) == HoldBlocked && Elapsed(now, s.lastBlockAlertTime) > BLOCK_ALERT_GAP_US
                    && t.lastBlockAlertTime == now)
            && (AutoAction(s) == HoldBlocked ==> t.windowIsOpen == s.windowIsOpen && t.coils == s.coils)
  {
  }

  /** The stages of one pass before the control step. */
  function BeforeControl(s: State, now: u64, rainLevel: bool, pirLevel: bool, tcrtLevel: bool,
                         reading: int): State
  {
    AfterTemperatureRead(AfterSensing(s, now, rainLevel, pirLevel, tcrtLevel), now, reading)
  }

  /** One pass of the main loop (lines 353-433), with a single clock value for the pass. */
  function AfterTick(s: State, now: u64, rainLevel: bool, pirLevel: bool, tcrtLevel: bool,
                     reading: int, live: seq<LiveRead>): State
    requires |live| == TOTAL_PASSOS
  {
    AfterControl(BeforeControl(s, now, rainLevel, pirLevel, tcrtLevel, reading), now, live)
  }

  /** One pass keeps the counter invariant of the PIR filter. */
  lemma TickKeepsFilter(s: State, now: u64, rainLevel: bool, pirLevel: bool, tcrtLevel: bool,
                        reading: int, live: seq<LiveRead>)
    requires |live| == TOTAL_PASSOS
    requires FilterValid(s)
    ensures FilterValid(AfterTick(s, now, rainLevel, pirLevel, tcrtLevel, reading, live))
  {
    SensingEffect(s, now, rainLevel, pirLevel, tcrtLevel);
  }

  /**
   * An open window is never lowered by a pass in which motion or an obstacle
   * is latched: the rule holds the close, whatever the live reads would say.
   */
  lemma TickNeverClosesWhileLatched(s: State, now: u64, rainLevel: bool, pirLevel: bool, tcrtLevel: bool,
                                    reading: int, live: seq<LiveRead>)
    requires |live| == TOTAL_PASSOS
    requires s.windowIsOpen
    ensures var b := BeforeControl(s, now, rainLevel, pirLevel, tcrtLevel, reading);
            b.motionDetected || b.obstacleDetected
            ==> AfterTick(s, now, rainLevel, pirLevel, tcrtLevel, reading, live).windowIsOpen
  {
    var b := BeforeControl(s, now, rainLevel, pirLevel, tcrtLevel, reading);
    AutoActionProperties(b);
  }

  /** A pass in which rain is latched never opens a closed window. */
  lemma TickNeverOpensInRain(s: State, now: u64, rainLevel: bool, pirLevel: bool, tcrtLevel: bool,
                             reading: int, live: seq<LiveRead>)
    requires |live| == TOTAL_PASSOS
    requires !s.windowIsOpen
    ensures BeforeControl(s, now, rainLevel, pirLevel, tcrtLevel, reading).isRaining
            ==> !AfterTick(s, now, rainLevel, pirLevel, tcrtLevel, reading, live).windowIsOpen
  {
    var b := BeforeControl(s, now, rainLevel, pirLevel, tcrtLevel, reading);
    AutoActionProperties(b);
  }

  // ---- the web server ----

  /**
   * The move a `janela=N` command asks for: none while rain is latched; an
   * open for N == 1; for any other N a close, refused while motion or an
   * obstacle is latched.
   */
  function WebMove(s: State, n: int): (m: Option<bool>)
    ensures m.Some? ==> !s.isRaining
    ensures m == Some(false) ==> !s.motionDetected && !s.obstacleDetected
  {
    if s.isRaining then None
    else if n == 1 then Some(true)
    else if s.motionDetected || s.obstacleDetected then None
    else Some(false)
  }

  /**
   * Rain blocks every web command; otherwise N == 1 always opens, and a close
   * is requested exactly for N != 1 with neither motion nor an obstacle latched.
   */
  lemma WebMoveProperties(s: State, n: int)
    ensures s.isRaining ==> WebMove(s, n).None?
    ensures !s.isRaining && n == 1 ==> WebMove(s, n) == Some(true)
    ensures WebMove(s, n) == Some(false) <==> !s.isRaining && n != 1 && !s.motionDetected && !s.obstacleDetected
    ensures WebMove(s, n) == Some(true) <==> !s.isRaining && n == 1
    ensures WebMove(s, n).None? <==> s.isRaining || (n != 1 && (s.motionDetected || s.obstacleDetected))
  {
  }

  /** A parsed `janela=N` command. */
  function AfterWebCommand(s: State, n: int, live: seq<LiveRead>): (t: State)
    requires |live| == TOTAL_PASSOS
    ensures MovesOnly(s, t)
  {
    match WebMove(s, n)
    case None => s
    case Some(abrindo) => AfterMove(s, abrindo, live)
  }

  /** What the status page shows; `toggle` is the N its button link requests. */
  datatype PageView = PageView(
    temperature: int, isOpen: bool, raining: bool, motion: bool, obstacle: bool, toggle: int)

  /** The status page for a state: the button offers the opposite of the window's position. */
  function View(s: State): (v: PageView)
    ensures v.isOpen == s.windowIsOpen
    ensures v.toggle == 1 <==> !v.isOpen
    ensures v.toggle == 0 <==> v.isOpen
  {
    PageView(s.currentTemp, s.windowIsOpen, s.isRaining, s.motionDetected, s.obstacleDetected,
             if s.windowIsOpen then 0 else 1)
  }

  /** server_content_handler's result: no body (length 0) or the status page. */
  datatype Content = NoBody | Page(view: PageView)

  /**
   * server_content_handler: on a path starting with /control, a request with
   * parameters runs the command if it scans and yields no body; one without
   * yields the page. Any other path yields no body.
   */
  function ContentHandler(s: State, line: RequestLine, live: seq<LiveRead>): (r: (State, Content))
    requires |live| == TOTAL_PASSOS
    ensures MovesOnly(s, r.0)
  {
    if StartsWith(line.path, WINDOW_CONTROL_URL) then
      if line.params.Some? then
        (match ParseJanela(line.params.value)
         case None => s
         case Some(n) => AfterWebCommand(s, n, live),
         NoBody)
      else (s, Page(View(s)))
    else (s, NoBody)
  }

  /** The response tcp_server_recv queues. */
  datatype Response = Ok200(view: PageView) | Redirect302

  /** A body gets a 200 with it; no body gets a redirect to /control. */
  function ResponseFor(c: Content): Response
  {
    match c
    case Page(v) => Ok200(v)
    case NoBody => Redirect302
  }

  /** tcp_server_recv for one received segment: the new state and the response, if any. */
  function AfterRecv(s: State, packet: seq<char>, live: seq<LiveRead>): (r: (State, Option<Response>))
    requires |live| == TOTAL_PASSOS
    ensures MovesOnly(s, r.0)
    ensures r.1.None? ==> r.0 == s
  {
    match ParseRequest(packet)
    case None => (s, None)
    case Some(line) =>
      var (t, c) := ContentHandler(s, line, live);
      (t, Some(ResponseFor(c)))
  }

  /**
   * What a received segment is answered with: nothing for an empty or non-GET
   * segment; a 200 with the status page of the unchanged state exactly for a
   * /control path without parameters (the only case where the handler's
   * result_len is non-zero); a 302 redirect for everything else.
   */
  lemma RecvResponse(s: State, packet: seq<char>, live: seq<LiveRead>)
    requires |live| == TOTAL_PASSOS
    ensures var (t, response) := AfterRecv(s, packet, live);
            && (response.None? <==> ParseRequest(packet).None?)
            && (response.Some? ==>
                  var line := ParseRequest(packet).value;
                  if StartsWith(line.path, WINDOW_CONTROL_URL) && line.params.None?
                  then response.value == Ok200(View(s)) && t == s
                  else response.value == Redirect302)
  {
    if ParseRequest(packet).Some? {
      ResponseChoice(s, ParseRequest(packet).value, live);
    }
  }

  /**
   * The response choice: the page (and no change of state) exactly for a
   * /control path without parameters; a redirect for a command and for any
   * other path; only a command can change the state, and then only by a move.
   */
  lemma ResponseChoice(s: State, line: RequestLine, live: seq<LiveRead>)
    requires |live| == TOTAL_PASSOS
    ensures var (t, c) := ContentHandler(s, line, live);
            && (c.Page? <==> StartsWith(line.path, WINDOW_CONTROL_URL) && line.params.None?)
            && (c.Page? ==> t == s && c.view == View(s))
            && (!StartsWith(line.path, WINDOW_CONTROL_URL) ==> t == s)
            && MovesOnly(s, t)
  {
  }

  /** While rain is latched no request changes anything. */
  lemma RainIgnoresWeb(s: State, packet: seq<char>, live: seq<LiveRead>)
    requires |live| == TOTAL_PASSOS
    requires s.isRaining
    ensures AfterRecv(s, packet, live).0 == s
  {
    match ParseRequest(packet)
    case None =>
    case Some(line) =>
      WebMoveProperties(s, 0);
  }

  /** While motion or an obstacle is latched no request lowers an open window. */
  lemma WebNeverClosesWhileLatched(s: State, packet: seq<char>, live: seq<LiveRead>)
    requires |live| == TOTAL_PASSOS
    requires s.windowIsOpen && (s.motionDetected || s.obstacleDetected)
    ensures AfterRecv(s, packet, live).0.windowIsOpen
  {
  }

  /** The request the status page's button sends. */
  function ToggleRequest(s: State, rest: string): string {
    "GET " + WINDOW_CONTROL_URL + "?" + ("janela=" + FormatInt(View(s).toggle)) + " " + rest
  }

  /**
   * Following the page's button moves the window to the other position (a
   * close still subject to the latches and the live interlock) and answers
   * with a redirect; while rain is latched it does nothing.
   */
  lemma ToggleRoundTrip(s: State, rest: string, live: seq<LiveRead>)
    requires |live| == TOTAL_PASSOS
    ensures var (t, r) := AfterRecv(s, ToggleRequest(s, rest), live);
            && r == Some(Redirect302)
            && t == (if s.isRaining || (s.windowIsOpen && (s.motionDetected || s.obstacleDetected)) then s
                     else AfterMove(s, !s.windowIsOpen, live))
  {
    var n := View(s).toggle;
    var query := "janela=" + FormatInt(n);
    assert FormatInt(n) == [if n == 0 then '0' else '1'];
    assert PlainText(WINDOW_CONTROL_URL);
    SplitWithQuery(WINDOW_CONTROL_URL, query, rest);
    ParseJanelaFormat(n, []);
    assert query + [] == query;
    assert StartsWith(WINDOW_CONTROL_URL, WINDOW_CONTROL_URL);
  }

  /** Loading /control without parameters shows the page for the current state and changes nothing. */
  lemma ViewPage(s: State, rest: string, live: seq<LiveRead>)
    requires |live| == TOTAL_PASSOS
    requires '?' !in rest
    ensures AfterRecv(s, "GET " + WINDOW_CONTROL_URL + " " + rest, live) == (s, Some(Ok200(View(s))))
  {
    assert PlainText(WINDOW_CONTROL_URL);
    SplitWithoutQuery(WINDOW_CONTROL_URL, rest);
    assert StartsWith(WINDOW_CONTROL_URL, WINDOW_CONTROL_URL);
  }

  // ---- the controller itself ----

  /** The firmware's globals and the loop's persistent locals, updated in place. */
  class Controller {
    var windowIsOpen: bool
    var isRaining: bool
    var motionDetected: bool
    var obstacleDetected: bool
    var currentTemp: int
    var lastRainTime: u64
    var lastMotionTime: u64
    var lastObstacleTime: u64
    var pirFilterCounter: int
    var lastTempReadTime: u64
    var lastBlockAlertTime: u64
    var coils: seq<Coils>

    function Snapshot(): State
      reads this
    {
      State(windowIsOpen, isRaining, motionDetected, obstacleDetected, currentTemp, lastRainTime,
            lastMotionTime, lastObstacleTime, pirFilterCounter, lastTempReadTime, lastBlockAlertTime, coils)
    }

    /** main() up to the loop: globals initialised, coils stopped, the window taken as closed. */
    constructor()
      ensures Snapshot() == Init()
    {
      windowIsOpen := false;
      isRaining := false;
      motionDetected := false;
      obstacleDetected := false;
      currentTemp := 0;
      lastRainTime := 0;
      lastMotionTime := 0;
      lastObstacleTime := 0;
      pirFilterCounter := 0;
      lastTempReadTime := 0;
      lastBlockAlertTime := 0;
      coils := [ALL_OFF];
    }

    /** stop_motor. */
    method StopMotor()
      modifies this`coils
      ensures coils == old(coils) + [ALL_OFF]
    {
      coils := coils + [ALL_OFF];
    }

    /** move_step: write row idx of the half-step table. */
    method MoveStep(idx: int)
      requires 0 <= idx < 8
      modifies this`coils
      ensures coils == old(coils) + [HalfStep(idx)]
    {
      coils := coils + [HALF_STEP_SEQUENCE[idx]];
    }

    /**
     * The for-loop of move_window: one phase per step, the index moving +1
     * (opening) or -1 (closing) mod 8 from 0, and before every closing step
     * the live interlock read, which ends the loop when it trips. Returns the
     * step at which it stopped, if it did.
     */
    method DriveSteps(abrindo: bool, live: seq<LiveRead>) returns (stopped: Option<nat>)
      requires |live| == TOTAL_PASSOS
      modifies this`coils
      ensures stopped == if abrindo then None else FirstTrip(live, 0)
      ensures coils == old(coils) + PhaseWrites(abrindo, StepsTaken(abrindo, live))
    {
      var currentStepIndex := 0;
      var i := 0;
      while i < TOTAL_PASSOS
        invariant 0 <= i <= TOTAL_PASSOS
        invariant currentStepIndex == IndexAfter(abrindo, i)
        invariant coils == old(coils) + PhaseWrites(abrindo, i)
        invariant !abrindo ==> forall j :: 0 <= j < i ==> !Tripped(live[j])
      {
        if !abrindo {
          var seguranca := live[i];
          if seguranca.pir || !seguranca.tcrt {
            assert FirstTrip(live, 0) == Some(i);
            return Some(i);
          }
        }
        currentStepIndex := if abrindo then (currentStepIndex + 1) % 8 else (currentStepIndex - 1 + 8) % 8;
        MoveStep(currentStepIndex);
        PhaseWritesSnoc(abrindo, i);
        i := i + 1;
      }
      assert !abrindo ==> FirstTrip(live, 0).None?;
      return None;
    }

    /** move_window: nothing when already there; else step, stop the coils and record the position. */
    method MoveWindow(abrindo: bool, live: seq<LiveRead>)
      requires |live| == TOTAL_PASSOS
      modifies this`windowIsOpen, this`coils
      ensures Snapshot() == AfterMove(old(Snapshot()), abrindo, live)
    {
      if windowIsOpen == abrindo {
        return;
      }
      var stopped := DriveSteps(abrindo, live);
      StopMotor();
      if stopped.Some? {
        // the interlock fired: the window is taken as open
        windowIsOpen := true;
      } else {
        windowIsOpen := abrindo;
      }
      MoveEffect(old(Snapshot()), abrindo, live);
    }

    /** Lines 353-376: the PIR filter and the three latches. */
    method Sense(now: u64, rainLevel: bool, pirLevel: bool, tcrtLevel: bool)
      modifies this`pirFilterCounter, this`lastRainTime, this`lastMotionTime, this`lastObstacleTime,
               this`isRaining, this`motionDetected, this`obstacleDetected
      ensures Snapshot() == AfterSensing(old(Snapshot()), now, rainLevel, pirLevel, tcrtLevel)
    {
      var rainRaw := !rainLevel;
      var motionRaw := pirLevel;
      var obstRaw := !tcrtLevel;
      var motionConfirmedNow := false;
      if motionRaw {
        pirFilterCounter := pirFilterCounter + 1;
        if pirFilterCounter >= CICLOS_FILTRO_MOVIMENTO {
          motionConfirmedNow := true;
          pirFilterCounter := CICLOS_FILTRO_MOVIMENTO;
        }
      } else {
        pirFilterCounter := 0;
        motionConfirmedNow := false;
      }
      if rainRaw {
        lastRainTime := now;
      }
      if motionConfirmedNow {
        lastMotionTime := now;
      }
      if obstRaw {
        lastObstacleTime := now;
      }
      isRaining := Elapsed(now, lastRainTime) < LATCH_US;
      motionDetected := Elapsed(now, lastMotionTime) < LATCH_US;
      obstacleDetected := Elapsed(now, lastObstacleTime) < LATCH_US;
    }

    /** Lines 378-381. */
    method ReadTemperature(now: u64, reading: int)
      modifies this`currentTemp, this`lastTempReadTime
      ensures Snapshot() == AfterTemperatureRead(old(Snapshot()), now, reading)
    {
      if Elapsed(now, lastTempReadTime) > TEMP_READ_PERIOD_US {
        currentTemp := reading;
        lastTempReadTime := now;
      }
    }

    /** A held close: the alert, at most every 0.5 s. */
    method BlockAlert(now: u64)
      modifies this`lastBlockAlertTime
      ensures lastBlockAlertTime
           == if Elapsed(now, old(lastBlockAlertTime)) > BLOCK_ALERT_GAP_US then now else old(lastBlockAlertTime)
    {
      if Elapsed(now, lastBlockAlertTime) > BLOCK_ALERT_GAP_US {
        lastBlockAlertTime := now;
      }
    }

    /** Lines 404-433. */
    method ControlLogic(now: u64, live: seq<LiveRead>)
      requires |live| == TOTAL_PASSOS
      modifies this`windowIsOpen, this`coils, this`lastBlockAlertTime
      ensures Snapshot() == AfterControl(old(Snapshot()), now, live)
    {
      if isRaining {
        if windowIsOpen {
          if motionDetected || obstacleDetected {
            BlockAlert(now);
          } else {
            MoveWindow(false, live);
          }
        }
      } else {
        if currentTemp > LIMIAR_ABRIR && !windowIsOpen {
          MoveWindow(true, live);
        } else if currentTemp < LIMIAR_FECHAR && windowIsOpen {
          if motionDetected || obstacleDetected {
            BlockAlert(now);
          } else {
            MoveWindow(false, live);
          }
        }
      }
    }

    /** One pass of the main loop at boot time `now`, with the pins and the temperature as read. */
    method Tick(now: u64, rainLevel: bool, pirLevel: bool, tcrtLevel: bool, reading: int,
                live: seq<LiveRead>)
      requires |live| == TOTAL_PASSOS
      modifies this
      ensures Snapshot() == AfterTick(old(Snapshot()), now, rainLevel, pirLevel, tcrtLevel, reading, live)
    {
      Sense(now, rainLevel, pirLevel, tcrtLevel);
      ReadTemperature(now, reading);
      ControlLogic(now, live);
    }

    /** server_content_handler, given the request path and the parameters (NULL as None). */
    method ServerContentHandler(request: string, params: Option<string>, live: seq<LiveRead>)
      returns (content: Content)
      requires |live| == TOTAL_PASSOS
      modifies this`windowIsOpen, this`coils
      ensures (Snapshot(), content) == ContentHandler(old(Snapshot()), RequestLine(request, params), live)
    {
      if StartsWith(request, WINDOW_CONTROL_URL) {
        if params.Some? {
          var newState := ParseJanela(params.value);
          if newState.Some? {
            if !isRaining {
              if newState.value == 1 {
                MoveWindow(true, live);
              } else if motionDetected || obstacleDetected {
                // refused: only reported on the console
              } else {
                MoveWindow(false, live);
              }
            }
          }
          return NoBody;
        }
        return Page(View(Snapshot()));
      }
      return NoBody;
    }

    /**
     * tcp_server_recv for one non-empty received segment on a fresh
     * connection: copy at most 127 bytes into the zeroed headers buffer, and
     * for a GET split the request line in place, run the handler and choose
     * the response. None when nothing is sent.
     */
    method TcpServerRecv(packet: seq<char>, live: seq<LiveRead>) returns (response: Option<Response>)
      requires |live| == TOTAL_PASSOS
      modifies this`windowIsOpen, this`coils
      ensures (Snapshot(), response) == AfterRecv(old(Snapshot()), packet, live)
    {
      if |packet| == 0 {
        return None;
      }
      var copied := CopyHeaders(packet);
      var headers := new char[HEADERS_SIZE](i requires 0 <= i < HEADERS_SIZE => copied[i]);
      assert headers[..] == copied;
      if !IsGet(headers[..]) {
        return None;
      }
      var params := SplitInPlace(headers);
      var request := CStr(headers[..], REQUEST_START);
      var paramText := if params.Some? then Some(CStr(headers[..], params.value)) else None;
      assert RequestLine(request, paramText) == SplitRequestLine(copied);
      var content := ServerContentHandler(request, paramText, live);
      response := Some(ResponseFor(content));
    }
  }
}
