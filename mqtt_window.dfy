/**
 * The MQTT revision of the window controller (main.c): the global state, the
 * motor move with its live interlock and status publications, the command
 * callback that starts a 60-second manual override, and one pass of the main
 * loop (sensor conditioning, change alerts, periodic publications, the
 * override timer and the automatic rule).
 *
 * Every operation is given twice: as a function from the old State to the new
 * one (After*), about which the lemmas speak, and as a method of Controller,
 * which changes the same fields in place step by step and is proved to land
 * on the function's result.
 *
 * Time is the boot clock in microseconds, passed in; pin levels are passed in
 * as read (true = high); temperatures are integer hundredths of a degree, the
 * value bmp280_compensate_T returns; publications are appended to a log, and
 * coil writes to another.
 */
module MqttWindow {
  import opened Wrappers
  import opened Config
  import opened Clock
  import opened Stepper
  import opened SignalFilter
  import opened CString

  /** What a publication carries: a fixed text, or the temperature sprintf renders with "%.1f". */
  datatype Payload = Text(m: Message) | Temperature(hundredths: int)

  /** The topics main.c publishes on. */
  datatype Topic =
    | PublicaTemp | PublicaChuva | PublicaModo | PublicaMovimento | PublicaObstaculo
    | StatusSimples | MotivoDetalhe

  /** The topic string mqtt_publish receives; never the command topic the controller subscribes to. */
  function TopicName(t: Topic): (name: string)
    ensures name in PUBLISHED_TOPICS && name != TOPICO_SUBSCREVE_CMD
  {
    match t
    case PublicaTemp => TOPICO_PUBLICA_TEMP
    case PublicaChuva => TOPICO_PUBLICA_CHUVA
    case PublicaModo => TOPICO_PUBLICA_MODO
    case PublicaMovimento => TOPICO_PUBLICA_MOVIMENTO
    case PublicaObstaculo => TOPICO_PUBLICA_OBSTACULO
    case StatusSimples => TOPICO_STATUS_SIMPLES
    case MotivoDetalhe => TOPICO_MOTIVO_DETALHE
  }

  datatype Publication = Publication(topic: Topic, payload: Payload)

  /** The file-scope variables of main.c that the loop and the callbacks share. */
  datatype State = State(
    windowIsOpen: bool,
    isRaining: bool,
    motionDetected: bool,
    obstacleDetected: bool,
    prevMotion: bool,
    prevObstacle: bool,
    prevRain: bool,
    overrideActive: bool,
    overrideEnd: u64,
    currentTemp: int,
    lastPubTime: u64,
    lastTempReadTime: u64,
    pirFilterCounter: int,
    mqttConnected: bool,
    coils: seq<Coils>,              // every write to IN1..IN4, oldest first
    published: seq<Publication>)    // every mqtt_publish issued, oldest first

  /** The delay between temperature reads and between periodic publications. */
  const TEMP_READ_PERIOD_US := 2000000
  const PUBLISH_PERIOD_US := 3000000

  /** The publications of a list that publicar lets through: all of them while connected, none otherwise. */
  function Gated(connected: bool, pubs: seq<Publication>): seq<Publication> {
    if connected then pubs else []
  }

  /** The fixed texts main.c publishes. */
  datatype Message =
    | Aberta | Fechada | Detectado | Livre | ChuvaSim | ChuvaNao | ManualTemp | Auto
    | Inicializacao | ComandoManual | ChuvaDetectada | CalorExcessivo | TemperaturaBaixa
    | Bloqueio | Concluido | TimerAcionado | AlertaChuvaBloqueado | RetornoAutomatico

  /** The characters each text puts on the wire. */
  function MessageText(m: Message): string {
    match m
    case Aberta => "ABERTA"
    case Fechada => "FECHADA"
    case Detectado => "DETECTADO"
    case Livre => "LIVRE"
    case ChuvaSim => "1"
    case ChuvaNao => "0"
    case ManualTemp => "MANUAL_TEMP"
    case Auto => "AUTO"
    case Inicializacao => "Inicializacao do Sistema"
    case ComandoManual => "Comando Manual (App)"
    case ChuvaDetectada => "Chuva Detectada!"
    case CalorExcessivo => "Calor excessivo"
    case TemperaturaBaixa => "Temperatura baixa"
    case Bloqueio => "BLOQUEIO: Objeto ou Movimento!"
    case Concluido => "Operacao concluida com sucesso"
    case TimerAcionado => "Timer Acionado (Aguardando...)"
    case AlertaChuvaBloqueado => "ALERTA: Chuva mas Bloqueado!"
    case RetornoAutomatico => "Retorno ao Modo Automatico"
  }

  function Detection(b: bool): Message { if b then Detectado else Livre }
  function RainFlag(b: bool): Message { if b then ChuvaSim else ChuvaNao }
  function StatusText(isOpen: bool): Message { if isOpen then Aberta else Fechada }

  /**
   * The state main() has built when it enters the startup move: globals at
   * their initial values, the coils stopped once, and the prev_* flags taken
   * from the raw pins (prev_motion from the undebounced PIR level).
   */
  function Init(rainLevel: bool, pirLevel: bool, tcrtLevel: bool): State {
    State(false, false, false, false, pirLevel, !tcrtLevel, !rainLevel,
          false, 0, 0, 0, 0, 0, false, [ALL_OFF], [])
  }

  // ---- move_window ----

  /** What a move publishes: its reason first, then the resulting status and how it ended. */
  function MoveReport(abrindo: bool, motivo: Message, o: Outcome): seq<Publication> {
    [Publication(MotivoDetalhe, Text(motivo))]
    + if o.Aborted? then
        [Publication(StatusSimples, Text(Aberta)), Publication(MotivoDetalhe, Text(Bloqueio))]
      else
        [Publication(StatusSimples, Text(StatusText(abrindo))), Publication(MotivoDetalhe, Text(Concluido))]
  }

  /** Only the window flag, the coil trace and the publication log may differ. */
  predicate MovesOnly(s: State, t: State) {
    t.(windowIsOpen := s.windowIsOpen, coils := s.coils, published := s.published) == s
  }

  /** move_window(abrindo, motivo), given the live interlock reads its closing loop would take. */
  function AfterMove(s: State, abrindo: bool, motivo: Message, live: seq<LiveRead>): (t: State)
    requires |live| == TOTAL_PASSOS
    ensures MovesOnly(s, t)
  {
    var o := MoveOutcome(s.windowIsOpen, abrindo, live);
    if o.Unchanged? then s
    else s.(windowIsOpen := PositionAfter(s.windowIsOpen, abrindo, o),
            coils := s.coils + MoveCoils(abrindo, o),
            published := s.published + Gated(s.mqttConnected, MoveReport(abrindo, motivo, o)))
  }

  /** A move to where the window already is does nothing at all: no phase, no publication. */
  lemma MoveNoOp(s: State, abrindo: bool, motivo: Message, live: seq<LiveRead>)
    requires |live| == TOTAL_PASSOS
    requires s.windowIsOpen == abrindo
    ensures AfterMove(s, abrindo, motivo, live) == s
  {
  }

  /**
   * A real move ends with the window where it was sent, except that a close
   * the interlock stopped leaves it open; the coils receive one phase per step
   * taken and then all-off; nothing but the window flag and the two logs
   * changes.
   */
  lemma MoveEffect(s: State, abrindo: bool, motivo: Message, live: seq<LiveRead>)
    requires |live| == TOTAL_PASSOS
    requires s.windowIsOpen != abrindo
    ensures var t := AfterMove(s, abrindo, motivo, live);
            && t.windowIsOpen == (abrindo || (!abrindo && FirstTrip(live, 0).Some?))
            && |t.coils| == |s.coils| + StepsTaken(abrindo, live) + 1
            && t.coils[..|s.coils|] == s.coils
            && t.coils[|t.coils| - 1] == ALL_OFF
            && t.(windowIsOpen := s.windowIsOpen, coils := s.coils, published := s.published) == s
  {
    MovePosition(s.windowIsOpen, abrindo, live);
    var t := AfterMove(s, abrindo, motivo, live);
    assert t.coils[..|s.coils|] == s.coils;
  }

  /**
   * When connected, a real move publishes its reason, then the status that
   * matches the window's new position, then the completion notice or, for a
   * close the interlock stopped, the block notice.
   */
  lemma MoveReportsStatus(s: State, abrindo: bool, motivo: Message, live: seq<LiveRead>)
    requires |live| == TOTAL_PASSOS
    requires s.windowIsOpen != abrindo
    ensures var t := AfterMove(s, abrindo, motivo, live);
            var stopped := !abrindo && FirstTrip(live, 0).Some?;
            t.published == s.published + Gated(s.mqttConnected, [
              Publication(MotivoDetalhe, Text(motivo)),
              Publication(StatusSimples, Text(StatusText(t.windowIsOpen))),
              Publication(MotivoDetalhe, Text(if stopped then Bloqueio else Concluido))])
  {
    MovePosition(s.windowIsOpen, abrindo, live);
  }

  /** A real move, written out as the three pieces move_window produces in turn. */
  lemma MoveUnfolds(s: State, abrindo: bool, motivo: Message, live: seq<LiveRead>, stopped: bool)
    requires |live| == TOTAL_PASSOS
    requires s.windowIsOpen != abrindo
    requires stopped == (!abrindo && FirstTrip(live, 0).Some?)
    ensures AfterMove(s, abrindo, motivo, live)
         == s.(windowIsOpen := stopped || abrindo,
               coils := s.coils + PhaseWrites(abrindo, StepsTaken(abrindo, live)) + [ALL_OFF],
               published := s.published
                 + Gated(s.mqttConnected, [Publication(MotivoDetalhe, Text(motivo))])
                 + Gated(s.mqttConnected, [Publication(StatusSimples, Text(if stopped then Aberta else StatusText(abrindo)))])
                 + Gated(s.mqttConnected, [Publication(MotivoDetalhe, Text(if stopped then Bloqueio else Concluido))]))
  {
    MovePosition(s.windowIsOpen, abrindo, live);
  }

  /** Opening never looks at the interlock: the result does not depend on the live reads. */
  lemma OpeningIgnoresInterlock(s: State, motivo: Message, live1: seq<LiveRead>, live2: seq<LiveRead>)
    requires |live1| == TOTAL_PASSOS && |live2| == TOTAL_PASSOS
    ensures AfterMove(s, true, motivo, live1) == AfterMove(s, true, motivo, live2)
  {
  }

  /**
   * A close ends with the window closed exactly when no live read along the
   * whole travel tripped the interlock; otherwise the window stays open.
   */
  lemma CloseCompletesIffClear(s: State, motivo: Message, live: seq<LiveRead>)
    requires |live| == TOTAL_PASSOS
    requires s.windowIsOpen
    ensures !AfterMove(s, false, motivo, live).windowIsOpen
        <==> forall j :: 0 <= j < TOTAL_PASSOS ==> !Tripped(live[j])
  {
  }

  // ---- mqtt_incoming_data_cb ----

  /** The payload buffer's capacity less its terminator. */
  const PAYLOAD_MAX := 31

  /**
   * The command in a received payload: at most 31 bytes are kept and the C
   * string they form (up to the first NUL) must equal "abrir" (open) or
   * "fechar" (close) exactly. None for anything else.
   */
  function DecodeCommand(data: seq<char>): Option<bool> {
    var payload := CStr(data[..Min(|data|, PAYLOAD_MAX)], 0);
    if payload == "abrir" then Some(true)
    else if payload == "fechar" then Some(false)
    else None
  }

  /** A payload holding exactly `word`, possibly followed by a NUL and anything. */
  predicate IsWord(data: seq<char>, word: string) {
    |word| <= |data| && data[..|word|] == word && (|data| == |word| || data[|word|] == NUL)
  }

  /** The string at the start of a buffer is `word` (NUL-free) exactly when the buffer spells it and then ends or has a NUL. */
  lemma CStrIsWord(b: seq<char>, word: string)
    requires NUL !in word
    ensures CStr(b, 0) == word <==> IsWord(b, word)
  {
    if IsWord(b, word) {
      assert forall j :: 0 <= j < |word| ==> b[j] == word[j] != NUL;
      CEndAt(b, 0, |word|);
    }
  }

  /**
   * The decoder accepts exactly the payloads that spell "abrir" or "fechar" and
   * then end (or carry a NUL): truncation to 31 bytes can neither create nor
   * spoil a match.
   */
  lemma DecodeCommandExact(data: seq<char>)
    ensures DecodeCommand(data) == Some(true) <==> IsWord(data, "abrir")
    ensures DecodeCommand(data) == Some(false) <==> IsWord(data, "fechar")
  {
    var b := data[..Min(|data|, PAYLOAD_MAX)];
    CStrIsWord(b, "abrir");
    CStrIsWord(b, "fechar");
    if |data| >= 5 {
      assert b[..5] == data[..5];
    }
    if |data| >= 6 {
      assert b[..6] == data[..6];
      assert b[5] == data[5];
    }
    if |data| >= 7 {
      assert b[6] == data[6];
    }
  }

  /** The first half of an accepted command: override on, flat deadline, MANUAL_TEMP announced. */
  function Armed(s: State, now: u64): State {
    s.(overrideActive := true, overrideEnd := AddU64(now, OVERRIDE_US),
       published := s.published + Gated(s.mqttConnected, [Publication(PublicaModo, Text(ManualTemp))]))
  }

  /** mqtt_incoming_data_cb at boot time `now`. */
  function AfterCommand(s: State, data: seq<char>, now: u64, live: seq<LiveRead>): State
    requires |live| == TOTAL_PASSOS
  {
    match DecodeCommand(data)
    case None => s
    case Some(abrindo) =>
      var m := AfterMove(Armed(s, now), abrindo, ComandoManual, live);
      m.(published := m.published + Gated(m.mqttConnected, [Publication(MotivoDetalhe, Text(TimerAcionado))]))
  }

  /** Any payload other than "abrir" or "fechar" changes nothing. */
  lemma CommandIgnored(s: State, data: seq<char>, now: u64, live: seq<LiveRead>)
    requires |live| == TOTAL_PASSOS
    requires DecodeCommand(data).None?
    ensures AfterCommand(s, data, now, live) == s
  {
  }

  /**
   * An accepted command starts the override with a deadline 60 s after now,
   * whatever deadline was pending (it is replaced, not extended), and leaves
   * the sensed values and the PIR filter alone.
   */
  lemma CommandArmsOverride(s: State, data: seq<char>, now: u64, live: seq<LiveRead>)
    requires |live| == TOTAL_PASSOS
    requires DecodeCommand(data).Some?
    ensures var t := AfterCommand(s, data, now, live);
            && t.overrideActive
            && t.overrideEnd == AddU64(now, OVERRIDE_US)
            && KeepsSensing(s, t)
  {
  }

  /**
   * An accepted command moves the window as requested subject only to the
   * live interlock: rain, the debounced motion flag and the obstacle flag
   * play no part.
   */
  lemma CommandMoves(s: State, data: seq<char>, now: u64, live: seq<LiveRead>)
    requires |live| == TOTAL_PASSOS
    requires DecodeCommand(data).Some?
    ensures var t := AfterCommand(s, data, now, live);
            var abrindo := DecodeCommand(data).value;
            var o := MoveOutcome(s.windowIsOpen, abrindo, live);
            && t.windowIsOpen == PositionAfter(s.windowIsOpen, abrindo, o)
            && t.coils == s.coils + MoveCoils(abrindo, o)
  {
  }

  /** Two commands in a row: the deadline is 60 s after the second one, not 120 s after the first. */
  lemma CommandDeadlineIsFlat(s: State, d1: seq<char>, d2: seq<char>, now1: u64, now2: u64,
                              live1: seq<LiveRead>, live2: seq<LiveRead>)
    requires |live1| == TOTAL_PASSOS && |live2| == TOTAL_PASSOS
    requires DecodeCommand(d2).Some?
    ensures AfterCommand(AfterCommand(s, d1, now1, live1), d2, now2, live2).overrideEnd
         == AddU64(now2, OVERRIDE_US)
  {
    CommandArmsOverride(AfterCommand(s, d1, now1, live1), d2, now2, live2);
  }

  /** mqtt_connection_cb: the connection flag follows the broker's answer. */
  function AfterConnection(s: State, accepted: bool): State {
    s.(mqttConnected := accepted)
  }

  // ---- startup ----

  /** main()'s forced open before entering the loop. */
  function AfterStartup(s: State, live: seq<LiveRead>): State
    requires |live| == TOTAL_PASSOS
  {
    AfterMove(s, true, Inicializacao, live)
  }

  /**
   * Startup always opens the window with one full uninterrupted travel: the
   * coils see the initial stop, TOTAL_PASSOS opening phases and a final stop.
   * Nothing is published: the connection flag starts false, and in this
   * model no callback runs during a move (the per-step poll is a no-op), so
   * the flag is still false when the move reports.
   */
  lemma StartupOpens(rainLevel: bool, pirLevel: bool, tcrtLevel: bool, live: seq<LiveRead>)
    requires |live| == TOTAL_PASSOS
    ensures var t := AfterStartup(Init(rainLevel, pirLevel, tcrtLevel), live);
            && t.windowIsOpen
            && t.coils == [ALL_OFF] + PhaseWrites(true, TOTAL_PASSOS) + [ALL_OFF]
            && t.published == []
            && !t.overrideActive
  {
  }

  // ---- one pass of the main loop ----

  /**
   * The debounce invariant of the loop: the counter stays within 0..20 and the
   * motion flag is set exactly when it sits at its cap.
   */
  predicate FilterValid(s: State) {
    0 <= s.pirFilterCounter <= CICLOS_FILTRO_MOVIMENTO
    && (s.motionDetected <==> s.pirFilterCounter == CICLOS_FILTRO_MOVIMENTO)
  }

  /** The window, its coils and the override are as they were: a stage that only observes and reports. */
  predicate KeepsActuation(s: State, t: State) {
    t.windowIsOpen == s.windowIsOpen && t.coils == s.coils
    && t.overrideActive == s.overrideActive && t.overrideEnd == s.overrideEnd
  }

  /** The conditioned sensor values and the PIR filter are as they were. */
  predicate KeepsSensing(s: State, t: State) {
    t.motionDetected == s.motionDetected && t.isRaining == s.isRaining
    && t.obstacleDetected == s.obstacleDetected && t.pirFilterCounter == s.pirFilterCounter
    && t.currentTemp == s.currentTemp
  }

  /** Lines 173-185: sample the pins, run the PIR filter, take rain and obstacle as read. */
  function AfterSensing(s: State, rainLevel: bool, pirLevel: bool, tcrtLevel: bool): (t: State)
    ensures KeepsActuation(s, t) && t.currentTemp == s.currentTemp
  {
    var motion :=
      if !pirLevel then false
      else if ReachedThreshold(s.pirFilterCounter, pirLevel) then true
      else s.motionDetected;
    s.(pirFilterCounter := DebounceStep(s.pirFilterCounter, pirLevel),
       motionDetected := motion,
       isRaining := !rainLevel,
       obstacleDetected := !tcrtLevel)
  }

  lemma InitFilterValid(rainLevel: bool, pirLevel: bool, tcrtLevel: bool)
    ensures FilterValid(Init(rainLevel, pirLevel, tcrtLevel))
  {
  }

  /**
   * Sensing keeps the debounce invariant; afterwards motion is flagged exactly
   * when this sample was high and completed a streak of 20, rain exactly when
   * the rain output is low, an obstacle exactly when the TCRT output is low.
   */
  lemma SensingEffect(s: State, rainLevel: bool, pirLevel: bool, tcrtLevel: bool)
    requires FilterValid(s)
    ensures var t := AfterSensing(s, rainLevel, pirLevel, tcrtLevel);
            && FilterValid(t)
            && (t.motionDetected <==> pirLevel && s.pirFilterCounter + 1 >= CICLOS_FILTRO_MOVIMENTO)
            && (t.isRaining <==> !rainLevel)
            && (t.obstacleDetected <==> !tcrtLevel)
            && t.(pirFilterCounter := s.pirFilterCounter, motionDetected := s.motionDetected,
                  isRaining := s.isRaining, obstacleDetected := s.obstacleDetected) == s
  {
  }

  /** The change reports of lines 188-199, in order: obstacle, motion, rain. */
  function ChangeReport(s: State): seq<Publication> {
    ObstacleReport(s) + MotionReport(s) + RainReport(s)
  }

  /** The report of one value: its publication if it changed, nothing otherwise. */
  function IfChanged(changed: bool, p: Publication): seq<Publication> {
    if changed then [p] else []
  }

  function ObstacleReport(s: State): seq<Publication> {
    IfChanged(s.obstacleDetected != s.prevObstacle, Publication(PublicaObstaculo, Text(Detection(s.obstacleDetected))))
  }

  function MotionReport(s: State): seq<Publication> {
    IfChanged(s.motionDetected != s.prevMotion, Publication(PublicaMovimento, Text(Detection(s.motionDetected))))
  }

  function RainReport(s: State): seq<Publication> {
    IfChanged(s.isRaining != s.prevRain, Publication(PublicaChuva, Text(RainFlag(s.isRaining))))
  }

  /**
   * Lines 188-199: report each conditioned value that changed, one publicar
   * at a time, and remember it as reported.
   */
  function AfterChangeAlerts(s: State): (t: State)
    ensures KeepsActuation(s, t) && KeepsSensing(s, t)
  {
    s.(prevObstacle := s.obstacleDetected, prevMotion := s.motionDetected, prevRain := s.isRaining,
       published := s.published + Gated(s.mqttConnected, ObstacleReport(s))
                    + Gated(s.mqttConnected, MotionReport(s)) + Gated(s.mqttConnected, RainReport(s)))
  }

  /** The alerts publish the change report, gated as a whole by the connection. */
  lemma ChangeAlertsPublish(s: State)
    ensures AfterChangeAlerts(s).published == s.published + Gated(s.mqttConnected, ChangeReport(s))
  {
    GatedConcat(s.mqttConnected, ObstacleReport(s) + MotionReport(s), RainReport(s));
    GatedConcat(s.mqttConnected, ObstacleReport(s), MotionReport(s));
  }

  /** A publication that reports a change of one of the three conditioned values. */
  predicate ReportsChange(s: State, p: Publication) {
    || (p.topic == PublicaObstaculo && s.obstacleDetected != s.prevObstacle
        && p.payload == Text(Detection(s.obstacleDetected)))
    || (p.topic == PublicaMovimento && s.motionDetected != s.prevMotion
        && p.payload == Text(Detection(s.motionDetected)))
    || (p.topic == PublicaChuva && s.isRaining != s.prevRain
        && p.payload == Text(RainFlag(s.isRaining)))
  }

  /**
   * Every change report names a value that changed, on that value's topic,
   * with its new value; each changed value is reported exactly once, and an
   * unchanged one never.
   */
  lemma ChangeReportExact(s: State)
    ensures forall i :: 0 <= i < |ChangeReport(s)| ==> ReportsChange(s, ChangeReport(s)[i])
    ensures |ChangeReport(s)|
         == Bit(s.obstacleDetected != s.prevObstacle) + Bit(s.motionDetected != s.prevMotion)
            + Bit(s.isRaining != s.prevRain)
    ensures (exists i :: 0 <= i < |ChangeReport(s)| && ChangeReport(s)[i].topic == PublicaObstaculo)
         <==> s.obstacleDetected != s.prevObstacle
    ensures (exists i :: 0 <= i < |ChangeReport(s)| && ChangeReport(s)[i].topic == PublicaMovimento)
         <==> s.motionDetected != s.prevMotion
    ensures (exists i :: 0 <= i < |ChangeReport(s)| && ChangeReport(s)[i].topic == PublicaChuva)
         <==> s.isRaining != s.prevRain
  {
    var a := ObstacleReport(s);
    var b := MotionReport(s);
    var c := RainReport(s);
    var r := ChangeReport(s);
    assert r == a + b + c;
    forall i | 0 <= i < |r| ensures ReportsChange(s, r[i]) {
      if i < |a| { assert r[i] == a[i]; }
      else if i < |a| + |b| { assert r[i] == b[i - |a|]; }
      else { assert r[i] == c[i - |a| - |b|]; }
    }
    if s.obstacleDetected != s.prevObstacle { assert r[0].topic == PublicaObstaculo; }
    if s.motionDetected != s.prevMotion { assert r[|a|].topic == PublicaMovimento; }
    if s.isRaining != s.prevRain { assert r[|a| + |b|].topic == PublicaChuva; }
  }

  /** After the alerts every prev_* equals its value, so a second round reports nothing. */
  lemma ChangeAlertsIdempotent(s: State)
    ensures AfterChangeAlerts(AfterChangeAlerts(s)) == AfterChangeAlerts(s)
  {
    var t := AfterChangeAlerts(s);
    assert ChangeReport(t) == [];
    assert Gated(t.mqttConnected, ChangeReport(t)) == [];
    assert t.published + [] == t.published;
  }

  /** Line 202: a fresh reading replaces the temperature once more than 2 s have passed. */
  function AfterTemperatureRead(s: State, now: u64, reading: int): (t: State)
    ensures KeepsActuation(s, t)
    ensures t.motionDetected == s.motionDetected && t.isRaining == s.isRaining
         && t.obstacleDetected == s.obstacleDetected && t.pirFilterCounter == s.pirFilterCounter
  {
    if Elapsed(now, s.lastTempReadTime) > TEMP_READ_PERIOD_US
    then s.(currentTemp := reading, lastTempReadTime := now)
    else s
  }

  /** The window is open in rain with the automatic rule active but a sensor holds it. */
  predicate BlockedInRain(s: State) {
    s.windowIsOpen && s.isRaining && !s.overrideActive && (s.motionDetected || s.obstacleDetected)
  }

  /** The publications of one status round (lines 205-221). */
  function StatusRound(s: State): seq<Publication> {
    [Publication(PublicaTemp, Temperature(s.currentTemp)), Publication(PublicaChuva, Text(RainFlag(s.isRaining)))]
    + if BlockedInRain(s) then [Publication(MotivoDetalhe, Text(AlertaChuvaBloqueado))] else []
  }

  /** Lines 204-224: a status round once more than 3 s have passed; the period restarts even when disconnected. */
  function AfterPeriodic(s: State, now: u64): (t: State)
    ensures KeepsActuation(s, t) && KeepsSensing(s, t)
  {
    if Elapsed(now, s.lastPubTime) > PUBLISH_PERIOD_US
    then s.(lastPubTime := now, published := s.published + Gated(s.mqttConnected, StatusRound(s)))
    else s
  }

  /**
   * A due round publishes, while connected, the temperature, then the rain
   * flag, then the blocked-in-rain alert when a sensor holds an open window in
   * rain; it restarts the period at `now` even when disconnected. A round not
   * yet due changes nothing.
   */
  lemma PeriodicRoundPublishes(s: State, now: u64)
    ensures Elapsed(now, s.lastPubTime) > PUBLISH_PERIOD_US
            ==> AfterPeriodic(s, now).lastPubTime == now
                && AfterPeriodic(s, now).published
                   == s.published
                      + (if s.mqttConnected
                         then [Publication(PublicaTemp, Temperature(s.currentTemp)),
                               Publication(PublicaChuva, Text(RainFlag(s.isRaining)))]
                              + (if s.windowIsOpen && s.isRaining && !s.overrideActive
                                    && (s.motionDetected || s.obstacleDetected)
                                 then [Publication(MotivoDetalhe, Text(AlertaChuvaBloqueado))] else [])
                         else [])
    ensures Elapsed(now, s.lastPubTime) <= PUBLISH_PERIOD_US ==> AfterPeriodic(s, now) == s
  {
  }

  /**
   * The dashboard alert of a status round fires exactly when rain calls for a
   * close of the open window under automatic control and the rule refuses it.
   */
  lemma BlockAlertMeansRefusedClose(s: State)
    ensures BlockedInRain(s)
        <==> s.windowIsOpen && s.isRaining && !s.overrideActive && AutoRequest(s).None?
  {
  }

  /**
   * Rounds are spaced: right after one at `now`, no further round (and no
   * temperature read) happens until the clock is more than 3 s (2 s) past it.
   */
  lemma PeriodicSpacing(s: State, now: u64, later: u64, reading: int)
    requires Elapsed(now, s.lastPubTime) > PUBLISH_PERIOD_US
    requires Elapsed(later, now) <= PUBLISH_PERIOD_US
    ensures AfterPeriodic(AfterPeriodic(s, now), later) == AfterPeriodic(s, now)
    ensures Elapsed(now, s.lastTempReadTime) > TEMP_READ_PERIOD_US && Elapsed(later, now) <= TEMP_READ_PERIOD_US
            ==> AfterTemperatureRead(AfterTemperatureRead(s, now, reading), later, reading)
                == AfterTemperatureRead(s, now, reading)
  {
  }

  /** Lines 227-231: the override ends once now is strictly past its deadline. */
  function AfterOverrideTimer(s: State, now: u64): (t: State)
    ensures KeepsSensing(s, t)
    ensures t.windowIsOpen == s.windowIsOpen && t.coils == s.coils
    ensures t.overrideActive <==> s.overrideActive && now <= s.overrideEnd
  {
    if s.overrideActive && now > s.overrideEnd then
      s.(overrideActive := false,
         published := s.published + Gated(s.mqttConnected, [Publication(PublicaModo, Text(Auto)),
                                              Publication(MotivoDetalhe, Text(RetornoAutomatico))]))
    else s
  }

  /**
   * The override survives up to and including its deadline and ends on the
   * first pass after it, which announces AUTO and the return to automatic
   * mode while connected; the announcement is made once: a later pass finds
   * nothing to do.
   */
  lemma OverrideTimerEffect(s: State, now: u64, later: u64)
    ensures AfterOverrideTimer(s, now).overrideActive <==> s.overrideActive && now <= s.overrideEnd
    ensures !(s.overrideActive && now > s.overrideEnd) ==> AfterOverrideTimer(s, now) == s
    ensures s.overrideActive && now > s.overrideEnd
            ==> AfterOverrideTimer(AfterOverrideTimer(s, now), later) == AfterOverrideTimer(s, now)
    ensures s.overrideActive && now > s.overrideEnd
            ==> AfterOverrideTimer(s, now).published
                == s.published + Gated(s.mqttConnected, [Publication(PublicaModo, Text(Auto)),
                                                         Publication(MotivoDetalhe, Text(RetornoAutomatico))])
  {
  }

  /** A move the automatic rule asks for: direction and the reason published with it. */
  datatype Request = Request(abrindo: bool, motivo: Message)

  /** Lines 234-246: the automatic rule, suspended while the override is active. */
  function AutoRequest(s: State): (r: Option<Request>)
    ensures r.Some? ==> !s.overrideActive && r.value.abrindo != s.windowIsOpen
  {
    if s.overrideActive then None
    else if s.isRaining then
      if s.windowIsOpen && !s.motionDetected && !s.obstacleDetected
      then Some(Request(false, ChuvaDetectada)) else None
    else if s.currentTemp > TEMP_PARA_ABRIR && !s.windowIsOpen then Some(Request(true, CalorExcessivo))
    else if s.currentTemp < TEMP_PARA_FECHAR && s.windowIsOpen && !s.motionDetected && !s.obstacleDetected
    then Some(Request(false, TemperaturaBaixa))
    else None
  }

  /**
   * What the rule guarantees: nothing under override; never a request for the
   * position the window already has; never a close while motion or an
   * obstacle is flagged; never an open in rain; no request at all in dry
   * weather between the two thresholds; an open window in rain with both
   * sensors clear is always asked to close, a closed one in dry heat to open,
   * and an open one in dry cold with both sensors clear to close.
   */
  lemma AutoRequestProperties(s: State)
    ensures s.overrideActive ==> AutoRequest(s).None?
    ensures AutoRequest(s).Some? ==> AutoRequest(s).value.abrindo != s.windowIsOpen
    ensures AutoRequest(s).Some? && !AutoRequest(s).value.abrindo
            ==> !s.motionDetected && !s.obstacleDetected
    ensures s.isRaining && AutoRequest(s).Some? ==> !AutoRequest(s).value.abrindo
    ensures !s.isRaining && TEMP_PARA_FECHAR <= s.currentTemp <= TEMP_PARA_ABRIR ==> AutoRequest(s).None?
    ensures !s.overrideActive && s.isRaining && s.windowIsOpen && !s.motionDetected && !s.obstacleDetected
            ==> AutoRequest(s) == Some(Request(false, ChuvaDetectada))
    ensures !s.overrideActive && !s.isRaining && s.currentTemp > TEMP_PARA_ABRIR && !s.windowIsOpen
            ==> AutoRequest(s) == Some(Request(true, CalorExcessivo))
    ensures !s.overrideActive && !s.isRaining && s.currentTemp < TEMP_PARA_FECHAR && s.windowIsOpen
            && !s.motionDetected && !s.obstacleDetected
            ==> AutoRequest(s) == Some(Request(false, TemperaturaBaixa))
    ensures AutoRequest(s).Some? && AutoRequest(s).value.abrindo
            ==> !s.isRaining && s.currentTemp > TEMP_PARA_ABRIR
    ensures AutoRequest(s).Some? && !AutoRequest(s).value.abrindo
            ==> s.isRaining || s.currentTemp < TEMP_PARA_FECHAR
  {
  }

  /**
   * No chattering: once the window is where the rule asked for, the rule asks
   * for nothing more under the same readings. This rests on the hysteresis
   * band TEMP_PARA_FECHAR < TEMP_PARA_ABRIR.
   */
  lemma AutoRequestSettles(s: State)
    requires AutoRequest(s).Some?
    ensures AutoRequest(s.(windowIsOpen := AutoRequest(s).value.abrindo)).None?
  {
    ThresholdsOrdered();
  }

  /** The control step: at most one move, the one the rule asks for. */
  function AfterControl(s: State, live: seq<LiveRead>): (t: State)
    requires |live| == TOTAL_PASSOS
    ensures MovesOnly(s, t)
  {
    match AutoRequest(s)
    case None => s
    case Some(r) => AfterMove(s, r.abrindo, r.motivo, live)
  }

  /** The stages of one pass before the control step. */
  function BeforeControl(s: State, now: u64, rainLevel: bool, pirLevel: bool, tcrtLevel: bool,
                         reading: int): State
  {
    var s1 := AfterSensing(s, rainLevel, pirLevel, tcrtLevel);
    var s2 := AfterChangeAlerts(s1);
    var s3 := AfterTemperatureRead(s2, now, reading);
    var s4 := AfterPeriodic(s3, now);
    AfterOverrideTimer(s4, now)
  }

  /** One pass of the main loop (lines 173-246), with a single clock value for the pass. */
  function AfterTick(s: State, now: u64, rainLevel: bool, pirLevel: bool, tcrtLevel: bool,
                     reading: int, live: seq<LiveRead>): State
    requires |live| == TOTAL_PASSOS
  {
    AfterControl(BeforeControl(s, now, rainLevel, pirLevel, tcrtLevel, reading), live)
  }

  /** The stages before the control step never touch the window or the coils, nor the sensed values. */
  lemma BeforeControlKeepsWindow(s: State, now: u64, rainLevel: bool, pirLevel: bool,
                                 tcrtLevel: bool, reading: int)
    ensures var s1 := AfterSensing(s, rainLevel, pirLevel, tcrtLevel);
            var s5 := BeforeControl(s, now, rainLevel, pirLevel, tcrtLevel, reading);
            && s5.windowIsOpen == s.windowIsOpen && s5.coils == s.coils
            && s5.pirFilterCounter == s1.pirFilterCounter && s5.motionDetected == s1.motionDetected
            && s5.isRaining == s1.isRaining && s5.obstacleDetected == s1.obstacleDetected
            && (s5.overrideActive <==> s.overrideActive && now <= s.overrideEnd)
  {
  }

  /** One pass keeps the debounce invariant of the PIR filter. */
  lemma TickKeepsFilter(s: State, now: u64, rainLevel: bool, pirLevel: bool, tcrtLevel: bool,
                        reading: int, live: seq<LiveRead>)
    requires |live| == TOTAL_PASSOS
    requires FilterValid(s)
    ensures FilterValid(AfterTick(s, now, rainLevel, pirLevel, tcrtLevel, reading, live))
  {
    SensingEffect(s, rainLevel, pirLevel, tcrtLevel);
    BeforeControlKeepsWindow(s, now, rainLevel, pirLevel, tcrtLevel, reading);
  }

  /**
   * One pass moves the window at most once: the coils receive nothing, or
   * exactly the writes of one move_window call from the window's position at
   * the start of the pass.
   */
  lemma TickMovesAtMostOnce(s: State, now: u64, rainLevel: bool, pirLevel: bool, tcrtLevel: bool,
                            reading: int, live: seq<LiveRead>)
    requires |live| == TOTAL_PASSOS
    ensures var t := AfterTick(s, now, rainLevel, pirLevel, tcrtLevel, reading, live);
            || t.coils == s.coils
            || exists a: bool :: t.coils == s.coils + MoveCoils(a, MoveOutcome(s.windowIsOpen, a, live))
  {
    var s5 := BeforeControl(s, now, rainLevel, pirLevel, tcrtLevel, reading);
    BeforeControlKeepsWindow(s, now, rainLevel, pirLevel, tcrtLevel, reading);
    match AutoRequest(s5)
    case None =>
    case Some(r) =>
      var o := MoveOutcome(s5.windowIsOpen, r.abrindo, live);
      assert AfterTick(s, now, rainLevel, pirLevel, tcrtLevel, reading, live).coils
          == s.coils + MoveCoils(r.abrindo, o);
  }

  /** While the override is still running a pass moves nothing and the override stays on. */
  lemma TickHonoursOverride(s: State, now: u64, rainLevel: bool, pirLevel: bool, tcrtLevel: bool,
                            reading: int, live: seq<LiveRead>)
    requires |live| == TOTAL_PASSOS
    requires s.overrideActive && now <= s.overrideEnd
    ensures var t := AfterTick(s, now, rainLevel, pirLevel, tcrtLevel, reading, live);
            t.windowIsOpen == s.windowIsOpen && t.coils == s.coils && t.overrideActive
  {
    BeforeControlKeepsWindow(s, now, rainLevel, pirLevel, tcrtLevel, reading);
  }

  /**
   * Rain closes an open window within the same pass when the automatic rule is
   * in charge, neither sensor is flagged, and the interlock stays clear along
   * the travel.
   */
  lemma RainCloses(s: State, now: u64, pirLevel: bool, tcrtLevel: bool, reading: int, live: seq<LiveRead>)
    requires |live| == TOTAL_PASSOS
    requires FilterValid(s)
    requires s.windowIsOpen && !(s.overrideActive && now <= s.overrideEnd)
    requires !pirLevel && tcrtLevel
    requires forall j :: 0 <= j < TOTAL_PASSOS ==> !Tripped(live[j])
    ensures !AfterTick(s, now, false, pirLevel, tcrtLevel, reading, live).windowIsOpen
  {
    var s5 := BeforeControl(s, now, false, pirLevel, tcrtLevel, reading);
    BeforeControlKeepsWindow(s, now, false, pirLevel, tcrtLevel, reading);
    AutoRequestProperties(s5);
    CloseCompletesIffClear(s5, ChuvaDetectada, live);
  }

  /** Gating distributes over concatenation: the loop's one-by-one publications equal one gated list. */
  lemma GatedConcat(connected: bool, a: seq<Publication>, b: seq<Publication>)
    ensures Gated(connected, a + b) == Gated(connected, a) + Gated(connected, b)
  {
  }

  // ---- the controller itself ----

  /** The firmware's globals, updated in place by the callbacks and the loop. */
  class Controller {
    var windowIsOpen: bool
    var isRaining: bool
    var motionDetected: bool
    var obstacleDetected: bool
    var prevMotion: bool
    var prevObstacle: bool
    var prevRain: bool
    var overrideActive: bool
    var overrideEnd: u64
    var currentTemp: int
    var lastPubTime: u64
    var lastTempReadTime: u64
    var pirFilterCounter: int
    var mqttConnected: bool
    var coils: seq<Coils>
    var published: seq<Publication>

    function Snapshot(): State
      reads this
    {
      State(windowIsOpen, isRaining, motionDetected, obstacleDetected, prevMotion, prevObstacle,
            prevRain, overrideActive, overrideEnd, currentTemp, lastPubTime, lastTempReadTime,
            pirFilterCounter, mqttConnected, coils, published)
    }

    /** main() up to the startup move: globals initialised, coils stopped, prev_* sampled. */
    constructor(rainLevel: bool, pirLevel: bool, tcrtLevel: bool)
      ensures Snapshot() == Init(rainLevel, pirLevel, tcrtLevel)
    {
      windowIsOpen := false;
      isRaining := false;
      motionDetected := false;
      obstacleDetected := false;
      overrideActive := false;
      overrideEnd := 0;
      currentTemp := 0;
      lastPubTime := 0;
      lastTempReadTime := 0;
      pirFilterCounter := 0;
      mqttConnected := false;
      published := [];
      coils := [ALL_OFF];
      prevMotion := pirLevel;
      prevObstacle := !tcrtLevel;
      prevRain := !rainLevel;
    }

    /** publicar: append to the log while connected. */
    method Publicar(topic: Topic, value: Payload)
      modifies this`published
      ensures published == old(published) + Gated(mqttConnected, [Publication(topic, value)])
    {
      if mqttConnected {
        published := published + [Publication(topic, value)];
      }
    }

    /** stop_motor. */
    method StopMotor()
      modifies this`coils
      ensures coils == old(coils) + [ALL_OFF]
    {
      coils := coils + [ALL_OFF];
    }

    /** move_step: write row idx of the half-step table. */
    method MoveStep(idx: int)
      requires 0 <= idx < 8
      modifies this`coils
      ensures coils == old(coils) + [HalfStep(idx)]
    {
      coils := coils + [HALF_STEP_SEQUENCE[idx]];
    }

    /**
     * The for-loop of move_window: one phase per step, the index moving +1
     * (opening) or -1 (closing) mod 8 from 0, and before every closing step
     * the live interlock read, which ends the loop when it trips. Returns the
     * step at which it stopped, if it did.
     */
    method DriveSteps(abrindo: bool, live: seq<LiveRead>) returns (stopped: Option<nat>)
      requires |live| == TOTAL_PASSOS
      modifies this`coils
      ensures stopped == if abrindo then None else FirstTrip(live, 0)
      ensures coils == old(coils) + PhaseWrites(abrindo, StepsTaken(abrindo, live))
    {
      var idx := 0;
      var i := 0;
      while i < TOTAL_PASSOS
        invariant 0 <= i <= TOTAL_PASSOS
        invariant idx == IndexAfter(abrindo, i)
        invariant coils == old(coils) + PhaseWrites(abrindo, i)
        invariant !abrindo ==> forall j :: 0 <= j < i ==> !Tripped(live[j])
      {
        if !abrindo {
          var seguranca := live[i];
          if seguranca.pir || !seguranca.tcrt {
            assert FirstTrip(live, 0) == Some(i);
            return Some(i);
          }
        }
        idx := if abrindo then (idx + 1) % 8 else (idx - 1 + 8) % 8;
        MoveStep(idx);
        PhaseWritesSnoc(abrindo, i);
        i := i + 1;
      }
      assert !abrindo ==> FirstTrip(live, 0).None?;
      return None;
    }

    /**
     * The end of move_window: stop the coils, then record and announce where
     * the window is; an interlock stop forces it open and reports the block.
     */
    method FinishMove(abrindo: bool, stopped: bool)
      modifies this`windowIsOpen, this`coils, this`published
      ensures windowIsOpen == (stopped || abrindo)
      ensures coils == old(coils) + [ALL_OFF]
      ensures published == old(published)
        + Gated(mqttConnected, [Publication(StatusSimples, Text(if stopped then Aberta else StatusText(abrindo)))])
        + Gated(mqttConnected, [Publication(MotivoDetalhe, Text(if stopped then Bloqueio else Concluido))])
    {
      StopMotor();
      if stopped {
        windowIsOpen := true;
        Publicar(StatusSimples, Text(Aberta));
        Publicar(MotivoDetalhe, Text(Bloqueio));
      } else {
        windowIsOpen := abrindo;
        Publicar(StatusSimples, Text(StatusText(abrindo)));
        Publicar(MotivoDetalhe, Text(Concluido));
      }
    }

    /** move_window: nothing when already there; else announce, step, and finish. */
    method MoveWindow(abrindo: bool, motivo: Message, live: seq<LiveRead>)
      requires |live| == TOTAL_PASSOS
      modifies this`windowIsOpen, this`coils, this`published
      ensures Snapshot() == AfterMove(old(Snapshot()), abrindo, motivo, live)
    {
      if windowIsOpen == abrindo {
        return;
      }
      Publicar(MotivoDetalhe, Text(motivo));
      var stopped := DriveSteps(abrindo, live);
      FinishMove(abrindo, stopped.Some?);
      MoveUnfolds(old(Snapshot()), abrindo, motivo, live, stopped.Some?);
    }

    /** mqtt_connection_cb. */
    method OnConnection(accepted: bool)
      modifies this`mqttConnected
      ensures Snapshot() == AfterConnection(old(Snapshot()), accepted)
    {
      mqttConnected := accepted;
    }

    /** The override half of mqtt_incoming_data_cb for an accepted command. */
    method ArmOverride(now: u64)
      modifies this`overrideActive, this`overrideEnd, this`published
      ensures Snapshot() == Armed(old(Snapshot()), now)
    {
      overrideActive := true;
      overrideEnd := AddU64(now, OVERRIDE_US);
      Publicar(PublicaModo, Text(ManualTemp));
    }

    /** mqtt_incoming_data_cb, arriving at boot time `now`. */
    method OnCommand(data: seq<char>, now: u64, live: seq<LiveRead>)
      requires |live| == TOTAL_PASSOS
      modifies this`overrideActive, this`overrideEnd, this`windowIsOpen, this`coils, this`published
      ensures Snapshot() == AfterCommand(old(Snapshot()), data, now, live)
    {
      // the payload copied into a 32-byte buffer and compared with strcmp
      var command := DecodeCommand(data);
      if command.Some? {
        ArmOverride(now);
        MoveWindow(command.value, ComandoManual, live);
        Publicar(MotivoDetalhe, Text(TimerAcionado));
      }
    }

    /** The forced open before the loop. */
    method Startup(live: seq<LiveRead>)
      requires |live| == TOTAL_PASSOS
      modifies this`windowIsOpen, this`coils, this`published
      ensures Snapshot() == AfterStartup(old(Snapshot()), live)
    {
      MoveWindow(true, Inicializacao, live);
    }

    /** Lines 173-185. */
    method Sense(rainLevel: bool, pirLevel: bool, tcrtLevel: bool)
      modifies this`pirFilterCounter, this`motionDetected, this`isRaining, this`obstacleDetected
      ensures Snapshot() == AfterSensing(old(Snapshot()), rainLevel, pirLevel, tcrtLevel)
    {
      var rainCurr := !rainLevel;
      var motionRaw := pirLevel;
      var obstCurr := !tcrtLevel;
      if motionRaw {
        pirFilterCounter := pirFilterCounter + 1;
        if pirFilterCounter >= CICLOS_FILTRO_MOVIMENTO {
          motionDetected := true;
          pirFilterCounter := CICLOS_FILTRO_MOVIMENTO;
        }
      } else {
        pirFilterCounter := 0;
        motionDetected := false;
      }
      isRaining := rainCurr;
      obstacleDetected := obstCurr;
    }

    /** One `if (curr != prev) publicar(...)` of lines 188-199. */
    method PublicarIfChanged(changed: bool, topic: Topic, value: Payload)
      modifies this`published
      ensures published == old(published) + Gated(mqttConnected, IfChanged(changed, Publication(topic, value)))
    {
      if changed {
        Publicar(topic, value);
      }
    }

    /**
     * Lines 188-199. Each prev_* is assigned unconditionally here; the source
     * assigns it only when it differs, which leaves the same value.
     */
    method ChangeAlerts()
      modifies this`prevObstacle, this`prevMotion, this`prevRain, this`published
      ensures Snapshot() == AfterChangeAlerts(old(Snapshot()))
    {
      PublicarIfChanged(obstacleDetected != prevObstacle, PublicaObstaculo, Text(Detection(obstacleDetected)));
      prevObstacle := obstacleDetected;
      PublicarIfChanged(motionDetected != prevMotion, PublicaMovimento, Text(Detection(motionDetected)));
      prevMotion := motionDetected;
      PublicarIfChanged(isRaining != prevRain, PublicaChuva, Text(RainFlag(isRaining)));
      prevRain := isRaining;
    }

    /** Line 202: the temperature read, at most every 2 s. */
    method ReadTemperature(now: u64, reading: int)
      modifies this`currentTemp, this`lastTempReadTime
      ensures Snapshot() == AfterTemperatureRead(old(Snapshot()), now, reading)
    {
      if Elapsed(now, lastTempReadTime) > TEMP_READ_PERIOD_US {
        currentTemp := reading;
        lastTempReadTime := now;
      }
    }

    /** Lines 204-224: the status round, at most every 3 s. */
    method PublishStatus(now: u64)
      modifies this`lastPubTime, this`published
      ensures Snapshot() == AfterPeriodic(old(Snapshot()), now)
    {
      if Elapsed(now, lastPubTime) > PUBLISH_PERIOD_US {
        if mqttConnected {
          Publicar(PublicaTemp, Temperature(currentTemp));
          Publicar(PublicaChuva, Text(RainFlag(isRaining)));
          if windowIsOpen && isRaining && !overrideActive {
            if motionDetected || obstacleDetected {
              Publicar(MotivoDetalhe, Text(AlertaChuvaBloqueado));
            }
          }
        }
        lastPubTime := now;
      }
    }

    /** Lines 227-231. */
    method OverrideTimer(now: u64)
      modifies this`overrideActive, this`published
      ensures Snapshot() == AfterOverrideTimer(old(Snapshot()), now)
    {
      if overrideActive && now > overrideEnd {
        overrideActive := false;
        Publicar(PublicaModo, Text(Auto));
        Publicar(MotivoDetalhe, Text(RetornoAutomatico));
      }
    }

    /** Lines 234-246. */
    method ControlLogic(live: seq<LiveRead>)
      requires |live| == TOTAL_PASSOS
      modifies this`windowIsOpen, this`coils, this`published
      ensures Snapshot() == AfterControl(old(Snapshot()), live)
    {
      if !overrideActive {
        if isRaining {
          if windowIsOpen && !motionDetected && !obstacleDetected {
            MoveWindow(false, ChuvaDetectada, live);
          }
        } else {
          if currentTemp > TEMP_PARA_ABRIR && !windowIsOpen {
            MoveWindow(true, CalorExcessivo, live);
          } else if currentTemp < TEMP_PARA_FECHAR && windowIsOpen && !motionDetected && !obstacleDetected {
            MoveWindow(false, TemperaturaBaixa, live);
          }
        }
      }
    }

    /** One pass of the main loop at boot time `now`, with the pins and the temperature as read. */
    method Tick(now: u64, rainLevel: bool, pirLevel: bool, tcrtLevel: bool, reading: int,
                live: seq<LiveRead>)
      requires |live| == TOTAL_PASSOS
      modifies this
      ensures Snapshot() == AfterTick(old(Snapshot()), now, rainLevel, pirLevel, tcrtLevel, reading, live)
    {
      Sense(rainLevel, pirLevel, tcrtLevel);
      ChangeAlerts();
      ReadTemperature(now, reading);
      PublishStatus(now);
      OverrideTimer(now);
      ControlLogic(live);
    }
  }
}
