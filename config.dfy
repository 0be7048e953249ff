/**
 * Build-time configuration of the window controller (configura_geral.h).
 * The access-point revision (picow_access_point.c) repeats the hardware
 * constants at its lines 16-26 with the same values; both revisions use these.
 */
module Config {

  /** TEMPO_OVERRIDE_MS: how long a manual command suppresses the automatic rule. */
  const TEMPO_OVERRIDE_MS := 60000

  /** The same duration in microseconds, as main.c adds it to the boot clock. */
  const OVERRIDE_US := TEMPO_OVERRIDE_MS * 1000

  /**
   * TEMP_PARA_ABRIR (33.0 C) and TEMP_PARA_FECHAR (25.0 C), in hundredths of a
   * degree, the unit bmp280_compensate_T returns.
   */
  const TEMP_PARA_ABRIR := 3300
  const TEMP_PARA_FECHAR := 2500

  // MQTT topics
  const TOPICO_PUBLICA_TEMP := "tcc/janela/temperatura"
  const TOPICO_PUBLICA_CHUVA := "tcc/janela/chuva"
  const TOPICO_PUBLICA_MODO := "tcc/janela/modo"
  const TOPICO_PUBLICA_STATUS := "tcc/janela/estado"
  const TOPICO_PUBLICA_MOVIMENTO := "tcc/janela/movimento"
  const TOPICO_PUBLICA_OBSTACULO := "tcc/janela/obstaculo"
  const TOPICO_SUBSCREVE_CMD := "tcc/janela/comando"
  const TOPICO_STATUS_SIMPLES := "janela/status"
  const TOPICO_MOTIVO_DETALHE := "janela/detalhe"

  /** Every topic the controller publishes on. */
  const PUBLISHED_TOPICS: set<string> := {
    TOPICO_PUBLICA_TEMP, TOPICO_PUBLICA_CHUVA, TOPICO_PUBLICA_MODO,
    TOPICO_PUBLICA_STATUS, TOPICO_PUBLICA_MOVIMENTO, TOPICO_PUBLICA_OBSTACULO,
    TOPICO_STATUS_SIMPLES, TOPICO_MOTIVO_DETALHE}

  // Stepper driver (ULN2003) inputs and travel
  const IN1_PIN := 19
  const IN2_PIN := 20
  const IN3_PIN := 4
  const IN4_PIN := 9
  /** Half-steps of one full open or close travel (about 120 degrees). */
  const TOTAL_PASSOS := 1366

  // Sensors
  const RAIN_SENSOR_DO_PIN := 16
  const PIR_OUT_PIN := 17
  const TCRT_DO_PIN := 18
  /** Consecutive high PIR samples needed to confirm motion; also the counter's cap. */
  const CICLOS_FILTRO_MOVIMENTO := 20

  // BMP280 on I2C
  const I2C_SDA_PIN := 2
  const I2C_SCL_PIN := 3
  const BMP280_ADDR := 0x76

  const COIL_PINS: seq<int> := [IN1_PIN, IN2_PIN, IN3_PIN, IN4_PIN]
  const SENSOR_PINS: set<int> := {RAIN_SENSOR_DO_PIN, PIR_OUT_PIN, TCRT_DO_PIN}
  const I2C_PINS: set<int> := {I2C_SDA_PIN, I2C_SCL_PIN}

  /** The hysteresis band is non-empty: opening needs more heat than closing tolerates. */
  lemma ThresholdsOrdered()
    ensures TEMP_PARA_FECHAR < TEMP_PARA_ABRIR
  {
  }

  /** The override lasts exactly 60 seconds on the microsecond clock. */
  lemma OverrideIsSixtySeconds()
    ensures OVERRIDE_US == 60000000
  {
  }

  /** A move has a positive, fixed number of half-steps, and the debounce threshold is reachable. */
  lemma StepAndFilterConstants()
    ensures TOTAL_PASSOS == 1366 > 0
    ensures CICLOS_FILTRO_MOVIMENTO == 20 >= 1
  {
  }

  /** The four coil pins are pairwise distinct and shared with no sensor or I2C line. */
  lemma PinsDistinct()
    ensures forall i, j :: 0 <= i < j < |COIL_PINS| ==> COIL_PINS[i] != COIL_PINS[j]
    ensures forall i :: 0 <= i < |COIL_PINS| ==> COIL_PINS[i] !in SENSOR_PINS + I2C_PINS
    ensures |SENSOR_PINS| == 3 && SENSOR_PINS !! I2C_PINS
  {
  }

  /** The command topic is not one the controller publishes on, so it never hears itself. */
  lemma CommandTopicNotPublished()
    ensures TOPICO_SUBSCREVE_CMD !in PUBLISHED_TOPICS
  {
  }
}
