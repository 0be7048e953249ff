/**
 * The PIR counter debounce both revisions run once per loop tick: the counter
 * counts consecutive high samples, is capped at CICLOS_FILTRO_MOVIMENTO, and
 * drops to 0 on the first low sample.
 */
module SignalFilter {
  import opened Config
  import opened Wrappers

  /** pir_filter_counter after one raw PIR sample. */
  function DebounceStep(counter: int, raw: bool): (c: int)
    ensures !raw ==> c == 0
    ensures raw && counter < CICLOS_FILTRO_MOVIMENTO ==> c == counter + 1
    ensures raw ==> c <= CICLOS_FILTRO_MOVIMENTO
  {
    if raw then
      if counter + 1 >= CICLOS_FILTRO_MOVIMENTO then CICLOS_FILTRO_MOVIMENTO else counter + 1
    else 0
  }

  /** The counter hit the threshold on this sample (motion_confirmed_now in the access-point revision). */
  predicate ReachedThreshold(counter: int, raw: bool) {
    raw && counter + 1 >= CICLOS_FILTRO_MOVIMENTO
  }

  /** Reaching the threshold is the same as the new counter sitting at its cap. */
  lemma ReachedIffCapped(counter: int, raw: bool)
    ensures ReachedThreshold(counter, raw) <==> DebounceStep(counter, raw) == CICLOS_FILTRO_MOVIMENTO
  {
  }

  /** The counter after a run of samples, starting from its boot value 0. */
  function DebounceRun(samples: seq<bool>): int
  {
    if samples == [] then 0
    else DebounceStep(DebounceRun(samples[..|samples| - 1]), samples[|samples| - 1])
  }

  /** How many samples at the end of the run are high. */
  function TrailingHighs(samples: seq<bool>): nat
  {
    if samples == [] || !samples[|samples| - 1] then 0
    else TrailingHighs(samples[..|samples| - 1]) + 1
  }

  /** The counter is the length of the current high streak, capped. */
  lemma {:induction false} DebounceRunCounts(samples: seq<bool>)
    ensures DebounceRun(samples) == Min(TrailingHighs(samples), CICLOS_FILTRO_MOVIMENTO)
  {
    if samples != [] {
      DebounceRunCounts(samples[..|samples| - 1]);
    }
  }

  /** The streak is at least m long exactly when the last m samples are all high. */
  lemma {:induction false} TrailingHighsAtLeast(samples: seq<bool>, m: nat)
    ensures TrailingHighs(samples) >= m
        <==> |samples| >= m && forall i :: |samples| - m <= i < |samples| ==> samples[i]
  {
    if m > 0 && samples != [] {
      var init := samples[..|samples| - 1];
      TrailingHighsAtLeast(init, m - 1);
      if samples[|samples| - 1] && |samples| >= m && forall i :: |init| - (m - 1) <= i < |init| ==> init[i] {
        assert forall i :: |samples| - m <= i < |samples| ==> samples[i] by {
          forall i | |samples| - m <= i < |samples| ensures samples[i] {
            if i < |samples| - 1 { assert samples[i] == init[i]; }
          }
        }
      }
      if |samples| >= m && forall i :: |samples| - m <= i < |samples| ==> samples[i] {
        assert forall i :: |init| - (m - 1) <= i < |init| ==> init[i] by {
          forall i | |init| - (m - 1) <= i < |init| ensures init[i] {
            assert init[i] == samples[i];
          }
        }
      }
    }
  }

  /**
   * Motion is confirmed (counter at its cap) exactly when the last
   * CICLOS_FILTRO_MOVIMENTO samples were all high; a single low sample clears it.
   */
  lemma DebounceConfirms(samples: seq<bool>)
    ensures DebounceRun(samples) == CICLOS_FILTRO_MOVIMENTO
        <==> |samples| >= CICLOS_FILTRO_MOVIMENTO
             && forall i :: |samples| - CICLOS_FILTRO_MOVIMENTO <= i < |samples| ==> samples[i]
    ensures samples != [] && !samples[|samples| - 1] ==> DebounceRun(samples) == 0
    ensures 0 <= DebounceRun(samples) <= CICLOS_FILTRO_MOVIMENTO
  {
    DebounceRunCounts(samples);
    TrailingHighsAtLeast(samples, CICLOS_FILTRO_MOVIMENTO);
  }
}
