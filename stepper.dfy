/**
 * The stepper-motor drive shared by both revisions: the half-step coil table,
 * the way move_window walks it, the live safety interlock read on every closing
 * step, and what one call of move_window writes to the coils.
 */
module Stepper {
  import opened Wrappers
  import opened Config

  /** The levels one gpio_put round writes to the driver inputs IN1..IN4. */
  datatype Coils = Coils(in1: bool, in2: bool, in3: bool, in4: bool)

  /** stop_motor: every coil de-energised. */
  const ALL_OFF := Coils(false, false, false, false)

  /** half_step_sequence: one coil, two adjacent coils, one coil, ... around the stator. */
  const HALF_STEP_SEQUENCE: seq<Coils> := [
    Coils(true, false, false, false), Coils(true, true, false, false),
    Coils(false, true, false, false), Coils(false, true, true, false),
    Coils(false, false, true, false), Coils(false, false, true, true),
    Coils(false, false, false, true), Coils(true, false, false, true)]

  function Bit(b: bool): nat { if b then 1 else 0 }

  /** Number of coils a row energises. */
  function Energised(c: Coils): nat {
    Bit(c.in1) + Bit(c.in2) + Bit(c.in3) + Bit(c.in4)
  }

  /** Number of driver inputs whose level differs between two writes. */
  function Changed(a: Coils, b: Coils): nat {
    Bit(a.in1 != b.in1) + Bit(a.in2 != b.in2) + Bit(a.in3 != b.in3) + Bit(a.in4 != b.in4)
  }

  /** move_step: the levels written for row idx of the table. */
  function HalfStep(idx: int): Coils
    requires 0 <= idx < 8
  {
    HALF_STEP_SEQUENCE[idx]
  }

  /**
   * Every row drives the motor (one or two coils on) and each row differs from
   * the next one, cyclically, in exactly one coil: a half-step changes one input.
   */
  lemma HalfStepRows(idx: int)
    requires 0 <= idx < 8
    ensures 1 <= Energised(HalfStep(idx)) <= 2
    ensures Changed(HalfStep(idx), HalfStep((idx + 1) % 8)) == 1
  {
    if idx == 0 {
    } else if idx == 1 {
    } else if idx == 2 {
    } else if idx == 3 {
    } else if idx == 4 {
    } else if idx == 5 {
    } else if idx == 6 {
    } else {
      assert idx == 7;
    }
  }

  /**
   * One update of the step index: forward when opening, backward when closing,
   * modulo 8. The C `%` agrees with Dafny's here because the operand is never negative.
   */
  function NextIndex(idx: int, abrindo: bool): (r: int)
    requires 0 <= idx < 8
    ensures 0 <= r < 8
    ensures abrindo ==> r == idx + 1 || (idx == 7 && r == 0)
    ensures !abrindo ==> r == idx - 1 || (idx == 0 && r == 7)
  {
    if abrindo then (idx + 1) % 8 else (idx - 1 + 8) % 8
  }

  /** The step index after n steps of one move; every move starts again from row 0. */
  function IndexAfter(abrindo: bool, n: nat): (idx: int)
    ensures 0 <= idx < 8
  {
    if n == 0 then 0 else NextIndex(IndexAfter(abrindo, n - 1), abrindo)
  }

  /** After n opening steps the index is n mod 8. */
  lemma {:induction false} IndexAfterOpening(n: nat)
    ensures IndexAfter(true, n) == n % 8
  {
    if n > 0 {
      IndexAfterOpening(n - 1);
      ModEightSucc(n - 1);
      assert IndexAfter(true, n) == ((n - 1) % 8 + 1) % 8;
    }
  }

  /** After n closing steps the index is -n mod 8. */
  lemma {:induction false} IndexAfterClosing(n: nat)
    ensures IndexAfter(false, n) == (8 - n % 8) % 8
  {
    if n > 0 {
      IndexAfterClosing(n - 1);
      ModEightSucc(n - 1);
      var m := (n - 1) % 8;
      if m == 0 {
        assert IndexAfter(false, n - 1) == 0 && n % 8 == 1;
      } else {
        assert IndexAfter(false, n - 1) == 8 - m;
      }
    }
  }

  /** After n steps the index is n mod 8 forward, or -n mod 8 backward. */
  lemma IndexAfterClosedForm(abrindo: bool, n: nat)
    ensures IndexAfter(abrindo, n) == if abrindo then n % 8 else (8 - n % 8) % 8
  {
    if abrindo {
      IndexAfterOpening(n);
    } else {
      IndexAfterClosing(n);
    }
  }

  /** Counting one more wraps the residue mod 8 from 7 to 0. */
  lemma ModEightSucc(m: nat)
    ensures (m + 1) % 8 == if m % 8 == 7 then 0 else m % 8 + 1
  {
    var q := m / 8;
    assert m == 8 * q + m % 8;
    if m % 8 == 7 {
      assert m + 1 == 8 * (q + 1);
    } else {
      assert m + 1 == 8 * q + (m % 8 + 1);
    }
  }

  /** The coil writes of the first n steps: step k writes the row of index IndexAfter(k + 1). */
  function PhaseWrites(abrindo: bool, n: nat): (w: seq<Coils>)
    ensures |w| == n
  {
    seq(n, k requires 0 <= k < n => HalfStep(IndexAfter(abrindo, k + 1)))
  }

  /** One more step appends the row the index moves to. */
  lemma PhaseWritesSnoc(abrindo: bool, n: nat)
    ensures PhaseWrites(abrindo, n + 1) == PhaseWrites(abrindo, n) + [HalfStep(IndexAfter(abrindo, n + 1))]
  {
    assert forall k :: 0 <= k < n ==> PhaseWrites(abrindo, n + 1)[k] == PhaseWrites(abrindo, n)[k];
  }

  /** Step k of a move (counting from 0) writes row (k + 1) mod 8 opening, -(k + 1) mod 8 closing. */
  lemma PhaseWritesAt(abrindo: bool, n: nat, k: nat)
    requires k < n
    ensures PhaseWrites(abrindo, n)[k]
         == HALF_STEP_SEQUENCE[if abrindo then (k + 1) % 8 else (8 - (k + 1) % 8) % 8]
  {
    IndexAfterClosedForm(abrindo, k + 1);
  }

  /** Consecutive writes of a move differ in exactly one coil, in either direction. */
  lemma PhaseWritesChangeOneCoil(abrindo: bool, n: nat, k: nat)
    requires k + 1 < n
    ensures Changed(PhaseWrites(abrindo, n)[k], PhaseWrites(abrindo, n)[k + 1]) == 1
  {
    var i := IndexAfter(abrindo, k + 1);
    var j := IndexAfter(abrindo, k + 2);
    assert j == NextIndex(i, abrindo);
    if abrindo {
      HalfStepRows(i);
    } else {
      assert i == (j + 1) % 8;
      HalfStepRows(j);
    }
  }

  /** The two live pin levels read before each closing step. */
  datatype LiveRead = LiveRead(pir: bool, tcrt: bool)

  /** The interlock fires on PIR high (motion) or TCRT low (reflection from an obstacle). */
  predicate Tripped(r: LiveRead) {
    r.pir || !r.tcrt
  }

  /** The first step at or after `from` whose live read trips the interlock. */
  function FirstTrip(live: seq<LiveRead>, from: nat): (k: Option<nat>)
    decreases |live| - from
    ensures k.Some? ==> from <= k.value < |live| && Tripped(live[k.value])
    ensures k.Some? ==> forall j :: from <= j < k.value ==> !Tripped(live[j])
    ensures k.None? ==> forall j :: from <= j < |live| ==> !Tripped(live[j])
  {
    if from >= |live| then None
    else if Tripped(live[from]) then Some(from)
    else FirstTrip(live, from + 1)
  }

  /** How one call of move_window ends. */
  datatype Outcome =
    | Unchanged            // already in the requested state: returns at once
    | Completed            // all TOTAL_PASSOS steps taken
    | Aborted(step: nat)   // interlock fired before step `step`; steps 0..step-1 were taken

  /**
   * The outcome of move_window(abrindo) from position isOpen, given the live
   * reads the closing loop would take at each step.
   */
  function MoveOutcome(isOpen: bool, abrindo: bool, live: seq<LiveRead>): (o: Outcome)
    requires |live| == TOTAL_PASSOS
    ensures o.Unchanged? <==> isOpen == abrindo
    ensures abrindo && !isOpen ==> o.Completed?
    ensures o.Aborted? ==> isOpen && !abrindo && o.step < TOTAL_PASSOS && Tripped(live[o.step])
    ensures o.Aborted? ==> forall j :: 0 <= j < o.step ==> !Tripped(live[j])
    ensures o.Completed? && !abrindo ==> forall j :: 0 <= j < TOTAL_PASSOS ==> !Tripped(live[j])
  {
    if isOpen == abrindo then Unchanged
    else if abrindo then Completed
    else match FirstTrip(live, 0)
      case Some(k) => Aborted(k)
      case None => Completed
  }

  /** The steps a real move takes: all TOTAL_PASSOS, or those before the first tripped read of a close. */
  function StepsTaken(abrindo: bool, live: seq<LiveRead>): nat {
    if !abrindo && FirstTrip(live, 0).Some? then FirstTrip(live, 0).value else TOTAL_PASSOS
  }

  /** Everything one move writes to the coils: its phases, then stop_motor. */
  function MoveCoils(abrindo: bool, o: Outcome): seq<Coils>
  {
    match o
    case Unchanged => []
    case Completed => PhaseWrites(abrindo, TOTAL_PASSOS) + [ALL_OFF]
    case Aborted(k) => PhaseWrites(abrindo, k) + [ALL_OFF]
  }

  /** window_is_open after the move: the target, or open when the interlock stopped a close. */
  function PositionAfter(isOpen: bool, abrindo: bool, o: Outcome): bool
  {
    match o
    case Unchanged => isOpen
    case Completed => abrindo
    case Aborted(_) => true
  }

  /**
   * A move that is not a no-op writes one phase per step taken, each a table row
   * stepping +1 (opening) or -1 (closing) mod 8 from row 0, consecutive phases
   * differing in one coil, and ends with all coils off. A completed move takes
   * TOTAL_PASSOS steps; an aborted close stops at the first tripped step.
   */
  lemma MoveCoilsShape(isOpen: bool, abrindo: bool, live: seq<LiveRead>)
    requires |live| == TOTAL_PASSOS
    requires isOpen != abrindo
    ensures var o := MoveOutcome(isOpen, abrindo, live);
            var w := MoveCoils(abrindo, o);
            var steps := if o.Aborted? then o.step else TOTAL_PASSOS;
            && |w| == steps + 1
            && w[steps] == ALL_OFF
            && (forall k :: 0 <= k < steps ==>
                  w[k] == HALF_STEP_SEQUENCE[if abrindo then (k + 1) % 8 else (8 - (k + 1) % 8) % 8])
            && (forall k :: 0 <= k < steps - 1 ==> Changed(w[k], w[k + 1]) == 1)
  {
    var o := MoveOutcome(isOpen, abrindo, live);
    var steps := if o.Aborted? then o.step else TOTAL_PASSOS;
    var w := MoveCoils(abrindo, o);
    assert w == PhaseWrites(abrindo, steps) + [ALL_OFF];
    forall k | 0 <= k < steps
      ensures w[k] == HALF_STEP_SEQUENCE[if abrindo then (k + 1) % 8 else (8 - (k + 1) % 8) % 8]
    {
      PhaseWritesAt(abrindo, steps, k);
    }
    forall k | 0 <= k < steps - 1
      ensures Changed(w[k], w[k + 1]) == 1
    {
      PhaseWritesChangeOneCoil(abrindo, steps, k);
    }
  }

  /**
   * Where the window ends: at the target unless a close was aborted, in which
   * case it stays open; and the abort happens exactly at the first tripped step.
   */
  lemma MovePosition(isOpen: bool, abrindo: bool, live: seq<LiveRead>)
    requires |live| == TOTAL_PASSOS
    ensures var o := MoveOutcome(isOpen, abrindo, live);
            && PositionAfter(isOpen, abrindo, o) == (if o.Aborted? then true else abrindo)
            && (o.Aborted? <==> isOpen && !abrindo && FirstTrip(live, 0).Some?)
            && (o.Aborted? ==> o.step == FirstTrip(live, 0).value)
  {
  }
}
