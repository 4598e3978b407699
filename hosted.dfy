/**
 * The output side of the hosted platform (src/platforms/hosted.c): a
 * software stand-in for the double-buffered output stream. The scheduler
 * hands two buffers of `max_slots` slots to init_output_thread; every timer
 * tick advances to the next slot, switching buffers (and telling the
 * scheduler) at the end of one, and applies that slot's on-mask and then
 * its off-mask to the 16-bit output word.
 */
module HostedOutputs {
  import opened Platform

  /** `struct slot`: outputs to raise and outputs to lower at one tick. */
  datatype Slot = Slot(onMask: bv16, offMask: bv16)

  /** Whether bit j of a 16-bit word is set. */
  predicate Bit(w: bv16, j: bv16)
    requires j < 16
  {
    (w >> j) & 1 == 1
  }

  /**
   * set_output(o, v) on the word `cur_outputs`. The `int` shift of the
   * source leaves the 16-bit word unchanged for an output number from 16 on.
   */
  function SetOutputBit(w: bv16, o: bv16, v: bool): (r: bv16)
    requires o < 31
    ensures o >= 16 ==> r == w
  {
    if o >= 16 then w
    else if v then w | (1 << o)
    else w & !(1 << o)
  }

  /** set_output makes bit o equal to v and leaves every other bit as it was. */
  lemma SetOutputBitAt(w: bv16, o: bv16, v: bool, j: bv16)
    requires o < 31 && j < 16
    ensures Bit(SetOutputBit(w, o, v), j) <==> if j == o then v else Bit(w, j)
  {
  }

  /**
   * The two mask statements of hosted_platform_timer: raise the slot's
   * on-mask, then lower its off-mask.
   */
  function ApplySlot(w: bv16, onMask: bv16, offMask: bv16): (r: bv16)
    ensures r & offMask == 0
  {
    (w | onMask) & !offMask
  }

  /** After the masks an output is high iff it is not in the off-mask and was high or is in the on-mask; one in both ends up low. */
  lemma ApplySlotAt(w: bv16, onMask: bv16, offMask: bv16, j: bv16)
    requires j < 16
    ensures Bit(ApplySlot(w, onMask, offMask), j) <==> !Bit(offMask, j) && (Bit(onMask, j) || Bit(w, j))
  {
  }

  /** Applying the same slot twice has the effect of applying it once. */
  lemma ApplySlotIdempotent(w: bv16, onMask: bv16, offMask: bv16)
    ensures ApplySlot(ApplySlot(w, onMask, offMask), onMask, offMask) == ApplySlot(w, onMask, offMask)
  {
  }

  /**
   * The globals of hosted.c that the output thread uses: `curtime`,
   * whether `output_slots[0]` is set, `max_slots`, `cur_slot`,
   * `cur_buffer`, `cur_outputs`, and the number of calls made to
   * scheduler_buffer_swap.
   */
  datatype Outputs = Outputs(curtime: Time, initialized: bool, maxSlots: nat, curSlot: nat,
                             curBuffer: nat, curOutputs: bv16, swaps: nat)

  /** The globals at program start. */
  const AtStart: Outputs := Outputs(0, false, 0, 0, 0, 0, 0)

  /**
   * What every tick keeps, given the lengths of the two buffers: the buffer
   * index is 0 or 1, and once initialised the slot index is in range of a
   * non-empty stream that both buffers hold.
   */
  predicate Inv(s: Outputs, len0: nat, len1: nat) {
    s.curBuffer < 2 &&
    (s.initialized ==> 0 < s.maxSlots && s.maxSlots <= len0 && s.maxSlots <= len1 && s.curSlot < s.maxSlots)
  }

  /** init_output_thread: record both buffers and their length. */
  function InitOutputs(s: Outputs, len: nat): (r: Outputs)
    ensures r.initialized && r.maxSlots == len
    ensures r == s.(initialized := true, maxSlots := len)
  {
    s.(initialized := true, maxSlots := len)
  }

  /** init_output_thread keeps Inv for a non-empty stream that both buffers hold and that the slot index is in. */
  lemma InitOutputsKeepsInv(s: Outputs, len: nat, len0: nat, len1: nat)
    requires s.curBuffer < 2
    requires 0 < len <= len0 && len <= len1 && s.curSlot < len
    ensures Inv(InitOutputs(s, len), len0, len1)
  {
  }

  /** The slot and buffer step of hosted_platform_timer, before the masks are applied. */
  function Advance(s: Outputs): (r: Outputs)
    requires s.initialized && s.curSlot < s.maxSlots && s.curBuffer < 2
    ensures r.curtime == Inc32(s.curtime)
    ensures r.initialized && r.maxSlots == s.maxSlots && r.curOutputs == s.curOutputs
    ensures s.curSlot + 1 < s.maxSlots ==>
              r.curSlot == s.curSlot + 1 && r.curBuffer == s.curBuffer && r.swaps == s.swaps
    ensures s.curSlot + 1 == s.maxSlots ==>
              r.curSlot == 0 && r.curBuffer == 1 - s.curBuffer && r.swaps == s.swaps + 1
    ensures r.curSlot < r.maxSlots && r.curBuffer < 2
  {
    var slot := s.curSlot + 1;
    if slot == s.maxSlots then
      s.(curtime := Inc32(s.curtime), curSlot := 0, curBuffer := (s.curBuffer + 1) % 2, swaps := s.swaps + 1)
    else
      s.(curtime := Inc32(s.curtime), curSlot := slot)
  }

  /** The slot the indices select, in buffer 0 or 1. */
  function CurrentSlot(s: Outputs, b0: seq<Slot>, b1: seq<Slot>): Slot
    requires Inv(s, |b0|, |b1|) && s.initialized
  {
    if s.curBuffer == 0 then b0[s.curSlot] else b1[s.curSlot]
  }

  /**
   * One call of hosted_platform_timer, as far as the outputs go; b0 and b1
   * are the two buffers. Until a buffer is attached it changes nothing;
   * afterwards it advances, then applies the masks of the slot it arrived at.
   */
  function Tick(s: Outputs, b0: seq<Slot>, b1: seq<Slot>): (r: Outputs)
    requires Inv(s, |b0|, |b1|)
    ensures Inv(r, |b0|, |b1|)
    ensures !s.initialized ==> r == s
    ensures s.initialized ==>
              var a := Advance(s); var slot := CurrentSlot(a, b0, b1);
              r == a.(curOutputs := ApplySlot(s.curOutputs, slot.onMask, slot.offMask))
  {
    if !s.initialized then s
    else
      var a := Advance(s);
      var slot := CurrentSlot(a, b0, b1);
      a.(curOutputs := ApplySlot(s.curOutputs, slot.onMask, slot.offMask))
  }

  /** n calls of hosted_platform_timer in a row. */
  function Ticks(s: Outputs, b0: seq<Slot>, b1: seq<Slot>, n: nat): (r: Outputs)
    requires Inv(s, |b0|, |b1|)
    ensures Inv(r, |b0|, |b1|)
    ensures r.initialized == s.initialized && r.maxSlots == s.maxSlots
    decreases n
  {
    if n == 0 then s else Tick(Ticks(s, b0, b1, n - 1), b0, b1)
  }

  /** A positive multiple of m is at least m. */
  lemma MulAtLeast(d: int, m: int)
    requires d >= 1 && m > 0
    ensures d * m >= m
    decreases d
  {
    if d > 1 {
      MulAtLeast(d - 1, m);
      assert d * m == (d - 1) * m + m;
    }
  }

  /** Quotient and remainder are unique. */
  lemma DivUnique(k: int, m: int, q: int, rr: int)
    requires m > 0 && 0 <= rr < m && k == q * m + rr
    ensures k / m == q && k % m == rr
  {
    var q', r' := k / m, k % m;
    assert k == q' * m + r';
    assert (q - q') * m == r' - rr;
    if q > q' {
      MulAtLeast(q - q', m);
    } else if q' > q {
      MulAtLeast(q' - q, m);
    }
  }

  /** One more slot on a counter k of slots, in a stream of m slots. */
  lemma NextSlot(k: nat, m: nat)
    requires m > 0
    ensures k % m + 1 < m ==> (k + 1) % m == k % m + 1 && (k + 1) / m == k / m
    ensures k % m + 1 == m ==> (k + 1) % m == 0 && (k + 1) / m == k / m + 1
  {
    var q, rr := k / m, k % m;
    assert k == q * m + rr;
    if rr + 1 < m {
      DivUnique(k + 1, m, q, rr + 1);
    } else {
      assert k + 1 == (q + 1) * m + 0;
      DivUnique(k + 1, m, q + 1, 0);
    }
  }

  /**
   * The position after k slots counted from buffer `buffer`, slot 0, with
   * `swaps` calls to scheduler_buffer_swap before them.
   */
  predicate At(r: Outputs, buffer: nat, swaps: nat, k: nat)
    requires r.maxSlots > 0
  {
    r.curSlot == k % r.maxSlots &&
    r.swaps == swaps + k / r.maxSlots &&
    r.curBuffer == (buffer + k / r.maxSlots) % 2
  }

  /** One tick moves the position one slot on. */
  lemma TickStep(p: Outputs, b0: seq<Slot>, b1: seq<Slot>, buffer: nat, swaps: nat, k: nat)
    requires Inv(p, |b0|, |b1|) && p.initialized
    requires At(p, buffer, swaps, k)
    ensures At(Tick(p, b0, b1), buffer, swaps, k + 1)
  {
    var m, q := p.maxSlots, k / p.maxSlots;
    var r := Tick(p, b0, b1);
    assert r.curSlot == Advance(p).curSlot && r.swaps == Advance(p).swaps && r.curBuffer == Advance(p).curBuffer;
    NextSlot(k, m);
    if k % m + 1 == m {
      NextSlot(buffer + q, 2);
    }
  }

  /**
   * Where n ticks leave the stream: counting slots from the start of the
   * current buffer, the slot index is that count modulo max_slots, one
   * buffer swap happened per completed buffer, and the buffer index
   * alternates with them.
   */
  lemma {:induction false} TicksPosition(s: Outputs, b0: seq<Slot>, b1: seq<Slot>, n: nat)
    requires Inv(s, |b0|, |b1|) && s.initialized
    ensures At(Ticks(s, b0, b1, n), s.curBuffer, s.swaps, s.curSlot + n)
    decreases n
  {
    if n == 0 {
      AtOwnSlot(s);
    } else {
      TicksPosition(s, b0, b1, n - 1);
      TicksStep(s, b0, b1, n);
    }
  }

  /** Before any tick, the position is the current slot of the current buffer. */
  lemma AtOwnSlot(s: Outputs)
    requires s.curSlot < s.maxSlots && s.curBuffer < 2
    ensures At(s, s.curBuffer, s.swaps, s.curSlot)
  {
    DivUnique(s.curSlot, s.maxSlots, 0, s.curSlot);
    DivUnique(s.curBuffer, 2, 0, s.curBuffer);
  }

  /** The n-th tick of a run moves the position one slot on. */
  lemma TicksStep(s: Outputs, b0: seq<Slot>, b1: seq<Slot>, n: nat)
    requires Inv(s, |b0|, |b1|) && s.initialized && n > 0
    requires At(Ticks(s, b0, b1, n - 1), s.curBuffer, s.swaps, s.curSlot + n - 1)
    ensures At(Ticks(s, b0, b1, n), s.curBuffer, s.swaps, s.curSlot + n)
  {
    var p := Ticks(s, b0, b1, n - 1);
    assert Ticks(s, b0, b1, n) == Tick(p, b0, b1);
    TickStep(p, b0, b1, s.curBuffer, s.swaps, s.curSlot + n - 1);
  }

  /** n ticks advance curtime by n, modulo 2^32. */
  lemma {:induction false} TicksTime(s: Outputs, b0: seq<Slot>, b1: seq<Slot>, n: nat)
    requires Inv(s, |b0|, |b1|) && s.initialized
    ensures Ticks(s, b0, b1, n).curtime == (s.curtime + n) % WORD
    decreases n
  {
    if n == 0 {
      DivUnique(s.curtime, WORD, 0, s.curtime);
    } else {
      TicksTime(s, b0, b1, n - 1);
      NextSlot(s.curtime + n - 1, WORD);
    }
  }

  /**
   * Buffer swaps are announced exactly at buffer boundaries: over a whole
   * number of passes through both buffers, the stream is back at the same
   * slot of the same buffer, after one swap per buffer passed.
   */
  lemma FullCycle(s: Outputs, b0: seq<Slot>, b1: seq<Slot>, passes: nat)
    requires Inv(s, |b0|, |b1|) && s.initialized
    ensures var r := Ticks(s, b0, b1, 2 * passes * s.maxSlots);
      r.curSlot == s.curSlot && r.curBuffer == s.curBuffer && r.swaps == s.swaps + 2 * passes
  {
    var m, q := s.maxSlots, 2 * passes;
    TicksPosition(s, b0, b1, q * m);
    DivUnique(s.curSlot + q * m, m, q, s.curSlot);
    DivUnique(s.curBuffer + q, 2, passes, s.curBuffer);
  }

  /** The globals of hosted.c that belong to the output thread, and the two buffers they point into. */
  class HostedPlatform {
    var curtime: Time
    var initialized: bool
    var slots0: array<Slot>
    var slots1: array<Slot>
    var maxSlots: nat
    var curSlot: nat
    var curBuffer: nat
    var curOutputs: bv16
    /** Calls made to scheduler_buffer_swap. */
    ghost var swaps: nat

    ghost function View(): Outputs
      reads this
    {
      Outputs(curtime, initialized, maxSlots, curSlot, curBuffer, curOutputs, swaps)
    }

    ghost predicate Valid()
      reads this
    {
      Inv(View(), slots0.Length, slots1.Length)
    }

    /** The globals at program start; no buffer is attached yet. */
    constructor ()
      ensures Valid() && View() == AtStart
    {
      curtime := 0;
      initialized := false;
      slots0 := new Slot[0];
      slots1 := new Slot[0];
      maxSlots := 0;
      curSlot := 0;
      curBuffer := 0;
      curOutputs := 0;
      swaps := 0;
    }

    /** set_output */
    method SetOutput(o: bv16, v: bool)
      requires o < 31
      modifies this
      ensures View() == old(View()).(curOutputs := SetOutputBit(old(curOutputs), o, v))
      ensures slots0 == old(slots0) && slots1 == old(slots1)
    {
      if o < 16 {
        if v {
          curOutputs := curOutputs | (1 << o);
        } else {
          curOutputs := curOutputs & !(1 << o);
        }
      }
    }

    /** init_output_thread: attach the two buffers of `len` slots each; returns 0. */
    method InitOutputThread(buf0: array<Slot>, buf1: array<Slot>, len: nat) returns (r: Time)
      requires Valid()
      requires 0 < len <= buf0.Length && len <= buf1.Length && curSlot < len
      modifies this
      ensures Valid()
      ensures r == 0
      ensures slots0 == buf0 && slots1 == buf1
      ensures View() == InitOutputs(old(View()), len)
    {
      InitOutputsKeepsInv(View(), len, buf0.Length, buf1.Length);
      slots0 := buf0;
      slots1 := buf1;
      maxSlots := len;
      initialized := true;
      r := 0;
    }

    /** current_output_buffer */
    method CurrentOutputBuffer() returns (r: nat)
      requires Valid()
      ensures r == curBuffer && r < 2
    {
      r := curBuffer;
    }

    /** current_output_slot */
    method CurrentOutputSlot() returns (r: nat)
      requires Valid()
      ensures r == curSlot && (initialized ==> r < maxSlots)
    {
      r := curSlot;
    }

    /** current_time */
    method CurrentTime() returns (r: Time)
      ensures r == curtime
    {
      r := curtime;
    }

    /** The slot and buffer step of hosted_platform_timer, with the call to scheduler_buffer_swap. */
    method AdvanceSlot()
      requires Valid() && initialized
      modifies this
      ensures Valid()
      ensures slots0 == old(slots0) && slots1 == old(slots1)
      ensures View() == Advance(old(View()))
    {
      curtime := Inc32(curtime);
      curSlot := curSlot + 1;
      if curSlot == maxSlots {
        curBuffer := (curBuffer + 1) % 2;
        curSlot := 0;
        swaps := swaps + 1;
      }
    }

    /** The mask step of hosted_platform_timer, on the slot the indices select. */
    method ApplyCurrentSlot()
      requires Valid() && initialized
      modifies this
      ensures Valid()
      ensures slots0 == old(slots0) && slots1 == old(slots1)
      ensures var slot := CurrentSlot(old(View()), slots0[..], slots1[..]);
        View() == old(View()).(curOutputs := ApplySlot(old(curOutputs), slot.onMask, slot.offMask))
    {
      var slot := if curBuffer == 0 then slots0[curSlot] else slots1[curSlot];
      curOutputs := curOutputs | slot.onMask;
      curOutputs := curOutputs & !slot.offMask;
    }

    /** The output part of hosted_platform_timer: next slot, buffer swap at the end of a buffer, masks. */
    method PlatformTimer()
      requires Valid()
      modifies this
      ensures Valid()
      ensures slots0 == old(slots0) && slots1 == old(slots1)
      ensures View() == Tick(old(View()), slots0[..], slots1[..])
    {
      if !initialized {
        return;
      }
      AdvanceSlot();
      ApplyCurrentSlot();
    }
  }
}
