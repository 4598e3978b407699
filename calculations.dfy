/**
 * The rpm limiter of src/calculations.c: `ignition_cut` and `fuel_cut`
 * latch `calculated_values.rpm_limit_cut` at or above `rpm_stop` and
 * release it below `rpm_start`. The decoder's rpm and the two limits are
 * read from the global configuration in the source; here they are
 * parameters.
 */
module RpmLimit {

  /** The flag after one call of ignition_cut, from the flag before it. */
  function CutAfter(cut: nat, rpm: nat, rpmStop: nat, rpmStart: nat): (r: nat)
    ensures rpm < rpmStart ==> r == 0
    ensures rpmStart <= rpm && rpmStop <= rpm ==> r == 1
    ensures rpmStart <= rpm < rpmStop ==> r == cut
  {
    var c := if rpm >= rpmStop then 1 else cut;
    if rpm < rpmStart then 0 else c
  }

  /** A flag only ever set to 0 or 1 stays 0 or 1. */
  lemma CutStaysBoolean(cut: nat, rpm: nat, rpmStop: nat, rpmStart: nat)
    requires cut <= 1
    ensures CutAfter(cut, rpm, rpmStop, rpmStart) <= 1
  {
  }

  /** Calling twice with the same rpm leaves the flag as calling once does. */
  lemma CutIdempotent(cut: nat, rpm: nat, rpmStop: nat, rpmStart: nat)
    ensures CutAfter(CutAfter(cut, rpm, rpmStop, rpmStart), rpm, rpmStop, rpmStart)
         == CutAfter(cut, rpm, rpmStop, rpmStart)
  {
  }

  /** The flag after a sequence of calls, one per rpm reading, in order. */
  function CutTrace(cut: nat, rpms: seq<nat>, rpmStop: nat, rpmStart: nat): (r: nat)
    ensures rpms == [] ==> r == cut
    decreases |rpms|
  {
    if rpms == [] then cut
    else CutTrace(CutAfter(cut, rpms[0], rpmStop, rpmStart), rpms[1..], rpmStop, rpmStart)
  }

  /**
   * Hysteresis, set side: once cut, the flag stays set on every later call
   * while the rpm does not fall below rpm_start.
   */
  lemma {:induction false} StaysCut(cut: nat, rpms: seq<nat>, rpmStop: nat, rpmStart: nat)
    requires cut == 1
    requires forall i :: 0 <= i < |rpms| ==> rpms[i] >= rpmStart
    ensures CutTrace(cut, rpms, rpmStop, rpmStart) == 1
    decreases |rpms|
  {
    if rpms != [] {
      StaysCut(CutAfter(cut, rpms[0], rpmStop, rpmStart), rpms[1..], rpmStop, rpmStart);
    }
  }

  /**
   * Hysteresis, clear side: once released, the flag stays clear on every
   * later call while the rpm stays below rpm_stop.
   */
  lemma {:induction false} StaysReleased(cut: nat, rpms: seq<nat>, rpmStop: nat, rpmStart: nat)
    requires cut == 0
    requires forall i :: 0 <= i < |rpms| ==> rpms[i] < rpmStop
    ensures CutTrace(cut, rpms, rpmStop, rpmStart) == 0
    decreases |rpms|
  {
    if rpms != [] {
      StaysReleased(CutAfter(cut, rpms[0], rpmStop, rpmStart), rpms[1..], rpmStop, rpmStart);
    }
  }

  /** The last reading decides the flag when it lies outside the band [rpm_start, rpm_stop). */
  lemma {:induction false} LastReadingOutsideBand(cut: nat, rpms: seq<nat>, rpm: nat, rpmStop: nat, rpmStart: nat)
    requires rpm < rpmStart || rpmStop <= rpm
    ensures CutTrace(cut, rpms + [rpm], rpmStop, rpmStart) == (if rpm < rpmStart then 0 else 1)
    decreases |rpms|
  {
    if rpms == [] {
      assert rpms + [rpm] == [rpm];
      assert [rpm][1..] == [];
    } else {
      assert (rpms + [rpm])[1..] == rpms[1..] + [rpm];
      LastReadingOutsideBand(CutAfter(cut, rpms[0], rpmStop, rpmStart), rpms[1..], rpm, rpmStop, rpmStart);
    }
  }

  /** `calculated_values`, of which these operations use the rpm limiter flag. */
  class CalculatedValues {
    var rpmLimitCut: nat

    /** The zero-initialised global. */
    constructor ()
      ensures rpmLimitCut == 0
    {
      rpmLimitCut := 0;
    }

    /** ignition_cut: update the flag from the current rpm and return it. */
    method IgnitionCut(rpm: nat, rpmStop: nat, rpmStart: nat) returns (r: nat)
      modifies this
      ensures rpmLimitCut == CutAfter(old(rpmLimitCut), rpm, rpmStop, rpmStart)
      ensures r == rpmLimitCut
    {
      if rpm >= rpmStop {
        rpmLimitCut := 1;
      }
      if rpm < rpmStart {
        rpmLimitCut := 0;
      }
      r := rpmLimitCut;
    }

    /** fuel_cut: the same update and result as ignition_cut. */
    method FuelCut(rpm: nat, rpmStop: nat, rpmStart: nat) returns (r: nat)
      modifies this
      ensures rpmLimitCut == CutAfter(old(rpmLimitCut), rpm, rpmStop, rpmStart)
      ensures r == rpmLimitCut
    {
      r := IgnitionCut(rpm, rpmStop, rpmStart);
    }
  }
}
