/**
 * The state-changing glue of the FUOTA application with sensor telemetry: the
 * `fuota_finished` callback (request a permanent upgrade, reboot only if the request
 * succeeded) and the uplink loop of `main` (sensor frame or fallback payload). The
 * node's externally visible behaviour is the sequence of effects it issues.
 */
module Fuota {
  import opened Basics
  import opened FixedWidth
  import opened SensorTypes
  import opened Telemetry

  datatype UpgradeMode = Test | Permanent
  datatype RebootKind = Warm | Cold
  datatype MessageType = Unconfirmed | Confirmed

  /** The calls into MCUboot, the kernel and the LoRaWAN stack that the core makes. */
  datatype Effect =
    | RequestUpgrade(mode: UpgradeMode)
    | Sleep(ms: nat)
    | Reboot(kind: RebootKind)
    | Send(port: uint8, payload: seq<uint8>, msgType: MessageType)

  /** The settle delay between the upgrade request and the reboot. */
  const SETTLE_MS: nat := 100
  /** `DELAY`, the pause at the end of each uplink cycle (2 s). */
  const CYCLE_DELAY_MS: nat := 2000
  /** The application port of every uplink. */
  const UPLINK_PORT: uint8 := 2
  /** The global `data` array: the characters "data send", sent when a sensor is missing. */
  const FALLBACK_DATA: seq<uint8> := [0x64, 0x61, 0x74, 0x61, 0x20, 0x73, 0x65, 0x6e, 0x64]

  // ---------------------------------------------------------- fuota_finished

  /** What `fuota_finished` does when `boot_request_upgrade` answers rc. */
  function FinishedEffects(rc: int): (e: seq<Effect>)
    ensures |e| >= 1 && e[0] == RequestUpgrade(Permanent)
    ensures forall k | 0 <= k < |e| :: e[k].RequestUpgrade? ==> e[k].mode == Permanent
    ensures (exists k | 0 <= k < |e| :: e[k].Reboot?) <==> rc == 0
    ensures forall k | 0 <= k < |e| :: e[k].Reboot? ==>
              k == |e| - 1 && e[k].kind == Cold && k >= 2 && e[k - 1] == Sleep(SETTLE_MS)
    ensures rc != 0 ==> |e| == 1
  {
    if rc != 0 then [RequestUpgrade(Permanent)]
    else
      var e := [RequestUpgrade(Permanent), Sleep(SETTLE_MS), Reboot(Cold)];
      assert e[2].Reboot?;
      e
  }

  // ------------------------------------------------------------- uplink loop

  /**
   * What one pass of the loop gets from the sensors (the reads themselves are
   * external): the two read results, the environment fields and the ADXL345 sample.
   */
  datatype CycleInput = CycleInput(rcBme280: int, rcAdxl345: int, env: EnvFields, accel: AccelSample)

  /**
   * The uplink of one loop pass: the fallback payload when either sensor is missing;
   * otherwise the 12-byte frame if both reads returned 0, and nothing if either failed.
   */
  function CycleUplink(bmePresent: bool, adxlPresent: bool, c: CycleInput): (u: Option<Effect>)
    ensures u.Some? ==> u.value.Send? && u.value.port == UPLINK_PORT && u.value.msgType == Unconfirmed
    ensures u.Some? && |u.value.payload| == FRAME_SIZE <==>
              bmePresent && adxlPresent && c.rcBme280 == 0 && c.rcAdxl345 == 0
    ensures u.Some? && |u.value.payload| == FRAME_SIZE ==> Decode(u.value.payload) == Ok(SensorFrame(c.env, c.accel))
    ensures !(bmePresent && adxlPresent) ==> u == Some(Send(UPLINK_PORT, FALLBACK_DATA, Unconfirmed))
    ensures u.None? <==> bmePresent && adxlPresent && (c.rcBme280 != 0 || c.rcAdxl345 != 0)
  {
    if bmePresent && adxlPresent then
      if c.rcBme280 == 0 && c.rcAdxl345 == 0 then
        DecodeEncode(SensorFrame(c.env, c.accel));
        Some(Send(UPLINK_PORT, Encode(SensorFrame(c.env, c.accel)), Unconfirmed))
      else None
    else Some(Send(UPLINK_PORT, FALLBACK_DATA, Unconfirmed))
  }

  /**
   * The sensor frame a pass sends carries the ADXL345 sample in bytes 6..11: each axis
   * in thousandths as `AccelToMilli` converts it, high byte first.
   */
  lemma SentAccelBytes(bmePresent: bool, adxlPresent: bool, c: CycleInput)
    requires bmePresent && adxlPresent && c.rcBme280 == 0 && c.rcAdxl345 == 0
    ensures CycleUplink(bmePresent, adxlPresent, c).Some?
    ensures CycleUplink(bmePresent, adxlPresent, c).value.payload[6..] ==
            Be16(AccelToMilli(c.accel.x)) + Be16(AccelToMilli(c.accel.y)) + Be16(AccelToMilli(c.accel.z))
  {
    SensorFrameBytes(c.env, c.accel);
  }

  /** The effects of one pass: its uplink, if any, then the cycle delay. */
  function CycleEffects(bmePresent: bool, adxlPresent: bool, c: CycleInput): seq<Effect> {
    (match CycleUplink(bmePresent, adxlPresent, c)
     case Some(e) => [e]
     case None => []) + [Sleep(CYCLE_DELAY_MS)]
  }

  /** The effects of the passes over `cycles`, in order. */
  function LoopEffects(bmePresent: bool, adxlPresent: bool, cycles: seq<CycleInput>): seq<Effect>
    decreases |cycles|
  {
    if cycles == [] then []
    else LoopEffects(bmePresent, adxlPresent, cycles[..|cycles| - 1]) +
         CycleEffects(bmePresent, adxlPresent, cycles[|cycles| - 1])
  }

  /** The loop never reboots or touches the upgrade state, and every uplink is unconfirmed on port 2. */
  lemma {:induction false} LoopOnlySendsAndSleeps(bmePresent: bool, adxlPresent: bool, cycles: seq<CycleInput>)
    ensures forall e | e in LoopEffects(bmePresent, adxlPresent, cycles) ::
              (e.Send? && e.port == UPLINK_PORT && e.msgType == Unconfirmed) || e == Sleep(CYCLE_DELAY_MS)
    decreases |cycles|
  {
    if cycles != [] {
      LoopOnlySendsAndSleeps(bmePresent, adxlPresent, cycles[..|cycles| - 1]);
      var c := cycles[|cycles| - 1];
      var u := CycleUplink(bmePresent, adxlPresent, c);
      assert forall e | e in CycleEffects(bmePresent, adxlPresent, c) :: u == Some(e) || e == Sleep(CYCLE_DELAY_MS);
    }
  }

  /** Every pass ends with exactly one delay, so n passes sleep n times. */
  lemma {:induction false} LoopSleepsOncePerCycle(bmePresent: bool, adxlPresent: bool, cycles: seq<CycleInput>)
    ensures CountSleeps(LoopEffects(bmePresent, adxlPresent, cycles)) == |cycles|
    decreases |cycles|
  {
    if cycles != [] {
      var front := cycles[..|cycles| - 1];
      var c := cycles[|cycles| - 1];
      LoopSleepsOncePerCycle(bmePresent, adxlPresent, front);
      CountSleepsAppend(LoopEffects(bmePresent, adxlPresent, front), CycleEffects(bmePresent, adxlPresent, c));
      match CycleUplink(bmePresent, adxlPresent, c)
      case Some(e) =>
        assert CycleEffects(bmePresent, adxlPresent, c) == [e] + [Sleep(CYCLE_DELAY_MS)];
        CountSleepsAppend([e], [Sleep(CYCLE_DELAY_MS)]);
      case None =>
    }
  }

  function CountSleeps(e: seq<Effect>): nat
    decreases |e|
  {
    if e == [] then 0 else CountSleeps(e[..|e| - 1]) + (if e[|e| - 1].Sleep? then 1 else 0)
  }

  lemma {:induction false} CountSleepsAppend(a: seq<Effect>, b: seq<Effect>)
    ensures CountSleeps(a + b) == CountSleeps(a) + CountSleeps(b)
    decreases |b|
  {
    if b != [] {
      assert (a + b)[..|a + b| - 1] == a + b[..|b| - 1];
      CountSleepsAppend(a, b[..|b| - 1]);
    } else {
      assert a + b == a;
    }
  }

  // ------------------------------------------- the loop and the callback together

  /**
   * What the node does next: a pass of the uplink loop, or the fragment transport
   * completing and running `fuota_finished` on the LoRaWAN stack's thread. The loop
   * spends nearly all of each pass in the delay that ends it, so the callback is
   * placed between passes. Each callback calls `boot_request_upgrade` afresh; `rc` is
   * what that call returns.
   */
  datatype Step = Pass(input: CycleInput) | TransferDone(rc: int)

  /** The effects of one step on its own. */
  function StepEffects(bmePresent: bool, adxlPresent: bool, s: Step): seq<Effect> {
    match s
    case Pass(c) => CycleEffects(bmePresent, adxlPresent, c)
    case TransferDone(rc) => FinishedEffects(rc)
  }

  /** The step ends the run: the transfer completed and the upgrade request succeeded, so the node reboots. */
  predicate Stops(s: Step) {
    s.TransferDone? && s.rc == 0
  }

  /**
   * The effects of `steps`. A successful upgrade request ends in `sys_reboot`, which
   * does not return, so no later step runs; after a failed one the loop goes on.
   */
  function RunEffects(bmePresent: bool, adxlPresent: bool, steps: seq<Step>): seq<Effect>
    decreases |steps|
  {
    if steps == [] then []
    else StepEffects(bmePresent, adxlPresent, steps[0]) +
         (if Stops(steps[0]) then [] else RunEffects(bmePresent, adxlPresent, steps[1..]))
  }

  /** One step of `RunEffects`, taken at position i of the steps. */
  lemma RunUnfold(bmePresent: bool, adxlPresent: bool, steps: seq<Step>, i: nat)
    requires i < |steps|
    ensures RunEffects(bmePresent, adxlPresent, steps[i..]) ==
              StepEffects(bmePresent, adxlPresent, steps[i]) +
              (if Stops(steps[i]) then [] else RunEffects(bmePresent, adxlPresent, steps[i + 1..]))
  {
    assert steps[i..][1..] == steps[i + 1..];
  }

  /**
   * After step i has added its effects to `before`, the run is over if that step
   * stopped it, and otherwise what remains is the run from step i + 1.
   */
  lemma StepThenRest(bmePresent: bool, adxlPresent: bool, steps: seq<Step>, i: nat,
                     before: seq<Effect>, after: seq<Effect>)
    requires i < |steps|
    requires after == before + StepEffects(bmePresent, adxlPresent, steps[i])
    ensures Stops(steps[i]) ==> after == before + RunEffects(bmePresent, adxlPresent, steps[i..])
    ensures !Stops(steps[i]) ==>
              after + RunEffects(bmePresent, adxlPresent, steps[i + 1..]) ==
              before + RunEffects(bmePresent, adxlPresent, steps[i..])
  {
    var here := StepEffects(bmePresent, adxlPresent, steps[i]);
    var rest := RunEffects(bmePresent, adxlPresent, steps[i + 1..]);
    RunUnfold(bmePresent, adxlPresent, steps, i);
    if !Stops(steps[i]) {
      assert RunEffects(bmePresent, adxlPresent, steps[i..]) == here + rest;
      assert before + (here + rest) == (before + here) + rest;
    }
  }

  predicate HasReboot(e: seq<Effect>) {
    exists k | 0 <= k < |e| :: e[k].Reboot?
  }

  lemma HasRebootAppend(a: seq<Effect>, b: seq<Effect>)
    ensures HasReboot(a + b) <==> HasReboot(a) || HasReboot(b)
  {
    if HasReboot(a) {
      var k :| 0 <= k < |a| && a[k].Reboot?;
      assert (a + b)[k] == a[k];
    }
    if HasReboot(b) {
      var k :| 0 <= k < |b| && b[k].Reboot?;
      assert (a + b)[|a| + k] == b[k];
    }
    if HasReboot(a + b) {
      var k :| 0 <= k < |a + b| && (a + b)[k].Reboot?;
      if k >= |a| {
        assert b[k - |a|] == (a + b)[k];
      } else {
        assert a[k] == (a + b)[k];
      }
    }
  }

  /** A step reboots iff it ends the run; a pass of the loop never does. */
  lemma StepRebootsIffStops(bmePresent: bool, adxlPresent: bool, s: Step)
    ensures HasReboot(StepEffects(bmePresent, adxlPresent, s)) <==> Stops(s)
  {
    var e := StepEffects(bmePresent, adxlPresent, s);
    if s.Pass? {
      var u := CycleUplink(bmePresent, adxlPresent, s.input);
      assert u.Some? ==> e == [u.value, Sleep(CYCLE_DELAY_MS)];
      assert u.None? ==> e == [Sleep(CYCLE_DELAY_MS)];
    }
  }

  /** No effect follows a reboot. */
  predicate RebootIsLast(e: seq<Effect>) {
    forall k | 0 <= k < |e| && e[k].Reboot? :: k == |e| - 1
  }

  /** A reboot is always the last effect: once `sys_reboot` is called nothing else happens. */
  lemma {:induction false} NothingAfterReboot(bmePresent: bool, adxlPresent: bool, steps: seq<Step>)
    ensures RebootIsLast(RunEffects(bmePresent, adxlPresent, steps))
    decreases |steps|
  {
    if steps != [] && !Stops(steps[0]) {
      var rest := steps[1..];
      NothingAfterReboot(bmePresent, adxlPresent, rest);
      var head := StepEffects(bmePresent, adxlPresent, steps[0]);
      var t := RunEffects(bmePresent, adxlPresent, rest);
      StepRebootsIffStops(bmePresent, adxlPresent, steps[0]);
      var e := head + t;
      forall k | 0 <= k < |e|
        ensures e[k].Reboot? ==> k == |e| - 1
      {
        if k < |head| {
          assert e[k] == head[k];
          assert !head[k].Reboot?;
        } else {
          assert e[k] == t[k - |head|];
          assert RebootIsLast(t);
        }
      }
    }
  }

  /** The node reboots iff some callback's upgrade request succeeds, whatever the earlier ones returned. */
  lemma {:induction false} RebootsIff(bmePresent: bool, adxlPresent: bool, steps: seq<Step>)
    ensures HasReboot(RunEffects(bmePresent, adxlPresent, steps)) <==>
              exists j | 0 <= j < |steps| :: steps[j] == TransferDone(0)
    decreases |steps|
  {
    if steps != [] {
      var rest := steps[1..];
      RebootsIff(bmePresent, adxlPresent, rest);
      assert forall j | 0 <= j < |rest| :: rest[j] == steps[j + 1];
      if exists j | 0 <= j < |steps| :: steps[j] == TransferDone(0) {
        var j :| 0 <= j < |steps| && steps[j] == TransferDone(0);
        assert j == 0 || rest[j - 1] == TransferDone(0);
      }
      var head := StepEffects(bmePresent, adxlPresent, steps[0]);
      StepRebootsIffStops(bmePresent, adxlPresent, steps[0]);
      HasRebootAppend(head, if Stops(steps[0]) then [] else RunEffects(bmePresent, adxlPresent, rest));
    }
  }

  /** A failed request leaves the loop running, and a later callback can still reboot the node. */
  lemma RetryAfterFailedRequest(bmePresent: bool, adxlPresent: bool, rc: int, c: CycleInput)
    requires rc != 0
    ensures RunEffects(bmePresent, adxlPresent, [TransferDone(rc), Pass(c), TransferDone(0)]) ==
            [RequestUpgrade(Permanent)] + CycleEffects(bmePresent, adxlPresent, c) +
            [RequestUpgrade(Permanent), Sleep(SETTLE_MS), Reboot(Cold)]
    ensures HasReboot(RunEffects(bmePresent, adxlPresent, [TransferDone(rc), Pass(c), TransferDone(0)]))
  {
    var steps := [TransferDone(rc), Pass(c), TransferDone(0)];
    var afterFailure := steps[1..];
    var last := afterFailure[1..];
    assert last == [TransferDone(0)] && last[1..] == [];
    assert RunEffects(bmePresent, adxlPresent, last) == FinishedEffects(0);
    assert RunEffects(bmePresent, adxlPresent, afterFailure) ==
           CycleEffects(bmePresent, adxlPresent, c) + FinishedEffects(0);
    assert FinishedEffects(rc) == [RequestUpgrade(Permanent)];
    var e := RunEffects(bmePresent, adxlPresent, steps);
    assert e == [RequestUpgrade(Permanent)] + CycleEffects(bmePresent, adxlPresent, c) + FinishedEffects(0);
    assert e[|e| - 1].Reboot?;
  }

  /** The passes of `cycles` as the steps of a run in which no transfer completes. */
  function Passes(cycles: seq<CycleInput>): (steps: seq<Step>)
    ensures |steps| == |cycles|
    ensures forall j | 0 <= j < |steps| :: steps[j] == Pass(cycles[j])
  {
    seq(|cycles|, j requires 0 <= j < |cycles| => Pass(cycles[j]))
  }

  /** `LoopEffects` taken from the front: the first pass, then the rest. */
  lemma {:induction false} LoopEffectsCons(bmePresent: bool, adxlPresent: bool, c: CycleInput, cycles: seq<CycleInput>)
    ensures LoopEffects(bmePresent, adxlPresent, [c] + cycles) ==
            CycleEffects(bmePresent, adxlPresent, c) + LoopEffects(bmePresent, adxlPresent, cycles)
    decreases |cycles|
  {
    var all := [c] + cycles;
    if cycles == [] {
      assert all[..0] == [];
    } else {
      var front := cycles[..|cycles| - 1];
      var last := cycles[|cycles| - 1];
      assert all[..|all| - 1] == [c] + front;
      assert all[|all| - 1] == last;
      LoopEffectsCons(bmePresent, adxlPresent, c, front);
      ghost var first := CycleEffects(bmePresent, adxlPresent, c);
      ghost var middle := LoopEffects(bmePresent, adxlPresent, front);
      ghost var tail := CycleEffects(bmePresent, adxlPresent, last);
      assert LoopEffects(bmePresent, adxlPresent, cycles) == middle + tail;
      assert LoopEffects(bmePresent, adxlPresent, all) == first + middle + tail;
    }
  }

  /** The uplink loop is the run in which no transfer completes. */
  lemma {:induction false} RunOfPassesIsLoop(bmePresent: bool, adxlPresent: bool, cycles: seq<CycleInput>)
    ensures RunEffects(bmePresent, adxlPresent, Passes(cycles)) == LoopEffects(bmePresent, adxlPresent, cycles)
    decreases |cycles|
  {
    if cycles != [] {
      var steps := Passes(cycles);
      assert steps[1..] == Passes(cycles[1..]);
      RunOfPassesIsLoop(bmePresent, adxlPresent, cycles[1..]);
      assert cycles == [cycles[0]] + cycles[1..];
      LoopEffectsCons(bmePresent, adxlPresent, cycles[0], cycles[1..]);
    }
  }

  // ------------------------------------------------------------------- node

  /** The device as the callback and the loop drive it. */
  class Node {
    /** Every effect issued so far, in order. */
    var effects: seq<Effect>

    constructor ()
      ensures effects == []
    {
      effects := [];
    }

    /** `boot_request_upgrade`; `answer` is what MCUboot returns on this call. */
    method BootRequestUpgrade(mode: UpgradeMode, answer: int) returns (rc: int)
      modifies this
      ensures rc == answer
      ensures effects == old(effects) + [RequestUpgrade(mode)]
    {
      effects := effects + [RequestUpgrade(mode)];
      rc := answer;
    }

    method MSleep(ms: nat)
      modifies this
      ensures effects == old(effects) + [Sleep(ms)]
    {
      effects := effects + [Sleep(ms)];
    }

    method SysReboot(kind: RebootKind)
      modifies this
      ensures effects == old(effects) + [Reboot(kind)]
    {
      effects := effects + [Reboot(kind)];
    }

    /** `lorawan_send`; its result is only logged by the application, so it is not modelled. */
    method LorawanSend(port: uint8, payload: seq<uint8>, msgType: MessageType)
      modifies this
      ensures effects == old(effects) + [Send(port, payload, msgType)]
    {
      effects := effects + [Send(port, payload, msgType)];
    }

    /**
     * `fuota_finished`. A failed request returns at once; only a
     * successful one is followed by the settle delay and a cold reboot.
     * `rebooted` says that `sys_reboot` was called, so control never comes back.
     * `requestRc` is what `boot_request_upgrade` returns on this call.
     */
    method FuotaFinished(requestRc: int) returns (rebooted: bool)
      modifies this
      ensures effects == old(effects) + FinishedEffects(requestRc)
      ensures rebooted <==> requestRc == 0
    {
      var rc := BootRequestUpgrade(Permanent, requestRc);
      if rc != 0 {
        return false;
      }
      MSleep(SETTLE_MS);
      SysReboot(Cold);
      return true;
    }

    /** One pass of the `while (1)` loop of `main`. */
    method Cycle(bmePresent: bool, adxlPresent: bool, c: CycleInput)
      modifies this
      ensures effects == old(effects) + CycleEffects(bmePresent, adxlPresent, c)
    {
      if bmePresent && adxlPresent {
        if c.rcBme280 == 0 && c.rcAdxl345 == 0 {
          var sensorPayload := new uint8[FRAME_SIZE];
          var payloadSize := PackSensorPayload(c.env, c.accel, sensorPayload);
          LorawanSend(UPLINK_PORT, sensorPayload[..payloadSize], Unconfirmed);
        }
      } else {
        LorawanSend(UPLINK_PORT, FALLBACK_DATA, Unconfirmed);
      }
      MSleep(CYCLE_DELAY_MS);
    }

    /**
     * The uplink loop run over the sensor results of `cycles` passes. Sensor
     * presence is decided once, before the loop, by `init_bme280` and `init_adxl345`.
     */
    method UplinkLoop(bmePresent: bool, adxlPresent: bool, cycles: seq<CycleInput>)
      modifies this
      ensures effects == old(effects) + LoopEffects(bmePresent, adxlPresent, cycles)
    {
      var i := 0;
      while i < |cycles|
        invariant 0 <= i <= |cycles|
        invariant effects == old(effects) + LoopEffects(bmePresent, adxlPresent, cycles[..i])
      {
        Cycle(bmePresent, adxlPresent, cycles[i]);
        assert cycles[..i + 1][..i] == cycles[..i];
        i := i + 1;
      }
      assert cycles[..i] == cycles;
    }

    /**
     * One step of a run: a pass of the loop, or the callback. `stopped` when it
     * rebooted the node, which ends the run.
     */
    method RunStep(bmePresent: bool, adxlPresent: bool, s: Step) returns (stopped: bool)
      modifies this
      ensures stopped <==> Stops(s)
      ensures effects == old(effects) + StepEffects(bmePresent, adxlPresent, s)
    {
      if s.Pass? {
        Cycle(bmePresent, adxlPresent, s.input);
        stopped := false;
      } else {
        stopped := FuotaFinished(s.rc);
      }
    }

    /**
     * `main`'s uplink loop with the fragment transport's callback arriving as `steps`
     * say. The run ends at the reboot, since `sys_reboot` does not return.
     */
    method Run(bmePresent: bool, adxlPresent: bool, steps: seq<Step>)
      modifies this
      ensures effects == old(effects) + RunEffects(bmePresent, adxlPresent, steps)
    {
      var i := 0;
      while i < |steps|
        invariant 0 <= i <= |steps|
        invariant old(effects) + RunEffects(bmePresent, adxlPresent, steps) ==
                  effects + RunEffects(bmePresent, adxlPresent, steps[i..])
      {
        ghost var before := effects;
        var stopped := RunStep(bmePresent, adxlPresent, steps[i]);
        StepThenRest(bmePresent, adxlPresent, steps, i, before, effects);
        if stopped {
          return;
        }
        i := i + 1;
      }
      assert steps[i..] == [];
    }
  }
}
