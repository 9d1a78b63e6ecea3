/**
 * SleepDetector: reacts to power events by switching every panel's lights off before
 * a suspend (and, on process shutdown, letting each panel's command queue drain) and
 * by rescanning and restoring every panel's lighting after a resume.
 *
 * What it does to the outside world is the `actions` log: lighting commands, queue
 * checks, pauses, the rescan and the scanner's close. The device holder's contents
 * are given at the moment they are read, and each queue's emptiness is an oracle:
 * `busyPolls(serial)` is how many checks find that queue still non-empty.
 */
module Sleep {
  import opened Wrappers
  import opened PowerEvents
  import opened Hid
  import opened Basics

  datatype Color = Color(red: int, green: int, blue: int)

  /** A lighting configuration: every light one colour, or any other configuration. */
  datatype LightingConfig = AllColor(color: Color) | Custom(name: string)

  /** `ALL_OFF`: every light black. */
  const AllOff := AllColor(Color(0, 0, 0))

  /** A device of the device holder, with its current lighting configuration. */
  datatype Device = Device(serial: string, deviceType: DeviceType, lighting: LightingConfig)

  datatype Action =
    | SendLighting(serial: string, deviceType: DeviceType, config: LightingConfig, immediate: bool)
    | QueueCheck(serial: string, empty: bool)
    | Wait(ms: nat)
    | RescanDevices
    | CloseScanner

  /** A unit of work deferred to the UI thread with `runLater`. */
  datatype Task = SuspendTask | ResumeTask

  /** `onEvent`: suspend and lock dim the lights, resume and unlock restore them. */
  function TaskFor(e: PowerEvent): (t: Task)
    ensures t == SuspendTask <==> e == GoingToSuspend || e == Locked
    ensures t == ResumeTask <==> e == ResumedFromSuspend || e == Unlocked
  {
    match e
    case GoingToSuspend => SuspendTask
    case Locked => SuspendTask
    case ResumedFromSuspend => ResumeTask
    case Unlocked => ResumeTask
  }

  // ------------------------------------------------------------------
  // Waiting for a queue to drain
  // ------------------------------------------------------------------

  const MaxPolls: nat := 20
  const PollMillis: nat := 100

  /** The checks and pauses of the poll loop with `left` iterations left. */
  function PollActions(serial: string, busy: nat, left: nat): seq<Action>
    decreases left
  {
    if left == 0 then []
    else if busy == 0 then [QueueCheck(serial, true)]
    else [QueueCheck(serial, false), Wait(PollMillis)] + PollActions(serial, busy - 1, left - 1)
  }

  /** One iteration of the poll loop. */
  lemma PollStep(serial: string, busy: nat, left: nat)
    requires left > 0
    ensures PollActions(serial, busy, left) ==
              if busy == 0 then [QueueCheck(serial, true)]
              else [QueueCheck(serial, false), Wait(PollMillis)] + PollActions(serial, busy - 1, left - 1)
  {
  }

  /** `waitUntilEmptyPrioQueue` for a queue that `busy` checks find non-empty. */
  function WaitActions(serial: string, busy: nat): seq<Action> {
    PollActions(serial, busy, MaxPolls)
  }

  function CountChecks(actions: seq<Action>): nat
    decreases |actions|
  {
    if actions == [] then 0 else (if actions[0].QueueCheck? then 1 else 0) + CountChecks(actions[1..])
  }

  function CountWaits(actions: seq<Action>): nat
    decreases |actions|
  {
    if actions == [] then 0 else (if actions[0].Wait? then 1 else 0) + CountWaits(actions[1..])
  }


  /**
   * The poll loop makes `min(busy + 1, left)` checks and `min(busy, left)` pauses of
   * 100 ms, checks only this queue, and stops at the first check that finds it empty:
   * that check, if made, is the last action.
   */
  lemma {:induction false} PollBounded(serial: string, busy: nat, left: nat)
    ensures var p := PollActions(serial, busy, left);
      && CountChecks(p) == Min(busy + 1, left)
      && CountWaits(p) == Min(busy, left)
      && (forall i :: 0 <= i < |p| ==>
            (p[i] == QueueCheck(serial, false) || p[i] == Wait(PollMillis)
             || (p[i] == QueueCheck(serial, true) && i == |p| - 1)))
      && (busy < left <==> p != [] && p[|p| - 1] == QueueCheck(serial, true))
    decreases left
  {
    if left > 0 && busy > 0 {
      var rest := PollActions(serial, busy - 1, left - 1);
      PollBounded(serial, busy - 1, left - 1);
      var p := [QueueCheck(serial, false), Wait(PollMillis)] + rest;
      assert p[2..] == rest && p[1..][1..] == rest;
      forall i | 2 <= i < |p| ensures p[i] == rest[i - 2] {}
    }
  }

  /** At most 20 checks and 20 pauses of 100 ms: the wait is bounded by two seconds. */
  lemma WaitBounded(serial: string, busy: nat)
    ensures CountChecks(WaitActions(serial, busy)) <= MaxPolls
    ensures CountWaits(WaitActions(serial, busy)) * PollMillis <= 2000
  {
    PollBounded(serial, busy, MaxPolls);
  }

  // ------------------------------------------------------------------
  // The suspend and resume work, on values
  // ------------------------------------------------------------------

  /** What the suspend loop does for one device whose handler lookup succeeds or not. */
  function DeviceSuspendActions(d: Device, shutdown: bool, registered: set<string>, busyPolls: string -> nat): seq<Action> {
    [SendLighting(d.serial, d.deviceType, AllOff, true)]
    + (if shutdown && d.serial in registered then WaitActions(d.serial, busyPolls(d.serial)) else [])
  }

  /**
   * On shutdown, a device with no registered handler makes the queue wait dereference
   * null: the exception ends the whole suspend work.
   */
  predicate Aborts(devices: seq<Device>, shutdown: bool, registered: set<string>) {
    shutdown && exists i :: 0 <= i < |devices| && devices[i].serial !in registered
  }

  /** The suspend loop over `devices` in iteration order. */
  function SuspendLoop(devices: seq<Device>, shutdown: bool, registered: set<string>, busyPolls: string -> nat): seq<Action>
    decreases |devices|
  {
    if devices == [] then []
    else
      var init := devices[..|devices| - 1];
      if Aborts(init, shutdown, registered) then SuspendLoop(init, shutdown, registered, busyPolls)
      else SuspendLoop(init, shutdown, registered, busyPolls)
           + DeviceSuspendActions(devices[|devices| - 1], shutdown, registered, busyPolls)
  }

  /** The whole suspend work: the loop, then on a completed shutdown the scanner's close. */
  function SuspendActions(devices: seq<Device>, shutdown: bool, registered: set<string>, busyPolls: string -> nat): seq<Action> {
    SuspendLoop(devices, shutdown, registered, busyPolls)
    + (if shutdown && !Aborts(devices, shutdown, registered) then [CloseScanner] else [])
  }

  /** The lighting commands among `actions`, in order. */
  function Sends(actions: seq<Action>): seq<Action>
    decreases |actions|
  {
    if actions == [] then []
    else (if actions[0].SendLighting? then [actions[0]] else []) + Sends(actions[1..])
  }

  function CountCloses(actions: seq<Action>): nat
    decreases |actions|
  {
    if actions == [] then 0 else (if actions[0] == CloseScanner then 1 else 0) + CountCloses(actions[1..])
  }

  /** `ALL_OFF`, sent immediately, to each device in turn. */
  function AllOffCommands(devices: seq<Device>): seq<Action>
    decreases |devices|
  {
    if devices == [] then []
    else AllOffCommands(devices[..|devices| - 1])
         + [SendLighting(devices[|devices| - 1].serial, devices[|devices| - 1].deviceType, AllOff, true)]
  }

  lemma {:induction false} SendsAppend(a: seq<Action>, b: seq<Action>)
    ensures Sends(a + b) == Sends(a) + Sends(b)
    ensures CountCloses(a + b) == CountCloses(a) + CountCloses(b)
    decreases |a|
  {
    if a != [] {
      assert (a + b)[0] == a[0];
      assert (a + b)[1..] == a[1..] + b;
      SendsAppend(a[1..], b);
    } else {
      assert a + b == b;
    }
  }

  lemma {:induction false} PollSendsNothing(serial: string, busy: nat, left: nat)
    ensures Sends(PollActions(serial, busy, left)) == []
    ensures CountCloses(PollActions(serial, busy, left)) == 0
    decreases left
  {
    if left > 0 && busy > 0 {
      PollSendsNothing(serial, busy - 1, left - 1);
      var rest := PollActions(serial, busy - 1, left - 1);
      SendsAppend([QueueCheck(serial, false), Wait(PollMillis)], rest);
    }
  }

  /**
   * Unless a shutdown aborts, the suspend work sends `ALL_OFF` with `immediate` exactly
   * once to each device, in iteration order, and issues no other lighting command; it
   * closes the scanner exactly once, as its last action, when it is a shutdown, and
   * never otherwise.
   */
  lemma {:induction false} SuspendSendsAllOffOnce(devices: seq<Device>, shutdown: bool, registered: set<string>, busyPolls: string -> nat)
    requires !Aborts(devices, shutdown, registered)
    ensures var a := SuspendActions(devices, shutdown, registered, busyPolls);
      && Sends(a) == AllOffCommands(devices)
      && CountCloses(a) == (if shutdown then 1 else 0)
      && (shutdown ==> a[|a| - 1] == CloseScanner)
    decreases |devices|
  {
    SuspendLoopSends(devices, shutdown, registered, busyPolls);
    var loop := SuspendLoop(devices, shutdown, registered, busyPolls);
    SendsAppend(loop, if shutdown then [CloseScanner] else []);
  }

  lemma {:induction false} SuspendLoopSends(devices: seq<Device>, shutdown: bool, registered: set<string>, busyPolls: string -> nat)
    requires !Aborts(devices, shutdown, registered)
    ensures Sends(SuspendLoop(devices, shutdown, registered, busyPolls)) == AllOffCommands(devices)
    ensures CountCloses(SuspendLoop(devices, shutdown, registered, busyPolls)) == 0
    decreases |devices|
  {
    if devices != [] {
      var init := devices[..|devices| - 1];
      var d := devices[|devices| - 1];
      assert !Aborts(init, shutdown, registered) by {
        if shutdown {
          forall i | 0 <= i < |init| ensures init[i].serial in registered {
            assert init[i] == devices[i];
          }
        }
      }
      SuspendLoopSends(init, shutdown, registered, busyPolls);
      var send := [SendLighting(d.serial, d.deviceType, AllOff, true)];
      var wait := if shutdown && d.serial in registered then WaitActions(d.serial, busyPolls(d.serial)) else [];
      PollSendsNothing(d.serial, busyPolls(d.serial), MaxPolls);
      SendsAppend(send, wait);
      SendsAppend(SuspendLoop(init, shutdown, registered, busyPolls), send + wait);
    }
  }

  /** Each device's own lighting configuration, sent immediately, in iteration order. */
  function RestoreCommands(devices: seq<Device>): seq<Action>
    decreases |devices|
  {
    if devices == [] then []
    else RestoreCommands(devices[..|devices| - 1])
         + [SendLighting(devices[|devices| - 1].serial, devices[|devices| - 1].deviceType, devices[|devices| - 1].lighting, true)]
  }

  /** One restore per device present at restore time, the i-th for the i-th device. */
  lemma {:induction false} RestoreEachDevice(devices: seq<Device>)
    ensures |RestoreCommands(devices)| == |devices|
    ensures forall i :: 0 <= i < |devices| ==>
              RestoreCommands(devices)[i] == SendLighting(devices[i].serial, devices[i].deviceType, devices[i].lighting, true)
    decreases |devices|
  {
    if devices != [] {
      var init := devices[..|devices| - 1];
      RestoreEachDevice(init);
      forall i | 0 <= i < |init| ensures init[i] == devices[i] {}
    }
  }

  /** The same statement for `ALL_OFF`. */
  lemma {:induction false} AllOffEachDevice(devices: seq<Device>)
    ensures |AllOffCommands(devices)| == |devices|
    ensures forall i :: 0 <= i < |devices| ==>
              AllOffCommands(devices)[i] == SendLighting(devices[i].serial, devices[i].deviceType, AllOff, true)
    decreases |devices|
  {
    if devices != [] {
      var init := devices[..|devices| - 1];
      AllOffEachDevice(init);
      forall i | 0 <= i < |init| ensures init[i] == devices[i] {}
    }
  }

  /** The resume work: settle, rescan, settle again, then restore. */
  function ResumeActions(restored: seq<Device>): seq<Action> {
    [Wait(2000), RescanDevices, Wait(1000)] + RestoreCommands(restored)
  }

  // ------------------------------------------------------------------
  // The detector object
  // ------------------------------------------------------------------

  class SleepDetector {
    const scanner: DeviceScanner
    /** What the detector has done, in order. */
    var actions: seq<Action>
    /** The work handed to `Platform.runLater` and not yet run, in order. */
    var pending: seq<Task>
    var shutdownHookInstalled: bool

    constructor (scanner: DeviceScanner)
      ensures this.scanner == scanner && actions == [] && pending == [] && !shutdownHookInstalled
    {
      this.scanner := scanner;
      actions := [];
      pending := [];
      shutdownHookInstalled := false;
    }

    /** `init`: install the shutdown hook that runs `onSuspended(true)`. */
    method Init()
      modifies this`shutdownHookInstalled
      ensures shutdownHookInstalled
    {
      shutdownHookInstalled := true;
    }

    /** `onEvent`: hand the suspend or resume work to the UI thread. */
    method OnEvent(e: PowerEvent)
      modifies this`actions, this`pending, scanner`services
      ensures pending == old(pending) + [TaskFor(e)]
      ensures actions == old(actions) && scanner.services == old(scanner.services)
    {
      match e
      case GoingToSuspend => var _ := OnSuspended(false, [], _ => 0);
      case Locked => var _ := OnSuspended(false, [], _ => 0);
      case ResumedFromSuspend => OnResumed();
      case Unlocked => OnResumed();
    }

    /**
     * `onSuspended`: on shutdown the suspend work runs at once over `devices` (what the
     * device holder holds then); otherwise it is deferred and nothing else happens yet.
     * Returns false when the work ran and ended in an exception.
     */
    method OnSuspended(shutdown: bool, devices: seq<Device>, busyPolls: string -> nat) returns (completed: bool)
      modifies this`actions, this`pending, scanner`services
      ensures var registered := old(scanner.connected).Keys;
        if shutdown then
          && actions == old(actions) + SuspendActions(devices, true, registered, busyPolls)
          && completed == !Aborts(devices, true, registered)
          && pending == old(pending)
          && scanner.services == (if completed && old(scanner.services) != Uninitialized then Shutdown else old(scanner.services))
        else
          && pending == old(pending) + [SuspendTask]
          && completed && actions == old(actions) && scanner.services == old(scanner.services)
    {
      if shutdown {
        completed := SuspendWork(true, devices, busyPolls);
      } else {
        pending := pending + [SuspendTask];
        completed := true;
      }
    }

    /** `onResumed`: the resume work is always deferred. */
    method OnResumed()
      modifies this`pending
      ensures pending == old(pending) + [ResumeTask]
    {
      pending := pending + [ResumeTask];
    }

    /**
     * The shutdown hook, `onSuspended(true)`: the suspend work runs at once, with the
     * queue waits and the scanner's close. Returns false when it ended in an exception.
     */
    method RunShutdownHook(devices: seq<Device>, busyPolls: string -> nat) returns (completed: bool)
      modifies this`actions, this`pending, scanner`services
      ensures var registered := old(scanner.connected).Keys;
        && actions == old(actions) + SuspendActions(devices, true, registered, busyPolls)
        && completed == !Aborts(devices, true, registered)
        && pending == old(pending)
        && scanner.services == (if completed && old(scanner.services) != Uninitialized then Shutdown else old(scanner.services))
    {
      completed := OnSuspended(true, devices, busyPolls);
    }

    /** `waitUntilEmptyPrioQueue`: false when the device has no registered handler. */
    method WaitUntilEmptyPrioQueue(d: Device, busyPolls: string -> nat) returns (found: bool)
      modifies this`actions
      ensures found == (d.serial in scanner.connected)
      ensures actions == old(actions) + (if found then WaitActions(d.serial, busyPolls(d.serial)) else [])
    {
      var handler := scanner.GetConnectedDevice(d.serial);
      if handler.None? {
        return false;
      }
      PollQueue(d.serial, busyPolls(d.serial));
      return true;
    }

    /** The poll loop: at most 20 checks, a 100 ms pause after each one that finds the queue busy. */
    method PollQueue(serial: string, busy: nat)
      modifies this`actions
      ensures actions == old(actions) + WaitActions(serial, busy)
    {
      var i := 0;
      ghost var rest := WaitActions(serial, busy);
      assert actions + rest == old(actions) + WaitActions(serial, busy);
      while i < MaxPolls
        invariant 0 <= i <= MaxPolls && i <= busy
        invariant rest == PollActions(serial, busy - i, MaxPolls - i)
        invariant actions + rest == old(actions) + WaitActions(serial, busy)
        decreases MaxPolls - i
      {
        PollStep(serial, busy - i, MaxPolls - i);
        if i == busy {
          actions := actions + [QueueCheck(serial, true)];
          return;
        }
        ghost var before := actions;
        actions := actions + [QueueCheck(serial, false), Wait(PollMillis)];
        i := i + 1;
        rest := PollActions(serial, busy - i, MaxPolls - i);
        AppendAssoc(before, [QueueCheck(serial, false), Wait(PollMillis)], rest);
      }
      assert rest == [];
      assert actions + rest == actions;
    }

    /** One iteration of the suspend loop; false when the queue wait threw. */
    method SuspendDevice(device: Device, shutdown: bool, busyPolls: string -> nat) returns (ok: bool)
      modifies this`actions
      ensures ok == !(shutdown && device.serial !in scanner.connected)
      ensures ok ==> actions == old(actions) + DeviceSuspendActions(device, shutdown, scanner.connected.Keys, busyPolls)
      ensures !ok ==> actions == old(actions) + [SendLighting(device.serial, device.deviceType, AllOff, true)]
    {
      var send := SendLighting(device.serial, device.deviceType, AllOff, true);
      actions := actions + [send];
      ok := true;
      if shutdown {
        ok := WaitUntilEmptyPrioQueue(device, busyPolls);
        if ok {
          AppendAssoc(old(actions), [send], WaitActions(device.serial, busyPolls(device.serial)));
        } else {
          assert actions == old(actions) + [send] + [];
        }
      } else {
        assert [send] + [] == [send];
      }
    }

    /** The device loop of the suspend work; false when the queue wait threw. */
    method RunSuspendLoop(shutdown: bool, devices: seq<Device>, busyPolls: string -> nat) returns (completed: bool)
      modifies this`actions
      ensures actions == old(actions) + SuspendLoop(devices, shutdown, scanner.connected.Keys, busyPolls)
      ensures completed == !Aborts(devices, shutdown, scanner.connected.Keys)
    {
      ghost var registered := scanner.connected.Keys;
      var i := 0;
      while i < |devices|
        invariant 0 <= i <= |devices|
        invariant !Aborts(devices[..i], shutdown, registered)
        invariant actions == old(actions) + SuspendLoop(devices[..i], shutdown, registered, busyPolls)
        decreases |devices| - i
      {
        ghost var prev := SuspendLoop(devices[..i], shutdown, registered, busyPolls);
        ghost var step := DeviceSuspendActions(devices[i], shutdown, registered, busyPolls);
        var ok := SuspendDevice(devices[i], shutdown, busyPolls);
        if !ok {
          SuspendLoopAbortAt(devices, i, registered, busyPolls);
          return false;
        }
        AbortsStepFree(devices, i, shutdown, registered);
        SuspendLoopStep(devices, i, shutdown, registered, busyPolls);
        assert actions == (old(actions) + prev) + step;
        AppendAssoc(old(actions), prev, step);
        i := i + 1;
      }
      assert devices[..i] == devices;
      return true;
    }

    /** The body of the suspend work (the source's Runnable). */
    method SuspendWork(shutdown: bool, devices: seq<Device>, busyPolls: string -> nat) returns (completed: bool)
      modifies this`actions, scanner`services
      ensures var registered := old(scanner.connected).Keys;
        && actions == old(actions) + SuspendActions(devices, shutdown, registered, busyPolls)
        && completed == !Aborts(devices, shutdown, registered)
        && scanner.services == (if shutdown && completed && old(scanner.services) != Uninitialized then Shutdown else old(scanner.services))
    {
      completed := RunSuspendLoop(shutdown, devices, busyPolls);
      if shutdown && completed {
        actions := actions + [CloseScanner];
        scanner.Close();
      }
    }

    /** The resume work: settle, rescan, settle, then restore every device present now. */
    method ResumeWork(attached: seq<HidDevice>, restored: seq<Device>)
      requires Valid(scanner.State())
      modifies this`actions, scanner`connected, scanner`events, scanner`built
      ensures Valid(scanner.State())
      ensures actions == old(actions) + ResumeActions(restored)
      ensures scanner.State() ==
                (if scanner.services == Uninitialized then old(scanner.State())
                 else Rescan(scanner.types, old(scanner.State()), attached))
    {
      actions := actions + [Wait(2000)];
      actions := actions + [RescanDevices];
      scanner.TriggerDeviceRescan(attached);
      actions := actions + [Wait(1000)];
      ghost var rescanned := scanner.State();
      var i := 0;
      while i < |restored|
        invariant 0 <= i <= |restored|
        invariant scanner.State() == rescanned
        invariant actions == old(actions) + [Wait(2000), RescanDevices, Wait(1000)] + RestoreCommands(restored[..i])
        decreases |restored| - i
      {
        var device := restored[i];
        assert restored[..i + 1][..i] == restored[..i];
        actions := actions + [SendLighting(device.serial, device.deviceType, device.lighting, true)];
        i := i + 1;
      }
      assert restored[..i] == restored;
    }

    /**
     * The UI thread runs the oldest deferred task: `devices` is what the device holder
     * holds when the task reads it (for a resume, after the rescan).
     */
    method RunNextTask(devices: seq<Device>, attached: seq<HidDevice>, busyPolls: string -> nat)
      requires Valid(scanner.State())
      modifies this`actions, this`pending, scanner`connected, scanner`events, scanner`built, scanner`services
      ensures Valid(scanner.State())
      ensures old(pending) == [] ==> pending == [] && actions == old(actions) && scanner.State() == old(scanner.State())
      ensures old(pending) != [] ==> pending == old(pending)[1..]
      ensures old(pending) != [] && old(pending)[0] == SuspendTask ==>
                && actions == old(actions) + SuspendActions(devices, false, old(scanner.connected).Keys, busyPolls)
                && scanner.State() == old(scanner.State())
      ensures old(pending) != [] && old(pending)[0] == ResumeTask ==>
                && actions == old(actions) + ResumeActions(devices)
                && scanner.State() ==
                     (if scanner.services == Uninitialized then old(scanner.State())
                      else Rescan(scanner.types, old(scanner.State()), attached))
      ensures scanner.services == old(scanner.services)
    {
      if pending == [] {
        return;
      }
      var task := pending[0];
      pending := pending[1..];
      match task
      case SuspendTask =>
        var _ := SuspendWork(false, devices, busyPolls);
      case ResumeTask =>
        ResumeWork(attached, devices);
    }

    /**
     * A power event arriving while nothing is deferred, followed by the UI thread running
     * the work it deferred: suspend and lock switch every device off (with no queue wait),
     * resume and unlock run the resume work.
     */
    method OnEventThenRun(e: PowerEvent, devices: seq<Device>, attached: seq<HidDevice>, busyPolls: string -> nat)
      requires pending == [] && Valid(scanner.State())
      modifies this`actions, this`pending, scanner`connected, scanner`events, scanner`built, scanner`services
      ensures pending == [] && Valid(scanner.State()) && scanner.services == old(scanner.services)
      ensures e == GoingToSuspend || e == Locked ==>
                && actions == old(actions) + SuspendActions(devices, false, old(scanner.connected).Keys, busyPolls)
                && actions == old(actions) + AllOffCommands(devices)
                && scanner.State() == old(scanner.State())
      ensures e == ResumedFromSuspend || e == Unlocked ==>
                && actions == old(actions) + ResumeActions(devices)
                && scanner.State() ==
                     (if scanner.services == Uninitialized then old(scanner.State())
                      else Rescan(scanner.types, old(scanner.State()), attached))
    {
      OnEvent(e);
      assert pending == [TaskFor(e)];
      RunNextTask(devices, attached, busyPolls);
      NoShutdownOnlyAllOff(devices, old(scanner.connected).Keys, busyPolls);
    }
  }

  /** After an abort, the remaining devices add nothing. */
  lemma {:induction false} SuspendLoopAfterAbort(devices: seq<Device>, i: nat, shutdown: bool, registered: set<string>, busyPolls: string -> nat)
    requires 0 < i <= |devices|
    requires forall j :: i <= j <= |devices| ==> Aborts(devices[..j], shutdown, registered)
    ensures SuspendLoop(devices, shutdown, registered, busyPolls) == SuspendLoop(devices[..i], shutdown, registered, busyPolls)
    decreases |devices|
  {
    if |devices| > i {
      var init := devices[..|devices| - 1];
      assert Aborts(init, shutdown, registered) by {
        assert devices[..|devices| - 1] == init;
      }
      forall j | i <= j <= |init| ensures Aborts(init[..j], shutdown, registered) {
        assert init[..j] == devices[..j];
      }
      SuspendLoopAfterAbort(init, i, shutdown, registered, busyPolls);
      assert init[..i] == devices[..i];
    } else {
      assert devices[..i] == devices;
    }
  }

  /** A prefix that does not abort, extended by a registered device (or not on shutdown), does not abort. */
  lemma AbortsStepFree(devices: seq<Device>, i: nat, shutdown: bool, registered: set<string>)
    requires i < |devices| && !Aborts(devices[..i], shutdown, registered)
    requires !(shutdown && devices[i].serial !in registered)
    ensures !Aborts(devices[..i + 1], shutdown, registered)
  {
    if shutdown {
      var next := devices[..i + 1];
      forall j | 0 <= j < |next| ensures next[j].serial in registered {
        if j < i {
          assert next[j] == devices[..i][j];
        }
      }
    }
  }

  /** A step of the suspend loop that does not follow an abort runs the device's actions. */
  lemma SuspendLoopStep(devices: seq<Device>, i: nat, shutdown: bool, registered: set<string>, busyPolls: string -> nat)
    requires i < |devices| && !Aborts(devices[..i], shutdown, registered)
    ensures SuspendLoop(devices[..i + 1], shutdown, registered, busyPolls)
            == SuspendLoop(devices[..i], shutdown, registered, busyPolls)
               + DeviceSuspendActions(devices[i], shutdown, registered, busyPolls)
  {
    assert devices[..i + 1][..i] == devices[..i];
  }

  /** The suspend loop stopped by the queue wait on the `i`-th device ends with its `ALL_OFF`. */
  lemma SuspendLoopAbortAt(devices: seq<Device>, i: nat, registered: set<string>, busyPolls: string -> nat)
    requires i < |devices| && !Aborts(devices[..i], true, registered) && devices[i].serial !in registered
    ensures Aborts(devices, true, registered)
    ensures SuspendLoop(devices, true, registered, busyPolls)
            == SuspendLoop(devices[..i], true, registered, busyPolls)
               + [SendLighting(devices[i].serial, devices[i].deviceType, AllOff, true)]
  {
    var send := SendLighting(devices[i].serial, devices[i].deviceType, AllOff, true);
    assert devices[i] in devices;
    AbortsExtends(devices, i + 1, true, registered);
    SuspendLoopAfterAbort(devices, i + 1, true, registered, busyPolls);
    SuspendLoopStep(devices, i, true, registered, busyPolls);
    assert DeviceSuspendActions(devices[i], true, registered, busyPolls) == [send] + [];
    assert [send] + [] == [send];
  }


  /** Once a prefix aborts, every longer prefix aborts. */
  lemma AbortsExtends(devices: seq<Device>, i: nat, shutdown: bool, registered: set<string>)
    requires 0 < i <= |devices| && shutdown && devices[i - 1].serial !in registered
    ensures Aborts(devices[..i], shutdown, registered)
    ensures forall j :: i <= j <= |devices| ==> Aborts(devices[..j], shutdown, registered)
  {
    assert devices[..i][i - 1] == devices[i - 1];
    forall j | i <= j <= |devices| ensures Aborts(devices[..j], shutdown, registered) {
      assert devices[..j][i - 1] == devices[i - 1];
    }
  }

  /** Without a shutdown the suspend work is exactly the all-off commands: no queue check, no pause, no close. */
  lemma {:induction false} NoShutdownOnlyAllOff(devices: seq<Device>, registered: set<string>, busyPolls: string -> nat)
    ensures SuspendActions(devices, false, registered, busyPolls) == AllOffCommands(devices)
  {
    NoShutdownLoop(devices, registered, busyPolls);
    assert SuspendActions(devices, false, registered, busyPolls) == SuspendLoop(devices, false, registered, busyPolls) + [];
  }

  lemma {:induction false} NoShutdownLoop(devices: seq<Device>, registered: set<string>, busyPolls: string -> nat)
    ensures SuspendLoop(devices, false, registered, busyPolls) == AllOffCommands(devices)
    decreases |devices|
  {
    if devices != [] {
      var init := devices[..|devices| - 1];
      var d := devices[|devices| - 1];
      NoShutdownLoop(init, registered, busyPolls);
      assert DeviceSuspendActions(d, false, registered, busyPolls) == [SendLighting(d.serial, d.deviceType, AllOff, true)] + [];
    }
  }

  /** Each device's `ALL_OFF` followed at once by the wait for its queue, device by device. */
  function OffThenDrain(devices: seq<Device>, busyPolls: string -> nat): seq<Action>
    decreases |devices|
  {
    if devices == [] then []
    else
      var d := devices[|devices| - 1];
      OffThenDrain(devices[..|devices| - 1], busyPolls)
      + ([SendLighting(d.serial, d.deviceType, AllOff, true)] + WaitActions(d.serial, busyPolls(d.serial)))
  }

  /**
   * A shutdown that completes switches each device off and straight away waits for its
   * queue, in iteration order, and closes the scanner last.
   */
  lemma {:induction false} ShutdownDrainsEach(devices: seq<Device>, registered: set<string>, busyPolls: string -> nat)
    requires !Aborts(devices, true, registered)
    ensures SuspendActions(devices, true, registered, busyPolls) == OffThenDrain(devices, busyPolls) + [CloseScanner]
  {
    ShutdownLoopDrains(devices, registered, busyPolls);
  }

  lemma {:induction false} ShutdownLoopDrains(devices: seq<Device>, registered: set<string>, busyPolls: string -> nat)
    requires !Aborts(devices, true, registered)
    ensures SuspendLoop(devices, true, registered, busyPolls) == OffThenDrain(devices, busyPolls)
    decreases |devices|
  {
    if devices != [] {
      var init := devices[..|devices| - 1];
      var d := devices[|devices| - 1];
      assert !Aborts(init, true, registered) by {
        forall i | 0 <= i < |init| ensures init[i].serial in registered {
          assert init[i] == devices[i];
        }
      }
      assert d.serial in registered;
      ShutdownLoopDrains(init, registered, busyPolls);
    }
  }
}
