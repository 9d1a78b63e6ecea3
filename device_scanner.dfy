/**
 * DeviceScanner: the registry of connected control panels, keyed by serial number,
 * fed by hot-plug notifications and by a manual rescan after resume.
 *
 * The HID library is represented by values: an attached device is a record of its
 * vendor id, product id and (nullable) serial number, whether it is already open,
 * whether opening it succeeds, and whether building its communication handler throws.
 * The application event publisher is the `events` log.
 */
module Hid {
  import opened Wrappers

  /** A known panel model with its USB vendor and product id. */
  datatype DeviceType = DeviceType(name: string, vid: int, pid: int)

  /** A device as the HID library reports it. */
  datatype HidDevice = HidDevice(
    vid: int,
    pid: int,
    serial: Option<string>,
    isOpen: bool,
    opens: bool,         // whether `open()` succeeds
    handlerFails: bool   // whether building its communication handler throws
  )

  /** A device communication handler: the handler `id` is its identity. */
  datatype Handler = Handler(id: nat, serial: string, device: HidDevice, deviceType: DeviceType, deviceOpen: bool)

  datatype RegistryEvent = DeviceConnected(serial: string, deviceType: DeviceType) | DeviceDisconnected(serial: string)

  /** How a call returns: normally, or with the exception it throws. */
  datatype Outcome = Done | NullPointer | IllegalArgument | HandlerFailure

  /** The registry's observable state: the map, the events published, the handlers built. */
  datatype Registry = Registry(connected: map<string, Handler>, events: seq<RegistryEvent>, built: nat)

  /** The registry invariant: every handler sits under its own serial and was built earlier. */
  ghost predicate Valid(r: Registry) {
    forall k :: k in r.connected ==> r.connected[k].serial == k && r.connected[k].id < r.built
  }

  // ------------------------------------------------------------------
  // Classification
  // ------------------------------------------------------------------

  /** `isVidPidSerial(vid, pid, null)`: vendor and product id agree, the serial is ignored. */
  predicate VidPidMatches(t: DeviceType, d: HidDevice) {
    d.vid == t.vid && d.pid == t.pid
  }

  /** The first type of `types` that matches `d`, if any. */
  function Classify(types: seq<DeviceType>, d: HidDevice): Option<DeviceType>
    decreases |types|
  {
    if types == [] then None
    else if VidPidMatches(types[0], d) then Some(types[0])
    else Classify(types[1..], d)
  }

  /** `Classify` is first-match: either some type matches and no earlier one does, or none does. */
  lemma {:induction false} ClassifyIsFirstMatch(types: seq<DeviceType>, d: HidDevice)
    ensures Classify(types, d).None? <==> forall i :: 0 <= i < |types| ==> !VidPidMatches(types[i], d)
    ensures Classify(types, d).Some? ==>
              exists i :: 0 <= i < |types| && types[i] == Classify(types, d).value && VidPidMatches(types[i], d)
                          && forall j :: 0 <= j < i ==> !VidPidMatches(types[j], d)
    decreases |types|
  {
    if types != [] && !VidPidMatches(types[0], d) {
      ClassifyIsFirstMatch(types[1..], d);
      if Classify(types, d).Some? {
        var i :| 0 <= i < |types[1..]| && types[1..][i] == Classify(types, d).value && VidPidMatches(types[1..][i], d)
                 && forall j :: 0 <= j < i ==> !VidPidMatches(types[1..][j], d);
        assert types[i + 1] == Classify(types, d).value;
        assert forall j :: 0 <= j < i + 1 ==> !VidPidMatches(types[j], d) by {
          forall j | 0 <= j < i + 1 ensures !VidPidMatches(types[j], d) {
            if j > 0 {
              assert types[j] == types[1..][j - 1];
            }
          }
        }
      }
      forall i | 0 <= i < |types| && i > 0
        ensures types[i] == types[1..][i - 1]
      {
      }
    }
  }

  /** The serial number plays no part in classification. */
  lemma {:induction false} ClassifyIgnoresSerial(types: seq<DeviceType>, d: HidDevice, serial: Option<string>)
    ensures Classify(types, d.(serial := serial)) == Classify(types, d)
    decreases |types|
  {
    if types != [] {
      ClassifyIgnoresSerial(types[1..], d, serial);
    }
  }

  // ------------------------------------------------------------------
  // Registry operations, on values
  // ------------------------------------------------------------------

  /** `deviceAdded(key, d, t)` with non-null arguments. */
  function Added(r: Registry, key: string, d: HidDevice, t: DeviceType): Registry {
    if d.handlerFails then r
    else Registry(r.connected[key := Handler(r.built, key, d, t, d.isOpen || d.opens)],
                  r.events + [DeviceConnected(key, t)],
                  r.built + 1)
  }

  /** `deviceRemoved(key, d)` with non-null arguments. */
  function Removed(r: Registry, key: string): Registry {
    if key in r.connected then Registry(r.connected - {key}, r.events + [DeviceDisconnected(key)], r.built)
    else r
  }

  /**
   * After a successful add, `key` maps to a handler built just now (one no earlier
   * entry holds), even when opening the device failed; every other key is unchanged;
   * exactly one connected event is appended. The registry invariant is kept.
   */
  lemma AddedReplaces(r: Registry, key: string, d: HidDevice, t: DeviceType)
    requires Valid(r)
    requires !d.handlerFails
    ensures var r' := Added(r, key, d, t);
      && Valid(r')
      && key in r'.connected && r'.connected[key].device == d && r'.connected[key].deviceType == t
      && r'.connected[key].deviceOpen == (d.isOpen || d.opens)
      && (forall k :: k in r.connected ==> r.connected[k].id != r'.connected[key].id)
      && (forall k :: k in r.connected && k != key ==> k in r'.connected && r'.connected[k] == r.connected[k])
      && r'.connected.Keys == r.connected.Keys + {key}
      && r'.events == r.events + [DeviceConnected(key, t)]
  {
  }

  /**
   * After a remove, `key` is absent; a disconnected event is appended exactly when
   * the key was present; every other entry is unchanged. The invariant is kept.
   */
  lemma RemovedSpec(r: Registry, key: string)
    requires Valid(r)
    ensures var r' := Removed(r, key);
      && Valid(r')
      && key !in r'.connected
      && (forall k :: k != key ==> (k in r'.connected <==> k in r.connected))
      && (forall k :: k in r'.connected ==> r'.connected[k] == r.connected[k])
      && (key in r.connected ==> r'.events == r.events + [DeviceDisconnected(key)])
      && (key !in r.connected ==> r'.events == r.events)
  {
  }

  // ------------------------------------------------------------------
  // The rescan, on values
  // ------------------------------------------------------------------

  /** One iteration of the rescan loop: add a classified device whose serial is new. */
  function RescanStep(types: seq<DeviceType>, r: Registry, d: HidDevice): Registry {
    match Classify(types, d)
    case None => r
    case Some(t) =>
      if d.serial.Some? && d.serial.value !in r.connected then Added(r, d.serial.value, d, t) else r
  }

  /** The rescan loop over the attached devices, in enumeration order. */
  function Rescan(types: seq<DeviceType>, r: Registry, attached: seq<HidDevice>): Registry
    decreases |attached|
  {
    if attached == [] then r
    else RescanStep(types, Rescan(types, r, attached[..|attached| - 1]), attached[|attached| - 1])
  }

  /** A device the rescan is able to register: classified, with a serial, handler builds. */
  predicate Registrable(types: seq<DeviceType>, d: HidDevice) {
    Classify(types, d).Some? && d.serial.Some? && !d.handlerFails
  }

  /**
   * `r'` extends `r` by additions only: no entry removed or replaced, one connected
   * event per new entry, each for a serial that `r` did not hold; the invariant holds.
   */
  ghost predicate OnlyAdds(r: Registry, r': Registry) {
    && Valid(r')
    && r.connected.Keys <= r'.connected.Keys
    && (forall k :: k in r.connected ==> r'.connected[k] == r.connected[k])
    && r.events <= r'.events
    && |r'.events| - |r.events| == |r'.connected| - |r.connected|
    && (forall i :: |r.events| <= i < |r'.events| ==>
          r'.events[i].DeviceConnected? && r'.events[i].serial !in r.connected)
  }

  lemma OnlyAddsTransitive(r: Registry, r': Registry, r'': Registry)
    requires OnlyAdds(r, r') && OnlyAdds(r', r'')
    ensures OnlyAdds(r, r'')
  {
    forall i | |r.events| <= i < |r''.events|
      ensures r''.events[i].DeviceConnected? && r''.events[i].serial !in r.connected
    {
      if i < |r'.events| {
        assert r''.events[i] == r'.events[i];
      }
    }
  }

  lemma RescanStepOnlyAdds(types: seq<DeviceType>, r: Registry, d: HidDevice)
    requires Valid(r)
    ensures OnlyAdds(r, RescanStep(types, r, d))
    ensures Registrable(types, d) ==> d.serial.value in RescanStep(types, r, d).connected
    ensures RescanStep(types, r, d).connected.Keys <= r.connected.Keys + (if Registrable(types, d) then {d.serial.value} else {})
  {
    if Registrable(types, d) && d.serial.value !in r.connected {
      var k := d.serial.value;
      var r' := Added(r, k, d, Classify(types, d).value);
      assert r'.connected.Keys == r.connected.Keys + {k};
      assert |r'.connected| == |r.connected| + 1;
    }
  }

  /**
   * The rescan never removes or replaces an entry; it adds one entry per event it
   * publishes, each a connected event for a serial that was not registered before;
   * every new key is the serial of a classified attached device whose handler builds;
   * afterwards every registrable attached device is registered. The invariant is kept.
   */
  lemma {:induction false} RescanOnlyAdds(types: seq<DeviceType>, r: Registry, attached: seq<HidDevice>)
    requires Valid(r)
    ensures OnlyAdds(r, Rescan(types, r, attached))
    ensures forall i :: 0 <= i < |attached| && Registrable(types, attached[i]) ==>
              attached[i].serial.value in Rescan(types, r, attached).connected
    ensures forall k :: k in Rescan(types, r, attached).connected && k !in r.connected ==>
              exists i :: 0 <= i < |attached| && Registrable(types, attached[i]) && attached[i].serial == Some(k)
    decreases |attached|
  {
    RescanAddsOnly(types, r, attached);
    RescanRegistersAll(types, r, attached);
    RescanNewKeysAttached(types, r, attached);
  }

  /** The rescan extends the registry by additions only. */
  lemma {:induction false} RescanAddsOnly(types: seq<DeviceType>, r: Registry, attached: seq<HidDevice>)
    requires Valid(r)
    ensures OnlyAdds(r, Rescan(types, r, attached))
    decreases |attached|
  {
    if attached != [] {
      var init := attached[..|attached| - 1];
      var mid := Rescan(types, r, init);
      RescanAddsOnly(types, r, init);
      RescanStepOnlyAdds(types, mid, attached[|attached| - 1]);
      OnlyAddsTransitive(r, mid, Rescan(types, r, attached));
    }
  }

  /** After the rescan every registrable attached device is registered. */
  lemma {:induction false} RescanRegistersAll(types: seq<DeviceType>, r: Registry, attached: seq<HidDevice>)
    ensures forall i :: 0 <= i < |attached| && Registrable(types, attached[i]) ==>
              attached[i].serial.value in Rescan(types, r, attached).connected
    decreases |attached|
  {
    if attached != [] {
      var init := attached[..|attached| - 1];
      var mid := Rescan(types, r, init);
      var last := Rescan(types, r, attached);
      RescanRegistersAll(types, r, init);
      assert mid.connected.Keys <= last.connected.Keys;
      forall i | 0 <= i < |attached| && Registrable(types, attached[i])
        ensures attached[i].serial.value in last.connected
      {
        if i < |init| {
          assert init[i] == attached[i];
        }
      }
    }
  }

  /** A key the rescan adds is the serial of a registrable attached device. */
  lemma {:induction false} RescanNewKeysAttached(types: seq<DeviceType>, r: Registry, attached: seq<HidDevice>)
    ensures forall k :: k in Rescan(types, r, attached).connected && k !in r.connected ==>
              exists i :: 0 <= i < |attached| && Registrable(types, attached[i]) && attached[i].serial == Some(k)
    decreases |attached|
  {
    if attached != [] {
      var init := attached[..|attached| - 1];
      var d := attached[|attached| - 1];
      var mid := Rescan(types, r, init);
      RescanNewKeysAttached(types, r, init);
      forall k | k in Rescan(types, r, attached).connected && k !in r.connected
        ensures exists i :: 0 <= i < |attached| && Registrable(types, attached[i]) && attached[i].serial == Some(k)
      {
        if k in mid.connected {
          var i :| 0 <= i < |init| && Registrable(types, init[i]) && init[i].serial == Some(k);
          assert init[i] == attached[i];
        } else {
          assert Registrable(types, d) && d.serial == Some(k);
          assert attached[|attached| - 1] == d;
        }
      }
    }
  }

  /** A rescan in which every step changes nothing changes nothing. */
  lemma {:induction false} RescanFixedPoint(types: seq<DeviceType>, r: Registry, attached: seq<HidDevice>)
    requires forall i :: 0 <= i < |attached| ==> RescanStep(types, r, attached[i]) == r
    ensures Rescan(types, r, attached) == r
    decreases |attached|
  {
    if attached != [] {
      var init := attached[..|attached| - 1];
      forall i | 0 <= i < |init| ensures RescanStep(types, r, init[i]) == r {
        assert init[i] == attached[i];
      }
      RescanFixedPoint(types, r, init);
    }
  }

  /** A second rescan over the same attached devices adds nothing and publishes nothing. */
  lemma RescanIdempotent(types: seq<DeviceType>, r: Registry, attached: seq<HidDevice>)
    requires Valid(r)
    ensures var r' := Rescan(types, r, attached);
      Rescan(types, r', attached) == r'
  {
    var r' := Rescan(types, r, attached);
    RescanOnlyAdds(types, r, attached);
    forall i | 0 <= i < |attached| ensures RescanStep(types, r', attached[i]) == r' {
      if Registrable(types, attached[i]) {
        assert attached[i].serial.value in r'.connected;
      }
    }
    RescanFixedPoint(types, r', attached);
  }

  // ------------------------------------------------------------------
  // The scanner object
  // ------------------------------------------------------------------

  /** The HID services object: not yet created by `init`, started, or shut down. */
  datatype Services = Uninitialized | Running | Shutdown

  class DeviceScanner {
    /** `DeviceType.ALL`, the known panel models in match order. */
    const types: seq<DeviceType>
    var connected: map<string, Handler>
    var events: seq<RegistryEvent>
    var built: nat
    var services: Services

    function State(): Registry
      reads this
    {
      Registry(connected, events, built)
    }

    constructor (types: seq<DeviceType>)
      ensures this.types == types && State() == Registry(map[], [], 0) && services == Uninitialized
      ensures Valid(State())
    {
      this.types := types;
      connected := map[];
      events := [];
      built := 0;
      services := Uninitialized;
    }

    /** `init`: create the HID services, register this listener and start them. */
    method Init()
      modifies this`services
      ensures services == Running
    {
      services := Running;
    }

    /** `getConnectedDevice`: the handler registered under `key`, if any. */
    function GetConnectedDevice(key: string): (h: Option<Handler>)
      reads this
      ensures h.Some? <==> key in connected
      ensures h.Some? ==> h.value == connected[key]
    {
      if key in connected then Some(connected[key]) else None
    }

    /** `determineDeviceType`: the first known type matching `d`'s vendor and product id. */
    method DetermineDeviceType(d: HidDevice) returns (r: Option<DeviceType>)
      ensures r == Classify(types, d)
    {
      var i := 0;
      while i < |types|
        invariant 0 <= i <= |types|
        invariant Classify(types, d) == Classify(types[i..], d)
        decreases |types| - i
      {
        assert types[i..][1..] == types[i + 1..];
        if VidPidMatches(types[i], d) {
          return Some(types[i]);
        }
        i := i + 1;
      }
      return None;
    }

    /**
     * `deviceAdded`: open the device if needed, build and register its handler even
     * when the open failed, then publish a connected event. Null arguments throw.
     */
    method DeviceAdded(key: Option<string>, device: Option<HidDevice>, deviceType: DeviceType) returns (outcome: Outcome)
      requires Valid(State())
      modifies this`connected, this`events, this`built
      ensures Valid(State())
      ensures key.None? || device.None? ==> outcome == NullPointer && State() == old(State())
      ensures key.Some? && device.Some? ==>
                && State() == Added(old(State()), key.value, device.value, deviceType)
                && outcome == (if device.value.handlerFails then HandlerFailure else Done)
    {
      if key.None? || device.None? {
        return NullPointer;
      }
      var d := device.value;
      var isOpen := d.isOpen;
      if !isOpen {
        isOpen := d.opens;
      }
      if d.handlerFails {
        return HandlerFailure;
      }
      AddedReplaces(State(), key.value, d, deviceType);
      var handler := Handler(built, key.value, d, deviceType, isOpen);
      built := built + 1;
      connected := connected[key.value := handler];
      events := events + [DeviceConnected(key.value, deviceType)];
      return Done;
    }

    /**
     * `deviceRemoved`: null arguments throw `IllegalArgumentException`; otherwise the
     * entry is removed, with a disconnected event only if there was one.
     */
    method DeviceRemoved(key: Option<string>, device: Option<HidDevice>) returns (outcome: Outcome)
      requires Valid(State())
      modifies this`connected, this`events
      ensures Valid(State())
      ensures key.None? || device.None? ==> outcome == IllegalArgument && State() == old(State())
      ensures key.Some? && device.Some? ==> outcome == Done && State() == Removed(old(State()), key.value)
    {
      if key.None? || device.None? {
        return IllegalArgument;
      }
      RemovedSpec(State(), key.value);
      if key.value in connected {
        connected := connected - {key.value};
        events := events + [DeviceDisconnected(key.value)];
      }
      return Done;
    }

    /** `foundPCPanel`: add a classified device; whatever the add throws is caught. */
    method FoundPCPanel(d: HidDevice, t: DeviceType)
      requires Valid(State())
      modifies this`connected, this`events, this`built
      ensures Valid(State())
      ensures State() == (if d.serial.Some? then Added(old(State()), d.serial.value, d, t) else old(State()))
    {
      var _ := DeviceAdded(d.serial, Some(d), t);
    }

    /** `lostPCPanel`: remove a classified device; whatever the remove throws is caught. */
    method LostPCPanel(d: HidDevice)
      requires Valid(State())
      modifies this`connected, this`events
      ensures Valid(State())
      ensures State() == (if d.serial.Some? then Removed(old(State()), d.serial.value) else old(State()))
    {
      var _ := DeviceRemoved(d.serial, Some(d));
    }

    /** `hidDeviceAttached`: only a classified device is added. */
    method HidDeviceAttached(d: HidDevice)
      requires Valid(State())
      modifies this`connected, this`events, this`built
      ensures Valid(State())
      ensures Classify(types, d).None? ==> State() == old(State())
      ensures Classify(types, d).Some? ==>
                State() == (if d.serial.Some? then Added(old(State()), d.serial.value, d, Classify(types, d).value) else old(State()))
    {
      var t := DetermineDeviceType(d);
      if t.Some? {
        FoundPCPanel(d, t.value);
      }
    }

    /** `hidDeviceDetached`: only a classified device is removed. */
    method HidDeviceDetached(d: HidDevice)
      requires Valid(State())
      modifies this`connected, this`events
      ensures Valid(State())
      ensures State() == (if Classify(types, d).Some? && d.serial.Some? then Removed(old(State()), d.serial.value) else old(State()))
    {
      var t := DetermineDeviceType(d);
      if t.Some? {
        LostPCPanel(d);
      }
    }

    /** `hidFailure`: handled as a detach. */
    method HidFailure(d: HidDevice)
      requires Valid(State())
      modifies this`connected, this`events
      ensures Valid(State())
      ensures State() == (if Classify(types, d).Some? && d.serial.Some? then Removed(old(State()), d.serial.value) else old(State()))
    {
      HidDeviceDetached(d);
    }

    /**
     * `triggerDeviceRescan`: add every classified attached device whose serial is
     * non-null and not yet registered. Before `init` the services are null and the
     * null dereference is caught, so nothing happens.
     */
    method TriggerDeviceRescan(attached: seq<HidDevice>)
      requires Valid(State())
      modifies this`connected, this`events, this`built
      ensures Valid(State())
      ensures State() == (if services == Uninitialized then old(State()) else Rescan(types, old(State()), attached))
    {
      if services == Uninitialized {
        return;
      }
      var i := 0;
      while i < |attached|
        invariant 0 <= i <= |attached|
        invariant State() == Rescan(types, old(State()), attached[..i])
        invariant Valid(State())
        decreases |attached| - i
      {
        var device := attached[i];
        assert attached[..i + 1][..i] == attached[..i];
        var deviceType := DetermineDeviceType(device);
        if deviceType.Some? {
          var serialNumber := device.serial;
          if serialNumber.Some? && serialNumber.value !in connected {
            FoundPCPanel(device, deviceType.value);
          }
        }
        i := i + 1;
      }
      assert attached[..i] == attached;
    }

    /** `close`: shut the HID services down; a failure is logged, never thrown. */
    method Close()
      modifies this`services
      ensures services == (if old(services) == Uninitialized then Uninitialized else Shutdown)
    {
      if services != Uninitialized {
        services := Shutdown;
      }
    }
  }
}
