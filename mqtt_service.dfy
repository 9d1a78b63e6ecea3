/**
 * `MqttService`: the connection state machine driven by saved settings, the immediate or
 * debounced publish of a payload, and the clearing of retained topics. The broker client
 * is recorded as the log of what it is asked to do on the wire; the debouncer as the log
 * of what it is handed.
 */
module Mqtt {
  import opened Wrappers
  import opened TopicFilter
  import opened Basics

  datatype MqttSettings = MqttSettings(
    host: string, port: int, username: string, password: string, secure: bool, enabled: bool)

  /** `MqttSettings.DEFAULT`: only its being disabled matters here. */
  const DEFAULT: MqttSettings := MqttSettings("", 0, "", "", false, false)

  /** The debounce window of a non-immediate send. */
  const DebounceMillis: nat := 250

  /** A built client: its identifier, the settings it was built from, and whether it is connected. */
  datatype Client = Client(id: nat, settings: MqttSettings, connected: bool)

  /** A payload as handed to the client: a string's bytes, serialized JSON, or none at all. */
  datatype Bytes = StringBytes(text: string) | JsonBytes(json: string) | NoPayload

  /** A payload given to `send`: a string, or an object with its serialization (if there is one). */
  datatype Payload = Text(s: string) | Value(json: string, serializable: bool)

  datatype Wire =
    | Connect(client: nat)
    | Disconnect(client: nat)
    | Publish(client: nat, topic: string, payload: Bytes, retain: bool)
    | Subscribe(client: nat, filter: string)
    | Unsubscribe(client: nat, filter: string)

  datatype TopicKey = TopicKey(topic: string)

  /** A send handed to the debouncer: publish `payload` to `topic`, rate limited per key. */
  datatype RateLimited = RateLimited(key: TopicKey, topic: string, payload: Bytes, windowMillis: nat)

  /** What one blocking receive returns: a retained message, nothing within the timeout, or an interrupt. */
  datatype Receipt = Message(topic: string) | Empty | Interrupted

  datatype Outcome = Ok | NullPointer | ConnectFailed

  datatype MqttState = MqttState(
    connectedSettings: Option<MqttSettings>,
    client: Option<Client>,
    clientsBuilt: nat,
    wire: seq<Wire>,
    statusEvents: seq<bool>,
    debounced: seq<RateLimited>)

  datatype Step = Step(state: MqttState, outcome: Outcome)

  /** The state before the first `saveChanged`. */
  const Initial: MqttState := MqttState(None, None, 0, [], [], [])

  predicate ClientConnected(st: MqttState) {
    st.client.Some? && st.client.value.connected
  }

  // ------------------------------------------------------------------
  // The operations, on values
  // ------------------------------------------------------------------

  /** `disconnect`: nothing without a client; otherwise disconnect it and drop it. */
  function Disconnected(st: MqttState): MqttState {
    match st.client
    case None => st
    case Some(c) => st.(client := None, wire := st.wire + [Disconnect(c.id)])
  }

  /** `send(topic, bytes, immediate)`. */
  function SentBytes(st: MqttState, topic: string, payload: Bytes, immediate: bool): Step {
    if immediate then
      match st.client
      case None => Step(st, NullPointer)
      case Some(c) => Step(st.(wire := st.wire + [Publish(c.id, topic, payload, true)]), Ok)
    else
      Step(st.(debounced := st.debounced + [RateLimited(TopicKey(topic), topic, payload, DebounceMillis)]), Ok)
  }

  /** `send(topic, object, immediate)`: a failure in the object branch is caught and logged. */
  function Sent(st: MqttState, topic: string, payload: Option<Payload>, immediate: bool): Step {
    match payload
    case None => Step(st, NullPointer)
    case Some(Text(s)) => SentBytes(st, topic, StringBytes(s), immediate)
    case Some(Value(json, serializable)) =>
      if !serializable then Step(st, Ok)
      else Step(SentBytes(st, topic, JsonBytes(json), immediate).state, Ok)
  }

  /** `connect`: build a fresh client, connect it, then announce `online` on the availability topic. */
  function Connected(st: MqttState, availabilityTopic: string, s: MqttSettings, succeeds: bool): Step {
    var c := Client(st.clientsBuilt, s, false);
    var built := st.(client := Some(c), clientsBuilt := st.clientsBuilt + 1);
    if !succeeds then Step(built, ConnectFailed)
    else
      var up := built.(client := Some(c.(connected := true)), wire := built.wire + [Connect(c.id)]);
      SentBytes(up, availabilityTopic, StringBytes("online"), true)
  }

  /** `saveChanged`, given what the save service holds now. */
  function Saved(st: MqttState, availabilityTopic: string, settings: Option<MqttSettings>, succeeds: bool): Step {
    if settings.None? || !settings.value.enabled then
      var d := Disconnected(st);
      Step(d.(statusEvents := d.statusEvents + [false], connectedSettings := Some(DEFAULT)), Ok)
    else if settings == st.connectedSettings then Step(st, Ok)
    else
      var r := Connected(st, availabilityTopic, settings.value, succeeds);
      if r.outcome != Ok then r
      else Step(r.state.(connectedSettings := settings, statusEvents := r.state.statusEvents + [true]), Ok)
  }

  /** `remove`: a retained publish with no payload clears the topic's retained message. */
  function Removed(st: MqttState, topic: string): Step {
    match st.client
    case None => Step(st, NullPointer)
    case Some(c) => Step(st.(wire := st.wire + [Publish(c.id, topic, NoPayload, true)]), Ok)
  }

  /** The topics of the receipts before the first one that is not a message. */
  function Collected(inbox: seq<Receipt>): seq<string>
    decreases |inbox|
  {
    if inbox == [] then []
    else match inbox[0]
      case Message(t) => [t] + Collected(inbox[1..])
      case _ => []
  }

  /** The clearing publishes of `removeAll`, one per topic in order. */
  function ClearAll(id: nat, topics: seq<string>): seq<Wire>
    decreases |topics|
  {
    if topics == [] then []
    else ClearAll(id, topics[..|topics| - 1]) + [Publish(id, topics[|topics| - 1], NoPayload, true)]
  }

  /**
   * `removeAll`: subscribe, collect the retained topics received (the receipts past the
   * end of `inbox` time out), unsubscribe, then clear the collected topics that match.
   */
  function RemovedAll(st: MqttState, filter: string, inbox: seq<Receipt>): Step {
    match st.client
    case None => Step(st, NullPointer)
    case Some(c) =>
      Step(st.(wire := st.wire + [Subscribe(c.id, filter), Unsubscribe(c.id, filter)]
                       + ClearAll(c.id, Matching(Collected(inbox), filter))), Ok)
  }

  // ------------------------------------------------------------------
  // Properties of the settings state machine
  // ------------------------------------------------------------------

  /**
   * Null or disabled settings always disconnect, report `false` and reset the remembered
   * settings to the default, with no short-circuit on a repeat.
   */
  lemma DisabledResets(st: MqttState, availabilityTopic: string, settings: Option<MqttSettings>, succeeds: bool)
    requires settings.None? || !settings.value.enabled
    ensures var r := Saved(st, availabilityTopic, settings, succeeds);
      && r.outcome == Ok
      && r.state.client.None? && !ClientConnected(r.state)
      && r.state.connectedSettings == Some(DEFAULT)
      && r.state.statusEvents == st.statusEvents + [false]
      && r.state.wire == st.wire + (if st.client.Some? then [Disconnect(st.client.value.id)] else [])
      && r.state.clientsBuilt == st.clientsBuilt && r.state.debounced == st.debounced
  {
  }

  /** Once disabled, the next enabled settings never short-circuit: they lead to a fresh connect. */
  lemma {:induction false} DisabledThenEnabledConnects(st: MqttState, availabilityTopic: string,
      off: Option<MqttSettings>, s: MqttSettings, succeeds: bool)
    requires off.None? || !off.value.enabled
    requires s.enabled
    ensures var d := Saved(st, availabilityTopic, off, succeeds).state;
      var r := Saved(d, availabilityTopic, Some(s), true);
      && r.outcome == Ok && ClientConnected(r.state)
      && r.state.client == Some(Client(d.clientsBuilt, s, true))
      && r.state.wire == d.wire + [Connect(d.clientsBuilt), Publish(d.clientsBuilt, availabilityTopic, StringBytes("online"), true)]
  {
    var d := Saved(st, availabilityTopic, off, succeeds).state;
    DisabledResets(st, availabilityTopic, off, succeeds);
    assert Some(s) != d.connectedSettings;
  }

  /** Enabled settings equal to the remembered ones change nothing and report nothing. */
  lemma SameSettingsNoOp(st: MqttState, availabilityTopic: string, s: MqttSettings, succeeds: bool)
    requires s.enabled && st.connectedSettings == Some(s)
    ensures Saved(st, availabilityTopic, Some(s), succeeds) == Step(st, Ok)
  {
  }

  /**
   * New enabled settings build one fresh client; connected, it announces `online` once,
   * retained, and only then are the settings remembered and `true` reported. The previous
   * client is dropped without a disconnect.
   */
  lemma NewSettingsConnect(st: MqttState, availabilityTopic: string, s: MqttSettings)
    requires s.enabled && st.connectedSettings != Some(s)
    ensures var r := Saved(st, availabilityTopic, Some(s), true);
      var id := st.clientsBuilt;
      && r.outcome == Ok && ClientConnected(r.state)
      && r.state.client == Some(Client(id, s, true)) && r.state.clientsBuilt == id + 1
      && r.state.wire == st.wire + [Connect(id), Publish(id, availabilityTopic, StringBytes("online"), true)]
      && r.state.connectedSettings == Some(s)
      && r.state.statusEvents == st.statusEvents + [true]
      && r.state.debounced == st.debounced
  {
  }

  /**
   * A failing connect leaves the fresh, unconnected client in place and propagates before
   * the settings are remembered or any status is reported.
   */
  lemma FailedConnect(st: MqttState, availabilityTopic: string, s: MqttSettings)
    requires s.enabled && st.connectedSettings != Some(s)
    ensures var r := Saved(st, availabilityTopic, Some(s), false);
      && r.outcome == ConnectFailed && !ClientConnected(r.state)
      && r.state.client == Some(Client(st.clientsBuilt, s, false))
      && r.state.connectedSettings == st.connectedSettings
      && r.state.statusEvents == st.statusEvents
      && r.state.wire == st.wire
  {
  }

  /** Applying the same settings twice connects only once, whatever the second connect would do. */
  lemma {:induction false} SaveTwiceConnectsOnce(st: MqttState, availabilityTopic: string,
      settings: Option<MqttSettings>, again: bool)
    requires settings.Some? && settings.value.enabled
    ensures var r := Saved(st, availabilityTopic, settings, true);
      Saved(r.state, availabilityTopic, settings, again) == Step(r.state, Ok)
  {
    var r := Saved(st, availabilityTopic, settings, true);
    if settings != st.connectedSettings {
      NewSettingsConnect(st, availabilityTopic, settings.value);
    }
    SameSettingsNoOp(r.state, availabilityTopic, settings.value, again);
  }

  /** The remembered enabled settings are those of the current client. */
  predicate SettingsDescribeClient(st: MqttState) {
    st.connectedSettings.Some? && st.connectedSettings.value.enabled ==>
      st.client.Some? && st.client.value.settings == st.connectedSettings.value
  }

  /** Every change of settings that does not fail keeps the remembered settings those of the client. */
  lemma {:induction false} SaveChangedKeepsSettings(st: MqttState, availabilityTopic: string,
      settings: Option<MqttSettings>, succeeds: bool)
    requires SettingsDescribeClient(st)
    requires Saved(st, availabilityTopic, settings, succeeds).outcome == Ok
    ensures SettingsDescribeClient(Saved(st, availabilityTopic, settings, succeeds).state)
  {
    if settings.Some? && settings.value.enabled && settings != st.connectedSettings {
      NewSettingsConnect(st, availabilityTopic, settings.value);
    }
  }

  /**
   * After a failed connect the old settings are still remembered, so re-applying them
   * short-circuits and the unconnected client built for the failed settings stays.
   */
  lemma {:induction false} StaleSettingsAfterFailedConnect(st: MqttState, availabilityTopic: string,
      a: MqttSettings, b: MqttSettings, succeeds: bool)
    requires a.enabled && b.enabled && a != b && st.connectedSettings == Some(a)
    ensures var failed := Saved(st, availabilityTopic, Some(b), false).state;
      && !SettingsDescribeClient(failed)
      && Saved(failed, availabilityTopic, Some(a), succeeds) == Step(failed, Ok)
      && !ClientConnected(failed) && failed.client.value.settings == b
  {
    FailedConnect(st, availabilityTopic, b);
  }

  // ------------------------------------------------------------------
  // Properties of send and remove
  // ------------------------------------------------------------------

  /** Sending never touches the connection, the remembered settings or the status reports. */
  predicate SameConnection(a: MqttState, b: MqttState) {
    a.connectedSettings == b.connectedSettings && a.client == b.client
    && a.clientsBuilt == b.clientsBuilt && a.statusEvents == b.statusEvents
  }

  /**
   * An immediate send publishes exactly once, retained, through the current client (null:
   * the exception escapes and nothing is sent); any other send goes to the debouncer under
   * the topic's key with a 250 ms window and nothing reaches the wire yet.
   */
  lemma SendBytesSpec(st: MqttState, topic: string, payload: Bytes, immediate: bool)
    ensures var r := SentBytes(st, topic, payload, immediate);
      && SameConnection(st, r.state)
      && (r.outcome == NullPointer <==> immediate && st.client.None?)
      && (r.outcome == NullPointer ==> r.state == st)
      && (immediate && st.client.Some? ==>
            r.state.wire == st.wire + [Publish(st.client.value.id, topic, payload, true)]
            && r.state.debounced == st.debounced)
      && (!immediate ==>
            r.state.wire == st.wire
            && r.state.debounced == st.debounced + [RateLimited(TopicKey(topic), topic, payload, 250)])
  {
  }

  /**
   * A string is sent as its bytes and a failure escapes; an object is sent serialized,
   * and when serialization or the send fails, the failure is caught and nothing is sent.
   */
  lemma SendSpec(st: MqttState, topic: string, payload: Option<Payload>, immediate: bool)
    ensures var r := Sent(st, topic, payload, immediate);
      && SameConnection(st, r.state)
      && (payload.None? ==> r == Step(st, NullPointer))
      && (payload.Some? && payload.value.Text? ==>
            r == SentBytes(st, topic, StringBytes(payload.value.s), immediate))
      && (payload.Some? && payload.value.Value? ==>
            && r.outcome == Ok
            && (!payload.value.serializable || (immediate && st.client.None?) ==> r.state == st)
            && (payload.value.serializable ==>
                  r.state == SentBytes(st, topic, JsonBytes(payload.value.json), immediate).state))
  {
    SendBytesSpec(st, topic, StringBytes(if payload.Some? && payload.value.Text? then payload.value.s else ""), immediate);
    SendBytesSpec(st, topic, JsonBytes(if payload.Some? && payload.value.Value? then payload.value.json else ""), immediate);
  }

  /** `remove(t)` publishes one retained empty payload to exactly `t`. */
  lemma RemoveSpec(st: MqttState, topic: string)
    ensures var r := Removed(st, topic);
      && SameConnection(st, r.state) && r.state.debounced == st.debounced
      && (st.client.None? <==> r.outcome == NullPointer)
      && (st.client.None? ==> r.state == st)
      && (st.client.Some? ==> r.state.wire == st.wire + [Publish(st.client.value.id, topic, NoPayload, true)])
  {
  }

  // ------------------------------------------------------------------
  // Properties of removeAll
  // ------------------------------------------------------------------

  /** The collected topics are those of the leading messages, up to the first other receipt. */
  lemma {:induction false} CollectedSpec(inbox: seq<Receipt>)
    ensures var c := Collected(inbox);
      && |c| <= |inbox|
      && (forall i :: 0 <= i < |c| ==> inbox[i] == Message(c[i]))
      && (|c| < |inbox| ==> !inbox[|c|].Message?)
    decreases |inbox|
  {
    if inbox != [] && inbox[0].Message? {
      CollectedSpec(inbox[1..]);
    }
  }

  lemma {:induction false} ClearAllSpec(id: nat, topics: seq<string>)
    ensures |ClearAll(id, topics)| == |topics|
    ensures forall i :: 0 <= i < |topics| ==> ClearAll(id, topics)[i] == Publish(id, topics[i], NoPayload, true)
    decreases |topics|
  {
    if topics != [] {
      var init := topics[..|topics| - 1];
      ClearAllSpec(id, init);
      forall i | 0 <= i < |init| ensures init[i] == topics[i] {}
    }
  }

  /** Every publish of `ClearAll` clears a topic of the list, and every topic of the list is cleared. */
  lemma ClearAllClears(id: nat, topics: seq<string>, t: string)
    ensures Publish(id, t, NoPayload, true) in ClearAll(id, topics) <==> t in topics
    ensures forall w :: w in ClearAll(id, topics) ==> w.Publish? && w.client == id && w.payload == NoPayload && w.retain
  {
    ClearAllSpec(id, topics);
    if t in topics {
      var i :| 0 <= i < |topics| && topics[i] == t;
      assert ClearAll(id, topics)[i] == Publish(id, t, NoPayload, true);
    }
  }

  /**
   * `removeAll(f)` subscribes and unsubscribes once each, then clears the matching collected
   * topics one by one in order of receipt, a topic received twice being cleared twice; so a
   * topic is cleared exactly when it was received before the first empty or interrupted
   * receive and the filter matches it.
   */
  lemma {:induction false} RemoveAllClearsMatching(st: MqttState, filter: string, inbox: seq<Receipt>, t: string)
    requires st.client.Some?
    ensures var r := RemovedAll(st, filter, inbox);
      var id := st.client.value.id;
      var cleared := r.state.wire[|st.wire| + 2..];
      && r.outcome == Ok && SameConnection(st, r.state)
      && r.state.wire[..|st.wire| + 2] == st.wire + [Subscribe(id, filter), Unsubscribe(id, filter)]
      && cleared == ClearAll(id, Matching(Collected(inbox), filter))
      && (Publish(id, t, NoPayload, true) in cleared <==> t in Collected(inbox) && TopicMatches(filter, t))
      && |cleared| <= |Collected(inbox)|
  {
    var id := st.client.value.id;
    var matching := Matching(Collected(inbox), filter);
    var r := RemovedAll(st, filter, inbox);
    assert r.state.wire == (st.wire + [Subscribe(id, filter), Unsubscribe(id, filter)]) + ClearAll(id, matching);
    assert r.state.wire[|st.wire| + 2..] == ClearAll(id, matching);
    ClearAllClears(id, matching, t);
    ClearAllSpec(id, matching);
    MatchingSpec(Collected(inbox), filter);
  }

  /** Without a client, `removeAll` stops at the null dereference before subscribing. */
  lemma RemoveAllWithoutClient(st: MqttState, filter: string, inbox: seq<Receipt>)
    requires st.client.None?
    ensures RemovedAll(st, filter, inbox) == Step(st, NullPointer)
  {
  }

  // ------------------------------------------------------------------
  // Client identifiers
  // ------------------------------------------------------------------

  /** Every client named, now or on the wire, was built before: identifiers are never reused. */
  predicate IdsIssued(st: MqttState) {
    (st.client.Some? ==> st.client.value.id < st.clientsBuilt)
    && forall i :: 0 <= i < |st.wire| ==> st.wire[i].client < st.clientsBuilt
  }

  lemma {:induction false} AppendIssued(st: MqttState, extra: seq<Wire>, built: nat)
    requires IdsIssued(st) && st.clientsBuilt <= built
    requires forall i :: 0 <= i < |extra| ==> extra[i].client < built
    ensures forall i :: 0 <= i < |st.wire + extra| ==> (st.wire + extra)[i].client < built
  {
    forall i | 0 <= i < |st.wire + extra| ensures (st.wire + extra)[i].client < built {
      if i < |st.wire| {
        assert (st.wire + extra)[i] == st.wire[i];
      } else {
        assert (st.wire + extra)[i] == extra[i - |st.wire|];
      }
    }
  }

  /** Every operation keeps the identifiers issued. */
  lemma {:induction false} OperationsKeepIds(st: MqttState, availabilityTopic: string, settings: Option<MqttSettings>,
      succeeds: bool, topic: string, payload: Option<Payload>, immediate: bool, filter: string, inbox: seq<Receipt>)
    requires IdsIssued(st)
    ensures IdsIssued(Saved(st, availabilityTopic, settings, succeeds).state)
    ensures IdsIssued(Sent(st, topic, payload, immediate).state)
    ensures IdsIssued(Removed(st, topic).state)
    ensures IdsIssued(RemovedAll(st, filter, inbox).state)
  {
    if st.client.Some? {
      var id := st.client.value.id;
      AppendIssued(st, [Disconnect(id)], st.clientsBuilt);
      AppendIssued(st, [Publish(id, topic, NoPayload, true)], st.clientsBuilt);
      var p := if payload.Some? && payload.value.Text? then StringBytes(payload.value.s)
               else JsonBytes(if payload.Some? && payload.value.Value? then payload.value.json else "");
      AppendIssued(st, [Publish(id, topic, p, true)], st.clientsBuilt);
      var matching := Matching(Collected(inbox), filter);
      ClearAllClears(id, matching, "");
      var extra := [Subscribe(id, filter), Unsubscribe(id, filter)] + ClearAll(id, matching);
      forall i | 0 <= i < |extra| ensures extra[i].client < st.clientsBuilt {
        assert extra[i] in extra;
        if i >= 2 {
          assert extra[i] == ClearAll(id, matching)[i - 2];
          assert extra[i] in ClearAll(id, matching);
        }
      }
      AppendIssued(st, extra, st.clientsBuilt);
      assert st.wire + [Subscribe(id, filter), Unsubscribe(id, filter)] + ClearAll(id, matching) == st.wire + extra;
    }
    var id := st.clientsBuilt;
    AppendIssued(st, [Connect(id), Publish(id, availabilityTopic, StringBytes("online"), true)], id + 1);
    assert st.wire + [Connect(id)] + [Publish(id, availabilityTopic, StringBytes("online"), true)]
           == st.wire + [Connect(id), Publish(id, availabilityTopic, StringBytes("online"), true)];
  }

  lemma MatchingStep(topics: seq<string>, j: nat, filter: string)
    requires j < |topics|
    ensures Matching(topics[..j + 1], filter)
            == if TopicMatches(filter, topics[j]) then Matching(topics[..j], filter) + [topics[j]]
               else Matching(topics[..j], filter)
  {
    assert topics[..j + 1][..j] == topics[..j];
    assert Matching(topics[..j], filter) + [] == Matching(topics[..j], filter);
  }

  lemma ClearAllAppend(id: nat, topics: seq<string>, t: string)
    ensures ClearAll(id, topics + [t]) == ClearAll(id, topics) + [Publish(id, t, NoPayload, true)]
  {
    assert (topics + [t])[..|topics|] == topics;
  }


  // ------------------------------------------------------------------
  // The service object
  // ------------------------------------------------------------------

  class MqttService {
    /** What the topic helper names as the availability topic. */
    const availabilityTopic: string
    var connectedSettings: Option<MqttSettings>
    var mqttClient: Option<Client>
    var clientsBuilt: nat
    /** What the clients were asked to do on the wire, in order. */
    var wire: seq<Wire>
    /** The `MqttStatusEvent`s published, in order. */
    var statusEvents: seq<bool>
    /** The sends handed to the debouncer, in order. */
    var debounced: seq<RateLimited>

    function State(): MqttState
      reads this
    {
      MqttState(connectedSettings, mqttClient, clientsBuilt, wire, statusEvents, debounced)
    }

    constructor (availabilityTopic: string)
      ensures this.availabilityTopic == availabilityTopic && State() == Initial
    {
      this.availabilityTopic := availabilityTopic;
      connectedSettings := None;
      mqttClient := None;
      clientsBuilt := 0;
      wire := [];
      statusEvents := [];
      debounced := [];
    }

    /** `isConnected`. */
    function IsConnected(): (r: bool)
      reads this
      ensures r <==> ClientConnected(State())
    {
      mqttClient.Some? && mqttClient.value.connected
    }

    /** `send(topic, bytes, immediate)`. */
    method SendBytes(topic: string, payload: Bytes, immediate: bool) returns (outcome: Outcome)
      modifies this`wire, this`debounced
      ensures Step(State(), outcome) == SentBytes(old(State()), topic, payload, immediate)
    {
      if immediate {
        if mqttClient.None? {
          return NullPointer;
        }
        wire := wire + [Publish(mqttClient.value.id, topic, payload, true)];
        return Ok;
      }
      debounced := debounced + [RateLimited(TopicKey(topic), topic, payload, DebounceMillis)];
      return Ok;
    }

    /** `send(topic, object, immediate)`. */
    method Send(topic: string, payload: Option<Payload>, immediate: bool) returns (outcome: Outcome)
      modifies this`wire, this`debounced
      ensures Step(State(), outcome) == Sent(old(State()), topic, payload, immediate)
    {
      if payload.None? {
        return NullPointer;
      }
      match payload.value
      case Text(s) =>
        outcome := SendBytes(topic, StringBytes(s), immediate);
      case Value(json, serializable) =>
        if serializable {
          var _ := SendBytes(topic, JsonBytes(json), immediate);
        }
        outcome := Ok;
    }

    /** `remove`. */
    method Remove(topic: string) returns (outcome: Outcome)
      modifies this`wire
      ensures Step(State(), outcome) == Removed(old(State()), topic)
    {
      if mqttClient.None? {
        return NullPointer;
      }
      wire := wire + [Publish(mqttClient.value.id, topic, NoPayload, true)];
      return Ok;
    }

    /** `removeAll`: `inbox` is what the blocking receives return, in order. */
    method RemoveAll(filter: string, inbox: seq<Receipt>) returns (outcome: Outcome)
      modifies this`wire
      ensures Step(State(), outcome) == RemovedAll(old(State()), filter, inbox)
    {
      if mqttClient.None? {
        return NullPointer;
      }
      var id := mqttClient.value.id;
      wire := wire + [Subscribe(id, filter)];
      var toRemove := CollectTopics(inbox);
      wire := wire + [Unsubscribe(id, filter)];
      assert wire == old(wire) + [Subscribe(id, filter), Unsubscribe(id, filter)];
      RemoveMatching(toRemove, filter);
      return Ok;
    }

    /** The `do`/`while` receive loop: the topics received before the first empty or interrupted receive. */
    method CollectTopics(inbox: seq<Receipt>) returns (toRemove: seq<string>)
      ensures toRemove == Collected(inbox)
    {
      toRemove := [];
      var i := 0;
      var done := false;
      while !done
        invariant 0 <= i <= |inbox|
        invariant !done ==> toRemove + Collected(inbox[i..]) == Collected(inbox)
        invariant done ==> toRemove == Collected(inbox)
        decreases |inbox| - i, if done then 0 else 1
      {
        var entry := if i < |inbox| then inbox[i] else Empty;
        if entry.Message? {
          assert inbox[i..][1..] == inbox[i + 1..];
          AppendAssoc(toRemove, [entry.topic], Collected(inbox[i + 1..]));
          toRemove := toRemove + [entry.topic];
          i := i + 1;
        } else {
          assert Collected(inbox[i..]) == [];
          assert toRemove + [] == toRemove;
          done := true;
        }
      }
    }

    /** The stream over the collected topics: `remove` each one the filter matches, in order. */
    method RemoveMatching(topics: seq<string>, filter: string)
      requires mqttClient.Some?
      modifies this`wire
      ensures wire == old(wire) + ClearAll(mqttClient.value.id, Matching(topics, filter))
    {
      var id := mqttClient.value.id;
      var j := 0;
      while j < |topics|
        invariant 0 <= j <= |topics|
        invariant wire == old(wire) + ClearAll(id, Matching(topics[..j], filter))
        decreases |topics| - j
      {
        ghost var before := Matching(topics[..j], filter);
        MatchingStep(topics, j, filter);
        if TopicMatches(filter, topics[j]) {
          var _ := Remove(topics[j]);
          ClearAllAppend(id, before, topics[j]);
          AppendAssoc(old(wire), ClearAll(id, before), [Publish(id, topics[j], NoPayload, true)]);
        }
        j := j + 1;
      }
      assert topics[..j] == topics;
    }

    /** `disconnect`. */
    method Disconnect()
      modifies this`mqttClient, this`wire
      ensures State() == Disconnected(old(State()))
    {
      if mqttClient.None? {
        return;
      }
      wire := wire + [Wire.Disconnect(mqttClient.value.id)];
      mqttClient := None;
    }

    /** `connect`: `succeeds` says whether the blocking connect returns. */
    method Connect(s: MqttSettings, succeeds: bool) returns (outcome: Outcome)
      modifies this`mqttClient, this`clientsBuilt, this`wire, this`debounced
      ensures Step(State(), outcome) == Connected(old(State()), availabilityTopic, s, succeeds)
    {
      var c := Client(clientsBuilt, s, false);
      mqttClient := Some(c);
      clientsBuilt := clientsBuilt + 1;
      if !succeeds {
        return ConnectFailed;
      }
      wire := wire + [Wire.Connect(c.id)];
      mqttClient := Some(c.(connected := true));
      outcome := SendBytes(availabilityTopic, StringBytes("online"), true);
    }

    /** `saveChanged`: `settings` is what the save service holds now. */
    method SaveChanged(settings: Option<MqttSettings>, succeeds: bool) returns (outcome: Outcome)
      modifies this`connectedSettings, this`mqttClient, this`clientsBuilt, this`wire, this`statusEvents, this`debounced
      ensures Step(State(), outcome) == Saved(old(State()), availabilityTopic, settings, succeeds)
    {
      if settings.None? || !settings.value.enabled {
        Disconnect();
        statusEvents := statusEvents + [false];
        connectedSettings := Some(DEFAULT);
        return Ok;
      }
      if settings == connectedSettings {
        return Ok;
      }
      outcome := Connect(settings.value, succeeds);
      if outcome != Ok {
        return;
      }
      connectedSettings := settings;
      statusEvents := statusEvents + [true];
    }
  }
}
