/** Commands of the asynchronous client as its persistence layer keeps them: `MQTTAsync_persistCommand` and
    `MQTTAsync_restoreCommand`.

    Integers and option structures are kept as they lie in memory: `int` and `MQTTAsync_token` in four bytes, lowest
    first, and `MQTTSubscribe_options` in twelve. */
module CommandCodec {
  import opened Bytes
  import opened Properties
  import opened Wrappers

  const PUBLISH := 3
  const SUBSCRIBE := 8
  const UNSUBSCRIBE := 10

  /** `MQTTSubscribe_options`, padding included. */
  type Options = o: seq<Byte> | |o| == 12 witness [0, 0, 0, 0, 0, 0, 0, 0, 0, 0, 0, 0]

  const NO_OPTIONS: Options := [0, 0, 0, 0, 0, 0, 0, 0, 0, 0, 0, 0]

  datatype Details =
    | Connect
    | Disconnect(internal: bool)
    | Publish(destination: seq<Byte>, payload: seq<Byte>, qos: int, retained: int)
    | Subscribe(topics: seq<seq<Byte>>, qoss: seq<int>, opts: Options, optlist: seq<Options>)
    | Unsubscribe(names: seq<seq<Byte>>)

  /** The part of `MQTTAsync_command` that is kept. */
  datatype Content = Content(details: Details, token: int, properties: seq<Property>)

  /** PUBLISH, SUBSCRIBE and UNSUBSCRIBE. */
  predicate IsWork(d: Details) {
    d.Publish? || d.Subscribe? || d.Unsubscribe?
  }

  predicate AllNoZero(topics: seq<seq<Byte>>) {
    forall i :: 0 <= i < |topics| ==> NoZero(topics[i])
  }

  predicate AllInts(ns: seq<int>) {
    forall i :: 0 <= i < |ns| ==> IsInt(ns[i])
  }

  /** What the calls that make commands see to: integers are C integers, strings C strings; only a version 5
      subscription has options, and a list of them when it has several topics. */
  predicate WellFormed(c: Content, v5: bool) {
    && IsInt(c.token) && AllWellTyped(c.properties) && Length(c.properties) < VBI_LIMIT
    && (!v5 ==> c.properties == [])
    && match c.details
       case Publish(destination, payload, qos, retained) =>
         NoZero(destination) && |payload| < TWO_31 && IsInt(qos) && IsInt(retained)
       case Subscribe(topics, qoss, opts, optlist) =>
         && |topics| < TWO_31 && AllNoZero(topics) && |qoss| == |topics| && AllInts(qoss)
         && (!v5 ==> opts == NO_OPTIONS)
         && |optlist| == (if v5 && |topics| > 1 then |topics| else 0)
       case Unsubscribe(topics) => |topics| < TWO_31 && AllNoZero(topics)
       case _ => true
  }

  // ---------- The stored form ----------

  /** The entry kept for each topic of a subscription: its name, then its qos or in version 5 its options. */
  function TopicBytes(topic: seq<Byte>, qos: int, options: Options, v5: bool): seq<Byte>
    requires IsInt(qos)
  {
    topic + [0] + (if v5 then options else IntBytes(qos))
  }

  /** The options kept for topic `i`. */
  function OptionsOf(d: Details, i: nat): Options
    requires d.Subscribe?
  {
    if |d.topics| == 1 then d.opts else if i < |d.optlist| then d.optlist[i] else NO_OPTIONS
  }

  function TopicsBytes(d: Details, v5: bool, i: nat): seq<Byte>
    requires d.Subscribe? && i <= |d.topics| == |d.qoss| && AllInts(d.qoss)
    decreases |d.topics| - i
  {
    if i == |d.topics| then []
    else TopicBytes(d.topics[i], d.qoss[i], OptionsOf(d, i), v5) + TopicsBytes(d, v5, i + 1)
  }

  function NamesBytes(names: seq<seq<Byte>>, i: nat): seq<Byte>
    requires i <= |names|
    decreases |names| - i
  {
    if i == |names| then [] else names[i] + [0] + NamesBytes(names, i + 1)
  }

  function DetailsBytes(d: Details, v5: bool): seq<Byte>
    requires exists token, properties :: WellFormed(Content(d, token, properties), v5)
  {
    match d
    case Publish(destination, payload, qos, retained) =>
      destination + [0] + IntBytes(|payload|) + payload + IntBytes(qos) + IntBytes(retained)
    case Subscribe(topics, qoss, opts, optlist) => IntBytes(|topics|) + TopicsBytes(d, v5, 0)
    case Unsubscribe(names) => IntBytes(|names|) + NamesBytes(names, 0)
    case _ => []
  }

  function TypeCode(d: Details): int {
    if d.Publish? then PUBLISH else if d.Subscribe? then SUBSCRIBE else UNSUBSCRIBE
  }

  /** All the bytes handed to `pput`. */
  function Encode(c: Content, v5: bool): seq<Byte>
    requires IsWork(c.details) && WellFormed(c, v5)
  {
    IntBytes(TypeCode(c.details)) + IntBytes(c.token) + DetailsBytes(c.details, v5)
    + (if v5 then PropertiesBytes(c.properties) else [])
  }

  // ---------- Reading it back ----------

  /** The loop over the topics of a subscription, `count` of which are left. */
  function TakeTopics(s: seq<Byte>, count: int, v5: bool, topics: seq<seq<Byte>>, qoss: seq<int>,
                      options: seq<Options>): Taken<(seq<seq<Byte>>, seq<int>, seq<Options>)>
    decreases count
  {
    if count <= 0 then Some(((topics, qoss, options), s))
    else
      var topic := TakeCString(s);
      if topic.None? then None
      else if v5 then
        var o := TakeBytes(topic.value.1, 12);
        if o.None? then None
        else TakeTopics(o.value.1, count - 1, v5, topics + [topic.value.0], qoss, options + [o.value.0])
      else
        var qos := TakeInt(topic.value.1);
        if qos.None? then None
        else TakeTopics(qos.value.1, count - 1, v5, topics + [topic.value.0], qoss + [qos.value.0], options)
  }

  function TakeNames(s: seq<Byte>, count: int, names: seq<seq<Byte>>): Taken<seq<seq<Byte>>>
    decreases count
  {
    if count <= 0 then Some((names, s))
    else
      var name := TakeCString(s);
      if name.None? then None else TakeNames(name.value.1, count - 1, names + [name.value.0])
  }

  function TakePublish(s: seq<Byte>): Taken<Details> {
    var destination := TakeCString(s);
    if destination.None? then None
    else
      var length := TakeInt(destination.value.1);
      if length.None? then None
      else
        var payload := TakeBytes(length.value.1, length.value.0);
        if payload.None? then None
        else
          var qos := TakeInt(payload.value.1);
          if qos.None? then None
          else
            var retained := TakeInt(qos.value.1);
            if retained.None? then None
            else Some((Publish(destination.value.0, payload.value.0, qos.value.0, retained.value.0), retained.value.1))
  }

  function TakeSubscribe(s: seq<Byte>, v5: bool): Taken<Details> {
    var count := TakeInt(s);
    if count.None? then None
    else
      var r := TakeTopics(count.value.1, count.value.0, v5, [], [], []);
      if r.None? then None
      else
        var (topics, qoss, options) := r.value.0;
        Some((Subscribe(topics, qoss, if |options| == 1 then options[0] else NO_OPTIONS,
                        if |options| == 1 then [] else options), r.value.1))
  }

  function TakeUnsubscribe(s: seq<Byte>): Taken<Details> {
    var count := TakeInt(s);
    if count.None? then None
    else
      var names := TakeNames(count.value.1, count.value.0, []);
      if names.None? then None else Some((Unsubscribe(names.value.0), names.value.1))
  }

  function TakeDetails(type_: int, s: seq<Byte>, v5: bool): Taken<Details> {
    if type_ == SUBSCRIBE then TakeSubscribe(s, v5)
    else if type_ == UNSUBSCRIBE then TakeUnsubscribe(s)
    else if type_ == PUBLISH then TakePublish(s)
    else None
  }

  /** `MQTTAsync_restoreCommand`, none where the source frees the command or would read past the buffer. */
  function Decode(buffer: seq<Byte>, v5: bool): Option<Content> {
    var type_ := TakeInt(buffer);
    if type_.None? then None
    else
      var token := TakeInt(type_.value.1);
      if token.None? then None
      else
        var details := TakeDetails(type_.value.0, token.value.1, v5);
        if details.None? then None
        else if !v5 then Some(Content(details.value.0, token.value.0, []))
        else
          var properties := TakeProperties(details.value.1);
          if properties.None? then None
          else Some(Content(details.value.0, token.value.0, properties.value.0))
  }

  // ---------- What comes back ----------

  /** The details as they come back: a version 5 subscription loses its qos list. */
  function Kept(d: Details, v5: bool): Details {
    if d.Subscribe? && v5 then d.(qoss := [], opts := if |d.topics| == 1 then d.opts else NO_OPTIONS) else d
  }

  /** One turn of the loop over the topics. */
  lemma TopicTurn(topic: seq<Byte>, qos: int, o: Options, tail: seq<Byte>, count: int, v5: bool,
                  topics: seq<seq<Byte>>, qoss: seq<int>, options: seq<Options>)
    requires NoZero(topic) && IsInt(qos) && count > 0
    ensures TakeTopics(TopicBytes(topic, qos, o, v5) + tail, count, v5, topics, qoss, options)
         == TakeTopics(tail, count - 1, v5, topics + [topic], if v5 then qoss else qoss + [qos],
                       if v5 then options + [o] else options)
  {
    hide NoZero, IntBytes, TakeInt;
    var extra := if v5 then o else IntBytes(qos);
    assert TopicBytes(topic, qos, o, v5) + tail == topic + [0] + (extra + tail);
    CStringTaken(topic, extra + tail);
    if v5 {
      BytesTaken(o, tail);
    } else {
      IntTaken(qos, tail);
    }
  }

  lemma {:induction false} TopicsTaken(d: Details, v5: bool, i: nat, rest: seq<Byte>, qoss: seq<int>,
                                       options: seq<Options>)
    requires d.Subscribe? && i <= |d.topics| == |d.qoss| && AllInts(d.qoss) && AllNoZero(d.topics)
    requires |d.optlist| == (if v5 && |d.topics| > 1 then |d.topics| else 0)
    ensures TakeTopics(TopicsBytes(d, v5, i) + rest, |d.topics| - i, v5, d.topics[..i], qoss, options)
         == Some(((d.topics, if v5 then qoss else qoss + d.qoss[i..], if v5 then options + OptionsFrom(d, i) else options),
                  rest))
    decreases |d.topics| - i
  {
    hide NoZero, TopicBytes, TakeTopics, OptionsOf, TopicsBytes;
    TopicsBytesStep(d, v5, i, rest);
    if i == |d.topics| {
      NoTopicsLeft(rest, v5, d.topics[..i], qoss, options);
      assert d.topics[..i] == d.topics;
      assert qoss + d.qoss[i..] == qoss && options + OptionsFrom(d, i) == options;
    } else {
      var topic, qos, o, tail := d.topics[i], d.qoss[i], OptionsOf(d, i), TopicsBytes(d, v5, i + 1) + rest;
      TopicTurn(topic, qos, o, tail, |d.topics| - i, v5, d.topics[..i], qoss, options);
      assert d.topics[..i] + [topic] == d.topics[..i + 1];
      TopicsTaken(d, v5, i + 1, rest, if v5 then qoss else qoss + [qos], if v5 then options + [o] else options);
      assert d.qoss[i..] == [qos] + d.qoss[i + 1..];
      MoveOver(options, o, OptionsFrom(d, i + 1));
      MoveOver(qoss, qos, d.qoss[i + 1..]);
    }
  }

  lemma TopicsBytesStep(d: Details, v5: bool, i: nat, rest: seq<Byte>)
    requires d.Subscribe? && i <= |d.topics| == |d.qoss| && AllInts(d.qoss)
    ensures TopicsBytes(d, v5, i) + rest
         == if i == |d.topics| then rest
            else TopicBytes(d.topics[i], d.qoss[i], OptionsOf(d, i), v5) + (TopicsBytes(d, v5, i + 1) + rest)
  {
    hide TopicBytes, OptionsOf;
  }

  lemma MoveOver<T>(left: seq<T>, x: T, right: seq<T>)
    ensures left + [x] + right == left + ([x] + right)
  {
  }

  lemma NoTopicsLeft(s: seq<Byte>, v5: bool, topics: seq<seq<Byte>>, qoss: seq<int>, options: seq<Options>)
    ensures TakeTopics(s, 0, v5, topics, qoss, options) == Some(((topics, qoss, options), s))
  {
  }

  function OptionsFrom(d: Details, i: nat): (r: seq<Options>)
    requires d.Subscribe? && i <= |d.topics|
    ensures |r| == |d.topics| - i && forall k :: 0 <= k < |r| ==> r[k] == OptionsOf(d, i + k)
    decreases |d.topics| - i
  {
    if i == |d.topics| then [] else [OptionsOf(d, i)] + OptionsFrom(d, i + 1)
  }

  lemma {:induction false} NamesTaken(names: seq<seq<Byte>>, i: nat, rest: seq<Byte>)
    requires i <= |names| && AllNoZero(names)
    ensures TakeNames(NamesBytes(names, i) + rest, |names| - i, names[..i]) == Some((names, rest))
    decreases |names| - i
  {
    hide NoZero;
    if i == |names| {
      assert NamesBytes(names, i) + rest == rest && names[..i] == names;
    } else {
      var tail := NamesBytes(names, i + 1) + rest;
      assert NamesBytes(names, i) + rest == names[i] + [0] + tail;
      CStringTaken(names[i], tail);
      assert names[..i] + [names[i]] == names[..i + 1];
      NamesTaken(names, i + 1, rest);
    }
  }

  lemma PublishTaken(d: Details, rest: seq<Byte>)
    requires d.Publish? && NoZero(d.destination) && |d.payload| < TWO_31 && IsInt(d.qos) && IsInt(d.retained)
    ensures TakePublish(d.destination + [0] + IntBytes(|d.payload|) + d.payload + IntBytes(d.qos) + IntBytes(d.retained)
                        + rest) == Some((d, rest))
  {
    hide IntBytes, TakeInt, TakeCString;
    var c3 := IntBytes(d.retained) + rest;
    var c2 := IntBytes(d.qos) + c3;
    var c1 := d.payload + c2;
    var c0 := IntBytes(|d.payload|) + c1;
    assert d.destination + [0] + IntBytes(|d.payload|) + d.payload + IntBytes(d.qos) + IntBytes(d.retained) + rest
        == d.destination + [0] + c0;
    CStringTaken(d.destination, c0);
    IntTaken(|d.payload|, c1);
    BytesTaken(d.payload, c2);
    IntTaken(d.qos, c3);
    IntTaken(d.retained, rest);
  }

  lemma SubscribeTaken(d: Details, v5: bool, rest: seq<Byte>)
    requires d.Subscribe? && |d.topics| < TWO_31 && |d.topics| == |d.qoss| && AllInts(d.qoss) && AllNoZero(d.topics)
    requires !v5 ==> d.opts == NO_OPTIONS
    requires |d.optlist| == (if v5 && |d.topics| > 1 then |d.topics| else 0)
    ensures TakeSubscribe(IntBytes(|d.topics|) + TopicsBytes(d, v5, 0) + rest, v5) == Some((Kept(d, v5), rest))
  {
    hide IntBytes, TakeInt, TopicsBytes, TakeTopics;
    var tail := TopicsBytes(d, v5, 0) + rest;
    assert IntBytes(|d.topics|) + TopicsBytes(d, v5, 0) + rest == IntBytes(|d.topics|) + tail;
    IntTaken(|d.topics|, tail);
    assert d.topics[..0] == [];
    TopicsTaken(d, v5, 0, rest, [], []);
    if v5 {
      assert [] + OptionsFrom(d, 0) == OptionsFrom(d, 0);
      assert |d.topics| > 1 ==> OptionsFrom(d, 0) == d.optlist;
    } else {
      assert [] + d.qoss[0..] == d.qoss;
    }
  }

  lemma UnsubscribeTaken(names: seq<seq<Byte>>, rest: seq<Byte>)
    requires |names| < TWO_31 && AllNoZero(names)
    ensures TakeUnsubscribe(IntBytes(|names|) + NamesBytes(names, 0) + rest) == Some((Unsubscribe(names), rest))
  {
    hide IntBytes, TakeInt, NamesBytes, TakeNames;
    assert IntBytes(|names|) + NamesBytes(names, 0) + rest == IntBytes(|names|) + (NamesBytes(names, 0) + rest);
    IntTaken(|names|, NamesBytes(names, 0) + rest);
    assert names[..0] == [];
    NamesTaken(names, 0, rest);
  }

  lemma DetailsTaken(d: Details, v5: bool, rest: seq<Byte>)
    requires IsWork(d) && exists token, properties :: WellFormed(Content(d, token, properties), v5)
    ensures TakeDetails(TypeCode(d), DetailsBytes(d, v5) + rest, v5) == Some((Kept(d, v5), rest))
  {
    hide TakePublish, TakeSubscribe, TakeUnsubscribe, IntBytes, TopicsBytes, NamesBytes;
    match d
    case Publish(destination, payload, qos, retained) => PublishTaken(d, rest);
    case Subscribe(topics, qoss, opts, optlist) => SubscribeTaken(d, v5, rest);
    case Unsubscribe(names) => UnsubscribeTaken(names, rest);
  }

  // ---------- Main results ----------

  /** What a restored command is, for every command that was persisted. */
  lemma RestoreOfPersist(c: Content, v5: bool)
    requires IsWork(c.details) && WellFormed(c, v5)
    ensures Decode(Encode(c, v5), v5)
         == Some(Content(Kept(c.details, v5), c.token, RereadAll(c.properties)))
  {
    hide IntBytes, TakeInt, DetailsBytes, TakeDetails, PropertiesBytes, TakeProperties;
    var tail := if v5 then PropertiesBytes(c.properties) else [];
    var body := DetailsBytes(c.details, v5) + tail;
    assert Encode(c, v5) == IntBytes(TypeCode(c.details)) + (IntBytes(c.token) + body);
    IntTaken(TypeCode(c.details), IntBytes(c.token) + body);
    IntTaken(c.token, body);
    DetailsTaken(c.details, v5, tail);
    if v5 {
      assert tail + [] == tail;
      PropertiesTaken(c.properties, []);
    }
  }

  /** Below version 5 nothing is lost. */
  lemma RestoreIsIdentity(c: Content)
    requires IsWork(c.details) && WellFormed(c, false)
    ensures Decode(Encode(c, false), false) == Some(c)
  {
    RestoreOfPersist(c, false);
  }

  /** In version 5 nothing is lost exactly if no four-byte property is spoilt and no topic is subscribed to. */
  lemma RestoreIsIdentityInV5(c: Content)
    requires IsWork(c.details) && WellFormed(c, true)
    ensures Decode(Encode(c, true), true) == Some(c)
       <==> && AllSurvive(c.properties)
            && (c.details.Subscribe? ==> c.details.topics == [] && c.details.opts == NO_OPTIONS)
  {
    hide Encode, Decode, WellTyped, AllSurvive;
    RestoreOfPersist(c, true);
    RereadIsSame(c.properties);
  }

  /** Of a subscription the topics and the options of each are kept; its qos list is kept below version 5 only. */
  lemma SubscriptionIsKept(c: Content, v5: bool)
    requires c.details.Subscribe? && WellFormed(c, v5)
    ensures var r := Decode(Encode(c, v5), v5);
            && r.Some? && r.value.details.Subscribe? && r.value.details.topics == c.details.topics
            && r.value.details.qoss == (if v5 then [] else c.details.qoss)
            && forall i :: 0 <= i < |c.details.topics| ==> OptionsOf(r.value.details, i) == OptionsOf(c.details, i)
  {
    hide Encode, Decode;
    RestoreOfPersist(c, v5);
  }

  /** Sending a SUBSCRIBE reads the qos of every topic, in every version. */
  predicate Dispatchable(d: Details) {
    d.Subscribe? ==> |d.qoss| == |d.topics|
  }

  /** What comes back can be sent, except in version 5 a SUBSCRIBE with a topic: its qos list is null then. */
  lemma RestoredIsDispatchable(c: Content, v5: bool)
    requires IsWork(c.details) && WellFormed(c, v5)
    ensures var r := Decode(Encode(c, v5), v5);
            r.Some? && (Dispatchable(r.value.details) <==> !v5 || (c.details.Subscribe? ==> c.details.topics == []))
  {
    hide Encode, Decode;
    RestoreOfPersist(c, v5);
  }
}
