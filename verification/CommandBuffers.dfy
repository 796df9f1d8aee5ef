/** The buffers `MQTTAsync_persistCommand` hands to `pput`: as many as it counted in advance, and together the encoded
    command. */
module CommandBuffers {
  import opened Bytes
  import opened CommandCodec
  import opened Properties

  /** What `pput` stores: the buffers one after the other. */
  function Joined(buffers: seq<seq<Byte>>): seq<Byte> {
    if buffers == [] then [] else Joined(buffers[..|buffers| - 1]) + buffers[|buffers| - 1]
  }

  /** `bufs[bufindex++] = buffer`. */
  method Put(bufs: array<seq<Byte>>, index: nat, buffer: seq<Byte>) returns (next: nat)
    requires index < bufs.Length
    modifies bufs
    ensures next == index + 1 && Joined(bufs[..next]) == old(Joined(bufs[..index])) + buffer
  {
    ghost var before := bufs[..index];
    bufs[index] := buffer;
    next := index + 1;
    assert bufs[..next][..index] == before;
  }

  /** The type and the token. */
  method PutHeader(bufs: array<seq<Byte>>, c: Content) returns (next: nat)
    requires bufs.Length >= 2 && IsWork(c.details) && IsInt(c.token)
    modifies bufs
    ensures next == 2 && Joined(bufs[..2]) == IntBytes(TypeCode(c.details)) + IntBytes(c.token)
  {
    hide Joined;
    NothingJoined(bufs[..0]);
    next := Put(bufs, 0, IntBytes(TypeCode(c.details)));
    next := Put(bufs, next, IntBytes(c.token));
    assert [] + IntBytes(TypeCode(c.details)) == IntBytes(TypeCode(c.details));
  }

  lemma NothingJoined(buffers: seq<seq<Byte>>)
    requires buffers == []
    ensures Joined(buffers) == []
  {
  }

  method PutSubscribe(bufs: array<seq<Byte>>, d: Details, v5: bool, index: nat) returns (next: nat)
    requires d.Subscribe? && exists token, properties :: WellFormed(Content(d, token, properties), v5)
    requires index + 1 + 2 * |d.topics| <= bufs.Length
    modifies bufs
    ensures next == index + 1 + 2 * |d.topics|
    ensures Joined(bufs[..next]) == old(Joined(bufs[..index])) + DetailsBytes(d, v5)
  {
    hide Joined, IntBytes, TopicsBytes, WellTyped, Length;
    ghost var before := Joined(bufs[..index]);
    next := Put(bufs, index, IntBytes(|d.topics|));
    ghost var head := before + IntBytes(|d.topics|);
    for i := 0 to |d.topics|
      invariant next == index + 1 + 2 * i
      invariant Joined(bufs[..next]) + TopicsBytes(d, v5, i) == head + TopicsBytes(d, v5, 0)
    {
      ghost var done := Joined(bufs[..next]);
      next := Put(bufs, next, d.topics[i] + [0]);
      if !v5 {
        next := Put(bufs, next, IntBytes(d.qoss[i]));
      } else if |d.topics| == 1 {
        next := Put(bufs, next, d.opts);
      } else {
        next := Put(bufs, next, d.optlist[i]);
      }
      TopicsStep(d, v5, i, done);
    }
    TopicsEnd(d, v5);
    assert head + TopicsBytes(d, v5, 0) == before + (IntBytes(|d.topics|) + TopicsBytes(d, v5, 0));
  }

  lemma TopicsStep(d: Details, v5: bool, i: nat, done: seq<Byte>)
    requires d.Subscribe? && i < |d.topics| == |d.qoss| && AllInts(d.qoss)
    requires |d.optlist| == (if v5 && |d.topics| > 1 then |d.topics| else 0)
    ensures done + TopicsBytes(d, v5, i)
         == done + (d.topics[i] + [0])
            + (if !v5 then IntBytes(d.qoss[i]) else if |d.topics| == 1 then d.opts else d.optlist[i])
            + TopicsBytes(d, v5, i + 1)
  {
    hide IntBytes;
    var topic, tail := d.topics[i] + [0], TopicsBytes(d, v5, i + 1);
    var extra := if !v5 then IntBytes(d.qoss[i]) else if |d.topics| == 1 then d.opts else d.optlist[i];
    assert TopicsBytes(d, v5, i) == topic + extra + tail;
    assert done + (topic + extra + tail) == done + topic + extra + tail;
  }

  lemma TopicsEnd(d: Details, v5: bool)
    requires d.Subscribe? && |d.topics| == |d.qoss| && AllInts(d.qoss)
    ensures TopicsBytes(d, v5, |d.topics|) == []
  {
  }

  method PutUnsubscribe(bufs: array<seq<Byte>>, d: Details, v5: bool, index: nat) returns (next: nat)
    requires d.Unsubscribe? && exists token, properties :: WellFormed(Content(d, token, properties), v5)
    requires index + 1 + |d.names| <= bufs.Length
    modifies bufs
    ensures next == index + 1 + |d.names|
    ensures Joined(bufs[..next]) == old(Joined(bufs[..index])) + DetailsBytes(d, v5)
  {
    hide Joined, IntBytes, NamesBytes, WellTyped, Length;
    ghost var before := Joined(bufs[..index]);
    next := Put(bufs, index, IntBytes(|d.names|));
    ghost var head := before + IntBytes(|d.names|);
    for i := 0 to |d.names|
      invariant next == index + 1 + i
      invariant Joined(bufs[..next]) + NamesBytes(d.names, i) == head + NamesBytes(d.names, 0)
    {
      ghost var done := Joined(bufs[..next]);
      next := Put(bufs, next, d.names[i] + [0]);
      NamesStep(d.names, i, done);
    }
    NamesEnd(d.names);
    assert head + NamesBytes(d.names, 0) == before + (IntBytes(|d.names|) + NamesBytes(d.names, 0));
  }

  lemma NamesStep(names: seq<seq<Byte>>, i: nat, done: seq<Byte>)
    requires i < |names|
    ensures done + NamesBytes(names, i) == done + (names[i] + [0]) + NamesBytes(names, i + 1)
  {
    assert done + (names[i] + [0] + NamesBytes(names, i + 1)) == done + (names[i] + [0]) + NamesBytes(names, i + 1);
  }

  lemma NamesEnd(names: seq<seq<Byte>>)
    ensures NamesBytes(names, |names|) == []
  {
  }

  method PutPublish(bufs: array<seq<Byte>>, d: Details, v5: bool, index: nat) returns (next: nat)
    requires d.Publish? && exists token, properties :: WellFormed(Content(d, token, properties), v5)
    requires index + 5 <= bufs.Length
    modifies bufs
    ensures next == index + 5
    ensures Joined(bufs[..next]) == old(Joined(bufs[..index])) + DetailsBytes(d, v5)
  {
    hide Joined, IntBytes, WellTyped, Length;
    ghost var before := Joined(bufs[..index]);
    next := Put(bufs, index, d.destination + [0]);
    next := Put(bufs, next, IntBytes(|d.payload|));
    next := Put(bufs, next, d.payload);
    next := Put(bufs, next, IntBytes(d.qos));
    next := Put(bufs, next, IntBytes(d.retained));
    Five(before, d.destination + [0], IntBytes(|d.payload|), d.payload, IntBytes(d.qos), IntBytes(d.retained));
  }

  lemma Five(s: seq<Byte>, a: seq<Byte>, b: seq<Byte>, c: seq<Byte>, d: seq<Byte>, e: seq<Byte>)
    ensures s + a + b + c + d + e == s + (a + b + c + d + e)
  {
  }

  /** The count made in advance. */
  function BufferCount(d: Details, v5: bool): nat {
    match d
    case Subscribe(topics, _, _, _) => (if v5 then 4 else 3) + |topics| * 2
    case Unsubscribe(names) => (if v5 then 4 else 3) + |names|
    case Publish(_, _, _, _) => if v5 then 8 else 7
    case _ => 0
  }

  /** The buffers of `MQTTAsync_persistCommand`; none for a command that is not kept. */
  method Buffers(c: Content, v5: bool) returns (bufs: array<seq<Byte>>, filled: nat)
    requires WellFormed(c, v5)
    ensures fresh(bufs) && filled == bufs.Length
    ensures filled == 0 <==> !IsWork(c.details)
    ensures IsWork(c.details) ==> Joined(bufs[..]) == Encode(c, v5)
  {
    hide Joined, IntBytes, DetailsBytes, PropertiesBytes, WellTyped, Length;
    var d := c.details;
    var nbufs := BufferCount(d, v5);
    bufs := new seq<Byte>[nbufs];
    if !IsWork(d) {
      return bufs, 0;
    }
    filled := PutHeader(bufs, c);
    if d.Subscribe? {
      filled := PutSubscribe(bufs, d, v5, filled);
    } else if d.Unsubscribe? {
      filled := PutUnsubscribe(bufs, d, v5, filled);
    } else {
      filled := PutPublish(bufs, d, v5, filled);
    }
    if v5 {
      filled := Put(bufs, filled, PropertiesBytes(c.properties));
    }
    assert bufs[..filled] == bufs[..];
    assert !v5 ==> Encode(c, v5) + [] == Encode(c, v5);
  }
}
