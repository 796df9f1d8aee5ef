/** What the sending thread lets through, in terms of the fields it looks at: which command goes, and when none does. */
module QueueGuards {
  import opened CommandCodec
  import opened CommandKeys
  import opened CommandQueue
  import opened QueueScheduling
  import opened Wrappers

  /** The client can send nothing now: no connection, one being made, or writes still pending. */
  predicate Busy(n: Net) {
    !n.connected || !n.idle || !n.writable
  }

  /** The reasons to pass over a client's first command.  CONNECT and DISCONNECT have none; in version 5 the server's
      receive maximum counts for everything that is answered. */
  predicate PassedOver(d: Details, v5: bool, n: Net) {
    match d
    case Connect => false
    case Disconnect(_) => false
    case Publish(_, _, qos, _) => Busy(n) || n.outbound >= 65534 || (v5 && qos > 0 && n.outbound >= n.maxInflight)
    case Subscribe(_, _, _, _) => Busy(n) || n.outbound >= 65534 || (v5 && n.outbound >= n.maxInflight)
    case Unsubscribe(_) => Busy(n) || n.outbound >= 65534 || (v5 && n.outbound >= n.maxInflight)
  }

  /** The command at `i` is its client's first and there is no reason to pass over it. */
  predicate MayGo(s: State, net: map<int, Net>, i: nat)
    requires i < |s.queue| && Covers(net, s)
  {
    var c := s.queue[i];
    FirstOfClient(s.queue, i) && !PassedOver(c.content.details, s.clients[c.client].v5, net[c.client])
  }

  /** The command at `i` is in hand; work is recorded as dispatched, and its client's store has its entry no longer. */
  predicate TakenFrom(s: State, t: State, i: nat)
    requires i < |s.queue| && s.queue[i].client in s.clients
  {
    var c, m := s.queue[i], s.clients[s.queue[i].client];
    && t.hand == Some(c) && t.queue == s.queue[..i] + s.queue[i + 1..]
    && t.dispatched == s.dispatched + (if c.content.details.Connect? || c.content.details.Disconnect? then [] else [c])
    && t.clients.Keys == s.clients.Keys
    && (forall k :: k in s.clients && k != c.client ==> t.clients[k] == s.clients[k])
    && t.clients[c.client] == m.(store := if m.persistent then m.store - {Key(m.v5, c.seqno)} else m.store)
    && t.finished == s.finished && t.calls == s.calls && t.owners == s.owners
  }

  /** The first command that may go is taken, and it alone leaves the queue; none is taken exactly if none may go. */
  lemma TakesExactly(s: State, net: map<int, Net>)
    requires Covers(net, s) && s.hand.None?
    ensures var t := AfterTake(s, net);
            if t.hand.None? then t == s && forall i :: 0 <= i < |s.queue| ==> !MayGo(s, net, i)
            else exists i :: && 0 <= i < |s.queue| && MayGo(s, net, i) && TakenFrom(s, t, i)
                             && forall j :: 0 <= j < i ==> !MayGo(s, net, j)
  {
    hide Select;
    SelectIsFirstReady(s, net);
    forall i | 0 <= i < |s.queue|
      ensures MayGo(s, net, i) <==> Ready(s, net, i)
    {
    }
    hide MayGo, Ready;
    var found := Select(s, net, 0, {});
    if found.Some? {
      assert TakenFrom(s, AfterTake(s, net), found.value);
    }
  }

  /** With a CONNECT or DISCONNECT at the head of some client's commands, a command is taken whatever the network
      does. */
  lemma ControlAlwaysGoes(s: State, net: map<int, Net>, i: nat)
    requires Covers(net, s) && s.hand.None? && i < |s.queue| && FirstOfClient(s.queue, i)
    requires s.queue[i].content.details.Connect? || s.queue[i].content.details.Disconnect?
    ensures AfterTake(s, net).hand.Some?
    ensures i == 0 ==> AfterTake(s, net).hand == Some(s.queue[0])
  {
    TakesExactly(s, net);
    assert MayGo(s, net, i);
  }

  /** Work at the head of its client's commands makes a command be taken as soon as the connection is open, idle and
      without pending writes, ids are left and, in version 5 where an answer is due, the server can receive more. */
  lemma WorkGoes(s: State, net: map<int, Net>, i: nat)
    requires Covers(net, s) && s.hand.None? && i < |s.queue| && FirstOfClient(s.queue, i)
    requires var n := net[s.queue[i].client]; n.connected && n.idle && n.writable && n.outbound < MAX_MSG_ID - 1
    requires var d, n := s.queue[i].content.details, net[s.queue[i].client];
             s.clients[s.queue[i].client].v5 && !(d.Publish? && d.qos <= 0) ==> n.outbound < n.maxInflight
    ensures AfterTake(s, net).hand.Some?
    ensures i == 0 ==> AfterTake(s, net).hand == Some(s.queue[0])
  {
    TakesExactly(s, net);
    assert MayGo(s, net, i);
  }
}
