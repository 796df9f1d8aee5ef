/** The queue operations of MQTTAsync.c as they run, on the lists and client fields they change; every method is proved
    to take the step of the state machine of the same name. */
module AsyncClient {
  import opened Bytes
  import opened CommandBuffers
  import opened CommandCodec
  import opened CommandKeys
  import opened CommandQueue
  import opened CommandRestore
  import opened QueueConservation
  import opened Restart
  import opened Wrappers

  class Async {
    /** `commands`. */
    var commands: seq<Command>
    /** The command `MQTTAsync_processCommand` has taken from the queue. */
    var hand: Option<Command>
    /** `handles`: the fields of every client. */
    var clients: map<int, Client>
    /** The record of the run, which the source does not keep. */
    var finished: seq<Command>
    var calls: seq<Call>
    var dispatched: seq<Command>
    var owners: seq<int>

    constructor ()
      ensures Fresh(S()) && clients == map[]
    {
      commands, hand, clients := [], None, map[];
      finished, calls, dispatched, owners := [], [], [], [];
    }

    ghost function S(): State
      reads this
    {
      State(commands, hand, clients, finished, calls, dispatched, owners)
    }

    // ---------- Adding ----------

    /** `MQTTAsync_persistCommand`. */
    method PersistCommand(c: Command) returns (seqno: nat)
      requires c.client in clients && clients[c.client].persistent
      requires Work(c) ==> WellFormed(c.content, clients[c.client].v5)
      modifies `clients
      ensures clients == old(clients)[c.client := Persisted(old(clients)[c.client], c)]
      ensures seqno == Numbered(old(clients)[c.client], c).seqno
    {
      hide WellFormed, Joined, Encode;
      var m := clients[c.client];
      var number := m.commandSeqno + 1;
      var key := Key(m.v5, number);
      seqno := c.seqno;
      var store := m.store;
      if Work(c) {
        var bufs, nbufs := Buffers(c.content, m.v5);
        store := store[key := Joined(bufs[..])];
        seqno := number;
      }
      clients := clients[c.client := m.(commandSeqno := number, store := store)];
    }

    /** `MQTTAsync_addCommand`. */
    method AddCommand(c: Command)
      requires c.client in clients && (Work(c) ==> WellFormed(c.content, clients[c.client].v5))
      modifies `commands, `clients
      ensures S() == AfterAdd(old(S()), c)
    {
      hide WellFormed, Encode, IsWork;
      if Urgent(c.content.details) {
        if commands != [] && commands[0].client == c.client
           && SameType(commands[0].content.details, c.content.details) {
          return;
        }
        commands := [c] + commands;
      } else {
        var seqno := c.seqno;
        if clients[c.client].persistent {
          seqno := PersistCommand(c);
        }
        commands := commands + [c.(seqno := seqno)];
        assert !old(clients)[c.client].persistent ==> clients[c.client := clients[c.client]] == clients;
      }
    }

    /** A call of `MQTTAsync_send`, `MQTTAsync_subscribeMany` or `MQTTAsync_unsubscribeMany` past its checks. */
    method Submit(client: int, content: Content, callbacks: Callbacks)
      requires client in clients && WellFormed(content, clients[client].v5) && IsWork(content.details)
      modifies `commands, `clients, `owners
      ensures S() == AfterSubmit(old(S()), client, content, callbacks)
    {
      hide WellFormed;
      AddCommand(Command(|owners|, client, content, 0, callbacks, false));
      owners := owners + [client];
    }

    // ---------- Taking ----------

    /** The loop of `MQTTAsync_processCommand`, with its list of ignored clients. */
    method SelectCommand(net: map<int, Net>) returns (found: Option<nat>)
      requires Covers(net, S())
      ensures found == Select(S(), net, 0, {})
    {
      hide EligibleIn;
      var ignored: seq<int> := [];
      ghost var passed: set<int> := {};
      var i := 0;
      while i < |commands|
        invariant 0 <= i <= |commands| && (forall c :: c in passed <==> c in ignored)
        invariant Select(S(), net, 0, {}) == Select(S(), net, i, passed)
      {
        var c := commands[i];
        if c.client !in ignored {
          if EligibleIn(c, net, clients) {
            return Some(i);
          }
          ignored := ignored + [c.client];
          passed := passed + {c.client};
        }
        i := i + 1;
      }
      found := None;
    }

    /** `MQTTAsync_unpersistCommand`. */
    method UnpersistCommand(c: Command)
      requires c.client in clients && clients[c.client].persistent
      modifies `clients
      ensures clients == old(clients)[c.client := Unpersisted(old(clients)[c.client], c)]
    {
      var m := clients[c.client];
      clients := clients[c.client := m.(store := m.store - {Key(m.v5, c.seqno)})];
    }

    /** The part of `MQTTAsync_processCommand` under the command mutex. */
    method TakeCommand(net: map<int, Net>)
      requires hand.None? && Covers(net, S())
      modifies this
      ensures S() == AfterTake(old(S()), net)
    {
      hide Select, IsWork;
      var found := SelectCommand(net);
      if found.None? {
        return;
      }
      var c := commands[found.value];
      commands := Without(commands, found.value);
      if clients[c.client].persistent {
        UnpersistCommand(c);
      }
      assert !old(clients)[c.client].persistent ==> clients[c.client := clients[c.client]] == clients;
      hand := Some(c);
      if Work(c) {
        dispatched := dispatched + [c];
      }
    }

    // ---------- Finishing ----------

    /** A callback, if any, and `MQTTAsync_freeCommand`. */
    method FreeCommand(c: Command, call: Call)
      modifies `finished, `calls
      ensures S() == Finish(old(S()), c, call)
    {
      if Work(c) {
        finished, calls := finished + [c], calls + [call];
      }
    }

    /** `ListAppend(command->client->responses, command)`. */
    method AppendResponse(c: Command)
      requires c.client in clients
      modifies `clients
      ensures S() == Await(old(S()), c)
    {
      var m := clients[c.client];
      clients := clients[c.client := m.(responses := m.responses + [c])];
    }

    /** The rest of `MQTTAsync_processCommand`, given what the protocol code returned. */
    method SettleCommand(r: Result, follow: Option<Command>)
      requires hand.Some? && hand.value.client in clients
      requires follow.Some? ==> follow.value.client in clients && !Work(follow.value)
      modifies this
      ensures S() == AfterSettle(old(S()), r, follow)
    {
      hide AfterAdd, WellFormed;
      var c := hand.value;
      var d := c.content.details;
      hand := None;
      if d.Publish? && d.qos == 0 && r != Complete {
        clients := clients[c.client := clients[c.client].(pendingWrite := Some(c.id))];
      }
      if d.Connect? && !Error(r) {
        return;
      }
      if d.Disconnect? {
        return;
      }
      if Error(r) {
        if follow.Some? {
          AddCommand(follow.value);
        }
        if !d.Connect? {
          FreeCommand(c, OnFailure(c.calls));
        }
      } else if d.Publish? && d.qos == 0 && r == Complete {
        FreeCommand(c, OnSuccess(c.calls));
      } else {
        AppendResponse(c);
      }
    }

    // ---------- Acknowledgements ----------

    /** `ListDetach` on the response list. */
    method DetachResponse(client: int, i: nat)
      requires client in clients && i < |clients[client].responses|
      modifies `clients
      ensures S() == RemoveResponse(old(S()), client, i)
    {
      var m := clients[client];
      clients := clients[client := m.(responses := Without(m.responses, i))];
    }

    /** The search by message id when an acknowledgement arrives. */
    method HandleAck(client: int, p: Packet)
      requires client in clients
      modifies `clients, `finished, `calls
      ensures S() == AfterAcknowledge(old(S()), client, p)
      ensures |calls| > |old(calls)| ==>
                && |finished| > 0
                && RightlyReported(finished[|finished| - 1].calls, calls[|calls| - 1], p, clients[client].v5)
    {
      hide CallFor, Without;
      var m := clients[client];
      var i := 0;
      while i < |m.responses| && m.responses[i].content.token != p.msgId
        invariant 0 <= i <= |m.responses|
        invariant forall j :: 0 <= j < i ==> m.responses[j].content.token != p.msgId
      {
        i := i + 1;
      }
      ResponseIs(m.responses, p.msgId, i);
      if i < |m.responses| {
        var c := m.responses[i];
        ReportIsRight(c.calls, p, m.v5);
        DetachResponse(client, i);
        FreeCommand(c, CallFor(c.calls, p, m.v5));
      }
    }

    /** `MQTTAsync_writeComplete` for the client whose socket it is. */
    method WriteComplete(client: int, code: int)
      requires client in clients
      modifies `clients, `finished, `calls
      ensures S() == AfterWriteDone(old(S()), client, code)
    {
      hide Without, OnSuccess, OnFailure, IsWork;
      var m := clients[client];
      if m.pendingWrite.None? {
        return;
      }
      var i := 0;
      while i < |m.responses| && m.responses[i].id != m.pendingWrite.value
        invariant 0 <= i <= |m.responses|
        invariant forall j :: 0 <= j < i ==> m.responses[j].id != m.pendingWrite.value
      {
        i := i + 1;
      }
      WrittenIs(m.responses, m.pendingWrite.value, i);
      clients := clients[client := m.(pendingWrite := None)];
      if i < |m.responses| {
        var c := m.responses[i];
        if c.content.details.Publish? {
          if code == 1 && c.content.details.qos == 0 {
            DetachResponse(client, i);
            FreeCommand(c, OnSuccess(c.calls));
          } else if code == -1 {
            DetachResponse(client, i);
            FreeCommand(c, OnFailure(c.calls));
          }
        } else {
          DetachResponse(client, i);
          FreeCommand(c, NoCall);
        }
      }
    }

    // ---------- Cleaning ----------

    /** `MQTTAsync_removeResponsesAndCommands`. */
    method RemoveResponsesAndCommands(client: int)
      requires client in clients
      modifies `commands, `clients, `finished, `calls
      ensures S() == AfterRemove(old(S()), client)
    {
      hide FinishAll, Of, NotOf, Finish, OnFailure;
      var m := clients[client];
      var i := 0;
      clients := clients[client := m.(responses := [])];
      ghost var base := S();
      NoneFinished(base);
      while i < |m.responses|
        invariant 0 <= i <= |m.responses| && S() == FinishAll(base, m.responses[..i])
      {
        FinishOneMore(base, m.responses, i);
        FreeCommand(m.responses[i], OnFailure(m.responses[i].calls));
        i := i + 1;
      }
      assert m.responses[..i] == m.responses;
      RemoveCommands(client);
      QueueIsKept(base, m.responses);
    }

    /** Its second loop. */
    method RemoveCommands(client: int)
      modifies `commands, `finished, `calls
      ensures S() == FinishAll(old(S()).(queue := NotOf(old(commands), client)), Of(old(commands), client))
    {
      hide FinishAll, Of, NotOf, Finish, OnFailure;
      ghost var q := commands;
      ghost var base := S();
      var i := 0;
      ghost var k := 0;
      NothingSplit(q, client);
      NoneFinished(base.(queue := NotOf(q[..0], client) + q[0..]));
      assert NotOf(q[..0], client) + q[0..] == q;
      while i < |commands|
        invariant 0 <= k <= |q| && i == |NotOf(q[..k], client)|
        invariant commands == NotOf(q[..k], client) + q[k..]
        invariant S() == FinishAll(base.(queue := commands), Of(q[..k], client))
        decreases |q| - k
      {
        PassOne(q, k, client);
        var c := commands[i];
        if c.client == client {
          ghost var before := commands;
          commands := Without(commands, i);
          FinishPassed(base, before, commands, Of(q[..k], client), c);
          FreeCommand(c, OnFailure(c.calls));
        } else {
          i := i + 1;
        }
        k := k + 1;
      }
      assert k == |q| && q[..k] == q && q[k..] == [];
      assert NotOf(q, client) + [] == NotOf(q, client);
    }

    /** `MQTTAsync_cleanSession`. */
    method CleanSession(client: int)
      requires client in clients
      modifies `commands, `clients, `finished, `calls
      ensures S() == AfterClean(old(S()), client)
    {
      clients := clients[client := clients[client].(store := map[])];
      RemoveResponsesAndCommands(client);
    }

    /** `MQTTAsync_closeSession`, past closing the connection: a session that ends with the connection is cleaned. */
    method CloseSession(client: int, cleanSession: bool, sessionExpiry: int)
      requires client in clients
      modifies `commands, `clients, `finished, `calls
      ensures S() == if cleanSession || (old(clients)[client].v5 && sessionExpiry == 0)
                     then AfterClean(old(S()), client) else old(S())
    {
      hide AfterClean;
      if cleanSession || (clients[client].v5 && sessionExpiry == 0) {
        CleanSession(client);
      }
    }

    /** `MQTTAsync_destroy`. */
    method Destroy(client: int, cleanSession: bool, sessionExpiry: int)
      requires client in clients
      modifies `commands, `clients, `finished, `calls
      ensures var u := if cleanSession || (old(clients)[client].v5 && sessionExpiry == 0)
                       then AfterClean(old(S()), client) else old(S());
              client in u.clients && S() == AfterDestroy(u, client)
    {
      hide AfterRemove, AfterClean;
      CleanedIsThere(S(), client);
      CloseSession(client, cleanSession, sessionExpiry);
      RemoveResponsesAndCommands(client);
      clients := clients - {client};
    }

    // ---------- Starting ----------

    /** `MQTTAsync_createWithOptions` for a client that left the store of `m`, whose keys are listed as `keys`. */
    method Create(client: int, m: Client, keys: seq<string>)
      modifies `commands, `clients, `owners
      ensures S() == AfterCreate(old(S()), client, m, keys)
    {
      hide Restored, Inserted, Highest;
      ghost var restored := Restored(m, keys, client, |owners|);
      var queue, commandSeqno := RestoreCommands(commands, client, m.(commandSeqno := 0), keys, |owners|);
      SameRestored(m, keys, client, |owners|);
      LengthInserted(commands, restored);
      var n := |queue| - |commands|;
      commands := queue;
      clients := clients[client := m.(commandSeqno := commandSeqno, responses := [], pendingWrite := None)];
      owners := owners + Repeat(client, n);
    }
  }

  lemma CleanedIsThere(s: State, client: int)
    requires client in s.clients
    ensures client in AfterClean(s, client).clients
  {
    hide FinishAll;
    var u := s.(clients := s.clients[client := s.clients[client].(store := map[])]);
    var m := u.clients[client];
    var v := u.(clients := u.clients[client := m.(responses := [])]);
    FinishAllGrows(v, m.responses);
    FinishAllGrows(FinishAll(v, m.responses).(queue := NotOf(u.queue, client)), Of(u.queue, client));
  }

  lemma SameRestored(m: Client, keys: seq<string>, client: int, id: nat)
    ensures Restored(m.(commandSeqno := 0), keys, client, id) == Restored(m, keys, client, id)
  {
  }

  lemma LengthInserted(q: seq<Command>, r: seq<Command>)
    ensures |Inserted(q, r)| == |q| + |r|
  {
  }

  // ---------- Facts for the loops ----------

  lemma {:induction false} ResponseIs(q: seq<Command>, msgId: int, i: nat)
    requires i <= |q| && (forall j :: 0 <= j < i ==> q[j].content.token != msgId)
    requires i < |q| ==> q[i].content.token == msgId
    ensures Response(q, msgId) == if i < |q| then Some(i) else None
    decreases i
  {
    if i > 0 {
      ResponseIs(q[1..], msgId, i - 1);
    }
  }

  lemma {:induction false} WrittenIs(q: seq<Command>, id: nat, i: nat)
    requires i <= |q| && (forall j :: 0 <= j < i ==> q[j].id != id)
    requires i < |q| ==> q[i].id == id
    ensures Written(q, id) == if i < |q| then Some(i) else None
    decreases i
  {
    if i > 0 {
      WrittenIs(q[1..], id, i - 1);
    }
  }

  lemma NoneFinished(s: State)
    ensures FinishAll(s, []) == s
  {
  }

  lemma {:induction false} FinishSnoc(s: State, cs: seq<Command>, c: Command)
    ensures FinishAll(s, cs + [c]) == Finish(FinishAll(s, cs), c, OnFailure(c.calls))
    decreases |cs|
  {
    hide Finish, OnFailure;
    if cs == [] {
      assert cs + [c] == [c] && [c][1..] == [];
      NoneFinished(Finish(s, c, OnFailure(c.calls)));
      NoneFinished(s);
    } else {
      assert (cs + [c])[1..] == cs[1..] + [c];
      FinishSnoc(Finish(s, cs[0], OnFailure(cs[0].calls)), cs[1..], c);
    }
  }

  lemma FinishOneMore(s: State, cs: seq<Command>, i: nat)
    requires i < |cs|
    ensures FinishAll(s, cs[..i + 1]) == Finish(FinishAll(s, cs[..i]), cs[i], OnFailure(cs[i].calls))
  {
    hide FinishAll, Finish, OnFailure;
    assert cs[..i + 1] == cs[..i] + [cs[i]];
    FinishSnoc(s, cs[..i], cs[i]);
  }

  /** Finishing does not look at the queue. */
  lemma {:induction false} QueueInFinishAll(s: State, q: seq<Command>, cs: seq<Command>)
    ensures FinishAll(s.(queue := q), cs) == FinishAll(s, cs).(queue := q)
    decreases |cs|
  {
    hide OnFailure, IsWork;
    if cs != [] {
      var t := Finish(s, cs[0], OnFailure(cs[0].calls));
      QueueInFinishAll(t, q, cs[1..]);
    }
  }

  lemma QueueIsKept(s: State, cs: seq<Command>)
    ensures FinishAll(s, cs).queue == s.queue
  {
    hide FinishAll;
    QueueInFinishAll(s, s.queue, cs);
    assert s.(queue := s.queue) == s;
  }

  lemma NothingSplit(q: seq<Command>, client: int)
    ensures NotOf(q[..0], client) == [] && Of(q[..0], client) == []
  {
  }

  /** One turn of the loop over the queue: the command at the end of what stays is the next of the old queue. */
  lemma PassOne(q: seq<Command>, k: nat, client: int)
    requires k < |q|
    ensures var done := NotOf(q[..k], client); var now := done + q[k..];
            && now[|done|] == q[k]
            && (if q[k].client == client then
                  && Without(now, |done|) == NotOf(q[..k + 1], client) + q[k + 1..]
                  && NotOf(q[..k + 1], client) == done && Of(q[..k + 1], client) == Of(q[..k], client) + [q[k]]
                else
                  && now == NotOf(q[..k + 1], client) + q[k + 1..]
                  && |NotOf(q[..k + 1], client)| == |done| + 1 && Of(q[..k + 1], client) == Of(q[..k], client))
  {
    hide Of, NotOf;
    var done := NotOf(q[..k], client);
    assert q[k..] == [q[k]] + q[k + 1..] && q[..k + 1] == q[..k] + [q[k]];
    SplitOneMore(q[..k], q[k], client);
    assert done + [] == done && Of(q[..k], client) + [] == Of(q[..k], client);
    assert done + ([q[k]] + q[k + 1..]) == done + [q[k]] + q[k + 1..];
  }

  lemma FinishPassed(s: State, before: seq<Command>, after: seq<Command>, cs: seq<Command>, c: Command)
    ensures Finish(FinishAll(s.(queue := before), cs).(queue := after), c, OnFailure(c.calls))
         == FinishAll(s.(queue := after), cs + [c])
  {
    hide FinishAll, Finish, OnFailure;
    QueueInFinishAll(s.(queue := before), after, cs);
    assert s.(queue := before).(queue := after) == s.(queue := after);
    FinishSnoc(s.(queue := after), cs, c);
  }
}
