/** Where commands end and which callback is recorded for them, by what the protocol returned or the server answered and
    by the four addresses. */
module QueueReports {
  import opened CommandCodec
  import opened CommandQueue
  import opened QueueConservation
  import opened QueueOrder
  import opened QueueStore
  import opened Wrappers

  /** `c` is finished, with the call `call` if one of the two addresses is set. */
  predicate Ended(s: State, t: State, c: Command, call: Call, address: nat, address5: nat) {
    && t.finished == s.finished + [c]
    && t.calls == s.calls + [if address == 0 && address5 == 0 then NoCall else call]
  }

  predicate Succeeded(s: State, t: State, c: Command) {
    Ended(s, t, c, SuccessCall, c.calls.onSuccess, c.calls.onSuccess5)
  }

  predicate Failed(s: State, t: State, c: Command) {
    Ended(s, t, c, FailureCall, c.calls.onFailure, c.calls.onFailure5)
  }

  predicate NothingEnded(s: State, t: State) {
    t.finished == s.finished && t.calls == s.calls
  }

  /** A client's responses become `responses`; those of no other client change. */
  predicate ResponsesBecome(s: State, t: State, client: int, responses: seq<Command>)
    requires client in s.clients
  {
    && t.clients.Keys == s.clients.Keys && t.clients[client].responses == responses
    && forall k :: k in s.clients && k != client ==> t.clients[k].responses == s.clients[k].responses
  }

  // ---------- Settling ----------

  predicate IsError(r: Result) {
    match r
    case Complete => false
    case Interrupted => false
    case SocketError => true
    case PersistenceError => true
  }

  /** The command in hand is reported as done exactly if it is a QoS 0 publication written completely, and as failed
      exactly if it is work and the result is an error; all other work awaits a response.  A write is remembered exactly
      for a QoS 0 publication not written completely.  Only an error has something follow, at its place in the queue. */
  lemma SettlesAs(s: State, r: Result, follow: Option<Command>)
    requires s.hand.Some? && s.hand.value.client in s.clients
    requires follow.Some? ==> follow.value.client in s.clients && IsControl(follow.value)
                              && Urgent(follow.value.content.details)
    ensures var c, t := s.hand.value, AfterSettle(s, r, follow);
            var m, n, d := s.clients[c.client], t.clients[c.client], c.content.details;
            && t.hand.None? && t.dispatched == s.dispatched && t.owners == s.owners
            && (if d.Connect? || d.Disconnect? then NothingEnded(s, t) && ResponsesBecome(s, t, c.client, m.responses)
                else if IsError(r) then Failed(s, t, c) && ResponsesBecome(s, t, c.client, m.responses)
                else if d.Publish? && d.qos == 0 && r == Complete then
                  Succeeded(s, t, c) && ResponsesBecome(s, t, c.client, m.responses)
                else NothingEnded(s, t) && ResponsesBecome(s, t, c.client, m.responses + [c]))
            && n.pendingWrite == (if d.Publish? && d.qos == 0 && r != Complete then Some(c.id) else m.pendingWrite)
            && (if follow.Some? && IsError(r) && !d.Disconnect? then Placed(s.queue, t.queue, follow.value)
                else t.queue == s.queue)
  {
    var u := s.(hand := None);
    FollowIsPlaced(u, follow);
    FollowIsPlaced(Marked(u, s.hand.value, r), follow);
    hide AfterAdd, Placed, AddFollow;
  }

  lemma FollowIsPlaced(s: State, follow: Option<Command>)
    requires follow.Some? ==> follow.value.client in s.clients && IsControl(follow.value)
                              && Urgent(follow.value.content.details)
    ensures var t := AddFollow(s, follow);
            && t == s.(queue := t.queue)
            && (if follow.Some? then Placed(s.queue, t.queue, follow.value) else t.queue == s.queue)
  {
    if follow.Some? {
      AddsAt(s, follow.value);
    }
  }

  // ---------- Acknowledgements ----------

  /** The first response with the message id leaves the list and gets its callback; without one nothing happens. */
  lemma AcknowledgesAs(s: State, client: int, p: Packet)
    requires Owned(s) && client in s.clients
    ensures var m, t := s.clients[client], AfterAcknowledge(s, client, p);
            && (t == s <==> forall i :: 0 <= i < |m.responses| ==> m.responses[i].content.token != p.msgId)
            && (t != s ==> exists i :: 0 <= i < |m.responses| && AnswersAt(s, t, client, p, i))
  {
    hide CallFor, RightlyReported, OwnedList, Finish, RemoveResponse, ResponsesBecome;
    var r := s.clients[client].responses;
    FirstResponse(r, p.msgId);
    var i := Response(r, p.msgId);
    if i.Some? {
      ReportIsRight(r[i.value].calls, p, s.clients[client].v5);
      EndsResponse(s, client, i.value, CallFor(r[i.value].calls, p, s.clients[client].v5));
      assert AnswersAt(s, AfterAcknowledge(s, client, p), client, p, i.value);
    }
  }

  predicate AnswersAt(s: State, t: State, client: int, p: Packet, i: nat)
    requires client in s.clients && i < |s.clients[client].responses|
  {
    var m := s.clients[client];
    var c := m.responses[i];
    && c.content.token == p.msgId && (forall j :: 0 <= j < i ==> m.responses[j].content.token != p.msgId)
    && ResponsesBecome(s, t, client, m.responses[..i] + m.responses[i + 1..])
    && t.finished == s.finished + [c] && |t.calls| == |s.calls| + 1 && s.calls <= t.calls
    && RightlyReported(c.calls, t.calls[|s.calls|], p, m.v5)
    && OnlyEnds(s, t) && t.clients[client] == m.(responses := t.clients[client].responses)
  }

  lemma {:induction false} FirstResponse(q: seq<Command>, msgId: int)
    ensures match Response(q, msgId)
            case None => forall j :: 0 <= j < |q| ==> q[j].content.token != msgId
            case Some(i) => forall j :: 0 <= j < i ==> q[j].content.token != msgId
    decreases |q|
  {
    if q != [] {
      FirstResponse(q[1..], msgId);
      assert forall j :: 1 <= j < |q| ==> q[j] == q[1..][j - 1];
    }
  }

  // ---------- Completed writes ----------

  /** What a finished write does to the command it belongs to: a publication is reported as done if its QoS is 0 and the
      code 1, and as failed if the code is -1; otherwise it stays.  Other commands end without a call. */
  lemma WritesAs(s: State, client: int, code: int)
    requires Owned(s) && client in s.clients
    ensures var m, t := s.clients[client], AfterWriteDone(s, client, code);
            && (m.pendingWrite.None? ==> t == s)
            && t.clients[client].pendingWrite == None
            && (m.pendingWrite.Some? ==>
                  if forall i :: 0 <= i < |m.responses| ==> m.responses[i].id != m.pendingWrite.value then
                    NothingEnded(s, t) && ResponsesBecome(s, t, client, m.responses)
                  else exists i :: 0 <= i < |m.responses| && WritesAt(s, t, client, code, m.pendingWrite.value, i))
            && OnlyEnds(s, t)
  {
    var m := s.clients[client];
    if m.pendingWrite.Some? {
      FirstWritten(m.responses, m.pendingWrite.value);
      var i := Written(m.responses, m.pendingWrite.value);
      if i.Some? {
        hide WritesAt, AfterWriteDone, OnlyEnds, OwnedList;
        WritesFound(s, client, code, i.value);
      }
    }
  }

  /** Besides the record and the clients nothing changes. */
  predicate OnlyEnds(s: State, t: State) {
    t.queue == s.queue && t.hand == s.hand && t.owners == s.owners && t.dispatched == s.dispatched
  }

  lemma WritesFound(s: State, client: int, code: int, i: nat)
    requires client in s.clients && i < |s.clients[client].responses| && Work(s.clients[client].responses[i])
    requires s.clients[client].pendingWrite.Some?
    requires Written(s.clients[client].responses, s.clients[client].pendingWrite.value) == Some(i)
    requires forall j :: 0 <= j < i ==> s.clients[client].responses[j].id != s.clients[client].pendingWrite.value
    ensures var t := AfterWriteDone(s, client, code);
            && WritesAt(s, t, client, code, s.clients[client].pendingWrite.value, i) && OnlyEnds(s, t)
            && t.clients[client].pendingWrite == None
  {
    hide Finish, IsWork, RemoveResponse;
    var u := s.(clients := s.clients[client := s.clients[client].(pendingWrite := None)]);
    var c := s.clients[client].responses[i];
    EndsResponse(u, client, i, OnSuccess(c.calls));
    EndsResponse(u, client, i, OnFailure(c.calls));
    EndsResponse(u, client, i, NoCall);
  }

  lemma EndsResponse(s: State, client: int, i: nat, call: Call)
    requires client in s.clients && i < |s.clients[client].responses| && Work(s.clients[client].responses[i])
    ensures var r := s.clients[client].responses;
            var t := Finish(RemoveResponse(s, client, i), r[i], call);
            && t.finished == s.finished + [r[i]] && t.calls == s.calls + [call] && OnlyEnds(s, t)
            && ResponsesBecome(s, t, client, r[..i] + r[i + 1..])
            && t.clients[client] == s.clients[client].(responses := t.clients[client].responses)
  {
  }

  predicate WritesAt(s: State, t: State, client: int, code: int, id: nat, i: nat)
    requires client in s.clients && i < |s.clients[client].responses|
  {
    var r := s.clients[client].responses;
    var c, d := r[i], r[i].content.details;
    && c.id == id && (forall j :: 0 <= j < i ==> r[j].id != id)
    && if d.Publish? && d.qos == 0 && code == 1 then
         Succeeded(s, t, c) && ResponsesBecome(s, t, client, r[..i] + r[i + 1..])
       else if d.Publish? && code == -1 then Failed(s, t, c) && ResponsesBecome(s, t, client, r[..i] + r[i + 1..])
       else if d.Publish? then NothingEnded(s, t) && ResponsesBecome(s, t, client, r)
       else Ended(s, t, c, NoCall, 0, 0) && ResponsesBecome(s, t, client, r[..i] + r[i + 1..])
  }

  lemma {:induction false} FirstWritten(q: seq<Command>, id: nat)
    ensures match Written(q, id)
            case None => forall j :: 0 <= j < |q| ==> q[j].id != id
            case Some(i) => forall j :: 0 <= j < i ==> q[j].id != id
    decreases |q|
  {
    if q != [] {
      FirstWritten(q[1..], id);
      assert forall j :: 1 <= j < |q| ==> q[j] == q[1..][j - 1];
    }
  }

  // ---------- Cleaning ----------

  /** The failure callback of each command, if it has one. */
  predicate AllFailed(cs: seq<Command>, calls: seq<Call>) {
    && |calls| == |cs|
    && forall i :: 0 <= i < |cs| ==>
                     var c := cs[i].calls; calls[i] == if c.onFailure == 0 && c.onFailure5 == 0 then NoCall else FailureCall
  }

  /** `cs` are finished one after the other, with those calls. */
  predicate EndedAll(s: State, t: State, cs: seq<Command>, calls: seq<Call>) {
    t.finished == s.finished + cs && t.calls == s.calls + calls && AllFailed(cs, calls)
  }

  lemma FailedInTurn(a: seq<Command>, x: seq<Call>, b: seq<Command>, y: seq<Call>)
    requires AllFailed(a, x) && AllFailed(b, y)
    ensures AllFailed(a + b, x + y)
  {
  }

  lemma EndedInTurn(s: State, t: State, u: State, a: seq<Command>, x: seq<Call>, b: seq<Command>, y: seq<Call>)
    requires EndedAll(s, t, a, x) && EndedAll(t, u, b, y)
    ensures EndedAll(s, u, a + b, x + y)
  {
    hide AllFailed;
    FailedInTurn(a, x, b, y);
    assert s.finished + (a + b) == s.finished + a + b && s.calls + (x + y) == s.calls + x + y;
  }

  function WorkIn(q: seq<Command>): seq<Command> {
    if q == [] then [] else (if Work(q[0]) then [q[0]] else []) + WorkIn(q[1..])
  }

  lemma FinishesOne(s: State, c: Command) returns (calls: seq<Call>)
    ensures EndedAll(s, Finish(s, c, OnFailure(c.calls)), if Work(c) then [c] else [], calls)
  {
    calls := if Work(c) then [OnFailure(c.calls)] else [];
  }

  lemma {:induction false} FinishesAll(s: State, cs: seq<Command>) returns (calls: seq<Call>)
    ensures EndedAll(s, FinishAll(s, cs), WorkIn(cs), calls)
    decreases |cs|
  {
    if cs == [] {
      calls := [];
    } else {
      hide EndedAll, Finish, OnFailure, IsWork;
      var u := Finish(s, cs[0], OnFailure(cs[0].calls));
      var one := FinishesOne(s, cs[0]);
      var rest := FinishesAll(u, cs[1..]);
      calls := one + rest;
      EndedInTurn(s, u, FinishAll(s, cs), if Work(cs[0]) then [cs[0]] else [], one, WorkIn(cs[1..]), rest);
    }
  }

  lemma {:induction false} AllIsWork(q: seq<Command>)
    requires forall i :: 0 <= i < |q| ==> Work(q[i])
    ensures WorkIn(q) == q
    decreases |q|
  {
    hide IsWork;
    if q != [] {
      AllIsWork(q[1..]);
      assert q == [q[0]] + q[1..];
    }
  }

  lemma {:induction false} WorkOfClient(q: seq<Command>, client: int)
    ensures WorkIn(Of(q, client)) == WorkOf(q, client)
    decreases |q|
  {
    hide IsWork;
    if q != [] {
      WorkOfClient(q[1..], client);
      if q[0].client == client {
        assert Of(q, client)[1..] == Of(q[1..], client);
      } else {
        assert Of(q, client) == Of(q[1..], client);
      }
    }
  }

  /** The client's responses and then its queued work end in order, each as failed; of the queue exactly the commands of
      the others stay, in their order. */
  lemma RemovesAs(s: State, client: int) returns (calls: seq<Call>, f: seq<Option<nat>>)
    requires Owned(s) && client in s.clients
    ensures var t, m := AfterRemove(s, client), s.clients[client];
            && EndedAll(s, t, m.responses + WorkOf(s.queue, client), calls)
            && Follows(s.queue, t.queue, f, 0) && OthersStay(s.queue, t.queue, f, client)
            && t.clients == s.clients[client := m.(responses := [])]
            && t.hand == s.hand && t.owners == s.owners && t.dispatched == s.dispatched
  {
    hide FinishAll, WorkIn, WorkOf, NotOf, Of, Follows, OthersStay, AllFailed;
    var m := s.clients[client];
    var u := s.(clients := s.clients[client := m.(responses := [])]);
    var v := FinishAll(u, m.responses).(queue := NotOf(s.queue, client));
    AllIsWork(m.responses);
    WorkOfClient(s.queue, client);
    var x := FinishesAll(u, m.responses);
    var y := FinishesAll(v, Of(s.queue, client));
    calls := x + y;
    EndedInTurn(s, v, AfterRemove(s, client), m.responses, x, WorkOf(s.queue, client), y);
    RemovedShape(s, client);
    Filtering(s.queue, client, 0);
    f := Left(s.queue, client);
  }

  /** Cleaning a session is that, and the client's store is empty afterwards. */
  lemma CleansAs(s: State, client: int) returns (calls: seq<Call>, f: seq<Option<nat>>)
    requires Owned(s) && client in s.clients
    ensures var t, m := AfterClean(s, client), s.clients[client];
            && EndedAll(s, t, m.responses + WorkOf(s.queue, client), calls)
            && Follows(s.queue, t.queue, f, 0) && OthersStay(s.queue, t.queue, f, client)
            && t.clients == s.clients[client := m.(responses := [], store := map[])]
            && t.hand == s.hand && t.owners == s.owners && t.dispatched == s.dispatched
  {
    hide AfterRemove, WorkOf, Follows, OthersStay, AllFailed;
    var u := s.(clients := s.clients[client := s.clients[client].(store := map[])]);
    calls, f := RemovesAs(u, client);
    assert u.clients[client := u.clients[client].(responses := [])]
        == s.clients[client := s.clients[client].(responses := [], store := map[])];
  }

  /** So is destroying a client, which leaves its store alone and takes the client away. */
  lemma DestroysAs(s: State, client: int) returns (calls: seq<Call>, f: seq<Option<nat>>)
    requires Owned(s) && client in s.clients
    ensures var t, m := AfterDestroy(s, client), s.clients[client];
            && EndedAll(s, t, m.responses + WorkOf(s.queue, client), calls)
            && Follows(s.queue, t.queue, f, 0) && OthersStay(s.queue, t.queue, f, client)
            && client !in t.clients && (forall k :: k in s.clients && k != client ==> k in t.clients)
            && (forall k :: k in t.clients ==> k in s.clients && t.clients[k] == s.clients[k])
            && t.hand == s.hand && t.owners == s.owners && t.dispatched == s.dispatched
  {
    hide AfterRemove, WorkOf, Follows, OthersStay, AllFailed;
    calls, f := RemovesAs(s, client);
  }
}
