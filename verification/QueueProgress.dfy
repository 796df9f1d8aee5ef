/** Progress: what turns of the sending thread dispatch, and a publication that never finishes. */
module QueueProgress {
  import opened CommandCodec
  import opened CommandQueue
  import opened Histories
  import opened QueueConservation
  import opened Restart
  import opened Wrappers

  // ---------- Turns of the sending thread ----------

  /** A turn: a command is taken, if any can be, and the protocol code completes it. */
  function Turn(s: State, net: map<int, Net>): State
    requires Covers(net, s) && s.hand.None?
  {
    var i := Select(s, net, 0, {});
    if i.None? then s else AfterSettle(AfterTakeAt(s, i.value), Complete, None)
  }

  /** The commands turns dispatch while the connections stay as they are: those of every client up to its first command
      that is not eligible. */
  function Going(q: seq<Command>, net: map<int, Net>, clients: map<int, Client>, blocked: set<int>): seq<Command>
    requires forall i :: 0 <= i < |q| ==> q[i].client in net && q[i].client in clients
  {
    if q == [] then []
    else if q[0].client in blocked then Going(q[1..], net, clients, blocked)
    else if EligibleIn(q[0], net, clients) then [q[0]] + Going(q[1..], net, clients, blocked)
    else Going(q[1..], net, clients, blocked + {q[0].client})
  }

  /** The others. */
  function Staying(q: seq<Command>, net: map<int, Net>, clients: map<int, Client>, blocked: set<int>): seq<Command>
    requires forall i :: 0 <= i < |q| ==> q[i].client in net && q[i].client in clients
  {
    if q == [] then []
    else if q[0].client in blocked then [q[0]] + Staying(q[1..], net, clients, blocked)
    else if EligibleIn(q[0], net, clients) then Staying(q[1..], net, clients, blocked)
    else [q[0]] + Staying(q[1..], net, clients, blocked + {q[0].client})
  }

  function Works(q: seq<Command>): seq<Command> {
    if q == [] then [] else (if Work(q[0]) then [q[0]] else []) + Works(q[1..])
  }

  /** The publications that are finished once they are sent. */
  function SentForGood(q: seq<Command>): seq<Command> {
    if q == [] then []
    else (if q[0].content.details.Publish? && q[0].content.details.qos == 0 then [q[0]] else []) + SentForGood(q[1..])
  }

  lemma WithoutFrom(q: seq<Command>, i: nat, j: nat)
    requires i <= j < |q|
    ensures i < j ==> Without(q, j)[i..] == [q[i]] + Without(q, j)[i + 1..]
    ensures i == j ==> Without(q, j)[i..] == q[i + 1..]
    ensures q[i..] == [q[i]] + q[i + 1..]
  {
  }

  /** The selection takes the first command that goes, and stops exactly if none does. */
  lemma {:induction false} SelectTakesGoing(s: State, net: map<int, Net>, i: nat, blocked: set<int>)
    requires i <= |s.queue| && Covers(net, s)
    ensures var q, r := s.queue, Select(s, net, i, blocked);
            if r.None? then
              Going(q[i..], net, s.clients, blocked) == [] && Staying(q[i..], net, s.clients, blocked) == q[i..]
            else
              && Going(q[i..], net, s.clients, blocked)
                 == [q[r.value]] + Going(Without(q, r.value)[i..], net, s.clients, blocked)
              && Staying(q[i..], net, s.clients, blocked) == Staying(Without(q, r.value)[i..], net, s.clients, blocked)
    decreases |s.queue| - i
  {
    hide EligibleIn, Without;
    var q, r := s.queue, Select(s, net, i, blocked);
    WithoutIsWithin(q);
    if i < |q| {
      assert q[i..] == [q[i]] + q[i + 1..];
      var next := if q[i].client in blocked || EligibleIn(q[i], net, s.clients) then blocked
                  else blocked + {q[i].client};
      SelectTakesGoing(s, net, i + 1, next);
      if r.Some? {
        WithoutFrom(q, i, r.value);
      }
    }
  }

  lemma WithoutIsWithin(q: seq<Command>)
    ensures forall j, k :: 0 <= j < |q| && 0 <= k < |Without(q, j)| ==> Without(q, j)[k] in q
  {
  }

  /** Whether a command goes depends on nothing of its client but the version. */
  lemma {:induction false} SameGoing(q: seq<Command>, net: map<int, Net>, clients: map<int, Client>,
                                     clients': map<int, Client>, blocked: set<int>)
    requires forall i :: 0 <= i < |q| ==> q[i].client in net && q[i].client in clients && q[i].client in clients'
                                          && clients[q[i].client].v5 == clients'[q[i].client].v5
    ensures Going(q, net, clients, blocked) == Going(q, net, clients', blocked)
    ensures Staying(q, net, clients, blocked) == Staying(q, net, clients', blocked)
    decreases |q|
  {
    hide Eligible;
    if q != [] {
      SameGoing(q[1..], net, clients, clients', blocked);
      SameGoing(q[1..], net, clients, clients', blocked + {q[0].client});
    }
  }

  /** What one turn does. */
  lemma OneTurn(s: State, net: map<int, Net>)
    requires Covers(net, s) && s.hand.None? && Select(s, net, 0, {}).Some?
    ensures var i := Select(s, net, 0, {}).value; var c, t := s.queue[i], Turn(s, net);
            && t.queue == Without(s.queue, i) && t.hand.None? && t.clients.Keys == s.clients.Keys
            && (forall k :: k in s.clients ==> t.clients[k].v5 == s.clients[k].v5)
            && t.dispatched == s.dispatched + (if Work(c) then [c] else [])
            && t.finished == s.finished + SentForGood([c])
  {
    hide Select, Without, OnSuccess;
  }

  function Turns(s: State, net: map<int, Net>, n: nat): (t: State)
    requires Covers(net, s) && s.hand.None?
    decreases n
  {
    if n == 0 || Select(s, net, 0, {}).None? then s
    else
      OneTurn(s, net);
      WithoutIsWithin(s.queue);
      Turns(Turn(s, net), net, n - 1)
  }

  /** While the connections stay as they are, as many turns as there are commands to go dispatch exactly these, in their
      order; every other command stays, in its order, and nothing more can be taken. */
  lemma {:induction false} QueueDrains(s: State, net: map<int, Net>)
    requires Covers(net, s) && s.hand.None?
    ensures var going := Going(s.queue, net, s.clients, {}); var t := Turns(s, net, |going|);
            && t.queue == Staying(s.queue, net, s.clients, {}) && t.hand.None?
            && t.dispatched == s.dispatched + Works(going)
            && t.finished == s.finished + SentForGood(going)
            && Covers(net, t) && Select(t, net, 0, {}).None?
    decreases |s.queue|
  {
    hide Select, Without, EligibleIn, Turn;
    SelectTakesGoing(s, net, 0, {});
    assert s.queue[0..] == s.queue;
    var r := Select(s, net, 0, {});
    if r.Some? {
      var c, rest, t := s.queue[r.value], Without(s.queue, r.value), Turn(s, net);
      assert rest[0..] == rest;
      OneTurn(s, net);
      WithoutIsWithin(s.queue);
      WithoutIsShorter(s.queue, r.value);
      SameGoing(rest, net, s.clients, t.clients, {});
      QueueDrains(t, net);
      OneMoreGone(c, Going(rest, net, s.clients, {}), s.dispatched, s.finished);
    } else {
      assert s.dispatched + [] == s.dispatched && s.finished + [] == s.finished;
    }
  }

  lemma WithoutIsShorter(q: seq<Command>, i: nat)
    requires i < |q|
    ensures |Without(q, i)| == |q| - 1
  {
  }

  lemma OneMoreGone(c: Command, going: seq<Command>, dispatched: seq<Command>, finished: seq<Command>)
    ensures dispatched + (if Work(c) then [c] else []) + Works(going) == dispatched + Works([c] + going)
    ensures finished + SentForGood([c]) + SentForGood(going) == finished + SentForGood([c] + going)
  {
    hide IsWork;
    assert ([c] + going)[1..] == going;
    assert [c][1..] == [];
  }

  /** With every connection open, idle and below its limits, the whole queue goes. */
  lemma {:induction false} AllGo(q: seq<Command>, net: map<int, Net>, clients: map<int, Client>)
    requires forall i :: 0 <= i < |q| ==> q[i].client in net && q[i].client in clients && EligibleIn(q[i], net, clients)
    ensures Going(q, net, clients, {}) == q && Staying(q, net, clients, {}) == []
    decreases |q|
  {
    hide Eligible;
    if q != [] {
      AllGo(q[1..], net, clients);
    }
  }

  // ---------- A publication that never finishes ----------

  /** A publication waits among the responses, without a message id to be acknowledged by, and no write is pending
      for it. */
  predicate Stuck(s: State, client: int, c: Command) {
    && client in s.clients && c in s.clients[client].responses && c.content.token == 0
    && s.clients[client].pendingWrite != Some(c.id)
  }

  /** A write that ends neither well nor in error leaves its publication stuck. */
  lemma LostWrite(s: State, client: int, code: int)
    requires client in s.clients && s.clients[client].pendingWrite.Some? && code != 1 && code != -1
    requires Written(s.clients[client].responses, s.clients[client].pendingWrite.value).Some?
    ensures var m, t := s.clients[client], AfterWriteDone(s, client, code);
            var c := m.responses[Written(m.responses, m.pendingWrite.value).value];
            c.content.details.Publish? && c.content.token == 0 ==>
              Stuck(t, client, c) && t.finished == s.finished && t.calls == s.calls
  {
    hide Written;
  }

  /** Everything but the end of the process, of the client or of its session, and a packet without a message id. */
  predicate Spares(act: Act, client: int) {
    match act
    case Step(CleanSession(k)) => k != client
    case Step(Destroy(k)) => k != client
    case Step(Acknowledge(k, p)) => k == client ==> p.msgId != 0
    case Crash => false
    case _ => true
  }

  lemma StaysAmongOthers(q: seq<Command>, c: Command, i: nat)
    requires c in q && i < |q| && q[i] != c
    ensures c in Without(q, i)
  {
    var k :| 0 <= k < |q| && q[k] == c;
    assert Without(q, i)[if k < i then k else k - 1] == c;
  }

  /** A command among the responses is not in the sender's hands. */
  lemma NotInHand(s: State, client: int, c: Command)
    requires Sound(s) && client in s.clients && c in s.clients[client].responses
    ensures Work(c) && (s.hand.Some? && Work(s.hand.value) ==> s.hand.value.id != c.id)
  {
    hide Count, IsWork, TokensUnique;
    var k :| 0 <= k < |s.clients[client].responses| && s.clients[client].responses[k] == c;
    assert ResponsesOwned(s.clients[client].responses, client, s.owners);
    CountAtLeast(s.clients[client].responses, ById(c.id), k);
    assert Live(s, s.owners[c.id], ById(c.id)) + Count(s.finished, ById(c.id)) == 1;
  }

  lemma ControlKeepsStuck(s: State, client: int, c: Command, f: Command)
    requires Stuck(s, client, c) && f.client in s.clients && IsControl(f)
    ensures Stuck(AfterAdd(s, f), client, c)
  {
  }

  lemma SettlingKeepsStuck(s: State, client: int, c: Command, r: Result, follow: Option<Command>)
    requires Stuck(s, client, c) && Enabled(s, Settle(r, follow))
    requires Work(s.hand.value) ==> s.hand.value.id != c.id
    ensures Stuck(AfterSettle(s, r, follow), client, c)
  {
    hide AfterAdd, OnSuccess, OnFailure;
    var h, t := s.hand.value, s.(hand := None);
    assert Stuck(t, client, c);
    var m := Marked(t, h, r);
    assert Work(h) ==> Stuck(m, client, c);
    if follow.Some? {
      ControlKeepsStuck(t, client, c, follow.value);
      if Work(h) {
        ControlKeepsStuck(m, client, c, follow.value);
      }
    }
  }

  lemma WritingKeepsStuck(s: State, client: int, c: Command, k: int, code: int)
    requires Stuck(s, client, c) && k in s.clients
    ensures Stuck(AfterWriteDone(s, k, code), client, c)
  {
    hide Without, OnSuccess, OnFailure, IsWork;
    var m := s.clients[k];
    if k == client && m.pendingWrite.Some? && Written(m.responses, m.pendingWrite.value).Some? {
      StaysAmongOthers(m.responses, c, Written(m.responses, m.pendingWrite.value).value);
    }
  }

  lemma AcknowledgingKeepsStuck(s: State, client: int, c: Command, k: int, p: Packet)
    requires Stuck(s, client, c) && k in s.clients && (k == client ==> p.msgId != 0)
    ensures Stuck(AfterAcknowledge(s, k, p), client, c)
  {
    hide Without, CallFor, IsWork;
    var m := s.clients[k];
    if k == client && Response(m.responses, p.msgId).Some? {
      StaysAmongOthers(m.responses, c, Response(m.responses, p.msgId).value);
    }
  }

  lemma RemovingKeepsStuck(s: State, client: int, c: Command, k: int)
    requires Stuck(s, client, c) && k in s.clients && k != client
    ensures Stuck(AfterRemove(s, k), client, c) && Stuck(AfterClean(s, k), client, c)
    ensures Stuck(AfterDestroy(s, k), client, c)
  {
    hide AfterRemove;
    RemovedShape(s, k);
    RemovedShape(s.(clients := s.clients[k := s.clients[k].(store := map[])]), k);
  }

  lemma StepKeepsStuck(s: State, e: Event, client: int, c: Command)
    requires Sound(s) && Stuck(s, client, c) && Enabled(s, e) && Spares(Step(e), client)
    ensures Stuck(Apply(s, e), client, c)
  {
    hide Sound, Stuck, AfterAdd, AfterSettle, AfterAcknowledge, AfterWriteDone, AfterClean, AfterDestroy, Select,
         AfterSubmit, WellFormed, AfterTakeAt;
    match e
    case Submit(_, _, _) => SubmittingKeepsStuck(s, e, client, c);
    case Control(f) => ControlKeepsStuck(s, client, c, f);
    case Take(net) =>
      if Select(s, net, 0, {}).Some? {
        TakingKeepsStuck(s, client, c, Select(s, net, 0, {}).value);
      }
    case Settle(r, follow) =>
      StuckIsThere(s, client, c);
      NotInHand(s, client, c);
      SettlingKeepsStuck(s, client, c, r, follow);
    case Acknowledge(k, p) => AcknowledgingKeepsStuck(s, client, c, k, p);
    case WriteDone(k, code) => WritingKeepsStuck(s, client, c, k, code);
    case CleanSession(k) => RemovingKeepsStuck(s, client, c, k);
    case Destroy(k) => RemovingKeepsStuck(s, client, c, k);
  }

  lemma StuckIsThere(s: State, client: int, c: Command)
    requires Stuck(s, client, c)
    ensures client in s.clients && c in s.clients[client].responses
  {
  }

  lemma SubmittingKeepsStuck(s: State, e: Event, client: int, c: Command)
    requires Stuck(s, client, c) && Enabled(s, e) && e.Submit?
    ensures Stuck(Apply(s, e), client, c)
  {
    hide WellFormed;
    ApplySubmit(s, e);
  }

  lemma TakingKeepsStuck(s: State, client: int, c: Command, i: nat)
    requires Stuck(s, client, c) && i < |s.queue| && s.queue[i].client in s.clients
    ensures Stuck(AfterTakeAt(s, i), client, c)
  {
  }

  /** It stays so, and gets no callback, until the process, the client or its session ends. */
  lemma {:induction false} StuckForGood(w: World, acts: seq<Act>, client: int, c: Command)
    requires SoundWorld(w, false) && Stuck(w.state, client, c) && Happens(w, acts)
    requires forall i :: 0 <= i < |acts| ==> Spares(acts[i], client)
    ensures Stuck(History(w, acts).state, client, c)
    ensures Count(History(w, acts).state.finished, ById(c.id)) == 0
    decreases |acts|
  {
    hide Sound, Stuck, Enabled, Apply, AfterCreate, Spares, Count, SoundWorld;
    SoundState(w);
    if acts == [] {
      NotFinished(w.state, client, c);
    } else {
      ActKeepsWorld(w, acts[0], false);
      if acts[0].Step? {
        StepKeepsStuck(w.state, acts[0].event, client, c);
      } else {
        NoCrash(acts[0], client);
        StuckIsThere(w.state, client, c);
        CreatingKeepsStuck(w.state, client, c, acts[0].client, w.disk[acts[0].client], acts[0].keys);
      }
      StuckForGood(After(w, acts[0]), acts[1..], client, c);
    }
  }

  lemma SoundState(w: World)
    requires SoundWorld(w, false)
    ensures Sound(w.state)
  {
    hide Sound;
  }

  lemma NoCrash(act: Act, client: int)
    requires Spares(act, client)
    ensures !act.Crash?
  {
  }

  lemma CreatingKeepsStuck(s: State, client: int, c: Command, k: int, m: Client, keys: seq<string>)
    requires Stuck(s, client, c) && k !in s.clients
    ensures Stuck(AfterCreate(s, k, m, keys), client, c)
  {
  }

  lemma NotFinished(s: State, client: int, c: Command)
    requires Sound(s) && Stuck(s, client, c)
    ensures Count(s.finished, ById(c.id)) == 0
  {
    hide Count, IsWork, TokensUnique;
    var k :| 0 <= k < |s.clients[client].responses| && s.clients[client].responses[k] == c;
    assert ResponsesOwned(s.clients[client].responses, client, s.owners);
    CountAtLeast(s.clients[client].responses, ById(c.id), k);
    assert Live(s, s.owners[c.id], ById(c.id)) + Count(s.finished, ById(c.id)) == 1;
  }
}
