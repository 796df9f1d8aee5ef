/** A session is cleaned in two halves: the store is emptied, then responses and commands are removed.  Commands are
    added under another mutex than the one held meanwhile, so that additions may fall between the halves. */
module Cleaning {
  import opened CommandCodec
  import opened CommandKeys
  import opened CommandQueue
  import opened QueueConservation
  import opened QueueStore
  import opened Wrappers

  /** `MQTTPersistence_clear`. */
  function Cleared(s: State, client: int): State
    requires client in s.clients
  {
    s.(clients := s.clients[client := s.clients[client].(store := map[])])
  }

  /** `MQTTAsync_addCommand`, on behalf of whatever client, takes only the mutex of the queue. */
  predicate IsAddition(e: Event) {
    e.Submit? || e.Control?
  }

  predicate CanAdd(s: State, adds: seq<Event>)
    decreases |adds|
  {
    adds == [] || (IsAddition(adds[0]) && Enabled(s, adds[0]) && CanAdd(Apply(s, adds[0]), adds[1..]))
  }

  lemma AdditionKeepsClients(s: State, e: Event)
    requires IsAddition(e) && Enabled(s, e)
    ensures Apply(s, e).clients.Keys == s.clients.Keys
  {
    hide WellFormed, Encode, Key;
  }

  function Added(s: State, adds: seq<Event>): (t: State)
    requires CanAdd(s, adds)
    ensures t.clients.Keys == s.clients.Keys
    decreases |adds|
  {
    if adds == [] then s
    else
      AdditionKeepsClients(s, adds[0]);
      Added(Apply(s, adds[0]), adds[1..])
  }

  /** The client submits work among these. */
  predicate Submits(adds: seq<Event>, client: int) {
    adds != [] && ((adds[0].Submit? && adds[0].client == client) || Submits(adds[1..], client))
  }

  /** Between the halves: the other clients' stores mirror their queues, and the emptied one holds something exactly if
      its client has submitted work since. */
  predicate Halfway(s: State, client: int, ordered: bool, persistent: bool, submitted: bool) {
    && client in s.clients && s.clients[client].persistent == persistent
    && (forall k :: k in s.clients && k != client ==> Mirrored(WorkOf(s.queue, k), s.clients[k], ordered))
    && (forall i :: 0 <= i < |s.queue| ==> Work(s.queue[i]) || s.queue[i].seqno == 0)
    && (s.clients[client].store != map[] <==> persistent && submitted)
  }

  lemma ClearedIsHalfway(s: State, client: int, ordered: bool)
    requires Mirrors(s, ordered) && client in s.clients
    ensures Halfway(Cleared(s, client), client, ordered, s.clients[client].persistent, false)
  {
    hide Mirrored, WorkOf;
  }

  lemma SubmissionBetween(s: State, e: Event, client: int, ordered: bool, persistent: bool, submitted: bool)
    requires Halfway(s, client, ordered, persistent, submitted) && Enabled(s, e) && e.Submit?
    ensures Halfway(Apply(s, e), client, ordered, persistent, submitted || e.client == client)
  {
    hide Mirrored, WorkOf, WellFormed, Encode, Key, Enabled, IsWork;
    ApplySubmit(s, e);
    SubmittedStore(s, e);
    var t := Apply(s, e);
    forall k | k in t.clients && k != client
      ensures Mirrored(WorkOf(t.queue, k), t.clients[k], ordered)
    {
      SubmittingMirrorsOf(s, e, k, ordered);
    }
  }

  /** What a submission leaves in the store. */
  lemma SubmittedStore(s: State, e: Event)
    requires Enabled(s, e) && e.Submit?
    ensures var m, t := s.clients[e.client], Apply(s, e);
            && t.clients.Keys == s.clients.Keys && t.clients[e.client].persistent == m.persistent
            && t.clients[e.client].store
               == (if m.persistent then m.store[Key(m.v5, m.commandSeqno + 1) := Encode(e.content, m.v5)] else m.store)
            && (m.persistent ==> t.clients[e.client].store != map[])
            && (forall k :: k in s.clients && k != e.client ==> t.clients[k] == s.clients[k])
            && |t.queue| == |s.queue| + 1 && Work(t.queue[|s.queue|])
            && forall i :: 0 <= i < |s.queue| ==> t.queue[i] == s.queue[i]
  {
    hide WellFormed, Encode, Key;
    var m, t := s.clients[e.client], Apply(s, e);
    if m.persistent {
      assert Key(m.v5, m.commandSeqno + 1) in t.clients[e.client].store;
    }
  }

  lemma ControlBetween(s: State, c: Command, client: int, ordered: bool, persistent: bool, submitted: bool)
    requires Halfway(s, client, ordered, persistent, submitted) && Enabled(s, Control(c))
    ensures Halfway(AfterAdd(s, c), client, ordered, persistent, submitted)
  {
    hide Mirrored, WorkOf, WellFormed, Encode, Key, IsWork;
    var t := AfterAdd(s, c);
    forall k | k in t.clients && k != client
      ensures Mirrored(WorkOf(t.queue, k), t.clients[k], ordered)
    {
      AddingMirrorsOf(s, c, k, ordered);
    }
  }

  lemma {:induction false} AdditionsBetween(s: State, adds: seq<Event>, client: int, ordered: bool, persistent: bool,
                                            submitted: bool)
    requires Halfway(s, client, ordered, persistent, submitted) && CanAdd(s, adds)
    ensures Halfway(Added(s, adds), client, ordered, persistent, submitted || Submits(adds, client))
    decreases |adds|
  {
    hide Halfway, Enabled, AfterAdd, AfterSubmit;
    if adds != [] {
      var e := adds[0];
      var now := submitted || (e.Submit? && e.client == client);
      if e.Submit? {
        SubmissionBetween(s, e, client, ordered, persistent, submitted);
      } else {
        ControlBetween(s, e.command, client, ordered, persistent, submitted);
      }
      AdditionsBetween(Apply(s, e), adds[1..], client, ordered, persistent, now);
    }
  }

  /** The second half brings the mirror back exactly if the store is still empty. */
  lemma RemovalMirrors(s: State, client: int, ordered: bool, persistent: bool, submitted: bool)
    requires Halfway(s, client, ordered, persistent, submitted)
    ensures WorkOf(AfterRemove(s, client).queue, client) == []
    ensures Mirrors(AfterRemove(s, client), ordered) <==> !(persistent && submitted)
  {
    hide Mirrored, WorkOf, AfterRemove;
    RemovedShape(s, client);
    var t := AfterRemove(s, client);
    WorkOfFiltered(s.queue, client, client);
    NotOfKeeps(s.queue, client);
    NothingMirrors(t.clients[client], ordered);
    forall k | k in t.clients && k != client
      ensures Mirrored(WorkOf(t.queue, k), t.clients[k], ordered)
    {
      WorkOfFiltered(s.queue, client, k);
    }
  }

  lemma NothingMirrors(m: Client, ordered: bool)
    ensures Mirrored([], m, ordered) <==> m.store == map[]
  {
    hide Key;
    if m.store != map[] {
      var key :| key in m.store;
      assert key in m.store.Keys;
    }
  }

  /** Cleaning a session with additions between its halves leaves the stores as mirrors exactly if the client, being
      persistent, submits no work there; without additions it is the step of the machine. */
  lemma CleanedInHalves(s: State, client: int, adds: seq<Event>, ordered: bool)
    requires Mirrors(s, ordered) && client in s.clients && CanAdd(Cleared(s, client), adds)
    ensures var t := AfterRemove(Added(Cleared(s, client), adds), client);
            && (Mirrors(t, ordered) <==> !(s.clients[client].persistent && Submits(adds, client)))
            && WorkOf(t.queue, client) == []
            && (adds == [] ==> t == AfterClean(s, client))
  {
    hide Mirrors, Halfway, AfterRemove, CanAdd, Submits, WorkOf;
    ClearedIsHalfway(s, client, ordered);
    AdditionsBetween(Cleared(s, client), adds, client, ordered, s.clients[client].persistent, false);
    RemovalMirrors(Added(Cleared(s, client), adds), client, ordered, s.clients[client].persistent,
                   Submits(adds, client));
  }
}
