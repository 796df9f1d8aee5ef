/** The persistent store mirrors the queue: every step keeps the command entries of a client exactly the encodings of
    its queued work, and the numbers distinct, or ascending if they were.  `Histories` has the results over runs. */
module QueueStore {
  import opened Bytes
  import opened CommandCodec
  import opened CommandKeys
  import opened CommandQueue
  import opened QueueConservation
  import opened QueueScheduling
  import opened Wrappers

  /** The queued work of a client. */
  function WorkOf(q: seq<Command>, client: int): (r: seq<Command>)
    ensures forall i :: 0 <= i < |r| ==> Work(r[i]) && r[i].client == client
  {
    if q == [] then []
    else (if Work(q[0]) && q[0].client == client then [q[0]] else []) + WorkOf(q[1..], client)
  }

  /** The bytes stored for a command: its encoding, or those it was restored from. */
  predicate EntryFor(c: Command, bytes: seq<Byte>, v5: bool) {
    if c.restored then Decode(bytes, v5) == Some(c.content)
    else IsWork(c.content.details) && WellFormed(c.content, v5) && bytes == Encode(c.content, v5)
  }

  predicate Stored(c: Command, m: Client) {
    && 0 < c.seqno <= m.commandSeqno && Key(m.v5, c.seqno) in m.store
    && EntryFor(c, m.store[Key(m.v5, c.seqno)], m.v5)
  }

  predicate HasKey(c: Command, v5: bool, key: string) {
    Key(v5, c.seqno) == key
  }

  /** Every queued command has its entry. */
  predicate AllStored(work: seq<Command>, m: Client) {
    forall i :: 0 <= i < |work| ==> Stored(work[i], m)
  }

  /** Every entry has its queued command. */
  predicate AllNamed(work: seq<Command>, v5: bool, keys: set<string>) {
    forall key :: key in keys ==> exists i :: 0 <= i < |work| && HasKey(work[i], v5, key)
  }

  /** The numbers are distinct, and ascending if `ordered`. */
  predicate Numbers(work: seq<Command>, ordered: bool) {
    forall i, j :: 0 <= i < j < |work| ==>
                     if ordered then work[i].seqno < work[j].seqno else work[i].seqno != work[j].seqno
  }

  /** The store of a client mirrors its queued work. */
  predicate Mirrored(work: seq<Command>, m: Client, ordered: bool) {
    if m.persistent then
      AllStored(work, m) && AllNamed(work, m.v5, m.store.Keys) && Numbers(work, ordered)
    else m.store == map[]
  }

  predicate Mirrors(s: State, ordered: bool) {
    && (forall c :: c in s.clients ==> Mirrored(WorkOf(s.queue, c), s.clients[c], ordered))
    && forall i :: 0 <= i < |s.queue| ==> Work(s.queue[i]) || s.queue[i].seqno == 0
  }

  // ---------- Queued work under the operations on the queue ----------

  lemma {:induction false} WorkOfConcat(a: seq<Command>, b: seq<Command>, client: int)
    ensures WorkOf(a + b, client) == WorkOf(a, client) + WorkOf(b, client)
    decreases |a|
  {
    hide IsWork;
    if a == [] {
      assert a + b == b;
    } else {
      assert (a + b)[1..] == a[1..] + b;
      WorkOfConcat(a[1..], b, client);
    }
  }

  lemma WorkOfOne(c: Command, client: int)
    ensures WorkOf([c], client) == if Work(c) && c.client == client then [c] else []
  {
  }

  lemma {:induction false} WorkOfOthers(q: seq<Command>, client: int)
    requires forall i :: 0 <= i < |q| ==> q[i].client != client
    ensures WorkOf(q, client) == []
    decreases |q|
  {
    if q != [] {
      WorkOfOthers(q[1..], client);
    }
  }

  /** Taking a client's first command takes its first work, or none of it. */
  lemma WorkOfTaken(q: seq<Command>, i: nat, client: int)
    requires i < |q| && FirstOfClient(q, i)
    ensures WorkOf(q, client)
         == (if Work(q[i]) && q[i].client == client then [q[i]] else []) + WorkOf(Without(q, i), client)
  {
    hide WorkOf, IsWork;
    assert q == q[..i] + ([q[i]] + q[i + 1..]);
    WorkOfConcat(q[..i], [q[i]] + q[i + 1..], client);
    WorkOfConcat([q[i]], q[i + 1..], client);
    WorkOfConcat(q[..i], q[i + 1..], client);
    WorkOfOne(q[i], client);
    if q[i].client == client {
      WorkOfOthers(q[..i], client);
    }
  }

  lemma {:induction false} WorkOfFiltered(q: seq<Command>, k: int, client: int)
    ensures WorkOf(NotOf(q, k), client) == if client == k then [] else WorkOf(q, client)
    decreases |q|
  {
    hide IsWork;
    if q != [] {
      WorkOfFiltered(q[1..], k, client);
      var head := if q[0].client != k then [q[0]] else [];
      WorkOfConcat(head, NotOf(q[1..], k), client);
      WorkOfOne(q[0], client);
    }
  }

  // ---------- The mirror under the operations on the store ----------

  /** A new entry under the next number leaves the others alone. */
  lemma StillStored(c: Command, m: Client, d: Command)
    requires Stored(c, m) && m.persistent && Work(d) && WellFormed(d.content, m.v5)
    ensures Stored(c, Persisted(m, d))
  {
    hide Key, Encode, EntryFor, WellFormed, IsWork;
    KeysDiffer(m.v5, c.seqno, m.commandSeqno + 1);
  }

  lemma NowStored(m: Client, d: Command)
    requires m.persistent && Work(d) && !d.restored && WellFormed(d.content, m.v5)
    ensures Stored(Numbered(m, d), Persisted(m, d))
  {
    hide Key, Encode, WellFormed, IsWork;
  }

  lemma NamedMore(work: seq<Command>, v5: bool, keys: set<string>, c: Command)
    requires AllNamed(work, v5, keys)
    ensures AllNamed(work + [c], v5, keys + {Key(v5, c.seqno)})
  {
    hide Key;
    var w := work + [c];
    forall key | key in keys + {Key(v5, c.seqno)}
      ensures exists i :: 0 <= i < |w| && HasKey(w[i], v5, key)
    {
      if key in keys {
        var i :| 0 <= i < |work| && HasKey(work[i], v5, key);
        assert HasKey(w[i], v5, key);
      } else {
        assert HasKey(w[|work|], v5, key);
      }
    }
  }

  lemma AllStillStored(work: seq<Command>, m: Client, d: Command)
    requires m.persistent && Work(d) && !d.restored && WellFormed(d.content, m.v5) && AllStored(work, m)
    ensures AllStored(work + [Numbered(m, d)], Persisted(m, d))
  {
    hide Stored, IsWork, WellFormed, Numbered, Persisted;
    forall i | 0 <= i < |work| ensures Stored(work[i], Persisted(m, d)) {
      StillStored(work[i], m, d);
    }
    NowStored(m, d);
  }

  lemma NumbersMore(work: seq<Command>, m: Client, d: Command, ordered: bool)
    requires AllStored(work, m) && Numbers(work, ordered) && d.seqno == m.commandSeqno + 1
    ensures Numbers(work + [d], ordered)
  {
    hide Key, EntryFor;
    assert forall i :: 0 <= i < |work| ==> Stored(work[i], m) && work[i].seqno < d.seqno;
  }

  lemma EntryAdded(work: seq<Command>, m: Client, ordered: bool, c: Command)
    requires m.persistent && Mirrored(work, m, ordered) && Work(c) && !c.restored && WellFormed(c.content, m.v5)
    ensures Mirrored(work + [Numbered(m, c)], Persisted(m, c), ordered)
  {
    hide Key, Encode, WellFormed, IsWork, AllStored, AllNamed, Numbers;
    AllStillStored(work, m, c);
    NumbersMore(work, m, Numbered(m, c), ordered);
    NamedMore(work, m.v5, m.store.Keys, Numbered(m, c));
    assert Persisted(m, c).store.Keys == m.store.Keys + {Key(m.v5, Numbered(m, c).seqno)};
  }

  /** An external DISCONNECT takes a number without an entry. */
  lemma NumberSkipped(work: seq<Command>, m: Client, ordered: bool, c: Command)
    requires Mirrored(work, m, ordered) && !Work(c)
    ensures Mirrored(work, Persisted(m, c), ordered)
  {
    hide Key, Encode, Decode, WellFormed, IsWork;
    forall i | m.persistent && 0 <= i < |work|
      ensures Stored(work[i], Persisted(m, c))
    {
      assert Stored(work[i], m);
    }
  }

  /** The other entries stay when one goes. */
  lemma StillThere(c: Command, m: Client, d: Command)
    requires Stored(c, m) && m.persistent && c.seqno != d.seqno
    ensures Stored(c, Unpersisted(m, d))
  {
    hide Key, EntryFor;
    KeysDiffer(m.v5, c.seqno, d.seqno);
  }

  lemma NamedLess(c: Command, work: seq<Command>, v5: bool, keys: set<string>)
    requires AllNamed([c] + work, v5, keys)
    ensures AllNamed(work, v5, keys - {Key(v5, c.seqno)})
  {
    hide Key;
    var all := [c] + work;
    forall key | key in keys - {Key(v5, c.seqno)}
      ensures exists i :: 0 <= i < |work| && HasKey(work[i], v5, key)
    {
      var i :| 0 <= i < |all| && HasKey(all[i], v5, key);
      assert i > 0 && all[i] == work[i - 1];
      assert HasKey(work[i - 1], v5, key);
    }
  }

  /** The entry of the first command goes. */
  lemma EntryRemoved(c: Command, work: seq<Command>, m: Client, ordered: bool)
    requires Mirrored([c] + work, m, ordered)
    ensures Mirrored(work, Unpersisted(m, c), ordered)
  {
    hide Key, IsWork, AllNamed, Stored;
    if m.persistent {
      var all, n := [c] + work, Unpersisted(m, c);
      assert forall i :: 0 <= i < |work| ==> all[i + 1] == work[i];
      forall i | 0 <= i < |work|
        ensures Stored(work[i], n)
      {
        assert Stored(all[i + 1], m) && all[0].seqno != all[i + 1].seqno;
        StillThere(work[i], m, c);
      }
      NamedLess(c, work, m.v5, m.store.Keys);
      assert n.store.Keys == m.store.Keys - {Key(m.v5, c.seqno)};
    }
  }

  /** Unpersisting a command that was never stored removes nothing: no entry has number zero. */
  lemma NothingRemoved(c: Command, work: seq<Command>, m: Client, ordered: bool)
    requires Mirrored(work, m, ordered) && c.seqno == 0
    ensures Mirrored(work, Unpersisted(m, c), ordered)
  {
    hide Key, Encode, Decode, WellFormed, IsWork;
    if m.persistent && Key(m.v5, 0) in m.store {
      var i :| 0 <= i < |work| && HasKey(work[i], m.v5, Key(m.v5, 0));
      assert Stored(work[i], m);
      KeysDiffer(m.v5, work[i].seqno, 0);
    }
    assert m.persistent ==> m.store - {Key(m.v5, 0)} == m.store;
  }

  // ---------- The steps ----------

  /** Adding a CONNECT or DISCONNECT keeps the mirror of each client. */
  lemma AddingMirrorsOf(s: State, c: Command, k: int, ordered: bool)
    requires c.client in s.clients && IsControl(c)
    requires k in s.clients && Mirrored(WorkOf(s.queue, k), s.clients[k], ordered)
    ensures var t := AfterAdd(s, c);
            t.clients.Keys == s.clients.Keys && Mirrored(WorkOf(t.queue, k), t.clients[k], ordered)
  {
    hide WorkOf, Mirrored, IsWork, WellFormed, Encode;
    WorkOfConcat([c], s.queue, k);
    WorkOfConcat(s.queue, [c], k);
    WorkOfOne(c, k);
    NumberSkipped(WorkOf(s.queue, k), s.clients[k], ordered, c);
    assert WorkOf(s.queue, k) + [] == WorkOf(s.queue, k) == [] + WorkOf(s.queue, k);
  }

  lemma AddingMirrors(s: State, c: Command, ordered: bool)
    requires Mirrors(s, ordered) && c.client in s.clients && IsControl(c)
    ensures Mirrors(AfterAdd(s, c), ordered)
  {
    hide WorkOf, Mirrored, IsWork, WellFormed, Encode;
    var t := AfterAdd(s, c);
    forall k | k in t.clients
      ensures Mirrored(WorkOf(t.queue, k), t.clients[k], ordered)
    {
      AddingMirrorsOf(s, c, k, ordered);
    }
  }

  /** So does a submission. */
  lemma SubmittingMirrorsOf(s: State, e: Event, k: int, ordered: bool)
    requires Enabled(s, e) && e.Submit?
    requires k in s.clients && Mirrored(WorkOf(s.queue, k), s.clients[k], ordered)
    ensures var t := Apply(s, e);
            t.clients.Keys == s.clients.Keys && Mirrored(WorkOf(t.queue, k), t.clients[k], ordered)
  {
    hide WorkOf, Mirrored, WellFormed, Encode, Enabled, Persisted, IsWork;
    ApplySubmit(s, e);
    var t := Apply(s, e);
    var m := s.clients[e.client];
    var c := Command(|s.owners|, e.client, e.content, 0, e.calls, false);
    WorkOfConcat(s.queue, [Numbered(m, c)], k);
    WorkOfOne(Numbered(m, c), k);
    if k != e.client {
      assert WorkOf(s.queue, k) + [] == WorkOf(s.queue, k);
    } else if m.persistent {
      EntryAdded(WorkOf(s.queue, k), m, ordered, c);
    } else {
      NotPersistent(WorkOf(s.queue, k), WorkOf(t.queue, k), m, c, ordered);
    }
  }

  lemma SubmittingMirrors(s: State, e: Event, ordered: bool)
    requires Mirrors(s, ordered) && Enabled(s, e) && e.Submit?
    ensures Mirrors(Apply(s, e), ordered)
  {
    hide WorkOf, Mirrored, WellFormed, Encode, Enabled, Persisted, IsWork;
    ApplySubmit(s, e);
    var t := Apply(s, e);
    forall k | k in t.clients
      ensures Mirrored(WorkOf(t.queue, k), t.clients[k], ordered)
    {
      SubmittingMirrorsOf(s, e, k, ordered);
    }
  }

  lemma NotPersistent(work: seq<Command>, more: seq<Command>, m: Client, c: Command, ordered: bool)
    requires Mirrored(work, m, ordered) && !m.persistent && (Work(c) ==> WellFormed(c.content, m.v5))
    ensures Mirrored(more, Persisted(m, c), ordered)
  {
  }

  lemma TakingMirrors(s: State, i: nat, ordered: bool)
    requires Mirrors(s, ordered) && i < |s.queue| && s.queue[i].client in s.clients && FirstOfClient(s.queue, i)
    ensures Mirrors(AfterTakeAt(s, i), ordered)
  {
    hide WorkOf, Mirrored, IsWork, Key, FirstOfClient, Unpersisted;
    var t, c := AfterTakeAt(s, i), s.queue[i];
    forall k | k in t.clients
      ensures Mirrored(WorkOf(t.queue, k), t.clients[k], ordered)
    {
      WorkOfTaken(s.queue, i, k);
      if k != c.client {
        assert [] + WorkOf(t.queue, k) == WorkOf(t.queue, k);
      } else if Work(c) {
        EntryRemoved(c, WorkOf(t.queue, k), s.clients[k], ordered);
      } else {
        assert [] + WorkOf(t.queue, k) == WorkOf(t.queue, k);
        NothingRemoved(c, WorkOf(t.queue, k), s.clients[k], ordered);
      }
    }
  }

  /** Steps that leave queues and stores alone. */
  lemma SameStores(s: State, t: State, ordered: bool)
    requires Mirrors(s, ordered) && t.queue == s.queue && t.clients.Keys <= s.clients.Keys
    requires forall k :: k in t.clients ==>
                           t.clients[k].(responses := [], pendingWrite := None)
                           == s.clients[k].(responses := [], pendingWrite := None)
    ensures Mirrors(t, ordered)
  {
    hide WorkOf;
    forall k | k in t.clients
      ensures Mirrored(WorkOf(t.queue, k), t.clients[k], ordered)
    {
      MirrorNeedsStore(WorkOf(s.queue, k), s.clients[k], t.clients[k], ordered);
    }
  }

  lemma MirrorNeedsStore(work: seq<Command>, m: Client, n: Client, ordered: bool)
    requires Mirrored(work, m, ordered)
    requires m.(responses := [], pendingWrite := None) == n.(responses := [], pendingWrite := None)
    ensures Mirrored(work, n, ordered)
  {
    hide Key, EntryFor;
    assert m.store == n.store && m.v5 == n.v5 && m.persistent == n.persistent && m.commandSeqno == n.commandSeqno;
    forall i | m.persistent && 0 <= i < |work|
      ensures Stored(work[i], n)
    {
      assert Stored(work[i], m);
    }
  }

  lemma MarkedMirrors(s: State, c: Command, r: Result, ordered: bool)
    requires Mirrors(s, ordered) && c.client in s.clients
    ensures Mirrors(Marked(s, c, r), ordered) && Marked(s, c, r).clients.Keys == s.clients.Keys
  {
    hide Mirrors, Pending;
    SameStores(s, Marked(s, c, r), ordered);
  }

  lemma AwaitMirrors(s: State, c: Command, ordered: bool)
    requires Mirrors(s, ordered) && c.client in s.clients
    ensures Mirrors(Await(s, c), ordered)
  {
    hide Mirrors;
    SameStores(s, Await(s, c), ordered);
  }

  lemma FinishMirrors(s: State, c: Command, call: Call, ordered: bool)
    requires Mirrors(s, ordered)
    ensures Mirrors(Finish(s, c, call), ordered)
  {
    hide Mirrors, Work;
    SameStores(s, Finish(s, c, call), ordered);
  }

  lemma RemoveResponseMirrors(s: State, k: int, i: nat, ordered: bool)
    requires Mirrors(s, ordered) && k in s.clients && i < |s.clients[k].responses|
    ensures Mirrors(RemoveResponse(s, k, i), ordered)
  {
    hide Mirrors, Without;
    SameStores(s, RemoveResponse(s, k, i), ordered);
  }

  lemma SettlingMirrors(s: State, r: Result, follow: Option<Command>, ordered: bool)
    requires Mirrors(s, ordered) && Enabled(s, Settle(r, follow))
    ensures Mirrors(AfterSettle(s, r, follow), ordered)
  {
    hide Mirrors, AfterAdd, IsControl, OnSuccess, OnFailure, Marked, Await, Finish;
    var c, t := s.hand.value, s.(hand := None);
    SameStores(s, t, ordered);
    MarkedMirrors(t, c, r, ordered);
    var m := Marked(t, c, r);
    if follow.Some? {
      AddingMirrors(t, follow.value, ordered);
      AddingMirrors(m, follow.value, ordered);
    }
    AwaitMirrors(m, c, ordered);
    FinishMirrors(AddFollow(m, follow), c, OnFailure(c.calls), ordered);
    FinishMirrors(m, c, OnSuccess(c.calls), ordered);
  }

  lemma AcknowledgingMirrors(s: State, k: int, p: Packet, ordered: bool)
    requires Mirrors(s, ordered) && k in s.clients
    ensures Mirrors(AfterAcknowledge(s, k, p), ordered)
  {
    hide Mirrors, CallFor, RemoveResponse, Finish;
    var m := s.clients[k];
    var i := Response(m.responses, p.msgId);
    if i.Some? {
      RemoveResponseMirrors(s, k, i.value, ordered);
      var c := m.responses[i.value];
      FinishMirrors(RemoveResponse(s, k, i.value), c, CallFor(c.calls, p, m.v5), ordered);
    }
  }

  lemma WritingMirrors(s: State, k: int, code: int, ordered: bool)
    requires Mirrors(s, ordered) && k in s.clients
    ensures Mirrors(AfterWriteDone(s, k, code), ordered)
  {
    hide Mirrors, OnSuccess, OnFailure, RemoveResponse, Finish;
    var m := s.clients[k];
    var t := s.(clients := s.clients[k := m.(pendingWrite := None)]);
    SameStores(s, t, ordered);
    if m.pendingWrite.Some? && Written(m.responses, m.pendingWrite.value).Some? {
      var i := Written(m.responses, m.pendingWrite.value).value;
      var c := m.responses[i];
      RemoveResponseMirrors(t, k, i, ordered);
      var u := RemoveResponse(t, k, i);
      FinishMirrors(u, c, NoCall, ordered);
      FinishMirrors(u, c, OnSuccess(c.calls), ordered);
      FinishMirrors(u, c, OnFailure(c.calls), ordered);
    }
  }

  /** A clean session empties store and queue of the client together. */
  lemma CleaningMirrors(s: State, t: State, k: int, ordered: bool)
    requires Mirrors(s, ordered) && k in s.clients && t.queue == NotOf(s.queue, k)
    requires t.clients == s.clients[k := s.clients[k].(store := map[], responses := [])]
          || t.clients == s.clients - {k}
    ensures Mirrors(t, ordered)
  {
    hide WorkOf;
    forall c | c in t.clients
      ensures Mirrored(WorkOf(t.queue, c), t.clients[c], ordered)
    {
      WorkOfFiltered(s.queue, k, c);
    }
    NotOfKeeps(s.queue, k);
  }

  lemma {:induction false} NotOfKeeps(q: seq<Command>, k: int)
    ensures forall i :: 0 <= i < |NotOf(q, k)| ==> NotOf(q, k)[i] in q
    decreases |q|
  {
    if q != [] {
      NotOfKeeps(q[1..], k);
      assert NotOf(q, k) == (if q[0].client != k then [q[0]] else []) + NotOf(q[1..], k);
      assert forall x :: x in q[1..] ==> x in q;
    }
  }

  /** Every step keeps the mirror, whether the numbers ascend or are only distinct. */
  lemma StepMirrors(s: State, e: Event, ordered: bool)
    requires Owned(s) && Mirrors(s, ordered) && Enabled(s, e)
    ensures Mirrors(Apply(s, e), ordered)
  {
    hide Mirrors, Owned, Select, AfterRemove, CallFor, WellFormed, AfterAdd, Count, Live, AfterSettle, AfterSubmit,
         AfterAcknowledge, AfterWriteDone, AfterTakeAt;
    match e
    case Submit(_, _, _) => SubmittingMirrors(s, e, ordered);
    case Control(c) => AddingMirrors(s, c, ordered);
    case Take(net) =>
      if Select(s, net, 0, {}).Some? {
        SelectIsFirstReady(s, net);
        TakingMirrors(s, Select(s, net, 0, {}).value, ordered);
      }
    case Settle(r, follow) => SettlingMirrors(s, r, follow, ordered);
    case Acknowledge(k, p) => AcknowledgingMirrors(s, k, p, ordered);
    case WriteDone(k, code) => WritingMirrors(s, k, code, ordered);
    case CleanSession(k) =>
      var s1 := s.(clients := s.clients[k := s.clients[k].(store := map[])]);
      RemovedShape(s1, k);
      CleaningMirrors(s, AfterRemove(s1, k), k, ordered);
    case Destroy(k) =>
      RemovedShape(s, k);
      CleaningMirrors(s, AfterDestroy(s, k), k, ordered);
  }

  lemma FreshMirrors(s: State)
    requires Fresh(s)
    ensures Mirrors(s, true)
  {
  }

  /** A command added later never takes over an entry. */
  lemma NextKeyIsFresh(work: seq<Command>, m: Client, ordered: bool)
    requires m.persistent && Mirrored(work, m, ordered)
    ensures Key(m.v5, m.commandSeqno + 1) !in m.store
  {
    hide Key, EntryFor;
    var key := Key(m.v5, m.commandSeqno + 1);
    if key in m.store {
      var i :| 0 <= i < |work| && HasKey(work[i], m.v5, key);
      assert Stored(work[i], m);
      KeysDiffer(m.v5, work[i].seqno, m.commandSeqno + 1);
    }
  }
}
