/** A client made anew over what it stored: its restored commands join the queue of the others, and every invariant of
    the queue holds again. */
module Restart {
  import opened Bytes
  import opened CommandCodec
  import opened CommandKeys
  import opened CommandQueue
  import opened CommandRestore
  import opened QueueConservation
  import opened QueueStore
  import opened Wrappers
  import S = QueueScheduling

  function Repeat(client: int, n: nat): (r: seq<int>)
    ensures |r| == n && forall i :: 0 <= i < n ==> r[i] == client
  {
    if n == 0 then [] else [client] + Repeat(client, n - 1)
  }

  /** The client over the store of `m`, its commands restored. */
  function Anew(m: Client, restored: seq<Command>): Client {
    m.(commandSeqno := Highest(restored, 0), responses := [], pendingWrite := None)
  }

  /** `MQTTAsync_createWithOptions`: of `m` only version, kind and content of the store are used. */
  function AfterCreate(s: State, client: int, m: Client, keys: seq<string>): State {
    var r := Restored(m, keys, client, |s.owners|);
    s.(queue := Inserted(s.queue, r), clients := s.clients[client := Anew(m, r)],
       owners := s.owners + Repeat(client, |r|))
  }

  /** Message ids of queued commands differ, zero apart. */
  predicate TokensDiffer(q: seq<Command>) {
    forall i, j :: 0 <= i < j < |q| && q[i].content.token != 0 ==> q[i].content.token != q[j].content.token
  }

  /** The store is as the queued commands `work` left it. */
  predicate LeftBy(m: Client, work: seq<Command>, ordered: bool) {
    Mirrored(work, m, ordered) && TokensDiffer(work)
  }

  /** A client may be made anew: it is not there, and the keys are those of its store. */
  predicate CanCreate(s: State, client: int, m: Client, keys: seq<string>) {
    client !in s.clients && (m.persistent ==> Listing(keys, m))
  }

  // ---------- The restored commands ----------

  /** They are the client's, counted from `id`. */
  predicate CountedFrom(r: seq<Command>, client: int, id: nat) {
    forall i :: 0 <= i < |r| ==> Work(r[i]) && r[i].client == client && r[i].id == id + i
  }

  lemma RestoredAreCounted(r: seq<Command>, client: int, id: nat, m: Client, keys: seq<string>)
    requires AllFromStore(r, id, client, m, keys)
    ensures CountedFrom(r, client, id)
  {
    hide Key, Decode, IsWork;
    forall i | 0 <= i < |r|
      ensures Work(r[i]) && r[i].client == client && r[i].id == id + i
    {
      assert FromStore(r[i], id + i, client, m, keys);
    }
  }

  lemma RestoredTokens(r: seq<Command>, id: nat, work: seq<Command>, m: Client, client: int, keys: seq<string>)
    requires m.persistent && Mirrored(work, m, false) && TokensDiffer(work)
    requires AllFromStore(r, id, client, m, keys) && OneEach(r)
    ensures TokensDiffer(r)
  {
    hide Key, Decode, IsWork, Mirrored, SeqnoOf, Stored, AfterRestart;
    forall i, j | 0 <= i < j < |r| && r[i].content.token != 0
      ensures r[i].content.token != r[j].content.token
    {
      assert FromStore(r[i], id + i, client, m, keys) && FromStore(r[j], id + j, client, m, keys);
      var a := KeyOfEntry(work, m, Key(m.v5, r[i].seqno));
      var b := KeyOfEntry(work, m, Key(m.v5, r[j].seqno));
      KeysDiffer(m.v5, r[i].seqno, work[a].seqno);
      KeysDiffer(m.v5, r[j].seqno, work[b].seqno);
      EntryDecodes(work[a], m);
      EntryDecodes(work[b], m);
      assert a < b || b < a;
    }
  }

  lemma NumberIsPositive(work: seq<Command>, m: Client, seqno: nat)
    requires m.persistent && Mirrored(work, m, false) && Key(m.v5, seqno) in m.store
    ensures seqno > 0
  {
    hide Key, EntryFor, SeqnoOf, Mirrored;
    var i := KeyOfEntry(work, m, Key(m.v5, seqno));
    KeysDiffer(m.v5, seqno, work[i].seqno);
  }

  lemma RestoredIsStored(c: Command, id: nat, m: Client, n: Client, client: int, keys: seq<string>)
    requires FromStore(c, id, client, m, keys) && 0 < c.seqno <= n.commandSeqno && n.store == m.store && n.v5 == m.v5
    ensures Stored(c, n)
  {
    hide Key, Decode;
  }

  /** They are stored, below the highest number. */
  lemma RestoredAreStored(r: seq<Command>, id: nat, m: Client, client: int, keys: seq<string>, work: seq<Command>)
    requires m.persistent && Mirrored(work, m, false) && AllFromStore(r, id, client, m, keys)
    ensures AllStored(r, Anew(m, r))
  {
    hide Key, Decode, IsWork, Highest, EntryFor, Mirrored, Stored;
    HighestIsHighest(r, 0);
    forall i | 0 <= i < |r|
      ensures Stored(r[i], Anew(m, r))
    {
      assert FromStore(r[i], id + i, client, m, keys);
      NumberIsPositive(work, m, r[i].seqno);
      RestoredIsStored(r[i], id + i, m, Anew(m, r), client, keys);
    }
  }

  lemma StoreIsNamed(r: seq<Command>, work: seq<Command>, m: Client, keys: seq<string>)
    requires m.persistent && Mirrored(work, m, false) && Listing(keys, m) && AllThere(r, m, keys)
    ensures AllNamed(r, m.v5, m.store.Keys)
  {
    hide Key, SeqnoOf, Mirrored, IsCommandKey;
    forall key | key in m.store.Keys
      ensures exists i :: 0 <= i < |r| && HasKey(r[i], m.v5, key)
    {
      var k := KeyOfEntry(work, m, key);
      assert SeqnoOf(key) in Seqnos(r);
      var i :| 0 <= i < |Seqnos(r)| && Seqnos(r)[i] == SeqnoOf(key);
      assert HasKey(r[i], m.v5, key);
    }
  }

  lemma NumbersDiffer(r: seq<Command>)
    ensures Numbers(r, false) <==> OneEach(r)
  {
  }

  lemma MirroredIs(r: seq<Command>, n: Client, ordered: bool)
    requires n.persistent && AllStored(r, n) && AllNamed(r, n.v5, n.store.Keys)
    ensures Mirrored(r, n, ordered) <==> Numbers(r, ordered)
  {
    hide AllStored, AllNamed, Numbers;
  }

  /** What joins the queue: commands of the client with message ids of their own, mirrored by its store, in order
      exactly if the keys are listed in order. */
  lemma RestoredFits(m: Client, client: int, keys: seq<string>, work: seq<Command>, id: nat)
    requires LeftBy(m, work, false) && (m.persistent ==> Listing(keys, m))
    ensures var r := Restored(m, keys, client, id);
            && CountedFrom(r, client, id) && TokensDiffer(r) && Mirrored(r, Anew(m, r), false)
            && (m.persistent ==> (Mirrored(r, Anew(m, r), true) <==> KeysAscend(keys)))
  {
    hide RestoredFrom, IsCommandKey, Highest, AllNamed, AllStored, AllFromStore, AllThere, Numbers, CountedFrom,
         TokensDiffer, Seqnos, KeysAscend, ListedNumbers, Ascending, OneEach;
    if m.persistent {
      hide Mirrored;
      var r := Restored(m, keys, client, id);
      RestoredAre(keys, work, m, client, id);
      RestartRebuilds(work, m, client, keys, id);
      RestoredAreCounted(r, client, id, m, keys);
      RestoredTokens(r, id, work, m, client, keys);
      RestoredAreStored(r, id, m, client, keys, work);
      StoreIsNamed(r, work, m, keys);
      NumbersAscend(r);
      ListedAscend(keys);
      NumbersDiffer(r);
      MirroredIs(r, Anew(m, r), false);
      MirroredIs(r, Anew(m, r), true);
    } else {
      NothingFits(client, id);
    }
  }

  lemma NothingFits(client: int, id: nat)
    ensures CountedFrom([], client, id) && TokensDiffer([])
  {
  }

  // ---------- Joining the queue ----------

  /** The state after new commands of a new client have joined the queue. */
  predicate JoinsQueue(s: State, t: State, r: seq<Command>, client: int) {
    && client !in s.clients && CountedFrom(r, client, |s.owners|)
    && t.queue == Inserted(s.queue, r) && t.owners == s.owners + Repeat(client, |r|)
    && t.hand == s.hand && t.finished == s.finished && t.calls == s.calls && t.dispatched == s.dispatched
    && t.clients.Keys == s.clients.Keys + {client} && t.clients[client].responses == []
    && forall c :: c in s.clients ==> t.clients[c] == s.clients[c]
  }

  lemma InsertedIsIn(q: seq<Command>, r: seq<Command>)
    ensures forall i :: 0 <= i < |Inserted(q, r)| ==> Inserted(q, r)[i] in q || Inserted(q, r)[i] in r
  {
    hide Place;
  }

  lemma CountInserted(q: seq<Command>, r: seq<Command>, m: Matcher)
    ensures Count(Inserted(q, r), m) == Count(q, m) + Count(r, m)
  {
    hide Place, Count, Matches;
    var a, b := q[..Place(q, 0)], q[Place(q, 0)..];
    assert q == a + b;
    CountConcat(a, b, m);
    CountConcat(a + r, b, m);
    CountConcat(a, r, m);
  }

  /** At most one of several commands matches if no two of them do. */
  lemma {:induction false} AtMostOne(q: seq<Command>, m: Matcher)
    requires forall i, j :: 0 <= i < j < |q| ==> !(Matches(q[i], m) && Matches(q[j], m))
    ensures Count(q, m) <= 1
    decreases |q|
  {
    hide Matches;
    if q != [] {
      AtMostOne(q[1..], m);
      assert forall i :: 0 <= i < |q| - 1 ==> q[i + 1] == q[1..][i];
      if Matches(q[0], m) && Count(q[1..], m) > 0 {
        var i := CountPositive(q[1..], m);
      }
    }
  }

  lemma CountNone(q: seq<Command>, m: Matcher)
    requires forall i :: 0 <= i < |q| ==> !Matches(q[i], m)
    ensures Count(q, m) == 0
  {
    hide Matches;
    if Count(q, m) > 0 {
      var i := CountPositive(q, m);
    }
  }

  lemma JoinedOwned(s: State, t: State, r: seq<Command>, client: int)
    requires Owned(s) && JoinsQueue(s, t, r, client)
    ensures Owned(t)
  {
    hide Place, Repeat, IsWork, Inserted;
    InsertedIsIn(s.queue, r);
    assert forall i :: 0 <= i < |s.owners| ==> t.owners[i] == s.owners[i];
    assert forall i :: |s.owners| <= i < |t.owners| ==> t.owners[i] == client;
    assert forall c :: c in r ==> Work(c) && c.client == client && |s.owners| <= c.id < |t.owners|;
  }

  lemma JoinedConserved(s: State, t: State, r: seq<Command>, client: int, id: nat)
    requires Owned(s) && Conserved(s) && JoinsQueue(s, t, r, client) && id < |t.owners|
    ensures Live(t, t.owners[id], ById(id)) + Count(t.finished, ById(id)) == 1
  {
    hide Count, Inserted, Repeat, IsWork, Owned;
    var m := ById(id);
    CountInserted(s.queue, r, m);
    if id < |s.owners| {
      CountNone(r, m);
      assert Live(s, s.owners[id], m) + Count(s.finished, m) == 1;
      NothingCounted(m);
      assert t.owners[id] == s.owners[id];
    } else {
      AtMostOne(r, m);
      CountAtLeast(r, m, id - |s.owners|);
      NotYetThere(s, client, id);
      NothingCounted(m);
      assert t.owners[id] == client;
    }
  }

  /** No command carries an id not given out. */
  lemma NotYetThere(s: State, client: int, id: nat)
    requires Owned(s) && id >= |s.owners|
    ensures Count(s.queue, ById(id)) == 0 && InHand(s, ById(id)) == 0 && Count(s.finished, ById(id)) == 0
  {
    hide Count, IsWork;
    CountNone(s.queue, ById(id));
    CountNone(s.finished, ById(id));
    assert s.hand.Some? ==> [s.hand.value][0] == s.hand.value;
  }

  lemma JoinedTokens(s: State, t: State, r: seq<Command>, client: int, c: int, token: int)
    requires Owned(s) && TokensUnique(s) && JoinsQueue(s, t, r, client) && TokensDiffer(r)
    requires c in t.clients && token != 0
    ensures Live(t, c, ByToken(c, token)) <= 1
  {
    hide Count, Inserted, Repeat, IsWork, OwnedList, ResponsesOwned;
    var m := ByToken(c, token);
    CountInserted(s.queue, r, m);
    if c == client {
      CountNone(s.queue, m);
      AtMostOne(r, m);
      NothingCounted(m);
    } else {
      CountNone(r, m);
      assert Live(s, c, m) <= 1;
    }
  }

  lemma JoinedSound(s: State, t: State, r: seq<Command>, client: int)
    requires Sound(s) && JoinsQueue(s, t, r, client) && TokensDiffer(r)
    ensures Sound(t)
  {
    hide Owned, Live, JoinsQueue, TokensDiffer, Count;
    JoinedOwned(s, t, r, client);
    forall id | 0 <= id < |t.owners|
      ensures Live(t, t.owners[id], ById(id)) + Count(t.finished, ById(id)) == 1
    {
      JoinedConserved(s, t, r, client, id);
    }
    forall c, token | c in t.clients && token != 0
      ensures Live(t, c, ByToken(c, token)) <= 1
    {
      JoinedTokens(s, t, r, client, c, token);
    }
  }

  lemma JoinedScheduled(s: State, t: State, r: seq<Command>, client: int)
    requires Owned(s) && S.Scheduled(s) && JoinsQueue(s, t, r, client)
    ensures S.Scheduled(t)
  {
    hide Place, Repeat, IsWork;
    var d, a, b := s.dispatched, s.queue[..Place(s.queue, 0)], s.queue[Place(s.queue, 0)..];
    assert s.queue == a + b && t.queue == a + r + b;
    assert S.Ascending(r);
    assert S.Before(d, r) && S.Before(a, r) && S.Before(r, b);
    hide S.Ascending, S.Before, Owned, JoinsQueue;
    S.AscendingParts(d, a + b);
    S.AscendingParts(a, b);
    S.BeforeParts(d, a, b);
    S.AscendingParts(a, r);
    S.BeforeParts(a, r, b);
    S.AscendingParts(a + r, b);
    S.BeforeParts(d, a, r);
    S.BeforeParts(d, a + r, b);
    S.AscendingParts(d, a + r + b);
  }

  lemma {:induction false} AllWork(q: seq<Command>, client: int)
    requires forall i :: 0 <= i < |q| ==> Work(q[i]) && q[i].client == client
    ensures WorkOf(q, client) == q
    ensures forall c :: c != client ==> WorkOf(q, c) == []
    decreases |q|
  {
    hide IsWork;
    if q != [] {
      AllWork(q[1..], client);
    }
  }

  /** The work of the client is what was restored; that of the others is what it was. */
  lemma WorkOfInserted(q: seq<Command>, r: seq<Command>, client: int, id: nat, k: int)
    requires CountedFrom(r, client, id) && forall i :: 0 <= i < |q| ==> q[i].client != client
    ensures WorkOf(Inserted(q, r), k) == if k == client then r else WorkOf(q, k)
  {
    hide Place, WorkOf, IsWork;
    var a, b := q[..Place(q, 0)], q[Place(q, 0)..];
    assert q == a + b;
    AllWork(r, client);
    WorkOfConcat(a, b, k);
    WorkOfConcat(a + r, b, k);
    WorkOfConcat(a, r, k);
    if k == client {
      WorkOfOthers(a, k);
      WorkOfOthers(b, k);
      assert [] + r + [] == r;
    } else {
      assert WorkOf(a, k) + [] == WorkOf(a, k);
    }
  }

  lemma NoneInQueue(s: State, client: int)
    requires Owned(s) && client !in s.clients
    ensures forall i :: 0 <= i < |s.queue| ==> s.queue[i].client != client
  {
    hide OwnedList, ResponsesOwned;
  }

  lemma JoinedMirrors(s: State, t: State, r: seq<Command>, client: int, ordered: bool)
    requires Owned(s) && Mirrors(s, ordered) && JoinsQueue(s, t, r, client) && Mirrored(r, t.clients[client], ordered)
    requires forall i :: 0 <= i < |r| ==> Work(r[i])
    ensures Mirrors(t, ordered)
  {
    hide WorkOf, Mirrored, Owned, Inserted, IsWork, CountedFrom;
    NoneInQueue(s, client);
    forall k | k in t.clients
      ensures Mirrored(WorkOf(t.queue, k), t.clients[k], ordered)
    {
      WorkOfInserted(s.queue, r, client, |s.owners|, k);
    }
    InsertedIsIn(s.queue, r);
  }

  // ---------- Main results ----------

  /** However the keys are listed, every invariant of the queue holds again; only the order of the numbers depends on
      the listing. */
  lemma CreateKeeps(s: State, client: int, m: Client, keys: seq<string>, work: seq<Command>, ordered: bool)
    requires Sound(s) && S.Scheduled(s) && Mirrors(s, ordered)
    requires CanCreate(s, client, m, keys) && LeftBy(m, work, false)
    requires ordered && m.persistent ==> KeysAscend(keys)
    ensures var t := AfterCreate(s, client, m, keys); Sound(t) && S.Scheduled(t) && Mirrors(t, ordered)
  {
    hide Sound, S.Scheduled, Mirrors, LeftBy, Listing, Restored, Inserted, TokensDiffer, KeysAscend, Mirrored;
    var r, t := Restored(m, keys, client, |s.owners|), AfterCreate(s, client, m, keys);
    RestoredFits(m, client, keys, work, |s.owners|);
    assert JoinsQueue(s, t, r, client);
    SoundIsOwned(s);
    JoinedSound(s, t, r, client);
    JoinedScheduled(s, t, r, client);
    EitherOrder(m, r, ordered);
    JoinedMirrors(s, t, r, client, ordered);
  }

  lemma SoundIsOwned(s: State)
    requires Sound(s)
    ensures Owned(s)
  {
  }

  lemma EitherOrder(m: Client, r: seq<Command>, ordered: bool)
    requires Mirrored(r, Anew(m, r), false) && (m.persistent && ordered ==> Mirrored(r, Anew(m, r), true))
    ensures Mirrored(r, Anew(m, r), ordered)
  {
    hide AllStored, AllNamed, Numbers;
  }
}
