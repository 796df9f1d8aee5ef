/** Histories: runs of the queue with crashes of the process and clients made anew in between.

    A world is the state of the process and, for the clients that are not there, what they stored.  The results hold in
    every world of every history; what is said of the commands submitted counts those restored as submitted, since the
    process was last started. */
module Histories {
  import opened CommandCodec
  import opened CommandKeys
  import opened CommandQueue
  import opened CommandRestore
  import opened Properties
  import opened QueueConservation
  import opened QueueStore
  import opened Restart
  import opened Wrappers
  import S = QueueScheduling

  datatype World = World(state: State, disk: map<int, Client>)

  /** A step of the queue, the end of the process, or `MQTTAsync_create` for a client that left its store. */
  datatype Act =
    | Step(event: Event)
    | Crash
    | Create(client: int, keys: seq<string>)

  const NOTHING := State([], None, map[], [], [], [], [])

  predicate Possible(w: World, act: Act) {
    match act
    case Step(e) => Enabled(w.state, e)
    case Crash => true
    case Create(client, keys) => client in w.disk && CanCreate(w.state, client, w.disk[client], keys)
  }

  /** A destroyed client and a crash leave the stores behind. */
  function After(w: World, act: Act): World
    requires Possible(w, act)
  {
    match act
    case Step(e) =>
      World(Apply(w.state, e), if e.Destroy? then w.disk[e.client := w.state.clients[e.client]] else w.disk)
    case Crash => World(NOTHING, w.disk + w.state.clients)
    case Create(client, keys) => World(AfterCreate(w.state, client, w.disk[client], keys), w.disk - {client})
  }

  /** Every act is possible where it happens. */
  predicate Happens(w: World, acts: seq<Act>)
    decreases |acts|
  {
    acts == [] || (Possible(w, acts[0]) && Happens(After(w, acts[0]), acts[1..]))
  }

  function History(w: World, acts: seq<Act>): World
    requires Happens(w, acts)
    decreases |acts|
  {
    if acts == [] then w else History(After(w, acts[0]), acts[1..])
  }

  /** Nothing submitted yet and nothing stored. */
  predicate Beginning(w: World) {
    && Fresh(w.state) && w.disk.Keys !! w.state.clients.Keys
    && forall c :: c in w.disk ==> w.disk[c].store == map[]
  }

  /** The keys of a client made anew are listed by ascending number. */
  predicate ListsInOrder(act: Act) {
    act.Create? ==> KeysAscend(act.keys)
  }

  predicate AllListInOrder(acts: seq<Act>) {
    forall i :: 0 <= i < |acts| ==> ListsInOrder(acts[i])
  }

  // ---------- The invariant ----------

  ghost predicate Saved(m: Client) {
    exists work :: LeftBy(m, work, false)
  }

  /** Every invariant of the queue, with ascending numbers if `ordered`, and on the disk what some queue left there. */
  ghost predicate SoundWorld(w: World, ordered: bool) {
    && Sound(w.state) && S.Scheduled(w.state) && Mirrors(w.state, ordered)
    && w.disk.Keys !! w.state.clients.Keys
    && forall c :: c in w.disk ==> Saved(w.disk[c])
  }

  lemma {:induction false} WorkCounts(q: seq<Command>, client: int, m: Matcher)
    ensures Count(WorkOf(q, client), m) <= Count(q, m)
    decreases |q|
  {
    hide Matches, IsWork;
    if q != [] {
      WorkCounts(q[1..], client, m);
      var head := if Work(q[0]) && q[0].client == client then [q[0]] else [];
      CountConcat(head, WorkOf(q[1..], client), m);
      CountOne(q[0], m);
    }
  }

  lemma TokensOfClientDiffer(s: State, client: int)
    requires TokensUnique(s) && client in s.clients
    ensures TokensDiffer(WorkOf(s.queue, client))
  {
    hide WorkOf, Count;
    var work := WorkOf(s.queue, client);
    forall i, j | 0 <= i < j < |work| && work[i].content.token != 0
      ensures work[i].content.token != work[j].content.token
    {
      var m := ByToken(client, work[i].content.token);
      assert Live(s, client, m) <= 1;
      WorkCounts(s.queue, client, m);
      if work[i].content.token == work[j].content.token {
        CountTwo(work, m, i, j);
      }
    }
  }

  /** The queue leaves every client's store fit to be restored from. */
  lemma StoreIsLeft(s: State, client: int, ordered: bool)
    requires Sound(s) && Mirrors(s, ordered) && client in s.clients
    ensures LeftBy(s.clients[client], WorkOf(s.queue, client), ordered)
    ensures Saved(s.clients[client])
  {
    hide Owned, Conserved, Live, WorkOf, TokensDiffer, Mirrored;
    TokensOfClientDiffer(s, client);
    MirroredAnyway(WorkOf(s.queue, client), s.clients[client], ordered);
    assert LeftBy(s.clients[client], WorkOf(s.queue, client), false);
  }

  lemma NothingIsSound(ordered: bool)
    ensures Sound(NOTHING) && S.Scheduled(NOTHING) && Mirrors(NOTHING, ordered)
  {
  }

  lemma StepKeepsWorld(w: World, e: Event, ordered: bool)
    requires SoundWorld(w, ordered) && Enabled(w.state, e)
    ensures SoundWorld(After(w, Step(e)), ordered)
  {
    hide Sound, S.Scheduled, Mirrors, Enabled, Apply, Saved;
    SoundIsOwned(w.state);
    StepSound(w.state, e);
    S.StepKeepsOrder(w.state, e);
    StepMirrors(w.state, e, ordered);
    var t := After(w, Step(e));
    forall c | c in t.state.clients
      ensures c in w.state.clients && !(e.Destroy? && e.client == c)
    {
      StepClients(w.state, e, c);
      if e.Destroy? {
        DestroyedIsGone(w.state, e.client);
      }
    }
    if e.Destroy? {
      DestroyedIsGone(w.state, e.client);
      StoreIsLeft(w.state, e.client, ordered);
    }
  }

  lemma DestroyedIsGone(s: State, client: int)
    requires Enabled(s, Destroy(client))
    ensures client in s.clients && client !in Apply(s, Destroy(client)).clients
  {
    hide AfterRemove;
  }

  lemma CrashKeepsWorld(w: World, ordered: bool)
    requires SoundWorld(w, ordered)
    ensures SoundWorld(After(w, Crash), ordered)
  {
    hide Sound, S.Scheduled, Mirrors, Saved;
    NothingIsSound(ordered);
    forall c | c in w.state.clients
      ensures Saved(w.state.clients[c])
    {
      StoreIsLeft(w.state, c, ordered);
    }
  }

  lemma CreateKeepsWorld(w: World, act: Act, ordered: bool)
    requires SoundWorld(w, ordered) && Possible(w, act) && act.Create? && (ordered ==> ListsInOrder(act))
    ensures SoundWorld(After(w, act), ordered)
  {
    hide Sound, S.Scheduled, Mirrors, LeftBy, CanCreate, KeysAscend;
    var m := w.disk[act.client];
    assert Saved(m);
    var work :| LeftBy(m, work, false);
    CreateKeeps(w.state, act.client, m, act.keys, work, ordered);
    hide Saved;
  }

  lemma ActKeepsWorld(w: World, act: Act, ordered: bool)
    requires SoundWorld(w, ordered) && Possible(w, act) && (ordered ==> ListsInOrder(act))
    ensures SoundWorld(After(w, act), ordered)
  {
    hide SoundWorld, After, ListsInOrder, Enabled, CanCreate;
    match act
    case Step(e) => StepKeepsWorld(w, e, ordered);
    case Crash => CrashKeepsWorld(w, ordered);
    case Create(_, _) => CreateKeepsWorld(w, act, ordered);
  }

  lemma {:induction false} HistoryKeepsWorld(w: World, acts: seq<Act>, ordered: bool)
    requires SoundWorld(w, ordered) && Happens(w, acts) && (ordered ==> AllListInOrder(acts))
    ensures SoundWorld(History(w, acts), ordered)
    decreases |acts|
  {
    hide SoundWorld, After, Possible, ListsInOrder;
    if acts != [] {
      ActKeepsWorld(w, acts[0], ordered);
      HistoryKeepsWorld(After(w, acts[0]), acts[1..], ordered);
    }
  }

  lemma BeginningIsSound(w: World)
    requires Beginning(w)
    ensures SoundWorld(w, true)
  {
    hide Sound, S.Scheduled, Mirrors;
    FreshIsSound(w.state);
    FreshMirrors(w.state);
    FreshIsScheduled(w.state);
    forall c | c in w.disk
      ensures Saved(w.disk[c])
    {
      assert LeftBy(w.disk[c], [], false);
    }
  }

  lemma FreshIsScheduled(s: State)
    requires Fresh(s)
    ensures S.Scheduled(s)
  {
  }

  /** Every world of every history satisfies every invariant; the numbers ascend if every listing was in order. */
  lemma EveryWorldIsSound(w: World, acts: seq<Act>)
    requires Beginning(w) && Happens(w, acts)
    ensures SoundWorld(History(w, acts), false)
    ensures AllListInOrder(acts) ==> SoundWorld(History(w, acts), true)
  {
    hide SoundWorld, Happens, History, Beginning, AllListInOrder;
    BeginningIsSound(w);
    OrderedIsSound(w);
    HistoryKeepsWorld(w, acts, false);
    if AllListInOrder(acts) {
      HistoryKeepsWorld(w, acts, true);
    }
  }

  lemma OrderedIsSound(w: World)
    requires SoundWorld(w, true)
    ensures SoundWorld(w, false)
  {
    hide Sound, S.Scheduled, Saved, Mirrored, WorkOf;
    forall c | c in w.state.clients
      ensures Mirrored(WorkOf(w.state.queue, c), w.state.clients[c], false)
    {
      MirroredAnyway(WorkOf(w.state.queue, c), w.state.clients[c], true);
    }
  }

  // ---------- Conservation ----------

  /** Each submitted command is in exactly one of the queue, the sender's hands, its client's response list and the
      finished commands. */
  lemma ExactlyOnePlace(w: World, acts: seq<Act>, id: nat)
    requires Beginning(w) && Happens(w, acts) && id < |History(w, acts).state.owners|
    ensures var t := History(w, acts).state;
            Count(t.queue, ById(id)) + InHand(t, ById(id)) + InResponses(t, t.owners[id], ById(id))
            + Count(t.finished, ById(id)) == 1
  {
    hide Count, Happens, History;
    EveryWorldIsSound(w, acts);
  }

  /** At most one callback is ever made for a command, and once it is made the command is nowhere else. */
  lemma AtMostOneCallback(w: World, acts: seq<Act>, i: nat, j: nat)
    requires Beginning(w) && Happens(w, acts)
    requires i < |History(w, acts).state.finished| && j < |History(w, acts).state.finished|
    requires History(w, acts).state.finished[i].id == History(w, acts).state.finished[j].id
    ensures i == j && |History(w, acts).state.calls| == |History(w, acts).state.finished|
    ensures var t := History(w, acts).state; Live(t, t.finished[i].client, ById(t.finished[i].id)) == 0
  {
    hide Count, Happens, History, Live;
    EveryWorldIsSound(w, acts);
    var t := History(w, acts).state;
    var m := ById(t.finished[i].id);
    CountAtLeast(t.finished, m, i);
    if i < j {
      CountTwo(t.finished, m, i, j);
    } else if j < i {
      CountTwo(t.finished, m, j, i);
    }
  }

  /** Two live commands of a client never have the same message id, zero apart. */
  lemma MessageIdsDiffer(w: World, acts: seq<Act>, client: int, token: int)
    requires Beginning(w) && Happens(w, acts) && client in History(w, acts).state.clients && token != 0
    ensures Live(History(w, acts).state, client, ByToken(client, token)) <= 1
  {
    hide Count, Happens, History, Live;
    EveryWorldIsSound(w, acts);
  }

  /** While the process lives, the record of finished commands and callbacks is never rewritten. */
  lemma {:induction false} RecordGrows(w: World, acts: seq<Act>)
    requires Happens(w, acts) && Crash !in acts
    ensures Grows(w.state, History(w, acts).state)
    decreases |acts|
  {
    hide Enabled, Apply, AfterCreate;
    if acts != [] {
      if acts[0].Step? {
        StepGrows(w.state, acts[0].event);
      } else {
        CreateGrows(w.state, acts[0].client, w.disk[acts[0].client], acts[0].keys);
      }
      RecordGrows(After(w, acts[0]), acts[1..]);
    }
  }

  lemma CreateGrows(s: State, client: int, m: Client, keys: seq<string>)
    ensures Grows(s, AfterCreate(s, client, m, keys))
  {
  }

  // ---------- Scheduling ----------

  /** One client's commands are dispatched in the order of submission, and what is dispatched was submitted before
      anything of that client still in the queue. */
  lemma DispatchedInOrder(w: World, acts: seq<Act>)
    requires Beginning(w) && Happens(w, acts)
    ensures var t := History(w, acts).state; S.Ascending(t.dispatched) && S.Before(t.dispatched, t.queue)
  {
    hide Happens, History, Sound, Mirrors, S.Ascending;
    EveryWorldIsSound(w, acts);
    var t := History(w, acts).state;
    S.AscendingParts(t.dispatched, t.queue);
  }

  // ---------- The store ----------

  /** A persistent client's entries are exactly those of its queued work, under distinct numbers no greater than the
      last one given out; the numbers ascend if every listing was in order. */
  lemma StoreMirrorsQueue(w: World, acts: seq<Act>, c: int)
    requires Beginning(w) && Happens(w, acts)
    requires c in History(w, acts).state.clients && History(w, acts).state.clients[c].persistent
    ensures var t := History(w, acts).state; var m := t.clients[c]; var work := WorkOf(t.queue, c);
            && AllStored(work, m) && AllNamed(work, m.v5, m.store.Keys) && Numbers(work, false)
            && (AllListInOrder(acts) ==> Numbers(work, true))
  {
    hide Happens, History, WorkOf, SoundWorld, AllListInOrder, AllStored, AllNamed, Numbers;
    EveryWorldIsSound(w, acts);
    WorldMirrors(History(w, acts), c, false);
    if AllListInOrder(acts) {
      WorldMirrors(History(w, acts), c, true);
    }
  }

  /** A command added later never takes over an entry. */
  lemma NextEntryIsNew(w: World, acts: seq<Act>, c: int)
    requires Beginning(w) && Happens(w, acts)
    requires c in History(w, acts).state.clients && History(w, acts).state.clients[c].persistent
    ensures var m := History(w, acts).state.clients[c]; Key(m.v5, m.commandSeqno + 1) !in m.store
  {
    hide Happens, History, WorkOf, Key, SoundWorld, AllListInOrder, Mirrored;
    EveryWorldIsSound(w, acts);
    var x := History(w, acts);
    WorldMirrors(x, c, false);
    NextKeyIsFresh(WorkOf(x.state.queue, c), x.state.clients[c], false);
  }

  lemma WorldMirrors(w: World, c: int, ordered: bool)
    requires SoundWorld(w, ordered) && c in w.state.clients
    ensures Mirrored(WorkOf(w.state.queue, c), w.state.clients[c], ordered)
  {
    hide Sound, S.Scheduled, Mirrored, WorkOf;
  }

  // ---------- Restarts ----------

  /** The client goes: with the whole process, or destroyed. */
  predicate Stops(act: Act, client: int) {
    act.Crash? || act == Step(Destroy(client))
  }

  /** Whenever a client is stopped and made anew, its queued work is there again, command by command as it was persisted
      and in the order the keys are listed; nothing else of it is there. */
  lemma RestartBringsBack(w: World, acts: seq<Act>, client: int, stop: Act, keys: seq<string>)
    requires Beginning(w) && Happens(w, acts) && client in History(w, acts).state.clients && Stops(stop, client)
    requires History(w, acts).state.clients[client].persistent
    requires Possible(History(w, acts), stop) && Possible(After(History(w, acts), stop), Create(client, keys))
    ensures var u := History(w, acts).state; var m := u.clients[client];
            var t := After(After(History(w, acts), stop), Create(client, keys)).state;
            var before, after := WorkOf(u.queue, client), WorkOf(t.queue, client);
            && (forall n :: n in Seqnos(after) <==> n in Seqnos(before))
            && (forall i, j :: 0 <= i < |after| && 0 <= j < |before| && after[i].seqno == before[j].seqno ==>
                                 && (before[j].restored || AllWellTyped(before[j].content.properties))
                                 && after[i].content == AfterRestart(before[j], m.v5))
            && Seqnos(after) == ListedNumbers(keys)
            && (AllListInOrder(acts) ==> (Seqnos(after) == Seqnos(before) <==> KeysAscend(keys)))
            && t.clients[client].responses == []
  {
    hide Happens, History, Sound, S.Scheduled, AllListInOrder, WorkOf, Seqnos, Listing, RestoredFrom, AfterRestart,
         KeysAscend, ListedNumbers, Mirrored, Enabled, Apply, Inserted;
    EveryWorldIsSound(w, acts);
    var x := History(w, acts);
    var m, work := x.state.clients[client], WorkOf(x.state.queue, client);
    var y := After(x, stop);
    ActKeepsWorld(x, stop, false) by { hide SoundWorld, After; }
    assert y.disk[client] == m;
    var id := |y.state.owners|;
    RestartRebuilds(work, m, client, keys, id);
    assert m.persistent && LeftBy(m, work, false) by { StoreIsLeft(x.state, client, false); }
    RestoredFits(m, client, keys, work, id);
    SoundIsOwned(y.state);
    NoneInQueue(y.state, client);
    WorkOfInserted(y.state.queue, RestoredFrom(keys, m.store, client, id), client, id, client);
    if AllListInOrder(acts) {
      OrderSurvives(work, m, client, keys, id);
    }
  }
}
