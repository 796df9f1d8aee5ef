/** Histories in which something is lost: the order of restored commands, and a subscription that cannot be sent. */
module Losses {
  import opened CommandCodec
  import opened CommandKeys
  import opened CommandQueue
  import opened CommandRestore
  import opened Histories
  import opened Properties
  import opened QueueConservation
  import opened QueueStore
  import opened Restart
  import opened Wrappers
  import S = QueueScheduling

  // ---------- A reversal ----------

  /** Two submissions, a crash, and the client made anew over its two keys, the later one listed first. */
  function Reversal(client: int, p: Content, q: Content, calls: Callbacks, m: Client): seq<Act> {
    [Step(Submit(client, p, calls)), Step(Submit(client, q, calls)), Crash,
     Create(client, [Key(m.v5, m.commandSeqno + 2), Key(m.v5, m.commandSeqno + 1)])]
  }

  lemma HappensTwice(w: World, a: Act, b: Act, rest: seq<Act>)
    requires Possible(w, a) && Possible(After(w, a), b) && Happens(After(After(w, a), b), rest)
    ensures Happens(w, [a, b] + rest) && History(w, [a, b] + rest) == History(After(After(w, a), b), rest)
  {
    hide Possible, After;
    var acts := [a, b] + rest;
    assert acts[1..] == [b] + rest && acts[1..][1..] == rest;
    assert Happens(After(w, a), acts[1..]);
  }

  /** The first two commands of a client stand in the queue and in its store. */
  predicate HoldsTwo(s: State, client: int, m: Client) {
    && client in s.clients && s.clients[client].v5 == m.v5 && s.clients[client].persistent
    && s.clients[client].store.Keys == {Key(m.v5, m.commandSeqno + 1), Key(m.v5, m.commandSeqno + 2)}
    && |s.queue| == 2 && Work(s.queue[0]) && Work(s.queue[1])
    && s.queue[0].client == s.queue[1].client == client
    && s.queue[0].seqno == m.commandSeqno + 1 && s.queue[1].seqno == m.commandSeqno + 2
  }

  lemma TwoSubmitted(w: World, client: int, p: Content, q: Content, calls: Callbacks) returns (u: World)
    requires Beginning(w) && client in w.state.clients && w.state.clients[client].persistent
    requires w.state.clients[client].commandSeqno + 2 < KeyLimit(w.state.clients[client].v5)
    requires IsWork(p.details) && WellFormed(p, w.state.clients[client].v5)
    requires IsWork(q.details) && WellFormed(q, w.state.clients[client].v5)
    requires q.token == 0 || q.token != p.token
    ensures var a, b := Step(Submit(client, p, calls)), Step(Submit(client, q, calls));
            Possible(w, a) && Possible(After(w, a), b) && u == After(After(w, a), b)
    ensures HoldsTwo(u.state, client, w.state.clients[client])
    ensures client in u.state.clients && u.state.clients[client].persistent
  {
    hide Key, Encode, WellFormed, IsWork, AfterSubmit, Urgent;
    var a, b := Submit(client, p, calls), Submit(client, q, calls);
    var s := w.state;
    var m := s.clients[client];
    assert Enabled(s, a);
    Submitted(s, a);
    var t := Apply(s, a);
    assert |t.queue| == 1 && t.queue[0].content == p;
    assert Enabled(t, b);
    Submitted(t, b);
    u := After(After(w, Step(a)), Step(b));
    assert u.state.queue == [t.queue[0], u.state.queue[1]];
    assert u.state.clients[client].store.Keys == {Key(m.v5, m.commandSeqno + 1), Key(m.v5, m.commandSeqno + 2)};
  }

  /** What one submission of a persistent client does. */
  lemma Submitted(s: State, e: Event)
    requires Enabled(s, e) && e.Submit? && s.clients[e.client].persistent
    ensures var m, t := s.clients[e.client], Apply(s, e); var number := m.commandSeqno + 1;
            && t.queue == s.queue + [Command(|s.owners|, e.client, e.content, number, e.calls, false)]
            && t.clients == s.clients[e.client := m.(commandSeqno := number,
                                                     store := m.store[Key(m.v5, number) := Encode(e.content, m.v5)])]
            && t.hand == s.hand
  {
    hide Key, Encode, WellFormed;
  }

  /** Both keys listed, the later first. */
  lemma TwoKeysListed(s: State, client: int, m: Client)
    requires HoldsTwo(s, client, m)
    ensures var keys := [Key(m.v5, m.commandSeqno + 2), Key(m.v5, m.commandSeqno + 1)];
            && Listing(keys, s.clients[client])
            && ListedNumbers(keys) == [m.commandSeqno + 2, m.commandSeqno + 1]
  {
    hide Key, SeqnoOf, IsWork;
    var a, b := m.commandSeqno + 2, m.commandSeqno + 1;
    var keys := [Key(m.v5, a), Key(m.v5, b)];
    KeysDiffer(m.v5, a, b);
    SeqnoOfKey(m.v5, a);
    SeqnoOfKey(m.v5, b);
    assert keys[1..] == [Key(m.v5, b)] && keys[1..][1..] == [];
    assert ListedNumbers(keys[1..][1..]) == [];
    assert ListedNumbers(keys[1..]) == [b] + [];
    assert forall key :: key in s.clients[client].store ==> key == keys[0] || key == keys[1];
  }

  lemma TwoWorks(s: State, client: int, m: Client)
    requires HoldsTwo(s, client, m)
    ensures WorkOf(s.queue, client) == s.queue && Seqnos(s.queue) == [m.commandSeqno + 1, m.commandSeqno + 2]
  {
    hide Key, IsWork, WorkOf;
    AllWork(s.queue, client);
    var q := s.queue;
    assert q == [q[0], q[1]] && q[1..] == [q[1]] && q[1..][1..] == [];
    assert Seqnos(q[1..][1..]) == [];
    assert Seqnos(q[1..]) == [q[1].seqno] + [];
  }

  lemma InsertedAlone(r: seq<Command>)
    ensures Inserted([], r) == r
  {
  }

  /** The order can be lost: whatever two commands a persistent client submits first, if the store then lists the later
      key first, the later command comes first after the restart. */
  lemma ReversalHappens(w: World, client: int, p: Content, q: Content, calls: Callbacks)
    requires Beginning(w) && client in w.state.clients && w.state.clients[client].persistent
    requires w.state.clients[client].commandSeqno + 2 < KeyLimit(w.state.clients[client].v5)
    requires IsWork(p.details) && WellFormed(p, w.state.clients[client].v5)
    requires IsWork(q.details) && WellFormed(q, w.state.clients[client].v5)
    requires q.token == 0 || q.token != p.token
    ensures var m := w.state.clients[client]; var acts := Reversal(client, p, q, calls, m);
            && Happens(w, acts) && Happens(w, acts[..2])
            && Seqnos(History(w, acts[..2]).state.queue) == [m.commandSeqno + 1, m.commandSeqno + 2]
            && Seqnos(History(w, acts).state.queue) == [m.commandSeqno + 2, m.commandSeqno + 1]
  {
    hide Key, Encode, Decode, WellFormed, IsWork, Seqnos, Listing, RestoredFrom, ListedNumbers, HoldsTwo, Sound,
         S.Scheduled, WorkOf, Mirrored, Happens, History, Enabled, Apply, Inserted, AfterRestart, TokensDiffer;
    var m := w.state.clients[client];
    var acts := Reversal(client, p, q, calls, m);
    var u := TwoSubmitted(w, client, p, q, calls);
    var keys := acts[3].keys;
    NoActs(u);
    HappensTwice(w, acts[0], acts[1], []);
    assert acts[..2] == [acts[0], acts[1]] + [];
    EveryWorldIsSound(w, acts[..2]);
    TwoWorks(u.state, client, m);
    TwoKeysListed(u.state, client, m);
    var x := After(u, Crash);
    assert x.disk[client] == u.state.clients[client];
    var y := After(x, acts[3]);
    NoActs(y);
    HappensTwice(u, acts[2], acts[3], []);
    HappensTwice(w, acts[0], acts[1], [acts[2], acts[3]] + []);
    assert acts == [acts[0], acts[1]] + ([acts[2], acts[3]] + []);
    StoreIsLeft(u.state, client, false);
    RestartRebuilds(u.state.queue, x.disk[client], client, keys, 0);
    InsertedAlone(RestoredFrom(keys, x.disk[client].store, client, 0));
  }

  lemma NoActs(w: World)
    ensures Happens(w, []) && History(w, []) == w
  {
  }

  // ---------- A subscription that cannot be sent ----------

  const OPEN := Net(true, true, true, 0, 1)

  /** A submission, a crash, the client made anew over its one key, and a turn of the sending thread. */
  function Unsendable(client: int, p: Content, calls: Callbacks, m: Client): seq<Act> {
    [Step(Submit(client, p, calls)), Crash, Create(client, [Key(m.v5, m.commandSeqno + 1)]),
     Step(Take(map[client := OPEN]))]
  }

  /** The first command of a client stands alone in the queue and in its store. */
  predicate HoldsOne(s: State, client: int, m: Client, p: Content) {
    && client in s.clients && s.clients[client].v5 == m.v5 && s.clients[client].persistent
    && s.clients[client].store.Keys == {Key(m.v5, m.commandSeqno + 1)}
    && |s.queue| == 1 && Work(s.queue[0]) && !s.queue[0].restored
    && s.queue[0].client == client && s.queue[0].seqno == m.commandSeqno + 1 && s.queue[0].content == p
  }

  lemma OneSubmitted(w: World, client: int, p: Content, calls: Callbacks) returns (u: World)
    requires Beginning(w) && client in w.state.clients && w.state.clients[client].persistent
    requires w.state.clients[client].commandSeqno + 1 < KeyLimit(w.state.clients[client].v5)
    requires IsWork(p.details) && WellFormed(p, w.state.clients[client].v5)
    ensures var a := Step(Submit(client, p, calls)); Possible(w, a) && u == After(w, a)
    ensures HoldsOne(u.state, client, w.state.clients[client], p)
    ensures client in u.state.clients && u.state.clients[client].persistent
  {
    hide Key, Encode, WellFormed, IsWork, AfterSubmit, Urgent;
    var a := Submit(client, p, calls);
    assert Enabled(w.state, a);
    Submitted(w.state, a);
    u := After(w, Step(a));
  }

  lemma OneKeyListed(s: State, client: int, m: Client, p: Content)
    requires HoldsOne(s, client, m, p)
    ensures var keys := [Key(m.v5, m.commandSeqno + 1)];
            Listing(keys, s.clients[client]) && ListedNumbers(keys) == [m.commandSeqno + 1]
  {
    hide Key, SeqnoOf, IsWork;
    var n := m.commandSeqno + 1;
    var keys := [Key(m.v5, n)];
    SeqnoOfKey(m.v5, n);
    assert keys[1..] == [];
    assert ListedNumbers(keys) == [n] + ListedNumbers([]);
    assert forall key :: key in s.clients[client].store ==> key == keys[0];
  }

  lemma OneWork(s: State, client: int, m: Client, p: Content)
    requires HoldsOne(s, client, m, p)
    ensures WorkOf(s.queue, client) == s.queue && s.queue != []
  {
    hide Key, IsWork, WorkOf;
    AllWork(s.queue, client);
  }

  /** What comes back of it. */
  lemma OneRestored(s: State, client: int, m: Client, p: Content, id: nat)
    requires HoldsOne(s, client, m, p) && Mirrored(s.queue, s.clients[client], false)
    ensures var r := RestoredFrom([Key(m.v5, m.commandSeqno + 1)], s.clients[client].store, client, id);
            && |r| == 1 && r[0].client == client && Work(r[0])
            && AllWellTyped(p.properties) && r[0].content.details == Kept(p.details, m.v5)
  {
    hide Key, Decode, IsWork, Listing, RestoredFrom, Mirrored, ListedNumbers, Kept, CountedFrom;
    var keys := [Key(m.v5, m.commandSeqno + 1)];
    OneKeyListed(s, client, m, p);
    RestartRebuilds(s.queue, s.clients[client], client, keys, id);
    var r := RestoredFrom(keys, s.clients[client].store, client, id);
    assert |r| == |Seqnos(r)| == 1 && r[0].seqno == Seqnos(r)[0] == s.queue[0].seqno;
    RestoredAre(keys, s.queue, s.clients[client], client, id);
    assert FromStore(r[0], id + 0, client, s.clients[client], keys);
  }

  /** The command taken is the only one there is. */
  lemma TakesTheOnly(s: State, client: int)
    requires |s.queue| == 1 && s.queue[0].client == client && Work(s.queue[0]) && client in s.clients && s.hand.None?
    ensures var e := Take(map[client := OPEN]);
            Enabled(s, e) && Apply(s, e).hand == Some(s.queue[0])
  {
    assert EligibleIn(s.queue[0], map[client := OPEN], s.clients);
    assert Select(s, map[client := OPEN], 0, {}) == Some(0);
  }

  /** Whatever topics a persistent version 5 client subscribes to first, after a crash the sending thread takes from the
      queue a subscription without the qos list that sending it reads. */
  lemma UnsendableHappens(w: World, client: int, p: Content, calls: Callbacks)
    requires Beginning(w) && client in w.state.clients && w.state.clients[client].persistent
    requires w.state.clients[client].v5 && w.state.clients[client].commandSeqno + 1 < KeyLimit(true)
    requires p.details.Subscribe? && p.details.topics != [] && WellFormed(p, true)
    ensures var acts := Unsendable(client, p, calls, w.state.clients[client]);
            && Happens(w, acts)
            && var hand := History(w, acts).state.hand;
               && hand.Some? && hand.value.client == client && hand.value.content.details.Subscribe?
               && hand.value.content.details.topics == p.details.topics
               && !Dispatchable(hand.value.content.details)
  {
    hide Key, Encode, Decode, WellFormed, Seqnos, Listing, RestoredFrom, HoldsOne, Sound, S.Scheduled, WorkOf, Mirrored,
         Happens, History, Enabled, Apply, Inserted, TokensDiffer, Work, IsWork;
    var m := w.state.clients[client];
    var acts := Unsendable(client, p, calls, m);
    assert IsWork(p.details) by { SubscribeIsWork(p.details); }
    var u := OneSubmitted(w, client, p, calls);
    NoActs(u);
    HappensOnce(w, acts[0], []);
    EveryWorldIsSound(w, [acts[0]] + []);
    OneWork(u.state, client, m, p);
    OneKeyListed(u.state, client, m, p);
    StoreIsLeft(u.state, client, false);
    OneRestored(u.state, client, m, p, 0);
    var x := After(u, Crash);
    assert x.disk[client] == u.state.clients[client];
    var y := After(x, acts[2]);
    InsertedAlone(RestoredFrom(acts[2].keys, x.disk[client].store, client, 0));
    TakesTheOnly(y.state, client);
    var z := After(y, acts[3]);
    NoActs(z);
    HappensOnce(y, acts[3], []);
    HappensTwice(u, acts[1], acts[2], [acts[3]] + []);
    HappensOnce(w, acts[0], [acts[1], acts[2]] + ([acts[3]] + []));
    assert acts == [acts[0]] + ([acts[1], acts[2]] + ([acts[3]] + []));
  }

  lemma SubscribeIsWork(d: Details)
    requires d.Subscribe?
    ensures IsWork(d)
  {
  }

  lemma HappensOnce(w: World, a: Act, rest: seq<Act>)
    requires Possible(w, a) && Happens(After(w, a), rest)
    ensures Happens(w, [a] + rest) && History(w, [a] + rest) == History(After(w, a), rest)
  {
    hide Possible, After;
    assert ([a] + rest)[1..] == rest;
  }
}
