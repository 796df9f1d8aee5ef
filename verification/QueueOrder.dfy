/** Where a command is put, and that nothing of one client ever overtakes: the places of queued commands followed
    through any history. */
module QueueOrder {
  import opened Bytes
  import opened CommandCodec
  import opened CommandKeys
  import opened CommandQueue
  import opened CommandRestore
  import opened Histories
  import opened QueueConservation
  import opened QueueScheduling
  import opened Restart
  import opened Wrappers

  // ---------- Where a command is put ----------

  /** The head of the queue is a CONNECT, or a DISCONNECT, like `c` and of the same client. */
  predicate HeadIsLike(q: seq<Command>, c: Command) {
    && q != [] && q[0].client == c.client
    && match c.content.details
       case Connect => q[0].content.details.Connect?
       case Disconnect(_) => q[0].content.details.Disconnect?
       case _ => false
  }

  /** CONNECT and internal DISCONNECT go to the head, unless the head is one of them already; work and the application's
      own DISCONNECT go to the tail. */
  predicate Placed(q: seq<Command>, t: seq<Command>, c: Command) {
    match c.content.details
    case Connect => t == if HeadIsLike(q, c) then q else [c] + q
    case Disconnect(internal) => t == if !internal then q + [c] else if HeadIsLike(q, c) then q else [c] + q
    case _ => t == q + [c]
  }

  /** What a client that keeps its commands stores for one put at the tail. */
  predicate Stored(m: Client, t: Client, c: Command)
    requires Work(c) ==> WellFormed(c.content, m.v5)
  {
    && t.commandSeqno == m.commandSeqno + 1 && t.responses == m.responses && t.pendingWrite == m.pendingWrite
    && t.v5 == m.v5 && t.persistent == m.persistent
    && if Work(c) then t.store == m.store[Key(m.v5, m.commandSeqno + 1) := Encode(c.content, m.v5)]
       else t.store == m.store
  }

  /** A command with its number in the store is put at its place, and nothing else changes; only what goes to the tail
      of a client that keeps its commands takes a number, and only work is stored. */
  lemma AddsAt(s: State, c: Command)
    requires c.client in s.clients && (Work(c) ==> WellFormed(c.content, s.clients[c.client].v5))
    ensures var t, m, d := AfterAdd(s, c), s.clients[c.client], c.content.details;
            && Placed(s.queue, t.queue, if m.persistent && Work(c) then c.(seqno := m.commandSeqno + 1) else c)
            && t == s.(queue := t.queue, clients := t.clients)
            && t.clients.Keys == s.clients.Keys
            && (forall k :: k in s.clients && k != c.client ==> t.clients[k] == s.clients[k])
            && (if m.persistent && (Work(c) || d == Disconnect(false)) then Stored(m, t.clients[c.client], c)
                else t.clients[c.client] == m)
  {
    hide WellFormed, Encode;
  }

  /** A submission stands at the tail, with the next id, for the client and with the content and callbacks given. */
  lemma SubmitsAt(s: State, client: int, content: Content, calls: Callbacks)
    requires client in s.clients && WellFormed(content, s.clients[client].v5) && IsWork(content.details)
    ensures var t, m := AfterSubmit(s, client, content, calls), s.clients[client];
            && t.queue == s.queue + [Command(|s.owners|, client, content,
                                             if m.persistent then m.commandSeqno + 1 else 0, calls, false)]
            && t.owners == s.owners + [client]
            && t.hand == s.hand && t.finished == s.finished && t.calls == s.calls && t.dispatched == s.dispatched
            && (if m.persistent then Stored(m, t.clients[client], t.queue[|s.queue|].(seqno := 0))
                else t.clients[client] == m)
  {
    AddsAt(s, Command(|s.owners|, client, content, 0, calls, false));
    hide WellFormed, Encode;
  }

  // ---------- Places followed ----------

  /** Work that is not among the first `n` submissions. */
  predicate Later(c: Command, n: nat) {
    Work(c) ==> c.id >= n
  }

  /** `f` says where each command of `q` stands in `t`, if it still does: in the same order, and no command has gone
      before those of its client in front of it.  Of the first `n` submissions every one in `t` is so found. */
  predicate Follows(q: seq<Command>, t: seq<Command>, f: seq<Option<nat>>, n: nat) {
    && |f| == |q|
    && (forall i :: 0 <= i < |q| && f[i].Some? ==> f[i].value < |t| && t[f[i].value] == q[i])
    && (forall i, j :: 0 <= i < j < |q| && f[i].Some? && f[j].Some? ==> f[i].value < f[j].value)
    && (forall i, j :: 0 <= i < j < |q| && q[i].client == q[j].client && f[i].Some? ==> f[j].Some?)
    && forall k :: 0 <= k < |t| && !Later(t[k], n) ==> Some(k) in f
  }

  /** The places after others were put in before index `p`. */
  function Shifted(n: nat, p: nat, k: nat): seq<Option<nat>> {
    seq(n, i => Some(if i < p then i else i + k))
  }

  lemma Inserting(q: seq<Command>, p: nat, others: seq<Command>, n: nat)
    requires p <= |q| && forall i :: 0 <= i < |others| ==> Later(others[i], n)
    ensures Follows(q, q[..p] + others + q[p..], Shifted(|q|, p, |others|), n)
  {
    hide Later;
    var t, f := q[..p] + others + q[p..], Shifted(|q|, p, |others|);
    forall k | 0 <= k < |t| && !Later(t[k], n)
      ensures Some(k) in f
    {
      assert k < p || k >= p + |others|;
      assert f[if k < p then k else k - |others|] == Some(k);
    }
  }

  /** The places after the command at `x` has gone. */
  function Closed(n: nat, x: nat): seq<Option<nat>> {
    seq(n, i => if i == x then None else Some(if i < x then i else i - 1))
  }

  lemma Detaching(q: seq<Command>, x: nat, n: nat)
    requires x < |q| && FirstOfClient(q, x)
    ensures Follows(q, Without(q, x), Closed(|q|, x), n)
  {
    hide Later;
    var t, f := Without(q, x), Closed(|q|, x);
    forall k | 0 <= k < |t|
      ensures Some(k) in f
    {
      assert f[if k < x then k else k + 1] == Some(k);
    }
  }

  /** The places after all commands of a client have gone. */
  function Left(q: seq<Command>, client: int): (f: seq<Option<nat>>)
    ensures |f| == |q|
    decreases |q|
  {
    if q == [] then []
    else
      var rest, c := q[..|q| - 1], q[|q| - 1];
      Left(rest, client) + [if c.client == client then None else Some(|NotOf(rest, client)|)]
  }

  /** Exactly the commands of the others stay. */
  predicate OthersStay(q: seq<Command>, t: seq<Command>, f: seq<Option<nat>>, client: int) {
    && |f| == |q| && (forall i :: 0 <= i < |q| ==> (f[i].Some? <==> q[i].client != client))
    && forall k :: 0 <= k < |t| ==> Some(k) in f
  }

  lemma OneMoreStays(q: seq<Command>, c: Command, t: seq<Command>, f: seq<Option<nat>>, client: int, n: nat)
    requires c.client != client && OthersStay(q, t, f, client) && Follows(q, t, f, n)
    ensures OthersStay(q + [c], t + [c], f + [Some(|t|)], client) && Follows(q + [c], t + [c], f + [Some(|t|)], n)
  {
    hide Later;
  }

  lemma OneMoreGoes(q: seq<Command>, c: Command, t: seq<Command>, f: seq<Option<nat>>, client: int, n: nat)
    requires c.client == client && OthersStay(q, t, f, client) && Follows(q, t, f, n)
    ensures OthersStay(q + [c], t, f + [None], client) && Follows(q + [c], t, f + [None], n)
  {
    hide Later;
  }

  lemma {:induction false} Filtering(q: seq<Command>, client: int, n: nat)
    ensures Follows(q, NotOf(q, client), Left(q, client), n)
    ensures OthersStay(q, NotOf(q, client), Left(q, client), client)
    decreases |q|
  {
    if q != [] {
      hide Follows, OthersStay, NotOf;
      var rest, c := q[..|q| - 1], q[|q| - 1];
      assert q == rest + [c];
      Filtering(rest, client, n);
      SplitOneMore(rest, c, client);
      assert NotOf(rest, client) + [] == NotOf(rest, client);
      if c.client == client {
        OneMoreGoes(rest, c, NotOf(rest, client), Left(rest, client), client, n);
      } else {
        OneMoreStays(rest, c, NotOf(rest, client), Left(rest, client), client, n);
      }
    }
  }

  lemma Composed(q: seq<Command>, t: seq<Command>, u: seq<Command>, f: seq<Option<nat>>, g: seq<Option<nat>>, n: nat)
      returns (h: seq<Option<nat>>)
    requires Follows(q, t, f, n) && Follows(t, u, g, n)
    ensures Follows(q, u, h, n)
  {
    hide Later;
    h := seq(|q|, i requires 0 <= i < |q| => if f[i].None? then None else g[f[i].value]);
    forall i, j | 0 <= i < j < |q| && q[i].client == q[j].client && h[i].Some?
      ensures h[j].Some?
    {
      assert t[f[i].value] == q[i] && t[f[j].value] == q[j];
    }
    forall k | 0 <= k < |u| && !Later(u[k], n)
      ensures Some(k) in h
    {
      var j :| 0 <= j < |g| && g[j] == Some(k);
      var i :| 0 <= i < |f| && f[i] == Some(j);
      assert h[i] == Some(k);
    }
  }

  // ---------- Every act ----------

  lemma Same(q: seq<Command>, n: nat)
    ensures Follows(q, q, Shifted(|q|, 0, 0), n)
  {
    Inserting(q, 0, [], n);
    assert q[..0] + [] + q[0..] == q;
  }

  lemma Adding(s: State, c: Command, n: nat) returns (f: seq<Option<nat>>)
    requires c.client in s.clients && (Work(c) ==> WellFormed(c.content, s.clients[c.client].v5)) && Later(c, n)
    ensures Follows(s.queue, AfterAdd(s, c).queue, f, n)
  {
    AddsAt(s, c);
    hide Follows, WellFormed, Encode, AfterAdd, HeadIsLike, Stored;
    var m := s.clients[c.client];
    var put := if m.persistent && Work(c) then c.(seqno := m.commandSeqno + 1) else c;
    f := Putting(s.queue, AfterAdd(s, c).queue, put, n);
  }

  lemma Putting(q: seq<Command>, t: seq<Command>, c: Command, n: nat) returns (f: seq<Option<nat>>)
    requires Placed(q, t, c) && Later(c, n)
    ensures Follows(q, t, f, n)
  {
    hide Follows, HeadIsLike, Later;
    Same(q, n);
    Inserting(q, 0, [c], n);
    Inserting(q, |q|, [c], n);
    assert q[..0] + [c] + q[0..] == [c] + q && q[..|q|] + [c] + q[|q|..] == q + [c];
    f := Shifted(|q|, if t == q + [c] then |q| else 0, if t == q then 0 else 1);
  }

  lemma Settling(s: State, r: Result, follow: Option<Command>, n: nat) returns (f: seq<Option<nat>>)
    requires Enabled(s, Settle(r, follow))
    ensures Follows(s.queue, AfterSettle(s, r, follow).queue, f, n)
  {
    hide Follows, AfterAdd;
    var m, t := Marked(s.(hand := None), s.hand.value, r), AfterSettle(s, r, follow);
    Same(s.queue, n);
    f := Shifted(|s.queue|, 0, 0);
    if follow.Some? && t.queue != s.queue {
      if Work(s.hand.value) {
        f := Adding(m, follow.value, n);
      } else {
        f := Adding(s.(hand := None), follow.value, n);
      }
    }
  }

  lemma StepFollows(s: State, e: Event, n: nat) returns (f: seq<Option<nat>>)
    requires Enabled(s, e) && n <= |s.owners|
    ensures Follows(s.queue, Apply(s, e).queue, f, n) && |s.owners| <= |Apply(s, e).owners|
  {
    hide Follows, AfterAdd, Select, AfterRemove, CallFor, WellFormed, NotOf, FirstOfClient, AfterSettle, OnSuccess,
         OnFailure;
    Same(s.queue, n);
    f := Shifted(|s.queue|, 0, 0);
    match e
    case Submit(client, content, calls) =>
      SubmitsAt(s, client, content, calls);
      f := Adding(s, Command(|s.owners|, client, content, 0, calls, false), n);
    case Control(c) =>
      AddsAt(s, c);
      f := Adding(s, c, n);
    case Take(net) =>
      var i := Select(s, net, 0, {});
      if i.Some? {
        SelectIsFirstReady(s, net);
        Detaching(s.queue, i.value, n);
        f := Closed(|s.queue|, i.value);
      }
    case Settle(r, follow) =>
      SettlingSubmitsNothing(s, r, follow);
      f := Settling(s, r, follow, n);
    case CleanSession(k) =>
      RemovedShape(s.(clients := s.clients[k := s.clients[k].(store := map[])]), k);
      Filtering(s.queue, k, n);
      f := Left(s.queue, k);
    case Destroy(k) =>
      RemovedShape(s, k);
      Filtering(s.queue, k, n);
      f := Left(s.queue, k);
    case _ =>
  }

  lemma SettlingSubmitsNothing(s: State, r: Result, follow: Option<Command>)
    requires Enabled(s, Settle(r, follow))
    ensures AfterSettle(s, r, follow).owners == s.owners
  {
  }

  predicate CountFrom(r: seq<Command>, id: nat) {
    forall i :: 0 <= i < |r| ==> r[i].id >= id
  }

  lemma {:induction false} RestoredAreLater(keys: seq<string>, store: map<string, seq<Byte>>, client: int, id: nat)
    ensures CountFrom(RestoredFrom(keys, store, client, id), id)
    decreases |keys|
  {
    hide Decode;
    if keys != [] {
      RestoredAreLater(keys[1..], store, client, id);
      RestoredAreLater(keys[1..], store, client, id + 1);
    }
  }

  lemma ActFollows(w: World, act: Act, n: nat) returns (f: seq<Option<nat>>)
    requires Possible(w, act) && act != Crash && n <= |w.state.owners|
    ensures Follows(w.state.queue, After(w, act).state.queue, f, n)
    ensures |w.state.owners| <= |After(w, act).state.owners|
  {
    hide Follows, Apply, Enabled, RestoredFrom, CanCreate, Place;
    var q := w.state.queue;
    match act
    case Step(e) => f := StepFollows(w.state, e, n);
    case Create(client, keys) =>
      var r := Restored(w.disk[client], keys, client, |w.state.owners|);
      RestoredAreLater(keys, w.disk[client].store, client, |w.state.owners|);
      Inserting(q, Place(q, 0), r, n);
      f := Shifted(|q|, Place(q, 0), |r|);
  }

  lemma {:induction false} HistoryFollows(w: World, acts: seq<Act>, n: nat) returns (f: seq<Option<nat>>)
    requires Happens(w, acts) && Crash !in acts && n <= |w.state.owners|
    ensures Follows(w.state.queue, History(w, acts).state.queue, f, n)
    decreases |acts|
  {
    hide Follows, After, Possible;
    if acts == [] {
      Same(w.state.queue, n);
      f := Shifted(|w.state.queue|, 0, 0);
    } else {
      var first := ActFollows(w, acts[0], n);
      var rest := HistoryFollows(After(w, acts[0]), acts[1..], n);
      f := Composed(w.state.queue, After(w, acts[0]).state.queue, History(w, acts).state.queue, first, rest, n);
    }
  }

  /** In every history of a process, whatever its steps and whichever clients are made anew, nothing queued overtakes
      anything queued, and nothing leaves the queue before what stands in front of it of its own client. */
  lemma NothingOvertakes(w: World, acts: seq<Act>) returns (f: seq<Option<nat>>)
    requires Happens(w, acts) && Crash !in acts
    ensures Follows(w.state.queue, History(w, acts).state.queue, f, |w.state.owners|)
  {
    f := HistoryFollows(w, acts, |w.state.owners|);
  }

  /** A DISCONNECT of the application is never taken while work of its client that was queued before it is still there:
      from where it is added on, in every history, it stands behind all of that work that is. */
  lemma DisconnectComesLast(w: World, d: Command, acts: seq<Act>, k: nat) returns (p: nat)
    requires d.content.details == Disconnect(false) && Possible(w, Step(Control(d)))
    requires Happens(After(w, Step(Control(d))), acts) && Crash !in acts
    requires var t := History(After(w, Step(Control(d))), acts).state.queue;
             k < |t| && Work(t[k]) && t[k].client == d.client && t[k].id < |w.state.owners|
    ensures var t := History(After(w, Step(Control(d))), acts).state.queue; k < p < |t| && t[p] == d
  {
    AddsAt(w.state, d);
    hide Happens, History, Enabled, AfterAdd;
    var q, x := w.state.queue, After(w, Step(Control(d)));
    var t := History(x, acts).state.queue;
    var f := HistoryFollows(x, acts, |w.state.owners|);
    var i :| 0 <= i < |f| && f[i] == Some(k);
    assert x.state.queue == q + [d] && (q + [d])[|q|] == d;
    p := f[|q|].value;
  }
}
