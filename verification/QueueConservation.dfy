/** Conservation: every step keeps each submitted command in exactly one place, and no two live commands of a client
    share a message id.  `Histories` has the results over runs. */
module QueueConservation {
  import opened CommandCodec
  import opened CommandQueue
  import opened Wrappers

  // ---------- Counting ----------

  /** Work with a given id, or commands of a client with a given message id. */
  datatype Matcher = ById(id: nat) | ByToken(client: int, token: int)

  predicate Matches(c: Command, m: Matcher) {
    match m
    case ById(id) => Work(c) && c.id == id
    case ByToken(client, token) => c.client == client && c.content.token == token
  }

  function One(b: bool): nat {
    if b then 1 else 0
  }

  function Count(q: seq<Command>, m: Matcher): nat {
    if q == [] then 0 else One(Matches(q[0], m)) + Count(q[1..], m)
  }

  lemma {:induction false} CountConcat(a: seq<Command>, b: seq<Command>, m: Matcher)
    ensures Count(a + b, m) == Count(a, m) + Count(b, m)
    decreases |a|
  {
    hide Matches;
    if a == [] {
      assert a + b == b;
    } else {
      assert (a + b)[1..] == a[1..] + b;
      CountConcat(a[1..], b, m);
    }
  }

  lemma CountOne(c: Command, m: Matcher)
    ensures Count([c], m) == One(Matches(c, m))
  {
  }

  lemma CountWithout(q: seq<Command>, i: nat, m: Matcher)
    requires i < |q|
    ensures Count(q, m) == Count(Without(q, i), m) + One(Matches(q[i], m))
  {
    hide Matches, Count;
    assert q == q[..i] + ([q[i]] + q[i + 1..]);
    CountConcat(q[..i], [q[i]] + q[i + 1..], m);
    CountConcat([q[i]], q[i + 1..], m);
    CountConcat(q[..i], q[i + 1..], m);
    CountOne(q[i], m);
  }

  lemma {:induction false} CountSplit(q: seq<Command>, client: int, m: Matcher)
    ensures Count(q, m) == Count(Of(q, client), m) + Count(NotOf(q, client), m)
    decreases |q|
  {
    hide Matches;
    if q != [] {
      CountSplit(q[1..], client, m);
      var head := if q[0].client == client then [q[0]] else [];
      var other := if q[0].client != client then [q[0]] else [];
      CountConcat(head, Of(q[1..], client), m);
      CountConcat(other, NotOf(q[1..], client), m);
      CountOne(q[0], m);
    }
  }

  lemma {:induction false} CountPositive(q: seq<Command>, m: Matcher) returns (i: nat)
    requires Count(q, m) > 0
    ensures i < |q| && Matches(q[i], m)
    decreases |q|
  {
    hide Matches;
    if Matches(q[0], m) {
      i := 0;
    } else {
      i := CountPositive(q[1..], m);
      i := i + 1;
    }
  }

  lemma {:induction false} CountAtLeast(q: seq<Command>, m: Matcher, i: nat)
    requires i < |q| && Matches(q[i], m)
    ensures Count(q, m) >= 1
    decreases i
  {
    hide Matches;
    if i > 0 {
      CountAtLeast(q[1..], m, i - 1);
    }
  }

  /** Two places count twice. */
  lemma CountTwo(q: seq<Command>, m: Matcher, i: nat, j: nat)
    requires i < j < |q| && Matches(q[i], m) && Matches(q[j], m)
    ensures Count(q, m) >= 2
  {
    hide Matches, Count;
    assert q == q[..j] + q[j..];
    CountConcat(q[..j], q[j..], m);
    CountAtLeast(q[..j], m, i);
    CountAtLeast(q[j..], m, 0);
  }

  // ---------- Places ----------

  function InHand(s: State, m: Matcher): nat {
    One(s.hand.Some? && Matches(s.hand.value, m))
  }

  function InResponses(s: State, client: int, m: Matcher): nat {
    if client in s.clients then Count(s.clients[client].responses, m) else 0
  }

  /** The live commands of a client that match. */
  function Live(s: State, client: int, m: Matcher): nat {
    Count(s.queue, m) + InHand(s, m) + InResponses(s, client, m)
  }

  /** The client a matcher is about. */
  predicate About(s: State, m: Matcher, client: int) {
    match m
    case ById(id) => id < |s.owners| && s.owners[id] == client
    case ByToken(c, token) => c == client && token != 0
  }

  // ---------- The invariant ----------

  predicate OwnedList(q: seq<Command>, owners: seq<int>) {
    forall i :: 0 <= i < |q| && Work(q[i]) ==> q[i].id < |owners| && owners[q[i].id] == q[i].client
  }

  /** Commands belong to the client that submitted them, and only work awaits a response. */
  predicate Owned(s: State) {
    && OwnedList(s.queue, s.owners) && OwnedList(s.finished, s.owners) && OwnedList(s.dispatched, s.owners)
    && (s.hand.Some? ==> OwnedList([s.hand.value], s.owners) && s.hand.value.client in s.clients
                         && (!Work(s.hand.value) ==> s.hand.value.content.token == 0))
    && (forall i :: 0 <= i < |s.queue| ==> s.queue[i].client in s.clients
                                           && (!Work(s.queue[i]) ==> s.queue[i].content.token == 0))
    && (forall c :: c in s.clients ==> ResponsesOwned(s.clients[c].responses, c, s.owners))
    && |s.finished| == |s.calls| && forall i :: 0 <= i < |s.finished| ==> Work(s.finished[i])
  }

  predicate ResponsesOwned(q: seq<Command>, client: int, owners: seq<int>) {
    OwnedList(q, owners) && forall i :: 0 <= i < |q| ==> Work(q[i]) && q[i].client == client
  }

  /** Every submitted command is in exactly one place. */
  predicate Conserved(s: State) {
    forall id :: 0 <= id < |s.owners| ==> Live(s, s.owners[id], ById(id)) + Count(s.finished, ById(id)) == 1
  }

  /** Live commands of a client have different message ids, zero apart. */
  ghost predicate TokensUnique(s: State) {
    forall c, t :: c in s.clients && t != 0 ==> Live(s, c, ByToken(c, t)) <= 1
  }

  // ---------- The pieces of a step ----------

  lemma Finishing(s: State, c: Command, call: Call, m: Matcher, client: int)
    requires Owned(s) && OwnedList([c], s.owners) && About(s, m, client) && (!Work(c) ==> c.content.token == 0)
    ensures Owned(Finish(s, c, call)) && About(Finish(s, c, call), m, client)
    ensures Live(Finish(s, c, call), client, m) == Live(s, client, m)
    ensures Count(Finish(s, c, call).finished, m) == Count(s.finished, m) + One(Matches(c, m))
  {
    hide Count;
    CountConcat(s.finished, [c], m);
    CountOne(c, m);
    assert OwnedList([c], s.owners) && Work(c) ==> [c][0].id < |s.owners|;
  }

  lemma {:induction false} FinishingAll(s: State, cs: seq<Command>, m: Matcher, client: int)
    requires Owned(s) && OwnedList(cs, s.owners) && About(s, m, client)
    requires forall i :: 0 <= i < |cs| && !Work(cs[i]) ==> cs[i].content.token == 0
    ensures var t := FinishAll(s, cs);
            && Owned(t) && About(t, m, client) && Live(t, client, m) == Live(s, client, m)
            && Count(t.finished, m) == Count(s.finished, m) + Count(cs, m)
            && t == s.(finished := t.finished, calls := t.calls)
    decreases |cs|
  {
    hide Matches, Live, Owned, About;
    if cs != [] {
      OwnedHead(cs, s.owners);
      Finishing(s, cs[0], OnFailure(cs[0].calls), m, client);
      FinishingAll(Finish(s, cs[0], OnFailure(cs[0].calls)), cs[1..], m, client);
    }
  }

  lemma OwnedHead(cs: seq<Command>, owners: seq<int>)
    requires cs != [] && OwnedList(cs, owners)
    ensures OwnedList([cs[0]], owners) && OwnedList(cs[1..], owners)
  {
  }

  lemma Adding(s: State, c: Command, m: Matcher, client: int)
    requires Owned(s) && About(s, m, client) && c.client in s.clients && IsControl(c)
    ensures var t := AfterAdd(s, c);
            && Owned(t) && About(t, m, client) && Live(t, client, m) == Live(s, client, m)
            && t.finished == s.finished && t.calls == s.calls && t.hand == s.hand && t.owners == s.owners
            && t.dispatched == s.dispatched && t.clients.Keys == s.clients.Keys
  {
    hide Count;
    CountConcat([c], s.queue, m);
    CountConcat(s.queue, [Numbered(s.clients[c.client], c)], m);
    CountOne(c, m);
    CountOne(Numbered(s.clients[c.client], c), m);
  }

  lemma Awaiting(s: State, c: Command, m: Matcher, client: int)
    requires Owned(s) && About(s, m, client) && c.client in s.clients && Work(c) && OwnedList([c], s.owners)
    ensures var t := Await(s, c);
            && Owned(t) && About(t, m, client) && Live(t, client, m) == Live(s, client, m) + One(Matches(c, m))
            && t.finished == s.finished
  {
    hide Count;
    assert [c][0] == c;
    CountConcat(s.clients[c.client].responses, [c], m);
    CountOne(c, m);
  }

  lemma RemovingResponse(s: State, k: int, i: nat, m: Matcher, client: int)
    requires Owned(s) && About(s, m, client) && k in s.clients && i < |s.clients[k].responses|
    ensures var t := RemoveResponse(s, k, i); var c := s.clients[k].responses[i];
            && Owned(t) && About(t, m, client) && Live(s, client, m) == Live(t, client, m) + One(Matches(c, m))
            && t.finished == s.finished && OwnedList([c], t.owners) && Work(c)
  {
    hide Count;
    CountWithout(s.clients[k].responses, i, m);
  }

  lemma PendingWriteIsIrrelevant(s: State, k: int, p: Option<nat>, m: Matcher, client: int)
    requires Owned(s) && About(s, m, client) && k in s.clients
    ensures var t := s.(clients := s.clients[k := s.clients[k].(pendingWrite := p)]);
            Owned(t) && About(t, m, client) && Live(t, client, m) == Live(s, client, m)
  {
  }

  lemma StoreIsIrrelevant(s: State, k: int, client': Client, m: Matcher, client: int)
    requires Owned(s) && About(s, m, client) && k in s.clients && client'.responses == s.clients[k].responses
    ensures var t := s.(clients := s.clients[k := client']);
            Owned(t) && About(t, m, client) && Live(t, client, m) == Live(s, client, m)
  {
  }

  // ---------- The steps ----------

  /** A step other than a submission keeps the number of places a command is in, and the finished only grow. */
  predicate Balanced(s: State, t: State, m: Matcher, client: int) {
    && Owned(t) && About(t, m, client) && t.owners == s.owners
    && Live(t, client, m) + Count(t.finished, m) == Live(s, client, m) + Count(s.finished, m)
    && Count(s.finished, m) <= Count(t.finished, m)
  }

  lemma TakingBalances(s: State, i: nat, m: Matcher, client: int)
    requires Owned(s) && About(s, m, client) && s.hand.None? && i < |s.queue|
    ensures Balanced(s, AfterTakeAt(s, i), m, client)
  {
    hide Count;
    var c := s.queue[i];
    CountWithout(s.queue, i, m);
    assert OwnedList([c], s.owners);
    assert forall k :: 0 <= k < |Without(s.queue, i)| ==> Without(s.queue, i)[k] in s.queue;
  }

  lemma SettlingBalances(s: State, r: Result, follow: Option<Command>, m: Matcher, client: int)
    requires Owned(s) && About(s, m, client) && Enabled(s, Settle(r, follow))
    ensures Balanced(s, AfterSettle(s, r, follow), m, client)
  {
    hide Owned, Live, Matches, Count, AfterSettle, AfterAdd;
    var c, t := s.hand.value, s.(hand := None);
    OutOfHand(s, m, client);
    if !Work(c) {
      ControlSettled(t, c, r, follow, m, client);
    } else {
      WorkSettlingBalances(t, c, r, follow, m, client);
    }
    assert t.(hand := Some(c)) == s;
  }

  lemma OutOfHand(s: State, m: Matcher, client: int)
    requires Owned(s) && About(s, m, client) && s.hand.Some?
    ensures var t := s.(hand := None);
            && Owned(t) && About(t, m, client)
            && Live(s, client, m) == Live(t, client, m) + One(Matches(s.hand.value, m))
            && OwnedList([s.hand.value], t.owners) && s.hand.value.client in t.clients
            && (!Work(s.hand.value) ==> !Matches(s.hand.value, m))
  {
    hide Count;
  }

  lemma ControlSettled(t: State, c: Command, r: Result, follow: Option<Command>, m: Matcher, client: int)
    requires Owned(t) && About(t, m, client) && t.hand.None? && !Work(c) && c.client in t.clients
    requires follow.Some? ==> follow.value.client in t.clients && IsControl(follow.value)
    ensures Balanced(t, AfterSettle(t.(hand := Some(c)), r, follow), m, client)
  {
    hide Count, Live, Owned, Matches, AfterAdd;
    assert t.(hand := Some(c)).(hand := None) == t;
    if follow.Some? {
      Adding(t, follow.value, m, client);
    }
  }

  lemma WorkSettlingBalances(t: State, c: Command, r: Result, follow: Option<Command>, m: Matcher, client: int)
    requires Owned(t) && About(t, m, client) && t.hand.None? && Work(c) && OwnedList([c], t.owners)
    requires c.client in t.clients
    requires follow.Some? ==> follow.value.client in t.clients && IsControl(follow.value)
    ensures var u := AfterSettle(t.(hand := Some(c)), r, follow);
            && Owned(u) && About(u, m, client) && u.owners == t.owners
            && Live(u, client, m) + Count(u.finished, m)
               == Live(t, client, m) + Count(t.finished, m) + One(Matches(c, m))
            && Count(t.finished, m) <= Count(u.finished, m)
  {
    hide Count, Live, Owned, Matches;
    var d := c.content.details;
    PendingWriteIsIrrelevant(t, c.client, Some(c.id), m, client);
    var w := Marked(t, c, r);
    assert t.(hand := Some(c)).(hand := None) == t;
    if Error(r) {
      if follow.Some? {
        Adding(w, follow.value, m, client);
      }
      Finishing(AddFollow(w, follow), c, OnFailure(c.calls), m, client);
    } else if d.Publish? && d.qos == 0 && r.Complete? {
      Finishing(w, c, OnSuccess(c.calls), m, client);
    } else {
      Awaiting(w, c, m, client);
    }
  }

  lemma AcknowledgingBalances(s: State, k: int, p: Packet, m: Matcher, client: int)
    requires Owned(s) && About(s, m, client) && k in s.clients
    ensures Balanced(s, AfterAcknowledge(s, k, p), m, client)
  {
    hide Count, Live, Owned, Matches, CallFor;
    var i := Response(s.clients[k].responses, p.msgId);
    if i.Some? {
      RemovingResponse(s, k, i.value, m, client);
      var c := s.clients[k].responses[i.value];
      Finishing(RemoveResponse(s, k, i.value), c, CallFor(c.calls, p, s.clients[k].v5), m, client);
    }
  }

  lemma WritingBalances(s: State, k: int, code: int, m: Matcher, client: int)
    requires Owned(s) && About(s, m, client) && k in s.clients
    ensures Balanced(s, AfterWriteDone(s, k, code), m, client)
  {
    hide Count, Live, Owned, Matches;
    var w := s.clients[k];
    PendingWriteIsIrrelevant(s, k, None, m, client);
    if w.pendingWrite.Some? && Written(w.responses, w.pendingWrite.value).Some? {
      var t := s.(clients := s.clients[k := w.(pendingWrite := None)]);
      var i := Written(w.responses, w.pendingWrite.value).value;
      var c := w.responses[i];
      RemovingResponse(t, k, i, m, client);
      Finishing(RemoveResponse(t, k, i), c, NoCall, m, client);
      Finishing(RemoveResponse(t, k, i), c, OnSuccess(c.calls), m, client);
      Finishing(RemoveResponse(t, k, i), c, OnFailure(c.calls), m, client);
    }
  }

  lemma {:induction false} OfIsOwned(q: seq<Command>, client: int, owners: seq<int>)
    requires OwnedList(q, owners)
    ensures OwnedList(Of(q, client), owners) && OwnedList(NotOf(q, client), owners)
    ensures forall i :: 0 <= i < |Of(q, client)| ==> Of(q, client)[i] in q && Of(q, client)[i].client == client
    ensures forall i :: 0 <= i < |NotOf(q, client)| ==> NotOf(q, client)[i] in q && NotOf(q, client)[i].client != client
    decreases |q|
  {
    hide IsWork;
    if q != [] {
      OwnedHead(q, owners);
      OfIsOwned(q[1..], client, owners);
      var head := if q[0].client == client then [q[0]] else [];
      assert Of(q, client) == head + Of(q[1..], client);
      assert forall x :: x in q[1..] ==> x in q;
    }
  }

  lemma {:induction false} SplitOneMore(q: seq<Command>, c: Command, client: int)
    ensures NotOf(q + [c], client) == NotOf(q, client) + (if c.client != client then [c] else [])
    ensures Of(q + [c], client) == Of(q, client) + (if c.client == client then [c] else [])
    decreases |q|
  {
    if q == [] {
      assert q + [c] == [c];
    } else {
      assert (q + [c])[1..] == q[1..] + [c];
      SplitOneMore(q[1..], c, client);
    }
  }

  lemma {:induction false} FinishAllShape(s: State, cs: seq<Command>)
    ensures FinishAll(s, cs) == s.(finished := FinishAll(s, cs).finished, calls := FinishAll(s, cs).calls)
    decreases |cs|
  {
    hide OnFailure, IsWork;
    if cs != [] {
      FinishAllShape(Finish(s, cs[0], OnFailure(cs[0].calls)), cs[1..]);
    }
  }

  /** Removing what a client has: its responses and its queued commands go. */
  lemma RemovedShape(s: State, k: int)
    requires k in s.clients
    ensures var t := AfterRemove(s, k);
            t == s.(queue := NotOf(s.queue, k), clients := s.clients[k := s.clients[k].(responses := [])],
                    finished := t.finished, calls := t.calls)
  {
    hide FinishAll;
    var w := s.clients[k];
    var s1 := s.(clients := s.clients[k := w.(responses := [])]);
    FinishAllShape(s1, w.responses);
    FinishAllShape(FinishAll(s1, w.responses).(queue := NotOf(s.queue, k)), Of(s.queue, k));
  }

  lemma RemovingBalances(s: State, k: int, m: Matcher, client: int)
    requires Owned(s) && About(s, m, client) && k in s.clients
    ensures Balanced(s, AfterRemove(s, k), m, client)
  {
    hide Count, Matches, FinishAll, About;
    var w := s.clients[k];
    var s1 := s.(clients := s.clients[k := w.(responses := [])]);
    WithoutResponses(s, k, m, client);
    OfIsOwned(s.queue, k, s.owners);
    FinishingAll(s1, w.responses, m, client);
    var t := FinishAll(s1, w.responses);
    WithoutCommands(t, k, m, client);
    FinishingAll(t.(queue := NotOf(t.queue, k)), Of(t.queue, k), m, client);
  }

  lemma WithoutResponses(s: State, k: int, m: Matcher, client: int)
    requires Owned(s) && About(s, m, client) && k in s.clients
    ensures var t := s.(clients := s.clients[k := s.clients[k].(responses := [])]);
            && Owned(t) && About(t, m, client)
            && Live(s, client, m) == Live(t, client, m) + Count(s.clients[k].responses, m)
  {
    hide Count;
    NothingCounted(m);
    if client != k {
      ResponsesDoNotMatch(s.clients[k].responses, k, s.owners, m, client);
    }
  }

  lemma WithoutCommands(s: State, k: int, m: Matcher, client: int)
    requires Owned(s) && About(s, m, client)
    ensures var t := s.(queue := NotOf(s.queue, k));
            && Owned(t) && About(t, m, client)
            && Live(s, client, m) == Live(t, client, m) + Count(Of(s.queue, k), m)
  {
    hide Count;
    CountSplit(s.queue, k, m);
    OfIsOwned(s.queue, k, s.owners);
  }

  lemma NothingCounted(m: Matcher)
    ensures Count([], m) == 0
  {
  }

  /** Responses of another client do not match. */
  lemma ResponsesDoNotMatch(q: seq<Command>, k: int, owners: seq<int>, m: Matcher, client: int)
    requires ResponsesOwned(q, k, owners) && client != k
    requires match m case ById(id) => id < |owners| && owners[id] == client case ByToken(c, _) => c == client
    ensures Count(q, m) == 0
  {
    if Count(q, m) > 0 {
      var i := CountPositive(q, m);
    }
  }

  lemma DestroyingBalances(s: State, k: int, m: Matcher, client: int)
    requires Owned(s) && About(s, m, client) && Enabled(s, Destroy(k))
    ensures Balanced(s, AfterDestroy(s, k), m, client)
  {
    hide Count, Matches, AfterRemove;
    RemovingBalances(s, k, m, client);
    RemovedShape(s, k);
    OfIsOwned(s.queue, k, s.owners);
    NothingCounted(m);
  }

  lemma StepBalances(s: State, e: Event, m: Matcher, client: int)
    requires Owned(s) && About(s, m, client) && Enabled(s, e) && !e.Submit?
    ensures Balanced(s, Apply(s, e), m, client)
  {
    hide Count, Matches, Live, Owned, AfterSettle, AfterAcknowledge, AfterWriteDone, AfterRemove, AfterDestroy, AfterAdd,
         AfterTakeAt, Select;
    match e
    case Control(c) => Adding(s, c, m, client);
    case Take(net) =>
      if Select(s, net, 0, {}).Some? {
        TakingBalances(s, Select(s, net, 0, {}).value, m, client);
      }
    case Settle(r, follow) => SettlingBalances(s, r, follow, m, client);
    case Acknowledge(k, p) => AcknowledgingBalances(s, k, p, m, client);
    case WriteDone(k, code) => WritingBalances(s, k, code, m, client);
    case CleanSession(k) =>
      StoreIsIrrelevant(s, k, s.clients[k].(store := map[]), m, client);
      RemovingBalances(s.(clients := s.clients[k := s.clients[k].(store := map[])]), k, m, client);
    case Destroy(k) => DestroyingBalances(s, k, m, client);
  }

  /** A submission adds one place to the new command, and to no other. */
  lemma Submitting(s: State, k: int, content: Content, calls: Callbacks, m: Matcher, client: int)
    requires Owned(s) && Enabled(s, Submit(k, content, calls))
    requires About(AfterSubmit(s, k, content, calls), m, client)
    ensures var t := AfterSubmit(s, k, content, calls);
            && Owned(t) && t.finished == s.finished
            && Live(t, client, m) == Live(s, client, m) + One(Matches(t.queue[|s.queue|], m))
            && |t.queue| == |s.queue| + 1 && t.queue[|s.queue|].id == |s.owners| && t.queue[|s.queue|].client == k
            && t.queue[|s.queue|].content.token == content.token && Work(t.queue[|s.queue|])
            && t.clients.Keys == s.clients.Keys && t.hand == s.hand && t.owners == s.owners + [k]
  {
    hide Count;
    var c := Numbered(s.clients[k], Command(|s.owners|, k, content, 0, calls, false));
    CountConcat(s.queue, [c], m);
    CountOne(c, m);
  }

  // ---------- The invariant under every step ----------

  ghost predicate Sound(s: State) {
    Owned(s) && Conserved(s) && TokensUnique(s)
  }

  lemma FreshIsSound(s: State)
    requires Fresh(s)
    ensures Sound(s)
  {
  }

  lemma StepOwned(s: State, e: Event)
    requires Owned(s) && Enabled(s, e)
    ensures Owned(Apply(s, e))
  {
    hide Owned, Enabled, Apply, AfterSubmit;
    if e.Submit? {
      Submitting(s, e.client, e.content, e.calls, ByToken(0, 1), 0) by { ApplySubmit(s, e); }
      ApplySubmit(s, e);
    } else {
      StepBalances(s, e, ByToken(0, 1), 0);
    }
  }

  lemma ApplySubmit(s: State, e: Event)
    requires Enabled(s, e) && e.Submit?
    ensures e.client in s.clients && IsWork(e.content.details) && WellFormed(e.content, s.clients[e.client].v5)
    ensures Apply(s, e) == AfterSubmit(s, e.client, e.content, e.calls)
    ensures e.content.token == 0 || TokenFree(s, e.client, e.content.token)
  {
  }

  lemma NothingFree(s: State, client: int, token: int)
    requires client in s.clients && TokenFree(s, client, token)
    ensures Live(s, client, ByToken(client, token)) == 0
  {
    hide Count;
    var m := ByToken(client, token);
    if Count(s.queue, m) > 0 {
      var i := CountPositive(s.queue, m);
    }
    if Count(s.clients[client].responses, m) > 0 {
      var i := CountPositive(s.clients[client].responses, m);
    }
  }

  lemma StepTokens(s: State, e: Event, c: int, t: int)
    requires Sound(s) && Enabled(s, e) && c in Apply(s, e).clients && t != 0
    ensures Live(Apply(s, e), c, ByToken(c, t)) <= 1
  {
    hide Owned, Live, AfterSubmit, Enabled, Apply, Conserved, Count, WellFormed;
    var m := ByToken(c, t);
    StepClients(s, e, c);
    if e.Submit? {
      ApplySubmit(s, e);
      Submitting(s, e.client, e.content, e.calls, m, c);
      if e.client == c && e.content.token == t {
        NothingFree(s, c, t);
      }
    } else {
      StepBalances(s, e, m, c);
    }
  }

  /** No step makes a client. */
  lemma StepClients(s: State, e: Event, c: int)
    requires Owned(s) && Enabled(s, e) && c in Apply(s, e).clients
    ensures c in s.clients
  {
    hide Count, AfterRemove, AfterSettle;
    match e
    case Settle(r, follow) => SettleClients(s, r, follow);
    case CleanSession(k) => RemovedShape(s.(clients := s.clients[k := s.clients[k].(store := map[])]), k);
    case Destroy(k) => RemovedShape(s, k);
    case _ =>
  }

  lemma SettleClients(s: State, r: Result, follow: Option<Command>)
    requires Enabled(s, Settle(r, follow))
    ensures AfterSettle(s, r, follow).clients.Keys == s.clients.Keys
  {
  }

  lemma StepConserved(s: State, e: Event, id: nat)
    requires Sound(s) && Enabled(s, e) && id < |Apply(s, e).owners|
    ensures var t := Apply(s, e); Live(t, t.owners[id], ById(id)) + Count(t.finished, ById(id)) == 1
  {
    hide Owned, Live, AfterSubmit, Enabled, Apply, TokensUnique, Count, WellFormed;
    if e.Submit? {
      ApplySubmit(s, e);
      Submitting(s, e.client, e.content, e.calls, ByToken(0, 1), 0);
      var t := AfterSubmit(s, e.client, e.content, e.calls);
      Submitting(s, e.client, e.content, e.calls, ById(id), t.owners[id]);
      if id == |s.owners| {
        NotSubmittedYet(s, e.client);
      }
    } else {
      StepBalances(s, e, ByToken(0, 1), 0);
      StepBalances(s, e, ById(id), s.owners[id]);
    }
  }

  lemma NotSubmittedYet(s: State, client: int)
    requires Owned(s)
    ensures Live(s, client, ById(|s.owners|)) == 0 && Count(s.finished, ById(|s.owners|)) == 0
  {
    hide Count;
    var m := ById(|s.owners|);
    if Count(s.queue, m) > 0 {
      var i := CountPositive(s.queue, m);
    }
    if Count(s.finished, m) > 0 {
      var i := CountPositive(s.finished, m);
    }
    assert s.hand.Some? ==> [s.hand.value][0] == s.hand.value;
    if client in s.clients && Count(s.clients[client].responses, m) > 0 {
      var i := CountPositive(s.clients[client].responses, m);
    }
  }

  lemma StepSound(s: State, e: Event)
    requires Sound(s) && Enabled(s, e)
    ensures Sound(Apply(s, e))
  {
    hide Owned, Live, Enabled, Apply, Count;
    StepOwned(s, e);
    var t := Apply(s, e);
    forall id | 0 <= id < |t.owners|
      ensures Live(t, t.owners[id], ById(id)) + Count(t.finished, ById(id)) == 1
    {
      StepConserved(s, e, id);
    }
    forall c, token | c in t.clients && token != 0
      ensures Live(t, c, ByToken(c, token)) <= 1
    {
      StepTokens(s, e, c, token);
    }
  }

  // ---------- What is finished stays finished ----------

  predicate Grows(s: State, t: State) {
    s.finished <= t.finished && s.calls <= t.calls
  }

  lemma {:induction false} FinishAllGrows(s: State, cs: seq<Command>)
    ensures Grows(s, FinishAll(s, cs)) && FinishAll(s, cs).clients == s.clients
    decreases |cs|
  {
    if cs != [] {
      FinishAllGrows(Finish(s, cs[0], OnFailure(cs[0].calls)), cs[1..]);
    }
  }

  lemma RemoveGrows(s: State, k: int)
    requires k in s.clients
    ensures Grows(s, AfterRemove(s, k))
  {
    hide FinishAll;
    var m := s.clients[k];
    var s1 := s.(clients := s.clients[k := m.(responses := [])]);
    FinishAllGrows(s1, m.responses);
    FinishAllGrows(FinishAll(s1, m.responses).(queue := NotOf(s.queue, k)), Of(s.queue, k));
  }

  lemma SettleGrows(s: State, r: Result, follow: Option<Command>)
    requires Enabled(s, Settle(r, follow))
    ensures Grows(s, AfterSettle(s, r, follow))
  {
    hide IsWork, OnSuccess, OnFailure;
  }

  lemma StepGrows(s: State, e: Event)
    requires Enabled(s, e)
    ensures Grows(s, Apply(s, e))
  {
    hide FinishAll, AfterRemove, CallFor, Grows, AfterSettle, AfterAdd, AfterTakeAt, Select, WellFormed, IsControl;
    match e
    case Settle(r, follow) => SettleGrows(s, r, follow);
    case CleanSession(k) => CleanGrows(s, k);
    case Destroy(k) =>
      RemoveGrows(s, k);
      DestroyGrows(s, AfterRemove(s, k), k);
    case _ => OtherGrows(s, e);
  }

  lemma CleanGrows(s: State, k: int)
    requires k in s.clients
    ensures Grows(s, AfterClean(s, k))
  {
    hide AfterRemove;
    RemoveGrows(s.(clients := s.clients[k := s.clients[k].(store := map[])]), k);
  }

  lemma DestroyGrows(s: State, t: State, k: int)
    requires Grows(s, t)
    ensures Grows(s, t.(clients := t.clients - {k}))
  {
  }

  lemma OtherGrows(s: State, e: Event)
    requires Enabled(s, e) && !e.Settle? && !e.CleanSession? && !e.Destroy?
    ensures Grows(s, Apply(s, e))
  {
    hide CallFor, OnSuccess, OnFailure, IsWork, WellFormed, Select;
  }
}
