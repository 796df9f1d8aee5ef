/** Scheduling: which queued command is dispatched, in which order, and who waits for whom. */
module QueueScheduling {
  import opened CommandCodec
  import opened CommandQueue
  import opened QueueConservation
  import opened Wrappers

  // ---------- The selection ----------

  /** No earlier command is of the same client. */
  predicate FirstOfClient(q: seq<Command>, i: nat)
    requires i < |q|
  {
    forall j :: 0 <= j < i ==> q[j].client != q[i].client
  }

  /** The command may be dispatched: it is its client's first and the connection lets it through. */
  predicate Ready(s: State, net: map<int, Net>, i: nat)
    requires i < |s.queue| && Covers(net, s)
  {
    FirstOfClient(s.queue, i) && EligibleIn(s.queue[i], net, s.clients)
  }

  /** The ignored clients are those of the commands passed over. */
  predicate IgnoredUpTo(q: seq<Command>, i: nat, ignored: set<int>)
    requires i <= |q|
  {
    && (forall j :: 0 <= j < i ==> q[j].client in ignored)
    && forall c :: c in ignored ==> exists j :: 0 <= j < i && q[j].client == c
  }

  lemma {:induction false} SelectFrom(s: State, net: map<int, Net>, i: nat, ignored: set<int>)
    requires i <= |s.queue| && Covers(net, s) && IgnoredUpTo(s.queue, i, ignored)
    requires forall j :: 0 <= j < i ==> !Ready(s, net, j)
    ensures var r := Select(s, net, i, ignored);
            if r.Some? then Ready(s, net, r.value) && forall j :: 0 <= j < r.value ==> !Ready(s, net, j)
            else forall j :: 0 <= j < |s.queue| ==> !Ready(s, net, j)
    decreases |s.queue| - i
  {
    hide Eligible;
    if i < |s.queue| {
      var c := s.queue[i].client;
      if c in ignored {
        SelectFrom(s, net, i + 1, ignored);
      } else if !EligibleIn(s.queue[i], net, s.clients) {
        IgnoreOne(s.queue, i, ignored);
        SelectFrom(s, net, i + 1, ignored + {c});
      }
    }
  }

  lemma IgnoreOne(q: seq<Command>, i: nat, ignored: set<int>)
    requires i < |q| && IgnoredUpTo(q, i, ignored)
    ensures IgnoredUpTo(q, i + 1, ignored + {q[i].client})
  {
    forall c | c in ignored + {q[i].client}
      ensures exists j :: 0 <= j < i + 1 && q[j].client == c
    {
      if c in ignored {
        var j :| 0 <= j < i && q[j].client == c;
        assert 0 <= j < i + 1;
      } else {
        assert q[i].client == c;
      }
    }
  }

  /** The selection takes the first ready command, and finds none exactly if there is none. */
  lemma SelectIsFirstReady(s: State, net: map<int, Net>)
    requires Covers(net, s)
    ensures var r := Select(s, net, 0, {});
            if r.Some? then Ready(s, net, r.value) && forall j :: 0 <= j < r.value ==> !Ready(s, net, j)
            else forall j :: 0 <= j < |s.queue| ==> !Ready(s, net, j)
  {
    SelectFrom(s, net, 0, {});
  }

  /** A blocked client never holds up another: whenever some client's first command is eligible, a command is taken. */
  lemma BlockedNeverBlocksOthers(s: State, net: map<int, Net>, i: nat)
    requires Covers(net, s) && s.hand.None? && i < |s.queue| && Ready(s, net, i)
    ensures AfterTake(s, net).hand.Some?
    ensures exists j :: 0 <= j <= i && Ready(s, net, j) && AfterTake(s, net).hand == Some(s.queue[j])
                        && AfterTake(s, net).queue == Without(s.queue, j)
  {
    hide Select, Eligible, Ready;
    SelectIsFirstReady(s, net);
  }

  /** Work is dispatched only on an idle connection without pending writes, within the message ids and, in version 5
      where an answer is due, within the receive maximum of the server. */
  lemma DispatchIsAllowed(s: State, net: map<int, Net>)
    requires Covers(net, s) && s.hand.None?
    ensures var t := AfterTake(s, net);
            t.hand.Some? && Work(t.hand.value) ==>
              && t.hand.value.client in net
              && (var n, d := net[t.hand.value.client], t.hand.value.content.details;
                  && n.connected && n.idle && n.writable && n.outbound < MAX_MSG_ID - 1
                  && (s.clients[t.hand.value.client].v5 && !(d.Publish? && d.qos <= 0) ==> n.outbound < n.maxInflight))
  {
    hide Select;
    SelectIsFirstReady(s, net);
  }

  // ---------- The order of dispatch ----------

  /** Work of one client stands in the order of submission. */
  predicate Ascending(q: seq<Command>) {
    forall i, j :: 0 <= i < j < |q| && Work(q[i]) && Work(q[j]) && q[i].client == q[j].client ==> q[i].id < q[j].id
  }

  /** Dispatched and still queued commands together stand in the order of submission. */
  predicate Scheduled(s: State) {
    Ascending(s.dispatched + s.queue)
  }

  /** Work in `a` was submitted before the work in `b` of the same client. */
  predicate Before(a: seq<Command>, b: seq<Command>) {
    forall i, j :: 0 <= i < |a| && 0 <= j < |b| && Work(a[i]) && Work(b[j]) && a[i].client == b[j].client
                   ==> a[i].id < b[j].id
  }

  lemma AscendingParts(a: seq<Command>, b: seq<Command>)
    ensures Ascending(a + b) <==> Ascending(a) && Ascending(b) && Before(a, b)
  {
    var ab := a + b;
    if Ascending(ab) {
      forall i, j | 0 <= i < j < |b| && Work(b[i]) && Work(b[j]) && b[i].client == b[j].client
        ensures b[i].id < b[j].id
      {
        assert ab[|a| + i] == b[i] && ab[|a| + j] == b[j];
      }
      forall i, j | 0 <= i < |a| && 0 <= j < |b| && Work(a[i]) && Work(b[j]) && a[i].client == b[j].client
        ensures a[i].id < b[j].id
      {
        assert ab[i] == a[i] && ab[|a| + j] == b[j];
      }
      forall i, j | 0 <= i < j < |a| && Work(a[i]) && Work(a[j]) && a[i].client == a[j].client
        ensures a[i].id < a[j].id
      {
        assert ab[i] == a[i] && ab[j] == a[j];
      }
    }
  }

  lemma BeforeParts(a: seq<Command>, b: seq<Command>, c: seq<Command>)
    ensures Before(a, b + c) <==> Before(a, b) && Before(a, c)
    ensures Before(a + b, c) <==> Before(a, c) && Before(b, c)
  {
    var bc, ab := b + c, a + b;
    assert forall j :: 0 <= j < |b| ==> bc[j] == b[j];
    assert forall j :: 0 <= j < |c| ==> bc[|b| + j] == c[j];
    assert forall j :: 0 <= j < |a| ==> ab[j] == a[j];
    assert forall j :: 0 <= j < |b| ==> ab[|a| + j] == b[j];
  }

  /** A command that is no work may stand anywhere. */
  lemma ControlAnywhere(a: seq<Command>, c: Command)
    requires !Work(c)
    ensures Before(a, [c]) && Before([c], a) && Ascending([c])
  {
  }

  lemma AddingKeepsOrder(s: State, c: Command)
    requires Scheduled(s) && c.client in s.clients && IsControl(c)
    ensures Scheduled(AfterAdd(s, c))
  {
    hide Ascending, Before;
    AscendingParts(s.dispatched, s.queue);
    ControlAnywhere(s.queue, c);
    ControlAnywhere(s.dispatched, c);
    AscendingParts([c], s.queue);
    AscendingParts(s.queue, [c]);
    BeforeParts(s.dispatched, [c], s.queue);
    BeforeParts(s.dispatched, s.queue, [c]);
    AscendingParts(s.dispatched, AfterAdd(s, c).queue);
  }

  lemma SubmittingKeepsOrder(s: State, e: Event)
    requires Owned(s) && Scheduled(s) && Enabled(s, e) && e.Submit?
    ensures Scheduled(Apply(s, e))
  {
    hide WellFormed;
    ApplySubmit(s, e);
    var c := Numbered(s.clients[e.client], Command(|s.owners|, e.client, e.content, 0, e.calls, false));
    var all := s.dispatched + s.queue;
    AscendingParts(s.dispatched, s.queue);
    AscendingParts(all, [c]);
    assert forall i :: 0 <= i < |all| && Work(all[i]) ==> all[i].id < |s.owners|;
    assert Apply(s, e).dispatched + Apply(s, e).queue == all + [c];
  }

  /** The command taken is its client's first, so it may overtake the others. */
  lemma TakingKeepsOrder(s: State, i: nat)
    requires Scheduled(s) && i < |s.queue| && s.queue[i].client in s.clients && FirstOfClient(s.queue, i)
    ensures Scheduled(AfterTakeAt(s, i))
  {
    var d, a, c, b := s.dispatched, s.queue[..i], [s.queue[i]], s.queue[i + 1..];
    assert s.queue == a + (c + b) && Without(s.queue, i) == a + b;
    assert Before(c, a) && (Work(s.queue[i]) || Before(c, b));
    hide Ascending, Before;
    AscendingParts(d, a + (c + b));
    AscendingParts(a, c + b);
    AscendingParts(c, b);
    BeforeParts(d, a, c + b);
    BeforeParts(d, c, b);
    BeforeParts(a, c, b);
    AscendingParts(a, b);
    AscendingParts(d, c);
    BeforeParts(d, c, a + b);
    BeforeParts(d, a, b);
    BeforeParts(c, a, b);
    AscendingParts(d, a + b);
    AscendingParts(d + c, a + b);
  }

  lemma {:induction false} NotOfKeepsOrder(q: seq<Command>, client: int)
    requires Ascending(q)
    ensures Ascending(NotOf(q, client))
    ensures forall i :: 0 <= i < |NotOf(q, client)| ==> NotOf(q, client)[i] in q
    decreases |q|
  {
    if q != [] {
      assert q == [q[0]] + q[1..];
      AscendingParts([q[0]], q[1..]);
      NotOfKeepsOrder(q[1..], client);
      AscendingParts([q[0]], NotOf(q[1..], client));
      assert forall k :: 0 <= k < |NotOf(q[1..], client)| ==> NotOf(q[1..], client)[k] in q;
      assert NotOf(q, client) == (if q[0].client != client then [q[0]] else []) + NotOf(q[1..], client);
    }
  }

  lemma FilteringKeepsOrder(s: State, t: State, client: int)
    requires Scheduled(s) && t.queue == NotOf(s.queue, client) && t.dispatched == s.dispatched
    ensures Scheduled(t)
  {
    AscendingParts(s.dispatched, s.queue);
    NotOfKeepsOrder(s.queue, client);
    AscendingParts(s.dispatched, t.queue);
  }

  lemma StepKeepsOrder(s: State, e: Event)
    requires Owned(s) && Scheduled(s) && Enabled(s, e)
    ensures Scheduled(Apply(s, e))
  {
    hide Ascending, Select, AfterRemove, CallFor, WellFormed, AfterAdd;
    match e
    case Submit(_, _, _) => SubmittingKeepsOrder(s, e);
    case Control(c) => AddingKeepsOrder(s, c);
    case Take(net) =>
      if Select(s, net, 0, {}).Some? {
        SelectIsFirstReady(s, net);
        TakingKeepsOrder(s, Select(s, net, 0, {}).value);
      }
    case Settle(r, follow) => SettlingKeepsOrder(s, r, follow);
    case CleanSession(k) =>
      var s1 := s.(clients := s.clients[k := s.clients[k].(store := map[])]);
      RemovedShape(s1, k);
      FilteringKeepsOrder(s, AfterRemove(s1, k), k);
    case Destroy(k) =>
      RemovedShape(s, k);
      FilteringKeepsOrder(s, AfterRemove(s, k), k);
    case _ =>
  }

  lemma SettlingKeepsOrder(s: State, r: Result, follow: Option<Command>)
    requires Scheduled(s) && Enabled(s, Settle(r, follow))
    ensures Scheduled(AfterSettle(s, r, follow))
  {
    hide Ascending, AfterAdd;
    var c, t := s.hand.value, s.(hand := None);
    var m := Marked(t, c, r);
    assert Scheduled(t) && Scheduled(m);
    if follow.Some? {
      AddingKeepsOrder(t, follow.value);
      AddingKeepsOrder(m, follow.value);
    }
  }
}
