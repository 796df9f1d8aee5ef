/** The queue on the linked list it is kept in.

    A queued command is known by its address, which is what the list compares when one is detached.  Each method walks
    the links as the source does and is proved to do to the commands in the list what the step does to the queue. */
module CommandLists {
  import opened CommandQueue
  import opened CommandRestore
  import opened Wrappers
  import A = AsyncClient
  import L = LinkedList

  /** `MQTTAsync_queuedCommand` in memory. */
  class QueuedCommand {
    const command: Command

    constructor (command: Command)
      ensures this.command == command
    {
      this.command := command;
    }
  }

  function Commands(q: seq<QueuedCommand>): (r: seq<Command>)
    ensures |r| == |q| && forall i :: 0 <= i < |q| ==> r[i] == q[i].command
  {
    seq(|q|, i requires 0 <= i < |q| => q[i].command)
  }

  lemma CommandsWithout(q: seq<QueuedCommand>, i: nat)
    requires i < |q|
    ensures Commands(L.Without(q, i)) == Without(Commands(q), i)
  {
  }

  lemma CommandsInserted(q: seq<QueuedCommand>, i: nat, c: QueuedCommand)
    requires i <= |q|
    ensures Commands(L.Inserted(q, i, c)) == Commands(q)[..i] + [c.command] + Commands(q)[i..]
  {
  }

  /** `ListDetach`: the command at index `k`, found by its address. */
  method Detach(commands: L.List<QueuedCommand>, command: QueuedCommand, ghost k: nat)
    requires commands.Valid() && L.Distinct(commands.contents)
    requires k < |commands.contents| && commands.contents[k] == command
    modifies commands, commands.items
    ensures commands.Valid() && L.Distinct(commands.contents)
    ensures commands.items == L.Without(old(commands.items), k)
    ensures commands.contents == L.Without(old(commands.contents), k)
  {
    L.StillDistinct(commands.contents, k, command);
    ghost var was := commands.contents;
    assert |was| == |commands.items|;
    var removed, j := commands.Unlink(c => c == command);
    assert (c => c == command)(was[k]);
    assert was[j] == command;
  }

  /** The loop of `MQTTAsync_processCommand` and the removal of the command it stops at. */
  method TakeCommand(commands: L.List<QueuedCommand>, net: map<int, Net>, clients: map<int, Client>, ghost s: State)
    returns (taken: Option<QueuedCommand>)
    requires commands.Valid() && L.Distinct(commands.contents)
    requires s.queue == Commands(commands.contents) && s.clients == clients && s.hand.None? && Covers(net, s)
    modifies commands, commands.items
    ensures commands.Valid() && L.Distinct(commands.contents)
    ensures Commands(commands.contents) == AfterTake(s, net).queue
    ensures AfterTake(s, net).hand == if taken.Some? then Some(taken.value.command) else None
  {
    ghost var found;
    taken, found := FindCommand(commands, net, clients, s);
    if taken.Some? {
      CommandsWithout(commands.contents, found.value);
      Detach(commands, taken.value, found.value);
    }
  }

  method FindCommand(commands: L.List<QueuedCommand>, net: map<int, Net>, clients: map<int, Client>, ghost s: State)
    returns (taken: Option<QueuedCommand>, ghost found: Option<nat>)
    requires commands.Valid()
    requires s.queue == Commands(commands.contents) && s.clients == clients && Covers(net, s)
    ensures found == Select(s, net, 0, {}) && (taken.Some? <==> found.Some?)
    ensures found.Some? ==> found.value < |commands.contents| && taken.value == commands.contents[found.value]
  {
    hide EligibleIn, L.Distinct, L.Forward, L.Backward;
    var ignored: seq<int> := [];
    ghost var passed: set<int> := {};
    ghost var i := 0;
    var current := commands.NextElement(null, -1);
    while current != null
      invariant 0 <= i <= |commands.items| && current == L.At(commands.items, i)
      invariant forall c :: c in passed <==> c in ignored
      invariant Select(s, net, 0, {}) == Select(s, net, i, passed)
      decreases |commands.items| - i
    {
      var queued := current.content;
      assert queued == commands.contents[i] && s.queue[i] == queued.command;
      var client := queued.command.client;
      if client !in ignored {
        if EligibleIn(queued.command, net, clients) {
          return Some(queued), Some(i);
        }
        ignored, passed := ignored + [client], passed + {client};
      }
      current := commands.NextElement(current, i);
      i := i + 1;
    }
    taken, found := None, None;
  }

  /** `MQTTPersistence_insertInOrder`, as restoring commands uses it. */
  method InsertInOrder(commands: L.List<QueuedCommand>, queued: QueuedCommand)
    requires commands.Valid() && L.Distinct(commands.contents) && queued !in commands.contents
    modifies commands, commands.items
    ensures commands.Valid() && L.Distinct(commands.contents)
    ensures var q, i := old(Commands(commands.contents)), Place(old(Commands(commands.contents)), Word(queued.command));
            Commands(commands.contents) == q[..i] + [queued.command] + q[i..]
  {
    ghost var was := commands.contents;
    assert |was| == |commands.items|;
    var index, place := FindPlace(commands, Word(queued.command));
    L.StillDistinct(was, place, queued);
    CommandsInserted(was, place, queued);
    var newel := commands.Insert(queued, index, place);
  }

  /** The first element with a greater word, null if there is none. */
  method FindPlace(commands: L.List<QueuedCommand>, word: int)
    returns (index: L.ListElement?<QueuedCommand>, ghost place: nat)
    requires commands.Valid()
    ensures place == Place(Commands(commands.contents), word) && place <= |commands.items|
    ensures index == L.At(commands.items, place)
  {
    hide L.Distinct, L.Forward, L.Backward, Word, Place;
    ghost var q := Commands(commands.contents);
    index, place := null, 0;
    var current := commands.NextElement(null, -1);
    while current != null && index == null
      invariant 0 <= place <= |commands.items|
      invariant forall j :: 0 <= j < place ==> Word(q[j]) <= word
      invariant index == null ==> current == L.At(commands.items, place)
      invariant index != null ==> place < |q| && index == commands.items[place] && word < Word(q[place])
      decreases |commands.items| - place, index == null
    {
      assert q[place] == current.content.command;
      ghost var at := place;
      if word < Word(current.content.command) {
        index := current;
      } else {
        place := place + 1;
      }
      current := commands.NextElement(current, at);
    }
    PlaceIs(q, word, place);
  }

  // ---------- Removing while walking ----------

  /** The first `k` commands of the old queue are dealt with: the client's are removed, the others stay. */
  ghost predicate Halfway(contents: seq<QueuedCommand>, removed: seq<QueuedCommand>, q: seq<Command>, client: int,
                          i: nat, k: nat)
  {
    && k <= |q| && i == |NotOf(q[..k], client)|
    && Commands(contents) == NotOf(q[..k], client) + q[k..]
    && Commands(removed) == Of(q[..k], client)
  }

  lemma Start(contents: seq<QueuedCommand>, client: int)
    ensures Halfway(contents, [], Commands(contents), client, 0, 0)
  {
  }

  lemma Advance(contents: seq<QueuedCommand>, removed: seq<QueuedCommand>, q: seq<Command>, client: int, i: nat,
                k: nat)
    requires Halfway(contents, removed, q, client, i, k) && i < |contents|
    ensures k < |q|
    ensures if contents[i].command.client == client then
              Halfway(L.Without(contents, i), removed + [contents[i]], q, client, i, k + 1)
            else Halfway(contents, removed, q, client, i + 1, k + 1)
  {
    hide Of, NotOf, Without, L.Without;
    A.PassOne(q, k, client);
    CommandsWithout(contents, i);
    assert Commands(contents)[i] == contents[i].command;
    assert Commands(removed + [contents[i]]) == Commands(removed) + [contents[i].command];
  }

  lemma Finish(contents: seq<QueuedCommand>, removed: seq<QueuedCommand>, q: seq<Command>, client: int, i: nat, k: nat)
    requires Halfway(contents, removed, q, client, i, k) && i == |contents|
    ensures Commands(contents) == NotOf(q, client) && Commands(removed) == Of(q, client)
  {
    assert q[..k] == q;
  }

  /** The second loop of `MQTTAsync_removeResponsesAndCommands`: it fetches the element after the current one before
      the current one may go. */
  method RemoveCommands(commands: L.List<QueuedCommand>, client: int) returns (removed: seq<QueuedCommand>)
    requires commands.Valid() && L.Distinct(commands.contents)
    modifies commands, commands.items
    ensures commands.Valid() && L.Distinct(commands.contents)
    ensures Commands(commands.contents) == NotOf(old(Commands(commands.contents)), client)
    ensures Commands(removed) == Of(old(Commands(commands.contents)), client)
  {
    hide Halfway, Commands, Of, NotOf, L.Forward, L.Backward, L.Distinct, L.Holds;
    ghost var q, elements := Commands(commands.contents), commands.items;
    ghost var i, k := 0, 0;
    Start(commands.contents, client);
    removed := [];
    var current := commands.NextElement(null, -1);
    var next := commands.NextElement(current, if current == null then -1 else 0);
    while current != null
      invariant commands.Valid() && L.Distinct(commands.contents)
      invariant forall j :: 0 <= j < |commands.items| ==> commands.items[j] in elements
      invariant 0 <= k <= |q| && 0 <= i <= |commands.items| && current == L.At(commands.items, i)
      invariant current != null ==> next == L.At(commands.items, i + 1)
      invariant Halfway(commands.contents, removed, q, client, i, k)
      decreases |q| - k
    {
      i, removed := Visit(commands, current, client, removed, q, i, k);
      k := k + 1;
      current := next;
      next := commands.NextElement(next, if next == null then -1 else i);
    }
    Finish(commands.contents, removed, q, client, i, k);
  }

  /** One turn of the loop; afterwards the next element stands at the index of the walk. */
  method Visit(commands: L.List<QueuedCommand>, current: L.ListElement<QueuedCommand>, client: int,
               removed: seq<QueuedCommand>, ghost q: seq<Command>, ghost i: nat, ghost k: nat)
    returns (ghost i': nat, removed': seq<QueuedCommand>)
    requires commands.Valid() && L.Distinct(commands.contents)
    requires i < |commands.items| && current == commands.items[i]
    requires Halfway(commands.contents, removed, q, client, i, k)
    modifies commands, commands.items
    ensures commands.Valid() && L.Distinct(commands.contents)
    ensures forall j :: 0 <= j < |commands.items| ==> commands.items[j] in old(commands.items)
    ensures k < |q| && i' <= |commands.items| && L.At(commands.items, i') == L.At(old(commands.items), i + 1)
    ensures Halfway(commands.contents, removed', q, client, i', k + 1)
  {
    Advance(commands.contents, removed, q, client, i, k);
    var queued := current.content;
    assert queued == commands.contents[i];
    hide Halfway, Commands, L.Without, L.Forward, L.Backward, L.Distinct, L.Holds;
    if queued.command.client == client {
      removed' := removed + [queued];
      Within(commands.items, i);
      L.AtWithout(commands.items, i, i);
      Detach(commands, queued, i);
      i' := i;
    } else {
      removed' := removed;
      i' := i + 1;
    }
  }

  lemma Within<T>(s: seq<T>, k: nat)
    requires k < |s|
    ensures forall j :: 0 <= j < |L.Without(s, k)| ==> L.Without(s, k)[j] in s
  {
  }
}
