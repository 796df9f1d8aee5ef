/** Restoring a client's commands after a restart, `MQTTAsync_restoreCommands`.

    The source inserts with `MQTTPersistence_insertInOrder`, which was written for messages and compares the integer at
    the place of `Messages.msgid`.  In a queued command that is the lower half of the `onSuccess` pointer, zero in every
    restored command; so the restored commands keep the order in which the store lists its keys. */
module CommandRestore {
  import opened Bytes
  import opened CommandCodec
  import opened CommandKeys
  import opened CommandQueue
  import opened Properties
  import opened QueueStore
  import opened Wrappers

  const NO_CALLS := Callbacks(0, 0, 0, 0)

  /** The integer `MQTTPersistence_insertInOrder` compares, on a 64-bit machine with the low half first. */
  function Word(c: Command): int {
    var low := c.calls.onSuccess % TWO_32;
    if low < TWO_31 then low else low - TWO_32
  }

  // ---------- Insertion ----------

  /** The index of the first command with a greater word. */
  function Place(q: seq<Command>, word: int): (i: nat)
    ensures i <= |q| && (forall j :: 0 <= j < i ==> Word(q[j]) <= word) && (i < |q| ==> word < Word(q[i]))
  {
    if q == [] || word < Word(q[0]) then 0 else 1 + Place(q[1..], word)
  }

  /** `MQTTPersistence_insertInOrder`. */
  method InsertInOrder(q: seq<Command>, c: Command) returns (r: seq<Command>)
    ensures r == q[..Place(q, Word(c))] + [c] + q[Place(q, Word(c))..]
  {
    var i := 0;
    while i < |q| && !(Word(c) < Word(q[i]))
      invariant 0 <= i <= |q| && forall j :: 0 <= j < i ==> Word(q[j]) <= Word(c)
    {
      i := i + 1;
    }
    PlaceIs(q, Word(c), i);
    r := q[..i] + [c] + q[i..];
  }

  lemma PlaceIs(q: seq<Command>, word: int, i: nat)
    requires i <= |q| && (forall j :: 0 <= j < i ==> Word(q[j]) <= word) && (i < |q| ==> word < Word(q[i]))
    ensures Place(q, word) == i
  {
    hide Place, Word;
  }

  /** The queue with commands restored into it: they stand before the first command with a positive word. */
  function Inserted(q: seq<Command>, cs: seq<Command>): seq<Command> {
    q[..Place(q, 0)] + cs + q[Place(q, 0)..]
  }

  predicate WordsAreZero(cs: seq<Command>) {
    forall i :: 0 <= i < |cs| ==> Word(cs[i]) == 0
  }

  /** A restored command goes behind those restored before. */
  lemma InsertedBehind(q: seq<Command>, cs: seq<Command>, c: Command)
    requires WordsAreZero(cs) && Word(c) == 0
    ensures var r := Inserted(q, cs); r[..Place(r, 0)] + [c] + r[Place(r, 0)..] == Inserted(q, cs + [c])
    ensures WordsAreZero(cs + [c])
  {
    hide Place, Word;
    var a, b := q[..Place(q, 0)], q[Place(q, 0)..];
    var r := Inserted(q, cs);
    PlaceBehind(a, cs, b);
    assert r[..|a + cs|] == a + cs && r[|a + cs|..] == b;
    assert a + cs + [c] == a + (cs + [c]);
  }

  lemma PlaceBehind(a: seq<Command>, cs: seq<Command>, b: seq<Command>)
    requires WordsAreZero(cs) && (forall j :: 0 <= j < |a| ==> Word(a[j]) <= 0) && (b != [] ==> 0 < Word(b[0]))
    ensures Place(a + cs + b, 0) == |a + cs|
  {
    hide Place, Word;
    PlaceIs(a + cs + b, 0, |a + cs|);
  }

  // ---------- The restored commands ----------

  predicate IsCommandKey(key: string) {
    HasTag(key, false) || HasTag(key, true)
  }

  /** The command an entry stands for, if any. */
  function FromEntry(key: string, store: map<string, seq<Byte>>, client: int, id: nat): Option<Command> {
    if !IsCommandKey(key) || key !in store then None
    else
      var content := Decode(store[key], HasTag(key, true));
      if content.None? then None else Some(Command(id, client, content.value, SeqnoOf(key), NO_CALLS, true))
  }

  /** The commands restored from the keys, in the order listed and counted from `id`. */
  function RestoredFrom(keys: seq<string>, store: map<string, seq<Byte>>, client: int, id: nat): seq<Command>
    decreases |keys|
  {
    if keys == [] then []
    else
      var c := FromEntry(keys[0], store, client, id);
      if c.None? then RestoredFrom(keys[1..], store, client, id)
      else [c.value] + RestoredFrom(keys[1..], store, client, id + 1)
  }

  function Max(a: nat, b: nat): nat {
    if a >= b then a else b
  }

  function Highest(q: seq<Command>, from: nat): nat {
    if q == [] then from else Highest(q[1..], Max(from, q[0].seqno))
  }

  /** No number is greater, and it is one of them or the one to start from. */
  lemma {:induction false} HighestIsHighest(q: seq<Command>, from: nat)
    ensures Highest(q, from) >= from && forall i :: 0 <= i < |q| ==> q[i].seqno <= Highest(q, from)
    ensures Highest(q, from) == from || exists i :: 0 <= i < |q| && q[i].seqno == Highest(q, from)
    decreases |q|
  {
    if q != [] {
      var rest, next := q[1..], Max(from, q[0].seqno);
      HighestIsHighest(rest, next);
      if Highest(q, from) != next {
        var i :| 0 <= i < |rest| && rest[i].seqno == Highest(q, from);
        assert q[i + 1].seqno == Highest(q, from);
      }
    }
  }

  lemma DecodedIsWork(buffer: seq<Byte>, v5: bool)
    ensures Decode(buffer, v5).Some? ==> IsWork(Decode(buffer, v5).value.details)
  {
    hide TakeTopics, TakeNames, TakeCString, TakeInt, TakeProperties;
  }

  /** What a client made anew restores, counted from `id`. */
  function Restored(m: Client, keys: seq<string>, client: int, id: nat): seq<Command> {
    if m.persistent then RestoredFrom(keys, m.store, client, id) else []
  }

  /** `MQTTAsync_restoreCommands`: the restored commands stand together, in the order of the listing, and the numbers go
      on from the highest one restored. */
  method RestoreCommands(commands: seq<Command>, client: int, m: Client, keys: seq<string>, id: nat)
    returns (queue: seq<Command>, commandSeqno: nat)
    ensures queue == Inserted(commands, Restored(m, keys, client, id))
    ensures commandSeqno == Highest(Restored(m, keys, client, id), m.commandSeqno)
    ensures var r := Restored(m, keys, client, id);
            && commandSeqno >= m.commandSeqno && (forall i :: 0 <= i < |r| ==> r[i].seqno <= commandSeqno)
            && (commandSeqno == m.commandSeqno || exists i :: 0 <= i < |r| && r[i].seqno == commandSeqno)
  {
    hide FromEntry, IsWork, RestoredFrom, Highest, Place;
    queue, commandSeqno := commands, m.commandSeqno;
    HighestIsHighest(Restored(m, keys, client, id), m.commandSeqno);
    NothingInserted(commands);
    NothingRestored([], m.store, client, id, commandSeqno);
    if m.persistent {
      var i, next := 0, id;
      ghost var done: seq<Command> := [];
      ghost var all := RestoredFrom(keys, m.store, client, id);
      assert keys[0..] == keys;
      while i < |keys|
        invariant 0 <= i <= |keys| && 0 <= next && WordsAreZero(done) && queue == Inserted(commands, done)
        invariant done + RestoredFrom(keys[i..], m.store, client, next) == all
        invariant Highest(RestoredFrom(keys[i..], m.store, client, next), commandSeqno) == Highest(all, m.commandSeqno)
      {
        RestoredStep(keys, i, m.store, client, next, done, commandSeqno);
        var c := FromEntry(keys[i], m.store, client, next);
        if c.Some? {
          EntryFacts(keys[i], m.store, client, next);
          InsertedBehind(commands, done, c.value);
          queue := InsertInOrder(queue, c.value);
          commandSeqno := Max(commandSeqno, c.value.seqno);
          next := next + 1;
          done := done + [c.value];
        }
        i := i + 1;
      }
      NothingRestored(keys[i..], m.store, client, next, commandSeqno);
      assert done + [] == done;
    }
  }

  lemma NothingInserted(q: seq<Command>)
    ensures Inserted(q, []) == q
  {
  }

  /** What one more key adds. */
  lemma RestoredStep(keys: seq<string>, i: nat, store: map<string, seq<Byte>>, client: int, id: nat,
                     done: seq<Command>, highest: nat)
    requires i < |keys|
    ensures var c := FromEntry(keys[i], store, client, id); var all := RestoredFrom(keys[i..], store, client, id);
            if c.None? then all == RestoredFrom(keys[i + 1..], store, client, id)
            else
              var rest := RestoredFrom(keys[i + 1..], store, client, id + 1);
              done + all == done + [c.value] + rest && Highest(all, highest) == Highest(rest, Max(highest, c.value.seqno))
  {
    hide FromEntry;
    assert keys[i..][1..] == keys[i + 1..];
    var c := FromEntry(keys[i], store, client, id);
    if c.Some? {
      var rest := RestoredFrom(keys[i + 1..], store, client, id + 1);
      assert done + ([c.value] + rest) == done + [c.value] + rest;
      assert ([c.value] + rest)[1..] == rest;
    }
  }

  lemma NothingRestored(keys: seq<string>, store: map<string, seq<Byte>>, client: int, id: nat, highest: nat)
    requires keys == []
    ensures RestoredFrom(keys, store, client, id) == [] && Highest([], highest) == highest
  {
  }

  lemma EntryFacts(key: string, store: map<string, seq<Byte>>, client: int, id: nat)
    requires FromEntry(key, store, client, id).Some?
    ensures var c := FromEntry(key, store, client, id).value;
            Word(c) == 0 && Work(c) && c.client == client && c.id == id && c.seqno == SeqnoOf(key) && c.restored
            && IsCommandKey(key) && key in store && Decode(store[key], HasTag(key, true)) == Some(c.content)
  {
    hide Decode, IsWork;
    DecodedIsWork(store[key], HasTag(key, true));
  }

  // ---------- The order after a restart ----------

  /** The command keys of the listing are the client's, each once. */
  predicate Listing(keys: seq<string>, m: Client) {
    && (forall i :: 0 <= i < |keys| && IsCommandKey(keys[i]) ==> keys[i] in m.store)
    && (forall key :: key in m.store ==> key in keys)
    && forall i, j :: 0 <= i < j < |keys| && IsCommandKey(keys[i]) ==> keys[i] != keys[j]
  }

  function Seqnos(q: seq<Command>): (r: seq<nat>)
    ensures |r| == |q| && forall i :: 0 <= i < |q| ==> r[i] == q[i].seqno
  {
    if q == [] then [] else [q[0].seqno] + Seqnos(q[1..])
  }

  predicate Ascending(ns: seq<nat>) {
    forall i, j :: 0 <= i < j < |ns| ==> ns[i] < ns[j]
  }

  /** The numbers of the command keys, in the order of the listing. */
  function ListedNumbers(keys: seq<string>): seq<nat> {
    if keys == [] then []
    else (if IsCommandKey(keys[0]) then [SeqnoOf(keys[0])] else []) + ListedNumbers(keys[1..])
  }

  /** The command keys are listed by ascending number. */
  predicate KeysAscend(keys: seq<string>) {
    forall i, j :: 0 <= i < j < |keys| && IsCommandKey(keys[i]) && IsCommandKey(keys[j]) ==>
                     SeqnoOf(keys[i]) < SeqnoOf(keys[j])
  }

  lemma AscendingCons(n: nat, rest: seq<nat>)
    ensures Ascending([n] + rest) <==> Ascending(rest) && forall k :: k in rest ==> n < k
  {
    if Ascending([n] + rest) {
      AscendingTail(n, rest);
    } else if Ascending(rest) && forall k :: k in rest ==> n < k {
      AscendingHead(n, rest);
    }
  }

  lemma AscendingTail(n: nat, rest: seq<nat>)
    requires Ascending([n] + rest)
    ensures Ascending(rest) && forall k :: k in rest ==> n < k
  {
    var all := [n] + rest;
    forall i, j | 0 <= i < j < |rest|
      ensures rest[i] < rest[j]
    {
      assert all[i + 1] == rest[i] && all[j + 1] == rest[j];
    }
    forall k | k in rest
      ensures n < k
    {
      var j :| 0 <= j < |rest| && rest[j] == k;
      assert all[0] == n && all[j + 1] == k;
    }
  }

  lemma AscendingHead(n: nat, rest: seq<nat>)
    requires Ascending(rest) && forall k :: k in rest ==> n < k
    ensures Ascending([n] + rest)
  {
    var all := [n] + rest;
    forall i, j | 0 <= i < j < |all|
      ensures all[i] < all[j]
    {
      assert all[j] == rest[j - 1] && rest[j - 1] in rest;
      assert i > 0 ==> all[i] == rest[i - 1];
    }
  }

  lemma {:induction false} ListedIsNumbered(keys: seq<string>, n: nat)
    ensures n in ListedNumbers(keys) <==> exists i :: 0 <= i < |keys| && IsCommandKey(keys[i]) && SeqnoOf(keys[i]) == n
    decreases |keys|
  {
    hide IsCommandKey, SeqnoOf;
    if keys != [] {
      ListedIsNumbered(keys[1..], n);
      assert forall i :: 0 <= i < |keys| - 1 ==> keys[1..][i] == keys[i + 1];
      assert keys == [keys[0]] + keys[1..];
    }
  }

  lemma {:induction false} ListedAscend(keys: seq<string>)
    ensures Ascending(ListedNumbers(keys)) <==> KeysAscend(keys)
    decreases |keys|
  {
    hide IsCommandKey, SeqnoOf, Ascending;
    if keys == [] {
      NothingAscends();
    } else {
      var rest := keys[1..];
      assert forall i :: 0 <= i < |rest| ==> rest[i] == keys[i + 1];
      ListedAscend(rest);
      AscendingCons(SeqnoOf(keys[0]), ListedNumbers(rest));
      BelowTheRest(rest, SeqnoOf(keys[0]));
      assert [] + ListedNumbers(rest) == ListedNumbers(rest);
      KeysAscendCons(keys);
    }
  }

  lemma BelowTheRest(keys: seq<string>, n: nat)
    ensures (forall k :: k in ListedNumbers(keys) ==> n < k)
       <==> forall i :: 0 <= i < |keys| && IsCommandKey(keys[i]) ==> n < SeqnoOf(keys[i])
  {
    hide IsCommandKey, SeqnoOf, ListedNumbers;
    forall i | 0 <= i < |keys| && IsCommandKey(keys[i])
      ensures SeqnoOf(keys[i]) in ListedNumbers(keys)
    {
      ListedIsNumbered(keys, SeqnoOf(keys[i]));
    }
    forall k | k in ListedNumbers(keys)
      ensures exists i :: 0 <= i < |keys| && IsCommandKey(keys[i]) && SeqnoOf(keys[i]) == k
    {
      ListedIsNumbered(keys, k);
    }
  }

  lemma NothingAscends()
    ensures Ascending([])
  {
  }

  lemma KeysAscendCons(keys: seq<string>)
    requires keys != []
    ensures KeysAscend(keys) <==>
              && KeysAscend(keys[1..])
              && (IsCommandKey(keys[0]) ==>
                    forall i :: 0 <= i < |keys[1..]| && IsCommandKey(keys[1..][i]) ==>
                                  SeqnoOf(keys[0]) < SeqnoOf(keys[1..][i]))
  {
    hide IsCommandKey, SeqnoOf;
    var rest := keys[1..];
    assert forall i :: 0 <= i < |rest| ==> rest[i] == keys[i + 1];
    if KeysAscend(keys) {
      forall i, j | 0 <= i < j < |rest| && IsCommandKey(rest[i]) && IsCommandKey(rest[j])
        ensures SeqnoOf(rest[i]) < SeqnoOf(rest[j])
      {
        assert rest[i] == keys[i + 1] && rest[j] == keys[j + 1];
      }
    } else {
      var i, j :| 0 <= i < j < |keys| && IsCommandKey(keys[i]) && IsCommandKey(keys[j])
                  && !(SeqnoOf(keys[i]) < SeqnoOf(keys[j]));
      assert keys[j] == rest[j - 1];
      assert i > 0 ==> keys[i] == rest[i - 1];
    }
  }

  /** Two ascending sequences of the same numbers are the same. */
  lemma {:induction false} AscendingIsUnique(a: seq<nat>, b: seq<nat>)
    requires Ascending(a) && Ascending(b) && forall n :: n in a <==> n in b
    ensures a == b
    decreases |a|
  {
    HasFirst(b);
    if a == [] {
    } else {
      assert a[0] in b;
      assert b[0] in a;
      assert a[0] == b[0];
      forall n ensures n in a[1..] <==> n in b[1..] {
        TailOf(a, n);
        TailOf(b, n);
      }
      AscendingIsUnique(a[1..], b[1..]);
      assert a == [a[0]] + a[1..] && b == [b[0]] + b[1..];
    }
  }

  lemma HasFirst(a: seq<nat>)
    ensures a != [] ==> a[0] in a
  {
  }

  lemma TailOf(a: seq<nat>, n: nat)
    requires a != [] && Ascending(a)
    ensures n in a[1..] <==> n in a && n != a[0]
  {
    if n in a && n != a[0] {
      var i :| 0 <= i < |a| && a[i] == n;
      assert a[1..][i - 1] == n;
    }
    if n in a[1..] {
      var i :| 0 <= i < |a[1..]| && a[1..][i] == n;
      assert a[i + 1] == n;
    }
  }

  /** A key of the store, read back. */
  lemma KeyOfEntry(work: seq<Command>, m: Client, key: string) returns (i: nat)
    requires m.persistent && Mirrored(work, m, false) && key in m.store
    ensures i < |work| && key == Key(m.v5, work[i].seqno) && SeqnoOf(key) == work[i].seqno
    ensures IsCommandKey(key) && HasTag(key, true) == m.v5
    ensures Stored(work[i], m)
  {
    hide Key, EntryFor, HasTag, SeqnoOf;
    i :| 0 <= i < |work| && HasKey(work[i], m.v5, key);
    SeqnoOfKey(m.v5, work[i].seqno);
  }

  /** The content of a queued command as a restart brings it back. */
  function AfterRestart(c: Command, v5: bool): Content
    requires c.restored || AllWellTyped(c.content.properties)
  {
    if c.restored then c.content
    else Content(Kept(c.content.details, v5), c.content.token, RereadAll(c.content.properties))
  }

  lemma EntryDecodes(c: Command, m: Client)
    requires Stored(c, m)
    ensures Decode(m.store[Key(m.v5, c.seqno)], m.v5).Some?
    ensures c.restored || AllWellTyped(c.content.properties)
    ensures Decode(m.store[Key(m.v5, c.seqno)], m.v5).value == AfterRestart(c, m.v5)
    ensures Decode(m.store[Key(m.v5, c.seqno)], m.v5).value.token == c.content.token
  {
    hide Key, Encode, Decode, WellTyped;
    if !c.restored {
      RestoreOfPersist(c.content, m.v5);
    }
  }

  /** The command comes from an entry listed among the keys. */
  predicate FromStore(c: Command, id: nat, client: int, m: Client, keys: seq<string>) {
    && c.id == id && c.client == client && Work(c) && c.restored
    && Key(m.v5, c.seqno) in keys && Key(m.v5, c.seqno) in m.store
    && Decode(m.store[Key(m.v5, c.seqno)], m.v5) == Some(c.content)
  }

  predicate AllFromStore(r: seq<Command>, id: nat, client: int, m: Client, keys: seq<string>) {
    forall i :: 0 <= i < |r| ==> FromStore(r[i], id + i, client, m, keys)
  }

  predicate AllThere(r: seq<Command>, m: Client, keys: seq<string>) {
    forall key :: key in m.store && key in keys ==> SeqnoOf(key) in Seqnos(r)
  }

  predicate OneEach(r: seq<Command>) {
    forall i, j :: 0 <= i < j < |r| ==> r[i].seqno != r[j].seqno
  }

  lemma MoreKeys(r: seq<Command>, id: nat, client: int, m: Client, rest: seq<string>, keys: seq<string>)
    requires AllFromStore(r, id, client, m, rest) && forall k :: k in rest ==> k in keys
    ensures AllFromStore(r, id, client, m, keys)
  {
    hide Key, Decode, IsWork;
    forall i | 0 <= i < |r| ensures FromStore(r[i], id + i, client, m, keys) {
      assert FromStore(r[i], id + i, client, m, rest);
    }
  }

  lemma OneMoreStored(c: Command, r: seq<Command>, id: nat, client: int, m: Client, rest: seq<string>, key: string)
    requires AllFromStore(r, id + 1, client, m, rest) && FromStore(c, id, client, m, [key] + rest)
    ensures AllFromStore([c] + r, id, client, m, [key] + rest)
  {
    hide FromStore;
    var all, keys := [c] + r, [key] + rest;
    assert forall k :: k in rest ==> k in keys;
    MoreKeys(r, id + 1, client, m, rest, keys);
    forall i | 0 <= i < |all| ensures FromStore(all[i], id + i, client, m, keys) {
      if i > 0 {
        assert all[i] == r[i - 1] && FromStore(r[i - 1], id + 1 + (i - 1), client, m, keys);
      }
    }
  }

  lemma OneMoreEach(c: Command, r: seq<Command>, id: nat, client: int, m: Client, rest: seq<string>)
    requires AllFromStore(r, id + 1, client, m, rest) && OneEach(r) && Key(m.v5, c.seqno) !in rest
    ensures OneEach([c] + r)
  {
    hide Key, Decode, IsWork;
    var all := [c] + r;
    forall i | 0 <= i < |r| ensures all[i + 1] == r[i] && r[i].seqno != c.seqno {
      assert FromStore(r[i], id + 1 + i, client, m, rest);
    }
  }

  lemma OneMoreThere(c: Command, r: seq<Command>, m: Client, rest: seq<string>, key: string)
    requires AllThere(r, m, rest) && key == Key(m.v5, c.seqno)
    ensures AllThere([c] + r, m, [key] + rest)
  {
    hide Key, SeqnoOf;
    var all := [c] + r;
    assert Seqnos(all) == [c.seqno] + Seqnos(r);
    SeqnoOfKey(m.v5, c.seqno);
    forall k | k in m.store && k in [key] + rest ensures SeqnoOf(k) in Seqnos(all) {
      if k == key {
        assert Seqnos(all)[0] == SeqnoOf(k);
      } else {
        assert k in rest;
      }
    }
  }

  /** Every listed entry is restored, once, with the number of its key. */
  lemma {:induction false} RestoredAre(keys: seq<string>, work: seq<Command>, m: Client, client: int, id: nat)
    requires m.persistent && Mirrored(work, m, false)
    requires forall i :: 0 <= i < |keys| && IsCommandKey(keys[i]) ==> keys[i] in m.store
    requires forall i, j :: 0 <= i < j < |keys| && IsCommandKey(keys[i]) ==> keys[i] != keys[j]
    ensures var r := RestoredFrom(keys, m.store, client, id);
            AllFromStore(r, id, client, m, keys) && AllThere(r, m, keys) && OneEach(r)
    decreases |keys|
  {
    hide Key, Decode, IsWork, Mirrored, IsCommandKey, HasTag, SeqnoOf, FromEntry, FromStore, Seqnos;
    if keys != [] {
      var key, rest := keys[0], keys[1..];
      assert keys == [key] + rest;
      var c := FromEntry(key, m.store, client, id);
      if IsCommandKey(key) {
        FirstRestored(key, work, m, client, id, keys);
        RestoredAre(rest, work, m, client, id + 1);
        assert key !in rest;
        var r := RestoredFrom(rest, m.store, client, id + 1);
        OneMoreStored(c.value, r, id, client, m, rest, key);
        OneMoreEach(c.value, r, id, client, m, rest);
        OneMoreThere(c.value, r, m, rest, key);
      } else {
        NotRestored(key, m.store, client, id);
        RestoredAre(rest, work, m, client, id);
        MoreKeys(RestoredFrom(rest, m.store, client, id), id, client, m, rest, keys);
        if key in m.store {
          var i := KeyOfEntry(work, m, key);
        }
      }
    }
  }

  /** They carry the numbers of the listing, in its order. */
  lemma {:induction false} NumbersAreListed(keys: seq<string>, work: seq<Command>, m: Client, client: int, id: nat)
    requires m.persistent && Mirrored(work, m, false)
    requires forall i :: 0 <= i < |keys| && IsCommandKey(keys[i]) ==> keys[i] in m.store
    ensures Seqnos(RestoredFrom(keys, m.store, client, id)) == ListedNumbers(keys)
    decreases |keys|
  {
    hide Key, Decode, IsWork, Mirrored, IsCommandKey, HasTag, SeqnoOf, FromEntry, FromStore;
    if keys != [] {
      var key, rest := keys[0], keys[1..];
      assert forall i :: 0 <= i < |rest| ==> rest[i] == keys[i + 1];
      if IsCommandKey(key) {
        FirstRestored(key, work, m, client, id, keys);
        var c := FromEntry(key, m.store, client, id).value;
        EntryFacts(key, m.store, client, id);
        NumbersAreListed(rest, work, m, client, id + 1);
        var r := RestoredFrom(rest, m.store, client, id + 1);
        assert RestoredFrom(keys, m.store, client, id) == [c] + r;
        assert ([c] + r)[1..] == r;
      } else {
        NotRestored(key, m.store, client, id);
        NumbersAreListed(rest, work, m, client, id);
        assert [] + ListedNumbers(rest) == ListedNumbers(rest);
      }
    }
  }

  lemma NotRestored(key: string, store: map<string, seq<Byte>>, client: int, id: nat)
    requires !IsCommandKey(key)
    ensures FromEntry(key, store, client, id).None?
  {
  }

  lemma FirstRestored(key: string, work: seq<Command>, m: Client, client: int, id: nat, keys: seq<string>)
    requires m.persistent && Mirrored(work, m, false) && key in m.store && IsCommandKey(key) && key in keys
    ensures var c := FromEntry(key, m.store, client, id);
            c.Some? && FromStore(c.value, id, client, m, keys) && key == Key(m.v5, c.value.seqno)
  {
    hide Key, Decode, IsWork, Mirrored, HasTag, SeqnoOf, Stored;
    var i := KeyOfEntry(work, m, key);
    EntryDecodes(work[i], m);
    FromEntryIs(key, m.store, client, id);
    EntryFacts(key, m.store, client, id);
  }

  lemma FromEntryIs(key: string, store: map<string, seq<Byte>>, client: int, id: nat)
    requires IsCommandKey(key) && key in store && Decode(store[key], HasTag(key, true)).Some?
    ensures FromEntry(key, store, client, id).Some?
  {
    hide Decode, HasTag, SeqnoOf;
  }

  /** The restored commands are those queued before, with their numbers and contents, in the order of the listing. */
  lemma RestartRebuilds(work: seq<Command>, m: Client, client: int, keys: seq<string>, id: nat)
    requires m.persistent && Mirrored(work, m, false) && Listing(keys, m)
    ensures var r := RestoredFrom(keys, m.store, client, id);
            && (forall n :: n in Seqnos(r) <==> n in Seqnos(work))
            && (forall i, j :: 0 <= i < |r| && 0 <= j < |work| && r[i].seqno == work[j].seqno ==>
                                 && (work[j].restored || AllWellTyped(work[j].content.properties))
                                 && r[i].content == AfterRestart(work[j], m.v5))
            && Seqnos(r) == ListedNumbers(keys)
  {
    hide Key, Decode, IsWork, Stored, RestoredFrom, Numbers, Seqnos, Mirrored, SeqnoOf, AfterRestart, ListedNumbers;
    RestoredAre(keys, work, m, client, id);
    NumbersAreListed(keys, work, m, client, id);
    var r := RestoredFrom(keys, m.store, client, id);
    forall n ensures n in Seqnos(r) <==> n in Seqnos(work) {
      if n in Seqnos(r) {
        RestoredWasQueued(r, id, work, m, keys, client, n);
      }
      if n in Seqnos(work) {
        QueuedIsRestored(r, work, m, keys, n);
      }
    }
    forall i, j | 0 <= i < |r| && 0 <= j < |work| && r[i].seqno == work[j].seqno
      ensures work[j].restored || AllWellTyped(work[j].content.properties)
      ensures r[i].content == AfterRestart(work[j], m.v5)
    {
      assert FromStore(r[i], id + i, client, m, keys);
      QueuedIsStored(work, m, j);
      EntryDecodes(work[j], m);
    }
  }

  lemma QueuedIsStored(work: seq<Command>, m: Client, j: nat)
    requires m.persistent && Mirrored(work, m, false) && j < |work|
    ensures Stored(work[j], m)
  {
    hide Stored;
  }

  /** The order survives exactly if the command keys are listed by ascending number. */
  lemma OrderSurvives(work: seq<Command>, m: Client, client: int, keys: seq<string>, id: nat)
    requires m.persistent && Mirrored(work, m, true) && Listing(keys, m)
    ensures Seqnos(RestoredFrom(keys, m.store, client, id)) == Seqnos(work) <==> KeysAscend(keys)
  {
    hide RestoredFrom, Seqnos, Mirrored, Listing, KeysAscend, ListedNumbers;
    MirroredAnyway(work, m, true);
    RestartRebuilds(work, m, client, keys, id);
    ListedAscend(keys);
    MirrorAscends(work, m);
    if KeysAscend(keys) {
      AscendingIsUnique(ListedNumbers(keys), Seqnos(work));
    }
  }

  lemma MirroredAnyway(work: seq<Command>, m: Client, ordered: bool)
    requires Mirrored(work, m, ordered)
    ensures Mirrored(work, m, false)
  {
    hide Stored, HasKey;
  }

  lemma MirrorAscends(work: seq<Command>, m: Client)
    requires m.persistent && Mirrored(work, m, true)
    ensures Ascending(Seqnos(work))
  {
    hide AllStored, AllNamed;
    NumbersAscend(work);
  }

  lemma RestoredWasQueued(r: seq<Command>, id: nat, work: seq<Command>, m: Client, keys: seq<string>, client: int,
                          n: nat)
    requires m.persistent && Mirrored(work, m, false) && AllFromStore(r, id, client, m, keys) && n in Seqnos(r)
    ensures n in Seqnos(work)
  {
    hide Key, Decode, IsWork, Stored, SeqnoOf, Mirrored;
    var i :| 0 <= i < |Seqnos(r)| && Seqnos(r)[i] == n;
    assert FromStore(r[i], id + i, client, m, keys);
    var k := KeyOfEntry(work, m, Key(m.v5, n));
    KeysDiffer(m.v5, work[k].seqno, n);
    assert Seqnos(work)[k] == n;
  }

  lemma QueuedIsRestored(r: seq<Command>, work: seq<Command>, m: Client, keys: seq<string>, n: nat)
    requires m.persistent && Mirrored(work, m, false) && Listing(keys, m) && AllThere(r, m, keys) && n in Seqnos(work)
    ensures n in Seqnos(r)
  {
    hide Key, EntryFor, SeqnoOf, AllNamed, Numbers, IsCommandKey;
    var k :| 0 <= k < |Seqnos(work)| && Seqnos(work)[k] == n;
    assert Stored(work[k], m);
    SeqnoOfKey(m.v5, n);
    assert Key(m.v5, n) in m.store && Key(m.v5, n) in keys;
  }

  lemma NumbersAscend(work: seq<Command>)
    ensures Numbers(work, true) <==> Ascending(Seqnos(work))
  {
    var s := Seqnos(work);
    forall i, j | Ascending(s) && 0 <= i < j < |work|
      ensures work[i].seqno < work[j].seqno
    {
      assert s[i] == work[i].seqno && s[j] == work[j].seqno;
    }
  }

  // ---------- Insertion by number ----------

  /** The index of the first command with a higher number. */
  function SeqnoPlace(q: seq<Command>, seqno: nat): (i: nat)
    ensures i <= |q| && (forall j :: 0 <= j < i ==> q[j].seqno <= seqno) && (i < |q| ==> seqno < q[i].seqno)
  {
    if q == [] || seqno < q[0].seqno then 0 else 1 + SeqnoPlace(q[1..], seqno)
  }

  /** `MQTTAsync_insertInOrder`, which the source has commented out. */
  function InsertedBySeqno(q: seq<Command>, c: Command): seq<Command> {
    q[..SeqnoPlace(q, c.seqno)] + [c] + q[SeqnoPlace(q, c.seqno)..]
  }

  function RestoredBySeqno(q: seq<Command>, cs: seq<Command>): seq<Command>
    decreases |cs|
  {
    if cs == [] then q else RestoredBySeqno(InsertedBySeqno(q, cs[0]), cs[1..])
  }

  /** No command stands behind a client's work with a higher number than it. */
  predicate Leads(q: seq<Command>, client: int) {
    forall i, j :: 0 <= i < j < |q| && Work(q[j]) && q[j].client == client ==> q[i].seqno <= q[j].seqno
  }

  lemma InsertionLeads(q: seq<Command>, c: Command)
    requires Leads(q, c.client) && Work(c)
    ensures Leads(InsertedBySeqno(q, c), c.client)
  {
    hide SeqnoPlace, IsWork;
    var p := SeqnoPlace(q, c.seqno);
    var r := InsertedBySeqno(q, c);
    assert forall i :: 0 <= i < |r| ==> r[i] == (if i < p then q[i] else if i == p then c else q[i - 1]);
    forall i, j | 0 <= i < j < |r| && Work(r[j]) && r[j].client == c.client
      ensures r[i].seqno <= r[j].seqno
    {
      if j > p && i == p {
        assert c.seqno < q[p].seqno;
      }
    }
  }

  predicate Rises(w: seq<Command>) {
    forall i, j :: 0 <= i < j < |w| ==> w[i].seqno <= w[j].seqno
  }

  lemma ConsRises(c: Command, w: seq<Command>)
    requires Rises(w) && forall i :: 0 <= i < |w| ==> c.seqno <= w[i].seqno
    ensures Rises([c] + w)
  {
  }

  lemma {:induction false} LeadsRises(q: seq<Command>, client: int)
    requires Leads(q, client)
    ensures Rises(WorkOf(q, client))
    ensures forall x :: x in WorkOf(q, client) ==> x in q
    decreases |q|
  {
    hide IsWork, Rises;
    if q == [] {
      NothingRises();
    } else {
      assert forall i :: 0 <= i < |q| - 1 ==> q[1..][i] == q[i + 1];
      LeadsRises(q[1..], client);
      var rest := WorkOf(q[1..], client);
      forall i | 0 <= i < |rest|
        ensures q[0].seqno <= rest[i].seqno
      {
        assert rest[i] in q[1..];
        var k :| 0 <= k < |q[1..]| && q[1..][k] == rest[i];
        assert q[k + 1] == rest[i];
      }
      ConsRises(q[0], rest);
      assert WorkOf(q, client) == [q[0]] + rest || WorkOf(q, client) == rest;
      assert forall x :: x in q[1..] ==> x in q;
    }
  }

  lemma NothingRises()
    ensures Rises([])
  {
  }

  lemma InsertionAdds(q: seq<Command>, c: Command)
    requires Work(c) && OneEach(WorkOf(q, c.client)) && c.seqno !in Seqnos(WorkOf(q, c.client))
    ensures var r := WorkOf(InsertedBySeqno(q, c), c.client);
            OneEach(r) && forall n :: n in Seqnos(r) <==> n in Seqnos(WorkOf(q, c.client)) || n == c.seqno
  {
    hide SeqnoPlace, IsWork, WorkOf;
    var p := SeqnoPlace(q, c.seqno);
    var a, b := q[..p], q[p..];
    assert q == a + b && InsertedBySeqno(q, c) == a + ([c] + b);
    WorkOfConcat(a, b, c.client);
    WorkOfConcat(a, [c] + b, c.client);
    WorkOfConcat([c], b, c.client);
    WorkOfOne(c, c.client);
    NewNumber(WorkOf(a, c.client), WorkOf(b, c.client), c);
  }

  lemma NewNumber(a: seq<Command>, b: seq<Command>, c: Command)
    requires OneEach(a + b) && c.seqno !in Seqnos(a + b)
    ensures OneEach(a + ([c] + b))
    ensures forall n :: n in Seqnos(a + ([c] + b)) <==> n in Seqnos(a + b) || n == c.seqno
  {
    hide Seqnos;
    SeqnosConcat(a, b);
    SeqnosConcat(a, [c] + b);
    SeqnosConcat([c], b);
    SeqnosOne(c);
    var s, t := Seqnos(a), Seqnos(b);
    assert Seqnos(a + ([c] + b)) == s + ([c.seqno] + t);
    NumbersApart(s, t, c.seqno);
    EachIsApart(a + b);
    EachIsApart(a + ([c] + b));
  }

  lemma SeqnosOne(c: Command)
    ensures Seqnos([c]) == [c.seqno]
  {
  }

  lemma SeqnosConcat(a: seq<Command>, b: seq<Command>)
    ensures Seqnos(a + b) == Seqnos(a) + Seqnos(b)
  {
  }

  predicate Apart(ns: seq<nat>) {
    forall i, j :: 0 <= i < j < |ns| ==> ns[i] != ns[j]
  }

  lemma EachIsApart(q: seq<Command>)
    ensures OneEach(q) <==> Apart(Seqnos(q))
  {
    var s := Seqnos(q);
    forall i, j | Apart(s) && 0 <= i < j < |q|
      ensures q[i].seqno != q[j].seqno
    {
      assert s[i] == q[i].seqno && s[j] == q[j].seqno;
    }
  }

  lemma NumbersApart(s: seq<nat>, t: seq<nat>, n: nat)
    requires Apart(s + t) && n !in s + t
    ensures Apart(s + ([n] + t))
    ensures forall k :: k in s + ([n] + t) <==> k in s + t || k == n
  {
    var u, v := s + t, s + ([n] + t);
    assert forall i :: 0 <= i < |v| ==> v[i] == (if i < |s| then u[i] else if i == |s| then n else u[i - 1]);
    forall i, j | 0 <= i < j < |v|
      ensures v[i] != v[j]
    {
      if i == |s| {
        assert u[j - 1] in u;
      } else if j == |s| {
        assert u[i] in u;
      } else {
        assert u[if i < |s| then i else i - 1] != u[if j < |s| then j else j - 1];
      }
    }
  }

  lemma {:induction false} AllInserted(q: seq<Command>, cs: seq<Command>, client: int)
    requires Leads(q, client) && OneEach(WorkOf(q, client)) && OneEach(cs)
    requires forall i :: 0 <= i < |cs| ==> Work(cs[i]) && cs[i].client == client
    requires forall i :: 0 <= i < |cs| ==> cs[i].seqno !in Seqnos(WorkOf(q, client))
    ensures var r := RestoredBySeqno(q, cs);
            && Leads(r, client) && OneEach(WorkOf(r, client))
            && forall n :: n in Seqnos(WorkOf(r, client)) <==> n in Seqnos(WorkOf(q, client)) || n in Seqnos(cs)
    decreases |cs|
  {
    hide WorkOf, IsWork, InsertedBySeqno;
    if cs != [] {
      InsertionLeads(q, cs[0]);
      InsertionAdds(q, cs[0]);
      assert forall i :: 0 <= i < |cs| - 1 ==> cs[1..][i] == cs[i + 1];
      AllInserted(InsertedBySeqno(q, cs[0]), cs[1..], client);
      assert Seqnos(cs) == [cs[0].seqno] + Seqnos(cs[1..]);
    }
  }

  /** Inserted by number, the restored commands would always stand in the old order, however the keys are listed. */
  lemma SeqnoOrderRebuilds(others: seq<Command>, work: seq<Command>, m: Client, client: int, keys: seq<string>)
    requires m.persistent && Mirrored(work, m, true) && Listing(keys, m)
    requires forall i :: 0 <= i < |others| ==> others[i].client != client
    ensures Seqnos(WorkOf(RestoredBySeqno(others, RestoredFrom(keys, m.store, client, 0)), client)) == Seqnos(work)
  {
    hide Key, Decode, IsWork, Stored, RestoredFrom, Numbers, Seqnos, Mirrored, SeqnoOf, WorkOf, RestoredBySeqno;
    MirroredAnyway(work, m, true);
    RestoredAre(keys, work, m, client, 0);
    RestartRebuilds(work, m, client, keys, 0);
    var cs := RestoredFrom(keys, m.store, client, 0);
    WorkOfOthers(others, client);
    forall i | 0 <= i < |cs| ensures Work(cs[i]) && cs[i].client == client {
      assert FromStore(cs[i], 0 + i, client, m, keys);
    }
    assert Seqnos([]) == [];
    AllInserted(others, cs, client);
    var r := RestoredBySeqno(others, cs);
    LeadsRises(r, client);
    StrictlyAscends(WorkOf(r, client));
    MirrorAscends(work, m);
    AscendingIsUnique(Seqnos(WorkOf(r, client)), Seqnos(work));
  }

  lemma StrictlyAscends(w: seq<Command>)
    requires OneEach(w) && Rises(w)
    ensures Ascending(Seqnos(w))
  {
  }
}
