/** Message ids, `MQTTAsync_assignMsgId` (section 2.3.1 of MQTT 3.1.1). */
module MessageIds {
  import opened CommandCodec
  import opened CommandQueue

  /** An id after another, starting again at 1. */
  function Next(id: int): int {
    if id == MAX_MSG_ID then 1 else id + 1
  }

  predicate HasToken(q: seq<Command>, id: int) {
    exists i :: 0 <= i < |q| && q[i].content.token == id
  }

  /** The id is in the queue, of whichever client, or in use by this one. */
  predicate InUse(commands: seq<Command>, outbound: seq<int>, responses: seq<Command>, id: int) {
    HasToken(commands, id) || id in outbound || HasToken(responses, id)
  }

  predicate IsId(id: int) {
    1 <= id <= 65535
  }

  /** Some id is free. */
  predicate SomeFree(commands: seq<Command>, outbound: seq<int>, responses: seq<Command>) {
    exists id :: 1 <= id <= MAX_MSG_ID && !InUse(commands, outbound, responses, id)
  }

  /** Every id but the last one assigned is in use. */
  predicate OthersInUse(commands: seq<Command>, outbound: seq<int>, responses: seq<Command>, last: int) {
    forall id :: 1 <= id <= MAX_MSG_ID && id != last ==> InUse(commands, outbound, responses, id)
  }

  /** How many ids come after `start` up to `id`, going around. */
  function Distance(start: int, id: int): int {
    if id > start then id - start else MAX_MSG_ID - start + id
  }

  /** The id tried after `k` unsuccessful ones. */
  function Tried(start: int, k: nat): int {
    if k == 0 then Next(start) else Next(Tried(start, k - 1))
  }

  class Session {
    /** The last id assigned, zero at first. */
    var msgID: int

    constructor ()
      ensures msgID == 0
    {
      msgID := 0;
    }

    /** `ListFindItem` with `cmdMessageIDCompare`. */
    method FindToken(q: seq<Command>, id: int) returns (found: bool)
      ensures found == HasToken(q, id)
    {
      for i := 0 to |q|
        invariant forall j :: 0 <= j < i ==> q[j].content.token != id
      {
        if q[i].content.token == id {
          return true;
        }
      }
      found := false;
    }

    method FindId(ids: seq<int>, id: int) returns (found: bool)
      ensures found == (id in ids)
    {
      for i := 0 to |ids|
        invariant id !in ids[..i]
      {
        if ids[i] == id {
          return true;
        }
      }
      found := false;
    }

    method IsInUse(commands: seq<Command>, outbound: seq<int>, responses: seq<Command>, id: int) returns (used: bool)
      ensures used == InUse(commands, outbound, responses, id)
    {
      hide HasToken;
      used := FindToken(commands, id);
      if !used {
        used := FindId(outbound, id);
      }
      if !used {
        used := FindToken(responses, id);
      }
    }

    /** The next free id after the last one assigned, or zero exactly if there is none but possibly that one itself.
        Before the first assignment the search only ends if some id is free. */
    method AssignMsgId(commands: seq<Command>, outbound: seq<int>, responses: seq<Command>) returns (msgid: int)
      requires 0 <= msgID <= MAX_MSG_ID
      requires msgID != 0 || SomeFree(commands, outbound, responses)
      modifies this
      ensures msgid == 0 <==> old(msgID) != 0 && OthersInUse(commands, outbound, responses, old(msgID))
      ensures msgid != 0 ==> IsId(msgid) && msgid != old(msgID) && !InUse(commands, outbound, responses, msgid)
      ensures msgid != 0 ==> && msgid !in outbound
                             && (forall i :: 0 <= i < |commands| ==> commands[i].content.token != msgid)
                             && forall i :: 0 <= i < |responses| ==> responses[i].content.token != msgid
      ensures msgid != 0 ==>
                forall id :: IsId(id) && Distance(old(msgID), id) < Distance(old(msgID), msgid) ==>
                               InUse(commands, outbound, responses, id)
      ensures msgID == if msgid == 0 then old(msgID) else msgid
    {
      hide InUse;
      var start := msgID;
      msgid := Next(start);
      var used := IsInUse(commands, outbound, responses, msgid);
      while used
        invariant IsId(msgid) && msgid != start && msgID == start
        invariant used == InUse(commands, outbound, responses, msgid)
        invariant forall id :: IsId(id) && id != start && Distance(start, id) < Distance(start, msgid) ==>
                                 InUse(commands, outbound, responses, id)
        decreases MAX_MSG_ID + 1 - Distance(start, msgid), used
      {
        NotAround(commands, outbound, responses, start, msgid);
        msgid := Next(msgid);
        if msgid == start {
          msgid := 0;
          break;
        }
        used := IsInUse(commands, outbound, responses, msgid);
      }
      if msgid != 0 {
        FoundNowhere(commands, outbound, responses, msgid);
        msgID := msgid;
      }
    }
  }

  lemma FoundNowhere(commands: seq<Command>, outbound: seq<int>, responses: seq<Command>, id: int)
    requires !InUse(commands, outbound, responses, id)
    ensures id !in outbound
    ensures forall i :: 0 <= i < |commands| ==> commands[i].content.token != id
    ensures forall i :: 0 <= i < |responses| ==> responses[i].content.token != id
  {
  }

  /** From zero the search does not come around while some id is free. */
  lemma NotAround(commands: seq<Command>, outbound: seq<int>, responses: seq<Command>, start: int, msgid: int)
    requires start == 0 ==> SomeFree(commands, outbound, responses)
    requires IsId(msgid) && InUse(commands, outbound, responses, msgid)
    requires forall id :: IsId(id) && id != start && Distance(start, id) < Distance(start, msgid) ==>
                            InUse(commands, outbound, responses, id)
    ensures start == 0 ==> msgid < MAX_MSG_ID
  {
    hide InUse;
    if start == 0 {
      var id :| 1 <= id <= MAX_MSG_ID && !InUse(commands, outbound, responses, id);
      assert IsId(id) && Distance(start, id) == id;
    }
  }

  // ---------- When the search ends ----------

  lemma {:induction false} TriedFromZero(k: nat)
    ensures Tried(0, k) == k % MAX_MSG_ID + 1
    decreases k
  {
    if k > 0 {
      TriedFromZero(k - 1);
    }
  }

  lemma {:induction false} TriedIsId(start: int, k: nat)
    requires 0 <= start <= MAX_MSG_ID
    ensures IsId(Tried(start, k))
    ensures start > 0 && k < MAX_MSG_ID ==> Tried(start, k) == (start + k) % MAX_MSG_ID + 1
    decreases k
  {
    if k > 0 {
      TriedIsId(start, k - 1);
    }
  }

  /** The search comes to a free id, or back to the id it started from, exactly if it did not start from zero or some id
      is free: after the first connection, with every id in use, the source searches without end. */
  lemma SearchEnds(commands: seq<Command>, outbound: seq<int>, responses: seq<Command>, start: int)
    requires 0 <= start <= MAX_MSG_ID
    ensures (exists k: nat :: !InUse(commands, outbound, responses, Tried(start, k)) || Tried(start, k) == start)
       <==> start != 0 || SomeFree(commands, outbound, responses)
  {
    hide InUse;
    if start != 0 {
      TriedIsId(start, MAX_MSG_ID - 1);
      assert Tried(start, MAX_MSG_ID - 1) == start;
    } else if SomeFree(commands, outbound, responses) {
      var id :| 1 <= id <= MAX_MSG_ID && !InUse(commands, outbound, responses, id);
      TriedFromZero(id - 1);
      assert !InUse(commands, outbound, responses, Tried(start, id - 1));
    } else {
      forall k: nat
        ensures InUse(commands, outbound, responses, Tried(start, k)) && Tried(start, k) != start
      {
        TriedIsId(start, k);
      }
    }
  }

  /** A queue that holds every id. */
  function FullQueue(): (q: seq<Command>)
    ensures |q| == MAX_MSG_ID && forall i :: 0 <= i < MAX_MSG_ID ==> q[i].content.token == i + 1
  {
    seq(MAX_MSG_ID, i requires 0 <= i =>
          Command(i, 0, Content(Unsubscribe([]), i + 1, []), 0, Callbacks(0, 0, 0, 0), false))
  }

  /** With that queue and no id assigned before, every id the search comes to is in use, for ever. */
  lemma SearchWithoutEnd(k: nat)
    ensures InUse(FullQueue(), [], [], Tried(0, k)) && Tried(0, k) != 0
  {
    hide FullQueue, Tried;
    TriedIsId(0, k);
    var q := FullQueue();
    assert q[Tried(0, k) - 1].content.token == Tried(0, k);
  }

  /** An id in use nowhere is one the queue's state machine accepts. */
  lemma AssignedIdIsFree(s: State, client: int, outbound: seq<int>, id: int)
    requires client in s.clients && s.hand.None?
    requires !InUse(s.queue, outbound, s.clients[client].responses, id)
    ensures TokenFree(s, client, id)
  {
  }
}
