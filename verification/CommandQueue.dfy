/** The command queue of the asynchronous client as a state machine.

    One queue is shared by all clients.  PUBLISH, SUBSCRIBE and UNSUBSCRIBE commands ("work") go from the queue through
    the hands of the sending thread to their client's response list, or are finished at once; CONNECT and internal
    DISCONNECT commands go to the head of the queue.  A section of the source that runs under a mutex is one step.  What
    the network and the protocol code answer is part of the event. */
module CommandQueue {
  import opened Bytes
  import opened CommandCodec
  import opened CommandKeys
  import opened Wrappers

  const MAX_MSG_ID := 65535

  /** Addresses of the callbacks, zero for none. */
  datatype Callbacks = Callbacks(onSuccess: nat, onFailure: nat, onSuccess5: nat, onFailure5: nat)

  /** `MQTTAsync_queuedCommand`.  `id` counts submissions of work and `restored` marks commands from the store; both are
      there for the specification only. */
  datatype Command = Command(id: nat, client: int, content: Content, seqno: nat, calls: Callbacks, restored: bool)

  predicate Work(c: Command) {
    IsWork(c.content.details)
  }

  /** The part of `MQTTAsyncs` and `Clients` the queue works with.  `store` holds the command entries of the persistent
      store; `pendingWrite` the id of the command the pointer refers to. */
  datatype Client = Client(v5: bool, persistent: bool, commandSeqno: nat, store: map<string, seq<Byte>>,
                           responses: seq<Command>, pendingWrite: Option<nat>)

  /** What the selection asks of a client's connection. */
  datatype Net = Net(connected: bool, idle: bool, writable: bool, outbound: nat, maxInflight: nat)

  datatype Call = NoCall | SuccessCall | FailureCall

  /** `hand` is the command taken from the queue and not yet settled.  `finished` with `calls` (one entry each: the
      callback made), `dispatched` and `owners` (the client of every submission) record the run. */
  datatype State = State(queue: seq<Command>, hand: Option<Command>, clients: map<int, Client>,
                         finished: seq<Command>, calls: seq<Call>, dispatched: seq<Command>, owners: seq<int>)

  /** Return codes of the protocol functions. */
  datatype Result = Complete | Interrupted | SocketError | PersistenceError

  datatype Packet =
    | Suback(msgId: int, codes: seq<int>)
    | Unsuback(msgId: int)
    | Puback(msgId: int, reason: int)

  datatype Event =
    | Submit(client: int, content: Content, calls: Callbacks)
    | Control(command: Command)
    | Take(net: map<int, Net>)
    | Settle(result: Result, follow: Option<Command>)
    | Acknowledge(client: int, packet: Packet)
    | WriteDone(client: int, code: int)
    | CleanSession(client: int)
    | Destroy(client: int)

  // ---------- Lists of commands ----------

  function Without(q: seq<Command>, i: nat): seq<Command>
    requires i < |q|
  {
    q[..i] + q[i + 1..]
  }

  /** The commands of one client, in order. */
  function Of(q: seq<Command>, client: int): seq<Command> {
    if q == [] then [] else (if q[0].client == client then [q[0]] else []) + Of(q[1..], client)
  }

  function NotOf(q: seq<Command>, client: int): seq<Command> {
    if q == [] then [] else (if q[0].client != client then [q[0]] else []) + NotOf(q[1..], client)
  }

  // ---------- Adding ----------

  /** CONNECT and internal DISCONNECT commands, which go to the head. */
  predicate Urgent(d: Details) {
    d.Connect? || (d.Disconnect? && d.internal)
  }

  predicate SameType(a: Details, b: Details) {
    (a.Connect? && b.Connect?) || (a.Disconnect? && b.Disconnect?)
  }

  /** `MQTTAsync_persistCommand`: a DISCONNECT takes a number but is not stored. */
  function Persisted(client: Client, c: Command): Client
    requires Work(c) ==> WellFormed(c.content, client.v5)
  {
    if !client.persistent then client
    else
      var seqno := client.commandSeqno + 1;
      client.(commandSeqno := seqno,
              store := if Work(c) then client.store[Key(client.v5, seqno) := Encode(c.content, client.v5)]
                       else client.store)
  }

  /** The queued form: stored commands know their number. */
  function Numbered(client: Client, c: Command): Command {
    if client.persistent && Work(c) then c.(seqno := client.commandSeqno + 1) else c
  }

  /** `MQTTAsync_addCommand`. */
  function AfterAdd(s: State, c: Command): State
    requires c.client in s.clients
    requires Work(c) ==> WellFormed(c.content, s.clients[c.client].v5)
  {
    if Urgent(c.content.details) then
      if s.queue != [] && s.queue[0].client == c.client && SameType(s.queue[0].content.details, c.content.details) then s
      else s.(queue := [c] + s.queue)
    else
      s.(queue := s.queue + [Numbered(s.clients[c.client], c)],
         clients := s.clients[c.client := Persisted(s.clients[c.client], c)])
  }

  function AfterSubmit(s: State, client: int, content: Content, calls: Callbacks): State
    requires client in s.clients && WellFormed(content, s.clients[client].v5) && IsWork(content.details)
  {
    AfterAdd(s, Command(|s.owners|, client, content, 0, calls, false)).(owners := s.owners + [client])
  }

  // ---------- Taking ----------

  predicate Eligible(c: Command, n: Net, v5: bool) {
    && (c.content.details.Connect? || c.content.details.Disconnect? || (n.connected && n.idle && n.writable))
    && !(Work(c) && n.outbound >= MAX_MSG_ID - 1)
    && !(v5 && Work(c) && (c.content.details.Publish? ==> c.content.details.qos > 0) && n.outbound >= n.maxInflight)
  }

  predicate Covers(net: map<int, Net>, s: State) {
    forall i :: 0 <= i < |s.queue| ==> s.queue[i].client in net && s.queue[i].client in s.clients
  }

  predicate EligibleIn(c: Command, net: map<int, Net>, clients: map<int, Client>)
    requires c.client in net && c.client in clients
  {
    Eligible(c, net[c.client], clients[c.client].v5)
  }

  /** The command the loop of `MQTTAsync_processCommand` stops at, from `i` on. */
  function Select(s: State, net: map<int, Net>, i: nat, ignored: set<int>): (r: Option<nat>)
    requires i <= |s.queue| && Covers(net, s)
    ensures r.Some? ==> i <= r.value < |s.queue| && s.queue[r.value].client !in ignored
    decreases |s.queue| - i
  {
    if i == |s.queue| then None
    else if s.queue[i].client in ignored then Select(s, net, i + 1, ignored)
    else if EligibleIn(s.queue[i], net, s.clients) then Some(i)
    else Select(s, net, i + 1, ignored + {s.queue[i].client})
  }

  /** `MQTTAsync_unpersistCommand`. */
  function Unpersisted(client: Client, c: Command): Client {
    if client.persistent then client.(store := client.store - {Key(client.v5, c.seqno)}) else client
  }

  function AfterTakeAt(s: State, i: nat): State
    requires i < |s.queue| && s.queue[i].client in s.clients
  {
    var c := s.queue[i];
    s.(queue := Without(s.queue, i), hand := Some(c),
       clients := s.clients[c.client := Unpersisted(s.clients[c.client], c)],
       dispatched := if Work(c) then s.dispatched + [c] else s.dispatched)
  }

  /** The first half of `MQTTAsync_processCommand`. */
  function AfterTake(s: State, net: map<int, Net>): State
    requires Covers(net, s)
  {
    var i := Select(s, net, 0, {});
    if i.None? then s else AfterTakeAt(s, i.value)
  }

  // ---------- Finishing ----------

  /** A command is freed; work is recorded with the callback made. */
  function Finish(s: State, c: Command, call: Call): State {
    if Work(c) then s.(finished := s.finished + [c], calls := s.calls + [call]) else s
  }

  function OnSuccess(calls: Callbacks): Call {
    if calls.onSuccess != 0 || calls.onSuccess5 != 0 then SuccessCall else NoCall
  }

  function OnFailure(calls: Callbacks): Call {
    if calls.onFailure != 0 || calls.onFailure5 != 0 then FailureCall else NoCall
  }

  function Await(s: State, c: Command): State
    requires c.client in s.clients
  {
    var client := s.clients[c.client];
    s.(clients := s.clients[c.client := client.(responses := client.responses + [c])])
  }

  predicate Error(r: Result) {
    r.SocketError? || r.PersistenceError?
  }

  function AddFollow(s: State, follow: Option<Command>): State
    requires follow.Some? ==> follow.value.client in s.clients && !Work(follow.value)
  {
    if follow.Some? then AfterAdd(s, follow.value) else s
  }

  /** A QoS 0 publication whose write is not complete. */
  predicate Pending(c: Command, r: Result) {
    c.content.details.Publish? && c.content.details.qos == 0 && !r.Complete?
  }

  function Marked(s: State, c: Command, r: Result): State
    requires c.client in s.clients
  {
    if Pending(c, r) then
      s.(clients := s.clients[c.client := s.clients[c.client].(pendingWrite := Some(c.id))])
    else s
  }

  /** The second half of `MQTTAsync_processCommand`; `follow` is the CONNECT that is tried again, or the internal
      DISCONNECT after an error. */
  function AfterSettle(s: State, r: Result, follow: Option<Command>): State
    requires s.hand.Some? && s.hand.value.client in s.clients
    requires follow.Some? ==> follow.value.client in s.clients && !Work(follow.value)
  {
    var c, d, t := s.hand.value, s.hand.value.content.details, s.(hand := None);
    if d.Disconnect? then t
    else if d.Connect? then (if Error(r) then AddFollow(t, follow) else t)
    else
      var m := Marked(t, c, r);
      if Error(r) then Finish(AddFollow(m, follow), c, OnFailure(c.calls))
      else if d.Publish? && d.qos == 0 then
        if r.Complete? then Finish(m, c, OnSuccess(c.calls)) else Await(m, c)
      else Await(m, c)
  }

  // ---------- Acknowledgements ----------

  /** The first response with that message id. */
  function Response(responses: seq<Command>, msgId: int): (i: Option<nat>)
    ensures i.Some? ==> i.value < |responses| && responses[i.value].content.token == msgId
  {
    if responses == [] then None
    else if responses[0].content.token == msgId then Some(0)
    else
      var rest := Response(responses[1..], msgId);
      if rest.None? then None else Some(rest.value + 1)
  }

  const MQTT_BAD_SUBSCRIBE := 0x80
  const UNSPECIFIED_ERROR := 0x80

  /** The callback an acknowledgement brings about. */
  function CallFor(calls: Callbacks, p: Packet, v5: bool): Call {
    match p
    case Suback(_, codes) =>
      if v5 then
        if |codes| == 1 && codes[0] >= UNSPECIFIED_ERROR then (if calls.onFailure5 != 0 then FailureCall else NoCall)
        else if calls.onSuccess5 != 0 then SuccessCall else NoCall
      else if |codes| == 1 && codes[0] == MQTT_BAD_SUBSCRIBE then
        (if calls.onFailure != 0 then FailureCall else NoCall)
      else if calls.onSuccess != 0 then SuccessCall else NoCall
    case Unsuback(_) => OnSuccess(calls)
    case Puback(_, reason) =>
      if calls.onSuccess != 0 then SuccessCall
      else if calls.onSuccess5 != 0 && reason < UNSPECIFIED_ERROR then SuccessCall
      else if calls.onFailure5 != 0 && reason >= UNSPECIFIED_ERROR then FailureCall
      else NoCall
  }

  /** The acknowledgement reports an error: the one reason code of a SUBACK, or that of the packet. */
  predicate Refused(p: Packet) {
    match p
    case Suback(_, codes) => |codes| == 1 && codes[0] >= 0x80
    case Unsuback(_) => false
    case Puback(_, reason) => reason >= 0x80
  }

  /** The callbacks of a client's protocol version only, as the calls that take them see to. */
  predicate OfVersion(calls: Callbacks, v5: bool) {
    if v5 then calls.onSuccess == 0 && calls.onFailure == 0 else calls.onSuccess5 == 0 && calls.onFailure5 == 0
  }

  /** The call for a command with callbacks of its client's version only: the one for failure exactly if the command was
      refused.  Below version 5 only a SUBACK can refuse, with 0x80 as its one code. */
  predicate RightlyReported(calls: Callbacks, call: Call, p: Packet, v5: bool) {
    OfVersion(calls, v5) ==>
      if v5 then
        call == if Refused(p) then (if calls.onFailure5 != 0 then FailureCall else NoCall)
                else if calls.onSuccess5 != 0 then SuccessCall else NoCall
      else if p.Suback? && p.codes == [0x80] then call == if calls.onFailure != 0 then FailureCall else NoCall
      else call == if calls.onSuccess != 0 then SuccessCall else NoCall
  }

  lemma ReportIsRight(calls: Callbacks, p: Packet, v5: bool)
    ensures RightlyReported(calls, CallFor(calls, p, v5), p, v5)
  {
  }

  function RemoveResponse(s: State, client: int, i: nat): State
    requires client in s.clients && i < |s.clients[client].responses|
  {
    var m := s.clients[client];
    s.(clients := s.clients[client := m.(responses := Without(m.responses, i))])
  }

  /** The acknowledgements in `MQTTAsync_receiveThread` and `MQTTAsync_cycle`. */
  function AfterAcknowledge(s: State, client: int, p: Packet): State
    requires client in s.clients
  {
    var m := s.clients[client];
    var i := Response(m.responses, p.msgId);
    if i.None? then s
    else Finish(RemoveResponse(s, client, i.value), m.responses[i.value], CallFor(m.responses[i.value].calls, p, m.v5))
  }

  /** The response the pending write refers to. */
  function Written(responses: seq<Command>, id: nat): (i: Option<nat>)
    ensures i.Some? ==> i.value < |responses| && responses[i.value].id == id
  {
    if responses == [] then None
    else if responses[0].id == id then Some(0)
    else
      var rest := Written(responses[1..], id);
      if rest.None? then None else Some(rest.value + 1)
  }

  /** `MQTTAsync_writeComplete`. */
  function AfterWriteDone(s: State, client: int, code: int): State
    requires client in s.clients
  {
    var m := s.clients[client];
    if m.pendingWrite.None? then s
    else
      var t := s.(clients := s.clients[client := m.(pendingWrite := None)]);
      var i := Written(m.responses, m.pendingWrite.value);
      if i.None? then t
      else
        var c := m.responses[i.value];
        if !c.content.details.Publish? then Finish(RemoveResponse(t, client, i.value), c, NoCall)
        else if code == 1 && c.content.details.qos == 0 then
          Finish(RemoveResponse(t, client, i.value), c, OnSuccess(c.calls))
        else if code == -1 then Finish(RemoveResponse(t, client, i.value), c, OnFailure(c.calls))
        else t
  }

  // ---------- Cleaning ----------

  function FinishAll(s: State, cs: seq<Command>): State
    decreases |cs|
  {
    if cs == [] then s else FinishAll(Finish(s, cs[0], OnFailure(cs[0].calls)), cs[1..])
  }

  /** `MQTTAsync_removeResponsesAndCommands`. */
  function AfterRemove(s: State, client: int): State
    requires client in s.clients
  {
    var m := s.clients[client];
    var t := FinishAll(s.(clients := s.clients[client := m.(responses := [])]), m.responses);
    FinishAll(t.(queue := NotOf(s.queue, client)), Of(s.queue, client))
  }

  /** `MQTTAsync_cleanSession`. */
  function AfterClean(s: State, client: int): State
    requires client in s.clients
  {
    AfterRemove(s.(clients := s.clients[client := s.clients[client].(store := map[])]), client)
  }

  /** `MQTTAsync_destroy`: what is stored stays stored, but the client is gone. */
  function AfterDestroy(s: State, client: int): State
    requires client in s.clients
  {
    var t := AfterRemove(s, client);
    t.(clients := t.clients - {client})
  }

  // ---------- Steps ----------

  /** No live command of the client, and no queued command of any client, has that token. */
  predicate TokenFree(s: State, client: int, token: int)
    requires client in s.clients
  {
    && s.hand.None?
    && (forall i :: 0 <= i < |s.queue| ==> s.queue[i].content.token != token)
    && forall i :: 0 <= i < |s.clients[client].responses| ==> s.clients[client].responses[i].content.token != token
  }

  /** A CONNECT or DISCONNECT as it is made: no message id and no number. */
  predicate IsControl(c: Command) {
    !Work(c) && c.content.token == 0 && c.seqno == 0
  }

  /** The next number has a key that fits. */
  predicate KeyLeft(client: Client) {
    client.persistent ==> client.commandSeqno + 1 < KeyLimit(client.v5)
  }

  /** What the source and its callers guarantee.  Message ids are assigned and enqueued in one step. */
  predicate Enabled(s: State, e: Event) {
    match e
    case Submit(client, content, calls) =>
      client in s.clients && IsWork(content.details) && WellFormed(content, s.clients[client].v5)
      && KeyLeft(s.clients[client]) && (content.token == 0 || TokenFree(s, client, content.token))
    case Control(c) =>
      c.client in s.clients && IsControl(c) && (Urgent(c.content.details) || KeyLeft(s.clients[c.client]))
    case Take(net) => s.hand.None? && Covers(net, s)
    case Settle(_, follow) =>
      s.hand.Some? && s.hand.value.client in s.clients
      && (follow.Some? ==> follow.value.client in s.clients && IsControl(follow.value)
                           && Urgent(follow.value.content.details))
    case Acknowledge(client, _) => client in s.clients
    case WriteDone(client, _) => client in s.clients
    case CleanSession(client) => client in s.clients
    case Destroy(client) => client in s.clients && (s.hand.Some? ==> s.hand.value.client != client)
  }

  function Apply(s: State, e: Event): State
    requires Enabled(s, e)
  {
    match e
    case Submit(client, content, calls) => AfterSubmit(s, client, content, calls)
    case Control(c) => AfterAdd(s, c)
    case Take(net) => AfterTake(s, net)
    case Settle(r, follow) => AfterSettle(s, r, follow)
    case Acknowledge(client, p) => AfterAcknowledge(s, client, p)
    case WriteDone(client, code) => AfterWriteDone(s, client, code)
    case CleanSession(client) => AfterClean(s, client)
    case Destroy(client) => AfterDestroy(s, client)
  }

  /** Nothing submitted yet and nothing stored. */
  predicate Fresh(s: State) {
    && s.queue == [] && s.hand.None? && s.finished == [] && s.calls == [] && s.dispatched == [] && s.owners == []
    && forall c :: c in s.clients ==> s.clients[c].responses == [] && s.clients[c].store == map[]
  }
}
