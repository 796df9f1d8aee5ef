/** Sending, subscribing and unsubscribing: a message id is assigned and the command enqueued with it, as one step. */
module Submissions {
  import opened AsyncClient
  import opened Bytes
  import opened CommandCodec
  import opened CommandQueue
  import opened MessageIds
  import opened Properties
  import opened Wrappers

  /** Publications of QoS 0 go without a message id. */
  predicate NeedsId(d: Details) {
    d.Publish? ==> d.qos > 0
  }

  lemma AnyTokenIsWellFormed(details: Details, properties: seq<Property>, id: int, v5: bool)
    requires WellFormed(Content(details, 0, properties), v5) && 0 <= id <= MAX_MSG_ID
    ensures WellFormed(Content(details, id, properties), v5)
  {
    hide AllWellTyped, Length, NoZero, AllNoZero, AllInts;
  }

  /** `MQTTAsync_send`, `MQTTAsync_subscribeMany` and `MQTTAsync_unsubscribeMany` past the checks of their arguments.
      Without a free message id nothing is submitted; otherwise the machine takes the step of the submission, with the
      next id that is in use nowhere. */
  method Send(queue: Async, session: Session, client: int, details: Details, properties: seq<Property>,
              callbacks: Callbacks, outbound: seq<int>) returns (token: Option<int>)
    requires client in queue.clients && queue.hand.None? && KeyLeft(queue.clients[client])
    requires IsWork(details) && WellFormed(Content(details, 0, properties), queue.clients[client].v5)
    requires 0 <= session.msgID <= MAX_MSG_ID
    requires session.msgID != 0 || SomeFree(queue.commands, outbound, queue.clients[client].responses)
    modifies queue`commands, queue`clients, queue`owners, session
    ensures token.None? <==>
              NeedsId(details) && OthersInUse(old(queue.commands), outbound, old(queue.clients)[client].responses,
                                              old(session.msgID))
    ensures token.None? ==> queue.S() == old(queue.S()) && session.msgID == old(session.msgID)
    ensures token.Some? ==>
              var e := Event.Submit(client, Content(details, token.value, properties), callbacks);
              Enabled(old(queue.S()), e) && queue.S() == Apply(old(queue.S()), e)
    ensures token.Some? ==>
              if NeedsId(details) then
                && IsId(token.value) && session.msgID == token.value
                && !InUse(old(queue.commands), outbound, old(queue.clients)[client].responses, token.value)
              else token.value == 0 && session.msgID == old(session.msgID)
    ensures details.Publish? && details.qos <= 0 ==> token == Some(0)
    ensures token.Some? && (details.Subscribe? || details.Unsubscribe? || details.qos > 0) ==> 1 <= token.value <= 65535
  {
    hide InUse, WellFormed, AfterSubmit;
    var id := 0;
    if NeedsId(details) {
      id := session.AssignMsgId(queue.commands, outbound, queue.clients[client].responses);
      if id == 0 {
        return None;
      }
      AssignedIdIsFree(queue.S(), client, outbound, id);
    }
    AnyTokenIsWellFormed(details, properties, id, queue.clients[client].v5);
    queue.Submit(client, Content(details, id, properties), callbacks);
    token := Some(id);
  }
}
