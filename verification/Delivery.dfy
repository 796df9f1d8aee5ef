/** Delivery of publications to the application: `Protocol_processPublication` and the message queue. */
module Delivery {

  datatype Message = Message(topic: string, payload: seq<int>, qos: int, retained: bool, dup: bool, msgid: int)

  /** The message made from a publication: QoS 2 messages are never marked as duplicates. */
  function Received(publish: Message): Message {
    if publish.qos == 2 then publish.(dup := false) else publish
  }

  /** An arriving publication, or a turn of the receiving thread, each with what `messageArrived` answers if it is
      called; `connected` is the state of the client. */
  datatype Event =
    | Arrival(publish: Message, connected: bool, answer: int)
    | Turn(answer: int)

  /** The queue with the record of the run. */
  datatype State = State(messageQueue: seq<Message>, arrived: seq<Message>, accepted: seq<Message>)

  function Apply(s: State, e: Event): State {
    match e
    case Arrival(publish, connected, answer) =>
      var m, t := Received(publish), s.(arrived := s.arrived + [Received(publish)]);
      if s.messageQueue == [] && connected && answer != 0 then t.(accepted := t.accepted + [m])
      else t.(messageQueue := t.messageQueue + [m])
    case Turn(answer) =>
      if s.messageQueue != [] && answer != 0 then
        s.(messageQueue := s.messageQueue[1..], accepted := s.accepted + [s.messageQueue[0]])
      else s
  }

  function Run(s: State, events: seq<Event>): State
    decreases |events|
  {
    if events == [] then s else Run(Apply(s, events[0]), events[1..])
  }

  /** What was accepted, followed by what still waits, is what arrived. */
  predicate InOrder(s: State) {
    s.accepted + s.messageQueue == s.arrived
  }

  class Inbox {
    var messageQueue: seq<Message>
    /** Whether a `messageArrived` callback is set. */
    var ma: bool
    var arrived: seq<Message>
    var accepted: seq<Message>

    constructor ()
      ensures messageQueue == [] && arrived == [] && accepted == [] && !ma
    {
      messageQueue, ma, arrived, accepted := [], false, [], [];
    }

    ghost function S(): State
      reads this
    {
      State(messageQueue, arrived, accepted)
    }

    /** `MQTTAsync_deliverMessage`; the answer is the application's. */
    method DeliverMessage(m: Message, answer: int) returns (rc: int)
      modifies `accepted
      ensures rc == answer && accepted == if answer != 0 then old(accepted) + [m] else old(accepted)
    {
      rc := answer;
      if rc != 0 {
        accepted := accepted + [m];
      }
    }

    /** `Protocol_processPublication`: while others wait a publication is not offered, even to a callback that would
        take it. */
    method ProcessPublication(publish: Message, connected: bool, answer: int)
      modifies this
      ensures ma == old(ma) && (ma ==> S() == Apply(old(S()), Arrival(publish, connected, answer)))
      ensures var m := if publish.qos == 2 then publish.(dup := false) else publish;
              && arrived == old(arrived) + [m]
              && if ma && old(messageQueue) == [] && connected && answer != 0
                 then accepted == old(accepted) + [m] && messageQueue == []
                 else accepted == old(accepted) && messageQueue == old(messageQueue) + [m]
    {
      var m := publish;
      if publish.qos == 2 {
        m := m.(dup := false);
      }
      arrived := arrived + [m];
      var rc := 0;
      if |messageQueue| == 0 && connected {
        if ma {
          rc := DeliverMessage(m, answer);
        }
      }
      if rc == 0 {
        messageQueue := messageQueue + [m];
      }
    }

    /** The head of the queue in `MQTTAsync_receiveThread`; without a callback it is thrown away. */
    method DeliverQueued(answer: int)
      modifies `messageQueue, `accepted
      ensures ma ==> S() == Apply(old(S()), Turn(answer))
      ensures if old(messageQueue) == [] || (ma && answer == 0)
              then messageQueue == old(messageQueue) && accepted == old(accepted)
              else messageQueue == old(messageQueue)[1..]
                   && accepted == if ma then old(accepted) + [old(messageQueue)[0]] else old(accepted)
    {
      if |messageQueue| > 0 {
        var rc := 1;
        if ma {
          rc := DeliverMessage(messageQueue[0], answer);
        }
        if rc != 0 {
          messageQueue := messageQueue[1..];
        }
      }
    }
  }

  lemma StepInOrder(s: State, e: Event)
    requires InOrder(s)
    ensures InOrder(Apply(s, e)) && s.accepted <= Apply(s, e).accepted && s.arrived <= Apply(s, e).arrived
  {
  }

  /** With a callback set and no session cleaned, nothing is lost, reordered or accepted twice, whatever the callback
      answers. */
  lemma {:induction false} DeliveredInOrder(s: State, events: seq<Event>)
    requires InOrder(s)
    ensures InOrder(Run(s, events))
    ensures s.accepted <= Run(s, events).accepted && s.arrived <= Run(s, events).arrived
    decreases |events|
  {
    if events != [] {
      StepInOrder(s, events[0]);
      DeliveredInOrder(Apply(s, events[0]), events[1..]);
    }
  }

  function Turns(n: nat): seq<Event> {
    if n == 0 then [] else [Turn(1)] + Turns(n - 1)
  }

  /** As many turns as messages wait, all accepted, deliver everything that arrived. */
  lemma {:induction false} QueueDrains(s: State)
    requires InOrder(s)
    ensures Run(s, Turns(|s.messageQueue|)).accepted == s.arrived
    decreases |s.messageQueue|
  {
    if s.messageQueue == [] {
      assert s.accepted + [] == s.accepted;
    } else {
      var t := Apply(s, Turn(1));
      StepInOrder(s, Turn(1));
      QueueDrains(t);
      assert Turns(|s.messageQueue|)[1..] == Turns(|t.messageQueue|);
    }
  }
}
