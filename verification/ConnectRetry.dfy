/** Connecting when attempts fail: which server addresses and protocol versions are tried, and when it stops. */
module ConnectRetry {

  const MQTTVERSION_DEFAULT := 0
  const MQTTVERSION_3_1 := 3
  const MQTTVERSION_3_1_1 := 4
  const MQTTVERSION_5 := 5

  /** `details.conn` of a CONNECT command. */
  datatype Conn = Conn(currentURI: nat, version: int)

  datatype Attempt = Attempt(uri: nat, version: int)

  predicate IsVersion(v: int) {
    v in {MQTTVERSION_DEFAULT, MQTTVERSION_3_1, MQTTVERSION_3_1_1, MQTTVERSION_5}
  }

  function AtLeastOne(count: nat): nat {
    if count > 0 then count else 1
  }

  /** The attempts from address `uri` on: each address in turn, by default in version 3.1.1 and then in 3.1. */
  function AttemptsFrom(uri: nat, count: nat, version: int): seq<Attempt>
    decreases AtLeastOne(count) - uri
  {
    if uri >= AtLeastOne(count) then []
    else if version == MQTTVERSION_DEFAULT then
      [Attempt(uri, MQTTVERSION_3_1_1), Attempt(uri, MQTTVERSION_3_1)] + AttemptsFrom(uri + 1, count, version)
    else [Attempt(uri, version)] + AttemptsFrom(uri + 1, count, version)
  }

  class Connector {
    /** `serverURIcount` and the version of the client. */
    const serverURIcount: nat
    const clientVersion: int
    /** The CONNECT command in the queue, if any. */
    var queued: bool
    var command: Conn
    /** `m->connect`, the command of the attempt that is under way. */
    var connect: Conn
    var pending: bool
    /** The record of the run. */
    var attempts: seq<Attempt>
    var reports: nat

    constructor (serverURIcount: nat, clientVersion: int)
      requires IsVersion(clientVersion)
      ensures this.serverURIcount == serverURIcount && this.clientVersion == clientVersion
      ensures !queued && !pending && attempts == [] && reports == 0
    {
      this.serverURIcount, this.clientVersion := serverURIcount, clientVersion;
      queued, command, connect, pending := false, Conn(0, 0), Conn(0, 0), false;
      attempts, reports := [], 0;
    }

    /** The attempts still to come, the next command being `c`. */
    function Remaining(c: Conn): seq<Attempt> {
      if clientVersion == MQTTVERSION_DEFAULT && c.version == MQTTVERSION_3_1_1 then
        [Attempt(c.currentURI, MQTTVERSION_3_1)] + AttemptsFrom(c.currentURI + 1, serverURIcount, clientVersion)
      else AttemptsFrom(c.currentURI, serverURIcount, clientVersion)
    }

    /** A command that may stand in the queue. */
    ghost predicate Sensible(c: Conn) {
      && IsVersion(clientVersion) && c.currentURI < AtLeastOne(serverURIcount)
      && (clientVersion == MQTTVERSION_DEFAULT ==> c.version in {MQTTVERSION_DEFAULT, MQTTVERSION_3_1_1})
    }

    /** What comes after the attempt with `c` has failed. */
    ghost function After(c: Conn): seq<Attempt> {
      if clientVersion == MQTTVERSION_DEFAULT && c.version == MQTTVERSION_3_1_1 then
        [Attempt(c.currentURI, MQTTVERSION_3_1)] + AttemptsFrom(c.currentURI + 1, serverURIcount, clientVersion)
      else AttemptsFrom(c.currentURI + 1, serverURIcount, clientVersion)
    }

    /** A command an attempt has been made with. */
    ghost predicate Attempted(c: Conn) {
      && IsVersion(clientVersion) && c.currentURI < AtLeastOne(serverURIcount)
      && (if clientVersion == MQTTVERSION_DEFAULT then c.version in {MQTTVERSION_3_1_1, MQTTVERSION_3_1}
          else c.version == clientVersion)
    }

    /** `MQTTAsync_checkConn`: anything left to try? */
    method CheckConn(c: Conn) returns (more: bool)
      requires Attempted(c)
      ensures more <==> After(c) != []
    {
      more := c.currentURI + 1 < serverURIcount
           || (c.version == MQTTVERSION_3_1_1 && clientVersion == MQTTVERSION_DEFAULT);
    }

    /** The command for the next attempt, as both places that try again make it. */
    method NextConn(c: Conn) returns (d: Conn)
      requires Attempted(c) && After(c) != []
      ensures Sensible(d) && Remaining(d) == After(c)
    {
      d := c;
      if clientVersion == MQTTVERSION_DEFAULT {
        if c.version == MQTTVERSION_3_1 {
          d := Conn(c.currentURI + 1, MQTTVERSION_DEFAULT);
        }
      } else {
        d := c.(currentURI := c.currentURI + 1);
      }
    }

    /** `MQTTAsync_connect`, past its checks. */
    method Connect()
      requires IsVersion(clientVersion)
      modifies `queued, `command
      ensures queued && Sensible(command) && Remaining(command) == AttemptsFrom(0, serverURIcount, clientVersion)
    {
      queued, command := true, Conn(0, MQTTVERSION_DEFAULT);
    }

    /** The version the attempt is made with. */
    method ChooseVersion(c: Conn) returns (d: Conn)
      requires Sensible(c)
      ensures Attempted(d) && Remaining(c) == [Attempt(d.currentURI, d.version)] + After(d)
    {
      d := c;
      if clientVersion == MQTTVERSION_DEFAULT {
        if c.version == MQTTVERSION_DEFAULT {
          d := c.(version := MQTTVERSION_3_1_1);
        } else if c.version == MQTTVERSION_3_1_1 {
          d := c.(version := MQTTVERSION_3_1);
        }
      } else {
        d := c.(version := clientVersion);
      }
    }

    /** The attempt in `MQTTAsync_processCommand`; `started` says whether the TCP connect got under way. */
    method ProcessConnect(started: bool)
      requires queued && Sensible(command) && !pending
      modifies this
      ensures |attempts| == |old(attempts)| + 1 && attempts[..|old(attempts)|] == old(attempts)
      ensures if started then pending && !queued && Attempted(connect) && reports == old(reports)
                              && attempts + After(connect) == old(attempts + Remaining(command))
              else !pending && if queued then Sensible(command) && reports == old(reports)
                                              && attempts + Remaining(command) == old(attempts + Remaining(command))
                               else reports == old(reports) + 1 && attempts == old(attempts + Remaining(command))
    {
      hide AttemptsFrom;
      var c := ChooseVersion(command);
      queued := false;
      attempts := attempts + [Attempt(c.currentURI, c.version)];
      assert attempts + After(c) == old(attempts + Remaining(command));
      hide Remaining, After, Attempted, Sensible;
      if started {
        connect, pending := c, true;
      } else {
        var more := CheckConn(c);
        if more {
          command := NextConn(c);
          queued := true;
        } else {
          assert attempts + [] == attempts;
          reports := reports + 1;
          connect := c;
        }
      }
    }

    /** `nextOrClose`: an attempt under way fails. */
    method NextOrClose()
      requires pending && !queued && Attempted(connect)
      modifies this
      ensures !pending && attempts == old(attempts)
      ensures if queued then Sensible(command) && reports == old(reports) && Remaining(command) == old(After(connect))
              else reports == old(reports) + 1 && old(After(connect)) == []
    {
      pending := false;
      var more := CheckConn(connect);
      if more {
        command := NextConn(connect);
        queued := true;
      } else {
        reports := reports + 1;
      }
    }

    /** One connect request, every attempt of which fails, at once or later: each address is tried in order, and there is
        one failure report at the end. */
    method ConnectInVain()
      requires IsVersion(clientVersion) && !queued && !pending && attempts == [] && reports == 0
      modifies this
      ensures attempts == AttemptsFrom(0, serverURIcount, clientVersion) && reports == 1
      ensures !queued && !pending
    {
      Connect();
      ghost var all := AttemptsFrom(0, serverURIcount, clientVersion);
      assert [] + all == all;
      while queued
        invariant !pending && (if queued then Sensible(command) && attempts + Remaining(command) == all && reports == 0
                               else attempts == all && reports == 1)
        decreases |all| - |attempts|
      {
        SomethingRemains();
        var started: bool := *;
        ProcessConnect(started);
        if started {
          NextOrClose();
          assert !queued ==> attempts + [] == attempts;
        }
      }
    }

    lemma SomethingRemains()
      requires Sensible(command)
      ensures Remaining(command) != []
    {
    }
  }

  // ---------- The attempts ----------

  /** Twice as many attempts as addresses by default, otherwise as many, and one address at least. */
  lemma {:induction false} HowManyAttempts(uri: nat, count: nat, version: int)
    requires uri <= AtLeastOne(count)
    ensures |AttemptsFrom(uri, count, version)|
         == (if version == MQTTVERSION_DEFAULT then 2 else 1) * (AtLeastOne(count) - uri)
    decreases AtLeastOne(count) - uri
  {
    if uri < AtLeastOne(count) {
      HowManyAttempts(uri + 1, count, version);
    }
  }

  /** Which attempt comes when. */
  lemma {:induction false} WhichAttempt(uri: nat, count: nat, version: int, k: nat)
    requires uri <= AtLeastOne(count) && k < |AttemptsFrom(uri, count, version)|
    ensures AttemptsFrom(uri, count, version)[k]
         == if version != 0 then Attempt(uri + k, version) else Attempt(uri + k / 2, if k % 2 == 0 then 4 else 3)
    ensures AttemptsFrom(uri, count, version)[k].uri < AtLeastOne(count)
    decreases AtLeastOne(count) - uri
  {
    var step := if version == MQTTVERSION_DEFAULT then 2 else 1;
    if k >= step {
      WhichAttempt(uri + 1, count, version, k - step);
    }
  }
}
