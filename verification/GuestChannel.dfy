/**
 The serial channel to the guest agent (Agent.Read and Agent.Call of pkg/guestagent/guestagent.go).

 The channel itself has no message boundaries and survives connections: replies to requests of an earlier
 connection can surface on a new one. A new connection is therefore synchronised with a token, and any
 error gives the connection up.
 */
module GuestChannel {
  import opened Records

  /** A line from the guest: not JSON, or the reply to request number `to`. */
  datatype Line =
    | Noise
    | Value(to: nat, value: int)
    | Failure(to: nat)  // an error reply, or one whose return value is of another shape

  predicate IsReply(l: Line) { !l.Noise? }

  /** Reads up to the reply that carries the token: what is left after it, or None if it never comes. */
  function Resync(wire: seq<Line>, token: int): (rest: Option<seq<Line>>)
    ensures rest.Some? ==> |rest.value| < |wire|
  {
    if wire == [] then None
    else if wire[0].Value? && wire[0].value == token then Some(wire[1..])
    else Resync(wire[1..], token)
  }

  /** The first reply on the wire and what follows it; lines that are not JSON are skipped. */
  function NextReply(wire: seq<Line>): (r: Option<(Line, seq<Line>)>)
    ensures r.Some? ==> IsReply(r.value.0) && |r.value.1| < |wire|
  {
    if wire == [] then None
    else if IsReply(wire[0]) then Some((wire[0], wire[1..]))
    else NextReply(wire[1..])
  }

  /** No line of the wire could be taken for the reply to the synchronisation request. */
  predicate Unlike(wire: seq<Line>, token: int) {
    forall l :: l in wire && l.Value? ==> l.value != token
  }

  predicate AllNoise(wire: seq<Line>) {
    forall l :: l in wire ==> l.Noise?
  }

  /** Whatever stale lines come first, synchronising leaves exactly what follows the token's reply. */
  lemma {:induction false} ResyncDrains(stale: seq<Line>, token: int, to: nat, rest: seq<Line>)
    requires Unlike(stale, token)
    ensures Resync(stale + [Value(to, token)] + rest, token) == Some(rest)
  {
    var wire := stale + [Value(to, token)] + rest;
    if stale == [] {
      assert wire == [Value(to, token)] + rest;
    } else {
      assert wire[1..] == stale[1..] + [Value(to, token)] + rest;
      ResyncDrains(stale[1..], token, to, rest);
    }
  }

  /** Reading one reply is one step of synchronising. */
  lemma {:induction false} ResyncStep(wire: seq<Line>, token: int)
    requires NextReply(wire).Some?
    ensures var (l, rest) := NextReply(wire).value;
      Resync(wire, token) == if l.Value? && l.value == token then Some(rest) else Resync(rest, token)
  {
    if !IsReply(wire[0]) { ResyncStep(wire[1..], token); }
  }

  /** Behind noise, the next reply is the first one. */
  lemma {:induction false} NoiseIsSkipped(noise: seq<Line>, reply: Line, rest: seq<Line>)
    requires AllNoise(noise) && IsReply(reply)
    ensures NextReply(noise + [reply] + rest) == Some((reply, rest))
  {
    var wire := noise + [reply] + rest;
    if noise == [] {
      assert wire == [reply] + rest;
    } else {
      assert wire[0] == noise[0];
      assert wire[1..] == noise[1..] + [reply] + rest;
      NoiseIsSkipped(noise[1..], reply, rest);
    }
  }

  /** A token that no line on the wire carries, such as a fresh time stamp. */
  lemma FreshToken(wire: seq<Line>) returns (token: int)
    ensures Unlike(wire, token)
  {
    token := 0;
    for i := 0 to |wire|
      invariant forall k :: 0 <= k < i && wire[k].Value? ==> wire[k].value < token
    {
      if wire[i].Value? && token <= wire[i].value { token := wire[i].value + 1; }
    }
  }

  /** Agent and guest. `wire` is what the channel will still deliver, in order. */
  class Agent {
    const faulty: bool          // if not, the guest can be dialed, answers every request, and no line is lost
    var connected: bool
    var wire: seq<Line>
    var sent: nat               // requests written so far; request k is the k-th
    ghost var own: map<nat, Line>  // the guest's reply to each request it answered

    /** Everything on the wire is the guest's reply to some request that was written. */
    ghost predicate Answered()
      reads this
    {
      && (forall l :: l in wire && IsReply(l) ==> l.to < sent && l.to in own && own[l.to] == l)
      && (forall k :: k in own ==> k < sent && IsReply(own[k]) && own[k].to == k)
    }

    /** Between calls, a kept connection has no reply left to read. */
    ghost predicate Valid()
      reads this
    {
      Answered() && (connected ==> AllNoise(wire))
    }

    constructor (faulty: bool)
      ensures Valid() && !connected && sent == 0 && this.faulty == faulty
    {
      this.faulty := faulty;
      connected, wire, sent, own := false, [], 0, map[];
    }

    method Succeeds() returns (ok: bool)
      ensures !faulty ==> ok
    {
      ok := *;
      ok := ok || !faulty;
    }

    /** The connection goes; any part of what was on its way may surface on the next one. */
    method Drop()
      requires Answered()
      modifies this`connected, this`wire
      ensures Valid() && !connected
    {
      connected := false;
      var kept: seq<Line> := [];
      for i := 0 to |wire|
        invariant forall l :: l in kept ==> l in wire
      {
        var survives: bool := *;
        if survives { kept := kept + [wire[i]]; }
      }
      wire := kept;
    }

    /**
     Writes a request. The guest answers in order, after any amount of noise; on a failed write the guest may
     still have read it. `reply` is the guest's answer.
     */
    method Write(reply: Line) returns (ok: bool)
      requires connected
      requires Answered()
      requires IsReply(reply) && reply.to == sent
      modifies this`wire, this`sent, this`own
      ensures sent == old(sent) + 1
      ensures Answered()
      ensures own == old(own)[old(sent) := reply] || (!ok && own == old(own))
      ensures ok ==> exists noise :: AllNoise(noise) && wire == old(wire) + noise + [reply]
      ensures !faulty ==> ok
    {
      ok := Succeeds();
      var read: bool := *;
      sent := sent + 1;
      if ok || read {
        var n: int := *;
        ghost var before := wire;
        var noise: seq<Line> := [];
        while |noise| < n
          invariant AllNoise(noise)
        {
          noise := noise + [Noise];
        }
        wire := wire + noise + [reply];
        own := own[sent - 1 := reply];
        assert wire == before + noise + [reply];
      }
    }

    /** The next reply; the connection may break at any line. */
    method Read() returns (line: Option<Line>)
      modifies this`wire
      ensures line.Some? ==> NextReply(old(wire)) == Some((line.value, wire))
      ensures line.None? ==> forall l :: l in wire ==> l in old(wire)
      ensures !faulty && NextReply(old(wire)).Some? ==> line.Some?
    {
      while wire != []
        invariant forall l :: l in wire ==> l in old(wire)
        invariant NextReply(wire) == NextReply(old(wire))
        decreases |wire|
      {
        var arrives := Succeeds();
        if !arrives { return None; }
        var head := wire[0];
        wire := wire[1..];
        if IsReply(head) { return Some(head); }
      }
      line := None;  // the read deadline passes
    }

    /** Opens a connection and reads up to the token, past everything that is stale. */
    method Connect() returns (ok: bool)
      requires Valid() && !connected
      modifies this
      ensures Answered() && sent >= old(sent)
      ensures ok ==> connected && wire == []
      ensures sent <= old(sent) + 1 && (ok ==> sent == old(sent) + 1)
      ensures !faulty ==> ok
      ensures forall k :: k in old(own) ==> k in own && own[k] == old(own)[k]
    {
      var dialed := Succeeds();
      if !dialed { return false; }
      connected := true;
      ghost var stale := wire;
      ghost var unused := FreshToken(wire);
      var token :| Unlike(wire, token);
      var obeys := Succeeds();
      var reply := if obeys then Value(sent, token) else Failure(sent);
      ok := Write(reply);
      if !ok { return; }
      ghost var noise :| AllNoise(noise) && wire == stale + noise + [reply];
      SyncLeavesNothing(stale, noise, reply, token);
      ok := Synchronise(token);
    }

    /** Discards replies up to the one that carries the token. */
    method Synchronise(token: int) returns (ok: bool)
      requires Answered()
      requires Resync(wire, token) == None || Resync(wire, token) == Some([])
      modifies this`wire
      ensures Answered() && (ok ==> wire == [])
      ensures !faulty && Resync(old(wire), token).Some? ==> ok
    {
      while true
        invariant Answered()
        invariant Resync(wire, token) == None || Resync(wire, token) == Some([])
        invariant Resync(old(wire), token).Some? ==> Resync(wire, token).Some?
        decreases |wire|
      {
        ghost var before := wire;
        TokenIsReply(wire, token);
        var line := Read();
        if line.None? { return false; }
        ResyncStep(before, token);
        NextIsSuffix(before);
        if line.value.Value? && line.value.value == token { return true; }
      }
    }

    /**
     One request and its reply. A caller that gives up before its turn changes nothing; every later failure, of
     whatever kind, gives the connection up. `canceled` says whether the caller has given up, and `oversized` whether
     the request is longer than the guest takes: then it is not written.
     */
    method Call(canceled: bool, oversized: bool) returns (r: Option<int>, ghost mine: nat)
      requires Valid()
      modifies this
      ensures Valid()
      ensures r.Some? ==>
        connected && old(sent) <= mine < sent && mine in own && own[mine] == Value(mine, r.value)
        && mine == sent - 1
      ensures r.Some? ==> mine == old(sent) + (if old(connected) then 0 else 1)
      ensures r.None? ==> !connected || (canceled && connected == old(connected) && wire == old(wire) && sent == old(sent))
      ensures canceled ==> sent == old(sent)
      ensures oversized ==> sent <= old(sent) + (if old(connected) then 0 else 1)
      ensures canceled || oversized ==> r.None?
      ensures !faulty && !canceled && !oversized ==> r.Some?
      ensures forall k :: k in old(own) ==> k in own && own[k] == old(own)[k]
    {
      mine := sent;
      r := None;
      var admitted: bool := *;
      if canceled && !admitted { return; }
      var ready := connected;
      if !canceled && !connected { ready := Connect(); }
      if canceled || !ready || oversized {
        Drop();
        return;
      }
      mine := sent;
      r := Exchange();
      if r.None? { Drop(); }
    }

    /** On a connection with nothing left to read: writes the request and reads its reply. */
    method Exchange() returns (r: Option<int>)
      requires Valid() && connected
      modifies this`wire, this`sent, this`own
      ensures Answered() && sent == old(sent) + 1
      ensures r.Some? ==> wire == [] && old(sent) in own && own[old(sent)] == Value(old(sent), r.value)
      ensures forall k :: k in old(own) ==> k in own && own[k] == old(own)[k]
      ensures !faulty ==> r.Some?
    {
      r := None;
      ghost var quiet := wire;
      var answer: int := *;
      var agrees := Succeeds();
      var reply := if agrees then Value(sent, answer) else Failure(sent);
      var written := Write(reply);
      if !written { return; }
      ghost var noise :| AllNoise(noise) && wire == quiet + noise + [reply];
      assert wire == (quiet + noise) + [reply] + [];
      NoiseIsSkipped(quiet + noise, reply, []);
      var line := Read();
      var decodes := Succeeds();
      var inTime := Succeeds();
      if line.None? || line.value.Failure? || !decodes || !inTime { return; }
      r := Some(line.value.value);
    }
  }

  /** The token's reply is a reply. */
  lemma {:induction false} TokenIsReply(wire: seq<Line>, token: int)
    ensures Resync(wire, token).Some? ==> NextReply(wire).Some?
  {
    if wire != [] && !IsReply(wire[0]) { TokenIsReply(wire[1..], token); }
  }

  /** Behind stale lines and noise, only the token's own reply can end the synchronisation. */
  lemma SyncLeavesNothing(stale: seq<Line>, noise: seq<Line>, reply: Line, token: int)
    requires Unlike(stale, token) && AllNoise(noise)
    requires reply.Failure? || (reply.Value? && reply.value == token)
    ensures var rest := Resync(stale + noise + [reply], token);
      rest == if reply.Failure? then None else Some([])
  {
    var before := stale + noise;
    assert forall l :: l in before ==> l in stale || l in noise;
    if reply.Failure? {
      NoToken(before + [reply], token);
    } else {
      assert before + [reply] == before + [reply] + [];
      ResyncDrains(before, token, reply.to, []);
    }
  }

  lemma {:induction false} NoToken(wire: seq<Line>, token: int)
    requires Unlike(wire, token)
    ensures Resync(wire, token) == None
  {
    if wire != [] {
      assert wire[0] in wire;
      NoToken(wire[1..], token);
    }
  }

  /** What is left after a reply was already on the wire. */
  lemma {:induction false} NextIsSuffix(wire: seq<Line>)
    ensures NextReply(wire).Some? ==> forall l :: l in NextReply(wire).value.1 ==> l in wire
  {
    if wire != [] && !IsReply(wire[0]) { NextIsSuffix(wire[1..]); }
  }
}
