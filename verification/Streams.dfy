/** How the two ends of a test number their data streams and decide which way each one carries data. */
module Streams {
  import opened Bytes

  // ----- modes

  /** SENDER = 1, RECEIVER = 0, BIDIRECTIONAL = -1. */
  datatype Mode = Sender | Receiver | Bidirectional

  datatype Role = Client | Server

  type int32 = n: int | -0x8000_0000 <= n < 0x8000_0000

  class Stream {
    var id: nat
    const sender: bool
    const connection: nat       // the socket, numbered in the order of the client's connects

    // iperf_stream and iperf_stream_result
    var bytesSent: nat
    var bytesSentOmit: nat
    var bytesReceived: nat
    var packetCount: int
    var omittedPacketCount: int
    var peerPacketCount: int
    var peerOmittedPacketCount: int
    var cntError: int
    var omittedCntError: int
    var retrans: int

    constructor (sender: bool, connection: nat)
      ensures this.sender == sender && this.connection == connection && Idle(this)
    {
      this.sender, this.connection := sender, connection;
      id, bytesSent, bytesSentOmit, bytesReceived := 0, 0, 0, 0;
      packetCount, omittedPacketCount, peerPacketCount, peerOmittedPacketCount := 0, 0, 0, 0;
      cntError, omittedCntError, retrans := 0, 0, 0;
    }
  }

  /** The id of the k-th stream: the second one is 3, which the source keeps for old peers. */
  function IdAt(k: nat): nat {
    if k == 0 then 1 else k + 2
  }

  lemma IdsDiffer(k: nat, l: nat)
    ensures IdAt(k) == IdAt(l) <==> k == l
  {
  }

  /** 0, 1, ..., n - 1. */
  function InTurn(n: nat): seq<nat> {
    seq(n, i => i)
  }

  function Copies(b: bool, n: nat): seq<bool> {
    seq(n, _ => b)
  }

  /** Which streams of an end send, in order: the client creates its senders first, the server accepts its receivers first. */
  function Directions(role: Role, mode: Mode, n: nat): seq<bool> {
    match mode
    case Sender => Copies(true, n)
    case Receiver => Copies(false, n)
    case Bidirectional => if role == Client then Copies(true, n) + Copies(false, n) else Copies(false, n) + Copies(true, n)
  }

  predicate Mirrors(a: Mode, b: Mode) {
    match a
    case Sender => b == Receiver
    case Receiver => b == Sender
    case Bidirectional => b == Bidirectional
  }

  /** At every place one end sends and the other receives. */
  lemma DirectionsOppose(mode: Mode, other: Mode, n: nat, k: nat)
    requires Mirrors(mode, other)
    ensures |Directions(Client, mode, n)| == |Directions(Server, other, n)|
    ensures k < |Directions(Client, mode, n)| ==> Directions(Client, mode, n)[k] != Directions(Server, other, n)[k]
  {
  }

  class Endpoint {
    const role: Role
    var mode: Mode
    var reverse: bool
    var bidirectional: bool
    var numStreams: nat
    var streams: seq<Stream>
    const tcpInfo: bool         // the protocol and the platform tell retransmits
    var senderHasRetransmits: int32
    var otherSideHasRetransmits: int32

    /** A new test in its role, with no streams: iperf_set_test_role on the default flags. */
    constructor (role: Role, tcpInfo: bool)
      ensures this.role == role && this.tcpInfo == tcpInfo && Settled() && Flagged()
      ensures !reverse && !bidirectional && streams == [] && numStreams == 1
    {
      this.role, this.tcpInfo := role, tcpInfo;
      senderHasRetransmits, otherSideHasRetransmits := if role == Client && tcpInfo then 1 else 0, 0;
      mode := if role == Client then Sender else Receiver;
      reverse, bidirectional := false, false;
      numStreams, streams := 1, [];
    }

    /** The mode is the one the flags ask for. */
    predicate Settled()
      reads this
    {
      && !(reverse && bidirectional)
      && mode == if bidirectional then Bidirectional else if reverse == (role == Client) then Receiver else Sender
    }

    /** Retransmits are to be had exactly where something is sent. */
    predicate Flagged()
      reads `mode, `senderHasRetransmits
    {
      senderHasRetransmits == if mode != Receiver && tcpInfo then 1 else 0
    }

    /** check_sender_has_retransmits. */
    method CheckSenderHasRetransmits()
      modifies `senderHasRetransmits
      ensures Flagged()
    {
      if mode != Receiver && tcpInfo {
        senderHasRetransmits := 1;
      } else {
        senderHasRetransmits := 0;
      }
    }

    /** iperf_set_test_reverse. */
    method SetReverse(reverse: bool)
      modifies `mode, `reverse, `senderHasRetransmits
      ensures Flagged()
      ensures this.reverse == reverse && mode == if reverse == (role == Client) then Receiver else Sender
    {
      this.reverse := reverse;
      if !reverse {
        if role == Client {
          mode := Sender;
        } else {
          mode := Receiver;
        }
      } else {
        if role == Client {
          mode := Receiver;
        } else {
          mode := Sender;
        }
      }
      CheckSenderHasRetransmits();
    }

    /** iperf_set_test_bidirectional. */
    method SetBidirectional(bidirectional: bool)
      modifies `mode, `reverse, `bidirectional, `senderHasRetransmits
      ensures if bidirectional then senderHasRetransmits == old(senderHasRetransmits) else Flagged()
      ensures this.bidirectional == bidirectional && reverse == old(reverse)
      ensures mode == if bidirectional then Bidirectional else if reverse == (role == Client) then Receiver else Sender
    {
      this.bidirectional := bidirectional;
      if bidirectional {
        mode := Bidirectional;
      } else {
        SetReverse(reverse);
      }
    }

    /** The options -R and --bidir of the client, which refuse each other. */
    method Options(wantReverse: bool, wantBidirectional: bool) returns (ok: bool)
      requires Settled() && !reverse && !bidirectional
      modifies `mode, `reverse, `bidirectional, `senderHasRetransmits
      ensures role == Client && old(Flagged()) ==> Flagged()
      ensures ok == !(wantReverse && wantBidirectional) && Settled()
      ensures ok ==> reverse == wantReverse && bidirectional == wantBidirectional
    {
      if wantReverse {
        if bidirectional {
          return false;
        }
        SetReverse(true);
      }
      if wantBidirectional {
        if reverse {
          return false;
        }
        SetBidirectional(true);
      }
      return true;
    }

    /** What get_parameters does with the flags and the stream count of the client. */
    method TakeParameters(parallel: nat, reverse: bool, bidirectional: bool)
      requires Settled() && !this.reverse && !this.bidirectional
      modifies `mode, `reverse, `bidirectional, `numStreams, `senderHasRetransmits
      ensures old(Flagged()) ==> Flagged()
      ensures numStreams == parallel && this.reverse == reverse && this.bidirectional == bidirectional
      ensures if reverse && bidirectional then mode == Bidirectional else Settled()
    {
      numStreams := parallel;
      if reverse {
        SetReverse(true);
      }
      if bidirectional {
        SetBidirectional(true);
      }
      if mode != Receiver && tcpInfo {
        senderHasRetransmits := 1;
      }
    }

    /** Streams stand in order of their ids, with these directions, on these connections. */
    ghost predicate Lined(directions: seq<bool>, connections: seq<nat>)
      reads this, streams
    {
      && |streams| == |directions| == |connections|
      && (forall k :: 0 <= k < |streams| ==>
            streams[k].id == IdAt(k) && streams[k].sender == directions[k] && streams[k].connection == connections[k])
      && (forall k, l :: 0 <= k < l < |streams| ==> streams[k] != streams[l])
    }

    /** iperf_add_stream. */
    method AddStream(sp: Stream)
      requires sp !in streams
      modifies `streams, sp`id
      ensures streams == old(streams) + [sp] && sp.id == IdAt(|old(streams)|)
      ensures sp.id == if old(streams) == [] then 1 else |streams| + 1
    {
      if streams == [] {
        streams := [sp];
        sp.id := 1;
      } else {
        var i := 2;
        var n: nat := 0;
        while n < |streams|
          invariant n <= |streams| && i == n + 2
        {
          i := i + 1;
          n := n + 1;
        }
        streams := streams + [sp];
        sp.id := i;
      }
    }

    /** iperf_new_stream at the end of the list. */
    method NewStream(sender: bool, connection: nat, ghost directions: seq<bool>, ghost connections: seq<nat>)
      requires Lined(directions, connections)
      modifies `streams
      ensures Lined(directions + [sender], connections + [connection])
      ensures forall sp :: sp in streams ==> sp in old(streams) || (fresh(sp) && Idle(sp))
    {
      var sp := new Stream(sender, connection);
      AddStream(sp);
    }

    /** iperf_create_streams: the client connects one stream after the other. */
    method CreateStreams(sender: bool, ghost directions: seq<bool>)
      requires Lined(directions, InTurn(|directions|))
      modifies `streams
      ensures Lined(directions + Copies(sender, numStreams), InTurn(|directions| + numStreams))
      ensures forall sp :: sp in streams ==> sp in old(streams) || (fresh(sp) && Idle(sp))
    {
      hide InTurn;
      var i: nat := 0;
      assert directions + Copies(sender, 0) == directions;
      while i < numStreams
        invariant i <= numStreams && Lined(directions + Copies(sender, i), InTurn(|directions| + i))
        invariant forall sp :: sp in streams ==> sp in old(streams) || (fresh(sp) && Idle(sp))
      {
        assert directions + Copies(sender, i + 1) == directions + Copies(sender, i) + [sender];
        OneMoreTurn(|directions| + i);
        NewStream(sender, |streams|, directions + Copies(sender, i), InTurn(|directions| + i));
        i := i + 1;
      }
    }

    /** The client on CREATE_STREAMS. */
    method CreateAll()
      requires role == Client && streams == []
      modifies `streams
      ensures var directions := Directions(Client, mode, numStreams); Lined(directions, InTurn(|directions|))
      ensures forall sp :: sp in streams ==> fresh(sp) && Idle(sp)
    {
      if mode == Bidirectional {
        CreateStreams(true, []);
        CreateStreams(false, [] + Copies(true, numStreams));
        assert [] + Copies(true, numStreams) + Copies(false, numStreams) == Directions(Client, mode, numStreams);
      } else {
        CreateStreams(mode == Sender, []);
        assert [] + Copies(mode == Sender, numStreams) == Directions(Client, mode, numStreams);
      }
    }

    /**
     * The server in CREATE_STREAMS: each connection it accepts is one of the client's, by its number, or rejected for its
     * cookie, and a rejected one is already closed when it comes back from the accept.
     */
    method AcceptAll(arrivals: seq<Option<nat>>) returns (complete: bool)
      requires role == Server && streams == []
      modifies `streams
      ensures complete == (|Ours(arrivals)| >= |Directions(Server, mode, numStreams)|)
      ensures complete ==> var all := Directions(Server, mode, numStreams); Lined(all, Ours(arrivals)[..|all|])
      ensures forall sp :: sp in streams ==> fresh(sp) && Idle(sp)
    {
      hide Directions, Ours, IdAt, Idle, Lined;
      var toRec: nat := if mode == Sender then 0 else numStreams;
      var toSend: nat := if mode == Receiver then 0 else numStreams;
      var recAccepted: nat, sendAccepted: nat := 0, 0;
      var i: nat := 0;
      ghost var all := Directions(Server, mode, numStreams);
      AllDirections(mode, numStreams, toRec, toSend);
      NoneOurs(this, arrivals[..0]);
      while i < |arrivals| && !(recAccepted == toRec && sendAccepted == toSend)
        invariant i <= |arrivals| && recAccepted <= toRec && sendAccepted <= toSend
        invariant sendAccepted > 0 ==> recAccepted == toRec
        invariant recAccepted + sendAccepted == |Ours(arrivals[..i])| <= |all|
        invariant Lined(all[..recAccepted + sendAccepted], Ours(arrivals[..i]))
        invariant forall sp :: sp in streams ==> fresh(sp) && Idle(sp)
      {
        OursNext(arrivals, i);
        if arrivals[i].Some? {
          ghost var k: nat := recAccepted + sendAccepted;
          var flag := false;
          if recAccepted != toRec {
            flag := false;
            recAccepted := recAccepted + 1;
          } else if sendAccepted != toSend {
            flag := true;
            sendAccepted := sendAccepted + 1;
          }
          assert all[..k + 1] == all[..k] + [flag];
          NewStream(flag, arrivals[i].value, all[..k], Ours(arrivals[..i]));
        }
        i := i + 1;
      }
      complete := recAccepted == toRec && sendAccepted == toSend;
      assert arrivals[..|arrivals|] == arrivals;
      OursGrow(arrivals, i);
      if complete {
        assert all[..|all|] == all && Ours(arrivals)[..|all|] == Ours(arrivals[..i]);
      }
    }
  }

  lemma OneMoreTurn(n: nat)
    ensures InTurn(n + 1) == InTurn(n) + [n] && |InTurn(n)| == n
  {
  }

  /** The server waits for its receivers, then for its senders. */
  lemma AllDirections(mode: Mode, n: nat, toRec: nat, toSend: nat)
    requires toRec == (if mode == Sender then 0 else n) && toSend == if mode == Receiver then 0 else n
    ensures var all := Directions(Server, mode, n); |all| == toRec + toSend && forall k :: 0 <= k < |all| ==> all[k] == (k >= toRec)
  {
  }

  /** The client's connections among those accepted, in the order of their acceptance. */
  function Ours(arrivals: seq<Option<nat>>): seq<nat> {
    if arrivals == [] then []
    else
      var rest, last := Ours(arrivals[..|arrivals| - 1]), arrivals[|arrivals| - 1];
      if last.Some? then rest + [last.value] else rest
  }

  lemma NoneOurs(e: Endpoint, arrivals: seq<Option<nat>>)
    requires arrivals == [] && e.streams == []
    ensures Ours(arrivals) == [] && e.Lined([], [])
  {
  }

  lemma OursNext(arrivals: seq<Option<nat>>, i: nat)
    requires i < |arrivals|
    ensures Ours(arrivals[..i + 1]) == if arrivals[i].Some? then Ours(arrivals[..i]) + [arrivals[i].value] else Ours(arrivals[..i])
  {
    assert arrivals[..i + 1][..i] == arrivals[..i];
  }

  lemma {:induction false} OursGrow(arrivals: seq<Option<nat>>, i: nat)
    requires i <= |arrivals|
    ensures Ours(arrivals[..i]) <= Ours(arrivals)
  {
    if i == |arrivals| {
      assert arrivals[..i] == arrivals;
    } else {
      assert arrivals[..|arrivals| - 1][..i] == arrivals[..i];
      OursGrow(arrivals[..|arrivals| - 1], i);
    }
  }

  /** Nothing has been carried or counted yet. */
  ghost predicate Idle(sp: Stream)
    reads sp
  {
    && sp.bytesSent == sp.bytesSentOmit == sp.bytesReceived == 0
    && sp.packetCount == sp.omittedPacketCount == sp.peerPacketCount == sp.peerOmittedPacketCount == 0
    && sp.cntError == sp.omittedCntError == sp.retrans == 0
  }

  /** The two ends of every connection bear the same id and carry data the same way. */
  ghost predicate EndsMeet(client: Endpoint, server: Endpoint)
    reads client, server, client.streams, server.streams
  {
    forall k, l :: 0 <= k < |client.streams| && 0 <= l < |server.streams| && client.streams[k].connection == server.streams[l].connection ==>
      client.streams[k].id == server.streams[l].id && client.streams[k].sender != server.streams[l].sender
  }

  /**
   * From the options of the client to the streams of both ends, whatever foreign connections come between: once the
   * server has as many of ours as it waits for, the two lists of streams match up, with ids that all differ, and they
   * belong to the same connections exactly if these were accepted in the order they were made.
   */
  method Establish(wantReverse: bool, wantBidirectional: bool, parallel: nat, arrivals: seq<Option<nat>>, clientInfo: bool, serverInfo: bool)
    returns (ok: bool, client: Endpoint, server: Endpoint)
    requires forall k :: Some(k) in arrivals ==> k < parallel * if wantBidirectional then 2 else 1
    ensures ok <==> !(wantReverse && wantBidirectional) && |Ours(arrivals)| >= parallel * (if wantBidirectional then 2 else 1)
    ensures fresh(client) && fresh(server) && client != server
    ensures ok ==> Directed(client) && Directed(server) && client.Flagged() && server.Flagged()
    ensures ok ==> Matched(client, server) && |client.streams| == parallel * if wantBidirectional then 2 else 1
    ensures ok ==> (EndsMeet(client, server) <==> InTurn(|client.streams|) <= Ours(arrivals))
    ensures ok ==> forall sp :: sp in client.streams + server.streams ==> fresh(sp) && Idle(sp)
    ensures ok ==> forall k :: 0 <= k < |client.streams| ==>
                     client.streams[k].id == IdAt(k) && client.streams[k].sender == (k < parallel && !wantReverse)
  {
    hide Ours, InTurn, Directions, EndsMeet, Idle, IdAt, Endpoint.Lined;
    ok, client, server := Negotiate(wantReverse, wantBidirectional, parallel, clientInfo, serverInfo);
    if ok {
      ClientLine(client.mode, parallel);
      DirectionsOppose(client.mode, server.mode, parallel, 0);
      client.CreateAll();
      ok := server.AcceptAll(arrivals);
      if ok {
        OursBelong(arrivals, |Directions(Client, client.mode, parallel)|);
        LinesMeet(client, server, parallel, Ours(arrivals));
        forall k: nat {
          DirectionsOppose(client.mode, server.mode, parallel, k);
        }
        ConnectionsMeet(client, server, Directions(Client, client.mode, parallel), Directions(Server, server.mode, parallel), Ours(arrivals));
      }
    }
  }

  /** The options at the client and the parameters it sends to the server. */
  method Negotiate(wantReverse: bool, wantBidirectional: bool, parallel: nat, clientInfo: bool, serverInfo: bool)
    returns (ok: bool, client: Endpoint, server: Endpoint)
    ensures client.Flagged() && server.Flagged()
    ensures fresh(client) && fresh(server) && client != server && client.role == Client && server.role == Server
    ensures client.streams == server.streams == [] && ok == !(wantReverse && wantBidirectional)
    ensures ok ==> client.numStreams == server.numStreams == parallel && Mirrors(client.mode, server.mode)
    ensures ok ==> client.mode == if wantBidirectional then Bidirectional else if wantReverse then Receiver else Sender
  {
    client := new Endpoint(Client, clientInfo);
    server := new Endpoint(Server, serverInfo);
    client.numStreams := parallel;
    ok := client.Options(wantReverse, wantBidirectional);
    if ok {
      server.TakeParameters(client.numStreams, client.reverse, client.bidirectional);
    }
  }

  lemma ClientLine(mode: Mode, n: nat)
    ensures |Directions(Client, mode, n)| == n * if mode == Bidirectional then 2 else 1
    ensures forall k :: 0 <= k < |Directions(Client, mode, n)| ==> Directions(Client, mode, n)[k] == (k < n && mode != Receiver)
  {
  }

  lemma {:induction false} OursBelong(arrivals: seq<Option<nat>>, n: nat)
    requires forall k :: Some(k) in arrivals ==> k < n
    ensures forall k :: k in Ours(arrivals) ==> k < n
  {
    if arrivals != [] {
      OursBelong(arrivals[..|arrivals| - 1], n);
      assert arrivals[|arrivals| - 1] in arrivals;
    }
  }

  lemma LinesMeet(client: Endpoint, server: Endpoint, n: nat, accepted: seq<nat>)
    requires Mirrors(client.mode, server.mode)
    requires var all := Directions(Client, client.mode, n); client.Lined(all, InTurn(|all|))
    requires var all := Directions(Server, server.mode, n); |all| <= |accepted| && server.Lined(all, accepted[..|all|])
    requires forall k :: k in accepted ==> k < |Directions(Client, client.mode, n)|
    ensures |client.streams| == |server.streams| == |Directions(Client, client.mode, n)|
    ensures forall k :: 0 <= k < |client.streams| ==>
              client.streams[k].id == server.streams[k].id == IdAt(k) && client.streams[k].sender != server.streams[k].sender
    ensures forall k :: 0 <= k < |client.streams| ==> client.streams[k].sender == Directions(Client, client.mode, n)[k]
    ensures forall k, l :: 0 <= k < l < |client.streams| ==> client.streams[k].id != client.streams[l].id
    ensures Directed(client) && Directed(server)
  {
    hide InTurn;
    forall k: nat {
      DirectionsOppose(client.mode, server.mode, n, k);
    }
  }

  lemma ConnectionsMeet(client: Endpoint, server: Endpoint, directions: seq<bool>, opposite: seq<bool>, accepted: seq<nat>)
    requires |directions| == |opposite| <= |accepted| && forall k :: 0 <= k < |directions| ==> directions[k] != opposite[k]
    requires client.Lined(directions, InTurn(|directions|)) && server.Lined(opposite, accepted[..|directions|])
    requires forall k :: k in accepted ==> k < |directions|
    ensures EndsMeet(client, server) <==> InTurn(|client.streams|) <= accepted
  {
    var m := |client.streams|;
    if EndsMeet(client, server) {
      forall l | 0 <= l < m ensures accepted[l] == l {
        var k := accepted[l];
        assert k in accepted && client.streams[k].connection == server.streams[l].connection;
        IdsDiffer(k, l);
      }
    }
    if InTurn(m) <= accepted {
      assert forall l :: 0 <= l < m ==> accepted[l] == InTurn(m)[l] == l;
    }
  }

  /** An end that only receives has no stream that sends. */
  ghost predicate Directed(e: Endpoint)
    reads e`mode, e`streams
  {
    e.mode == Receiver ==> forall sp :: sp in e.streams ==> !sp.sender
  }

  /** The streams of two ends match up. */
  ghost predicate Matched(client: Endpoint, server: Endpoint)
    reads client`streams, server`streams, client.streams, server.streams
  {
    && |client.streams| == |server.streams|
    && (forall k :: 0 <= k < |client.streams| ==>
          client.streams[k].id == server.streams[k].id && client.streams[k].sender != server.streams[k].sender)
    && (forall k, l :: 0 <= k < l < |client.streams| ==> client.streams[k].id != client.streams[l].id)
    && (forall sp :: sp in client.streams ==> sp !in server.streams)
  }
}
