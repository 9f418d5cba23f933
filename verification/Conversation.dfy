/**
 * The two processes of the control conversation as objects: each goes by its own fields and by what it reads, and run
 * against one another they behave as Protocol says, in every interleaving.
 */
module Conversation {
  import opened Bytes
  import opened Framing
  import opened Protocol
  import opened ProtocolProof

  /** The fields of iperf_test the client's main loop goes by. */
  class ControlClient {
    var pc: ClientPc
    var state: byte
    var heard: seq<byte>
    var ends: nat

    constructor ()
      ensures View() == START.c
    {
      pc, state, heard, ends := Connect, 0, [], 0;
    }

    function View(): Client
      reads this
    {
      Client(pc, state, heard, ends)
    }

    /** iperf_handle_message_client, on the octet read. */
    method HandleMessage(octet: byte)
      modifies this
      ensures View() == ClientSwitch(old(View()), octet)
    {
      state := octet;
      heard := heard + [octet];
      if state == PARAM_EXCHANGE {
        pc := ParamsLength;
      } else if state == CREATE_STREAMS {
        pc := Creating(0);
      } else if state == TEST_START {
        pc := Loop;
      } else if state == TEST_RUNNING {
        pc := Loop;
      } else if state == EXCHANGE_RESULTS {
        pc := OurLength;
      } else if state == DISPLAY_RESULTS {
        pc := End;
      } else if state == IPERF_DONE {
        pc := Done;
      } else {
        pc := Failed;
      }
    }

    /** What has been read, where the client stands. */
    method Read(got: seq<Octet>, ghost w: World)
      requires View() == w.c && ClientNeeds(w.c).Some? && |w.down| >= ClientNeeds(w.c).value && got == w.down[..ClientNeeds(w.c).value]
      modifies this
      ensures View() == ClientReading(w).c
    {
      match pc {
        case Loop => HandleMessage(got[0].value);
        case TheirLength =>
          var size := NetToHost(Values(got));
          pc := if Acceptable(size, 0) then TheirBody(size) else Failed;
        case TheirBody(size) => pc := if size < INT_LIMIT then Loop else Failed;
      }
    }

    /** One more stream of iperf_create_streams, or the end of it. */
    method CreateNext(streams: nat) returns (connected: bool)
      requires pc.Creating?
      modifies `pc
      ensures connected == (old(pc).made < streams) && pc == if connected then Creating(old(pc).made + 1) else Loop
    {
      connected := pc.made < streams;
      pc := if connected then Creating(pc.made + 1) else Loop;
    }

    /** The next write. */
    method Write(cfg: Config, ghost w: World) returns (octets: seq<Octet>)
      requires View() == w.c && Proper(cfg) && Writes(w.c)
      modifies this
      ensures ClientActing(cfg, w) == w.(c := View(), up := w.up + octets)
    {
      match pc {
        case Connect =>
          octets := Marked(CookieOctet, cfg.cookie);
          pc := Loop;
        case ParamsLength =>
          octets := Marked(LengthOctet, HostToNet(|cfg.params|));
          pc := ParamsBody;
        case ParamsBody =>
          octets := Marked(BodyOctet, cfg.params);
          pc := Loop;
        case OurLength =>
          octets := Marked(LengthOctet, HostToNet(|cfg.ofClient|));
          pc := OurBody;
        case OurBody =>
          octets := Marked(BodyOctet, cfg.ofClient);
          pc := TheirLength;
        case End =>
          state := IPERF_DONE;
          octets := [Octet(StateOctet, IPERF_DONE)];
          pc := Done;
      }
    }

    /** The end of the test in iperf_run_client: TEST_END, which keeps it from being sent again. */
    method FinishTest() returns (sent: bool)
      modifies this
      ensures sent == (old(state) == TEST_RUNNING)
      ensures View() == if sent then old(View()).(state := TEST_END, ends := old(ends) + 1) else old(View())
    {
      sent := state == TEST_RUNNING;
      if sent {
        ends := ends + 1;
        state := TEST_END;
      }
    }
  }

  class ControlServer {
    var pc: ServerPc
    var state: byte
    var said: seq<byte>
    var accepted: nat

    constructor ()
      ensures View() == START.s
    {
      pc, state, said, accepted := AwaitCookie, 15, [], 0;
    }

    function View(): Server
      reads this
    {
      Server(pc, state, said, accepted)
    }

    /** iperf_handle_message_server, on the octet read. */
    method HandleMessage(octet: byte)
      modifies `pc, `state
      ensures View() == ServerSwitch(old(View()), octet)
    {
      state := octet;
      if state == TEST_START {
      } else if state == TEST_END {
        pc := PutExchange;
      } else if state == IPERF_DONE {
        pc := Over;
      } else if state == CLIENT_TERMINATE {
        state := IPERF_DONE;
        pc := Over;
      } else {
        pc := Broken;
      }
    }

    /** What has been read, where the server stands. */
    method Read(got: seq<Octet>, ghost w: World)
      requires View() == w.s && ServerNeeds(w.s).Some? && |w.up| >= ServerNeeds(w.s).value && got == w.up[..ServerNeeds(w.s).value]
      modifies `pc, `state
      ensures View() == ServerReading(w).s
    {
      match pc {
        case AwaitCookie => pc := Offer;
        case ReadLength =>
          var size := NetToHost(Values(got));
          pc := if Acceptable(size, MAX_PARAMS) then ReadBody(size) else Broken;
        case ReadBody(_) => pc := Ask;
        case ResultsLength =>
          var size := NetToHost(Values(got));
          pc := if Acceptable(size, 0) then ResultsBody(size) else Broken;
        case ResultsBody(size) => pc := if size < INT_LIMIT then ReplyLength else Broken;
        case Serve => HandleMessage(got[0].value);
      }
    }

    /** iperf_set_send_state. */
    method SetSendState(next: byte, after: ServerPc) returns (octets: seq<Octet>)
      modifies `pc, `state, `said
      ensures View() == old(View()).(pc := after, state := next, said := old(said) + [next]) && octets == StateOf(next)
    {
      state := next;
      said := said + [next];
      octets := [Octet(StateOctet, next)];
      pc := after;
    }

    /** The next write. */
    method Write(cfg: Config, ghost w: World) returns (octets: seq<Octet>)
      requires View() == w.s && Proper(cfg) && Enabled(cfg, w, ServerActs)
      modifies this
      ensures ServerActing(cfg, w) == w.(s := View(), down := w.down + octets)
    {
      match pc {
        case Offer => octets := SetSendState(PARAM_EXCHANGE, ReadLength);
        case Ask => octets := SetSendState(CREATE_STREAMS, ServerPc.Serve);
        case Serve => octets := SetSendState(TEST_START, PutRunning);
        case PutRunning => octets := SetSendState(TEST_RUNNING, ServerPc.Serve);
        case PutExchange => octets := SetSendState(EXCHANGE_RESULTS, ResultsLength);
        case ReplyLength =>
          octets := Marked(LengthOctet, HostToNet(|cfg.ofServer|));
          pc := ReplyBody;
        case ReplyBody =>
          octets := Marked(BodyOctet, cfg.ofServer);
          pc := PutDisplay;
        case PutDisplay => octets := SetSendState(DISPLAY_RESULTS, ServerPc.Serve);
      }
    }

    /** A connection in the main loop, of the client or foreign. */
    method Accept(cookieMatches: bool, streams: nat) returns (taken: bool)
      modifies `accepted
      ensures taken == (cookieMatches && state == CREATE_STREAMS && old(accepted) < streams)
      ensures View() == old(View()).(accepted := old(accepted) + if taken then 1 else 0)
    {
      taken := false;
      if state == CREATE_STREAMS {
        if cookieMatches && accepted < streams {
          accepted := accepted + 1;
          taken := true;
        }
      }
    }
  }

  /** One step, with the two processes in their objects and what is under way between them in `w`. */
  method Perform(cfg: Config, client: ControlClient, server: ControlServer, w: World, a: Action) returns (v: World)
    requires Proper(cfg) && Enabled(cfg, w, a) && client.View() == w.c && server.View() == w.s
    modifies client, server
    ensures v == Step(cfg, w, a) && client.View() == v.c && server.View() == v.s
  {
    hide Marked, Values, HostToNet, NetToHost, ClientSwitch, ServerSwitch;
    v := w;
    match a {
      case ClientActs =>
        if client.pc.Creating? {
          var connected := client.CreateNext(cfg.streams);
          if connected {
            v := w.(queue := w.queue + [true]);
          }
        } else {
          var octets := client.Write(cfg, w);
          v := w.(up := w.up + octets);
        }
      case ClientReads =>
        var n := ClientNeeds(client.View()).value;
        client.Read(w.down[..n], w);
        v := w.(down := w.down[n..], readDown := w.readDown + w.down[..n], log := ClientReading(w).log);
      case ClientFinishes =>
        var sent := client.FinishTest();
        v := w.(up := w.up + [Octet(StateOctet, TEST_END)]);
      case ServerActs =>
        var octets := server.Write(cfg, w);
        v := w.(down := w.down + octets);
      case ServerReads =>
        var n := ServerNeeds(server.View()).value;
        server.Read(w.up[..n], w);
        v := w.(up := w.up[n..], readUp := w.readUp + w.up[..n], log := ServerReading(w).log);
      case ServerAccepts =>
        var taken := server.Accept(w.queue[0], cfg.streams);
        v := w.(queue := w.queue[1..]);
      case Foreign => v := w.(queue := w.queue + [false]);
    }
    v := v.(c := client.View(), s := server.View());
  }

  /**
   * A new client and a new server taken through any run: neither fails, the client goes by the server's states in order,
   * everything is read as what it was written as, and a run that neither can continue has brought both to the end.
   */
  method Drive(cfg: Config, run: seq<Action>) returns (client: ControlClient, server: ControlServer, w: World)
    requires Proper(cfg) && IsRun(cfg, START, run)
    ensures fresh(client) && fresh(server) && client.View() == w.c && server.View() == w.s && w == After(cfg, START, run)
    ensures client.pc != Failed && server.pc != Broken && WellRead(w.log)
    ensures client.heard <= server.said <= ORDER && client.ends <= 1
    ensures !Moves(cfg, w) ==>
              && client.pc == Done && server.pc == Over && client.state == server.state == 16 && server.accepted == cfg.streams
              && Values(w.readUp) == cfg.cookie + HostToNet(|cfg.params|) + cfg.params + [4] + HostToNet(|cfg.ofClient|) + cfg.ofClient + [16]
              && Values(w.readDown) == [9, 10, 1, 2, 13] + HostToNet(|cfg.ofServer|) + cfg.ofServer + [14]
  {
    ConversationIsSafe(cfg, run);
    ConversationEnds(cfg, run);
    hide Step, Enabled, Moves, WellRead;
    client := new ControlClient();
    server := new ControlServer();
    w := START;
    var i := 0;
    while i < |run|
      invariant i <= |run| && fresh(client) && fresh(server) && client.View() == w.c && server.View() == w.s
      invariant IsRun(cfg, w, run[i..]) && After(cfg, w, run[i..]) == After(cfg, START, run)
    {
      w := Perform(cfg, client, server, w, run[i]);
      i := i + 1;
    }
  }
}
