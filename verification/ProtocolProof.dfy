/**
 * Every run of the control conversation: octets are read as what they were written as, the client follows the server's
 * order, TEST_END is sent once, nothing waits for ever and no run goes on for ever.
 */
module ProtocolProof {
  import opened Bytes
  import opened Framing
  import opened Protocol

  // ----- the handlers

  /** Where each state octet takes the two ends; octets that are no state of theirs make them fail. */
  lemma HandlersSpelled(c: Client, s: Server, octet: byte)
    ensures var d := ClientSwitch(c, octet);
            && d.state == octet && d.heard == c.heard + [octet] && d.ends == c.ends
            && d.pc == (if octet == 9 then ParamsLength else if octet == 10 then Creating(0) else if octet == 1 || octet == 2 then Loop
                        else if octet == 13 then OurLength else if octet == 14 then End else if octet == 16 then Done else Failed)
    ensures var t := ServerSwitch(s, octet);
            && t.said == s.said && t.accepted == s.accepted && t.state == (if octet == 12 then 16 else octet)
            && t.pc == (if octet == 1 then s.pc else if octet == 4 then PutExchange else if octet == 16 || octet == 12 then Over else Broken)
  {
  }

  // ----- the two scripts

  function StateOf(s: byte): seq<Octet> { [Octet(StateOctet, s)] }

  function LengthOf(body: seq<byte>): seq<Octet>
    requires |body| < WORD
  {
    Marked(LengthOctet, HostToNet(|body|))
  }

  function BodyOf(body: seq<byte>): seq<Octet> { Marked(BodyOctet, body) }

  /** All the client ever writes. */
  function UpScript(cfg: Config): seq<Octet>
    requires Proper(cfg)
  {
    Marked(CookieOctet, cfg.cookie) + (LengthOf(cfg.params) + (BodyOf(cfg.params) + (StateOf(TEST_END) +
      (LengthOf(cfg.ofClient) + (BodyOf(cfg.ofClient) + StateOf(IPERF_DONE))))))
  }

  /** All the server ever writes. */
  function DownScript(cfg: Config): seq<Octet>
    requires Proper(cfg)
  {
    StateOf(PARAM_EXCHANGE) + (StateOf(CREATE_STREAMS) + (StateOf(TEST_START) + (StateOf(TEST_RUNNING) +
      (StateOf(EXCHANGE_RESULTS) + (LengthOf(cfg.ofServer) + (BodyOf(cfg.ofServer) + StateOf(DISPLAY_RESULTS)))))))
  }

  /** `piece` stands in `s` from `i` on. */
  ghost predicate Holds(s: seq<Octet>, i: nat, piece: seq<Octet>) {
    i + |piece| <= |s| && s[i..i + |piece|] == piece
  }

  /** A piece of the script written behind what is under way. */
  lemma Extends(s: seq<Octet>, i: nat, j: nat, piece: seq<Octet>)
    requires i <= j && Holds(s, j, piece)
    ensures s[i..j] + piece == s[i..j + |piece|]
  {
  }

  /** Something taken off the front of what is under way. */
  lemma Consumes(s: seq<Octet>, i: nat, j: nat, n: nat)
    requires i + n <= j <= |s|
    ensures s[i..j][..n] == s[i..i + n] && s[i..j][n..] == s[i + n..j]
  {
  }

  lemma LengthSize(n: nat)
    requires n < WORD
    ensures |HostToNet(n)| == 4
  {
  }

  ghost predicate DownPieces(cfg: Config, s: seq<Octet>)
    requires Proper(cfg)
  {
    var r := |cfg.ofServer|;
    && |s| == 10 + r
    && Holds(s, 0, StateOf(PARAM_EXCHANGE)) && Holds(s, 1, StateOf(CREATE_STREAMS)) && Holds(s, 2, StateOf(TEST_START))
    && Holds(s, 3, StateOf(TEST_RUNNING)) && Holds(s, 4, StateOf(EXCHANGE_RESULTS))
    && Holds(s, 5, Marked(LengthOctet, HostToNet(r))) && Holds(s, 9, Marked(BodyOctet, cfg.ofServer))
    && Holds(s, 9 + r, StateOf(DISPLAY_RESULTS))
  }

  /** One piece after the other off the front of a script. */
  lemma NextPiece(s: seq<Octet>, i: nat, piece: seq<Octet>, rest: seq<Octet>)
    requires i <= |s| && s[i..] == piece + rest
    ensures Holds(s, i, piece) && i + |piece| <= |s| && s[i + |piece|..] == rest
  {
    assert s[i..][..|piece|] == piece && s[i..][|piece|..] == rest;
  }

  lemma DownPiecesHold(cfg: Config)
    requires Proper(cfg)
    ensures DownPieces(cfg, DownScript(cfg))
  {
    hide HostToNet, LengthOf, BodyOf;
    LengthSize(|cfg.ofServer|);
    PieceSizes(cfg.ofServer);
    var s := DownScript(cfg);
    var last := StateOf(DISPLAY_RESULTS);
    var t6 := BodyOf(cfg.ofServer) + last;
    var t5 := LengthOf(cfg.ofServer) + t6;
    var t4 := StateOf(EXCHANGE_RESULTS) + t5;
    var t3 := StateOf(TEST_RUNNING) + t4;
    var t2 := StateOf(TEST_START) + t3;
    var t1 := StateOf(CREATE_STREAMS) + t2;
    assert s[0..] == s == StateOf(PARAM_EXCHANGE) + t1;
    hide DownScript, StateOf;
    StateSizes();
    NextPiece(s, 0, StateOf(PARAM_EXCHANGE), t1);
    NextPiece(s, 1, StateOf(CREATE_STREAMS), t2);
    NextPiece(s, 2, StateOf(TEST_START), t3);
    NextPiece(s, 3, StateOf(TEST_RUNNING), t4);
    NextPiece(s, 4, StateOf(EXCHANGE_RESULTS), t5);
    NextPiece(s, 5, LengthOf(cfg.ofServer), t6);
    NextPiece(s, 9, BodyOf(cfg.ofServer), last);
    assert last == last + [];
    NextPiece(s, 9 + |cfg.ofServer|, last, []);
  }

  lemma PieceSizes(body: seq<byte>)
    requires |body| < WORD
    ensures |LengthOf(body)| == 4 && |BodyOf(body)| == |body|
    ensures LengthOf(body) == Marked(LengthOctet, HostToNet(|body|)) && BodyOf(body) == Marked(BodyOctet, body)
  {
  }

  lemma StateSizes()
    ensures forall s :: |StateOf(s)| == 1
  {
  }

  ghost predicate UpPieces(cfg: Config, s: seq<Octet>)
    requires Proper(cfg)
  {
    var p, r := |cfg.params|, |cfg.ofClient|;
    && |s| == 47 + p + r
    && Holds(s, 0, Marked(CookieOctet, cfg.cookie)) && Holds(s, 37, Marked(LengthOctet, HostToNet(p))) && Holds(s, 41, Marked(BodyOctet, cfg.params))
    && Holds(s, 41 + p, StateOf(TEST_END)) && Holds(s, 42 + p, Marked(LengthOctet, HostToNet(r)))
    && Holds(s, 46 + p, Marked(BodyOctet, cfg.ofClient)) && Holds(s, 46 + p + r, StateOf(IPERF_DONE))
  }

  lemma UpPiecesHold(cfg: Config)
    requires Proper(cfg)
    ensures UpPieces(cfg, UpScript(cfg))
  {
    hide HostToNet, LengthOf, BodyOf;
    PieceSizes(cfg.params);
    PieceSizes(cfg.ofClient);
    var p, r := |cfg.params|, |cfg.ofClient|;
    var s := UpScript(cfg);
    var last := StateOf(IPERF_DONE);
    var t5 := BodyOf(cfg.ofClient) + last;
    var t4 := LengthOf(cfg.ofClient) + t5;
    var t3 := StateOf(TEST_END) + t4;
    var t2 := BodyOf(cfg.params) + t3;
    var t1 := LengthOf(cfg.params) + t2;
    assert s[0..] == s == Marked(CookieOctet, cfg.cookie) + t1;
    hide UpScript, StateOf;
    StateSizes();
    NextPiece(s, 0, Marked(CookieOctet, cfg.cookie), t1);
    NextPiece(s, 37, LengthOf(cfg.params), t2);
    NextPiece(s, 41, BodyOf(cfg.params), t3);
    NextPiece(s, 41 + p, StateOf(TEST_END), t4);
    NextPiece(s, 42 + p, LengthOf(cfg.ofClient), t5);
    NextPiece(s, 46 + p, BodyOf(cfg.ofClient), last);
    assert last == last + [];
    NextPiece(s, 46 + p + r, last, []);
  }

  // ----- how far each end has got

  /** How many octets the client has written, read, and how many states it has heard. */
  datatype Progress = Progress(wrote: nat, read: nat, states: nat, left: nat)

  /** Where in its part a client stands, if it is anywhere it should be. */
  function ClientProgress(cfg: Config, c: Client): Option<Progress>
    requires Proper(cfg)
  {
    var p, r, a, n := |cfg.params|, |cfg.ofClient|, |cfg.ofServer|, 2 * cfg.streams;
    match c.pc
    case Connect => if c.state == 0 then Some(Progress(0, 0, 0, 17 + n)) else None
    case Loop =>
      if c.state == 0 then Some(Progress(37, 0, 0, 16 + n))
      else if c.state == PARAM_EXCHANGE then Some(Progress(41 + p, 1, 1, 13 + n))
      else if c.state == CREATE_STREAMS then Some(Progress(41 + p, 2, 2, 11))
      else if c.state == TEST_START then Some(Progress(41 + p, 3, 3, 10))
      else if c.state == TEST_RUNNING then Some(Progress(41 + p, 4, 4, 9))
      else if c.state == TEST_END then Some(Progress(42 + p, 4, 4, 8))
      else if c.state == EXCHANGE_RESULTS then Some(Progress(46 + p + r, 9 + a, 5, 2))
      else None
    case ParamsLength => if c.state == PARAM_EXCHANGE then Some(Progress(37, 1, 1, 15 + n)) else None
    case ParamsBody => if c.state == PARAM_EXCHANGE then Some(Progress(41, 1, 1, 14 + n)) else None
    case Creating(made) =>
      if made <= cfg.streams && c.state == CREATE_STREAMS then Some(Progress(41 + p, 2, 2, 12 + 2 * (cfg.streams - made))) else None
    case OurLength => if c.state == EXCHANGE_RESULTS then Some(Progress(42 + p, 5, 5, 6)) else None
    case OurBody => if c.state == EXCHANGE_RESULTS then Some(Progress(46 + p, 5, 5, 5)) else None
    case TheirLength => if c.state == EXCHANGE_RESULTS then Some(Progress(46 + p + r, 5, 5, 4)) else None
    case TheirBody(size) => if size == a && c.state == EXCHANGE_RESULTS then Some(Progress(46 + p + r, 9, 5, 3)) else None
    case End => if c.state == DISPLAY_RESULTS then Some(Progress(46 + p + r, 10 + a, 6, 1)) else None
    case Done => if c.state == IPERF_DONE then Some(Progress(47 + p + r, 10 + a, 6, 0)) else None
    case Failed => None
  }

  function ServerProgress(cfg: Config, s: Server): Option<Progress>
    requires Proper(cfg)
  {
    var p, r, a := |cfg.params|, |cfg.ofClient|, |cfg.ofServer|;
    match s.pc
    case AwaitCookie => Some(Progress(0, 0, 0, 15))
    case Offer => Some(Progress(0, 37, 0, 14))
    case ReadLength => Some(Progress(1, 37, 1, 13))
    case ReadBody(size) => if size == p then Some(Progress(1, 41, 1, 12)) else None
    case Ask => Some(Progress(1, 41 + p, 1, 11))
    case Serve =>
      if s.state == CREATE_STREAMS then Some(Progress(2, 41 + p, 2, 10))
      else if s.state == TEST_RUNNING then Some(Progress(4, 41 + p, 4, 8))
      else if s.state == DISPLAY_RESULTS then Some(Progress(10 + a, 46 + p + r, 6, 1))
      else None
    case PutRunning => Some(Progress(3, 41 + p, 3, 9))
    case PutExchange => Some(Progress(4, 42 + p, 4, 7))
    case ResultsLength => Some(Progress(5, 42 + p, 5, 6))
    case ResultsBody(size) => if size == r then Some(Progress(5, 46 + p, 5, 5)) else None
    case ReplyLength => Some(Progress(5, 46 + p + r, 5, 4))
    case ReplyBody => Some(Progress(9, 46 + p + r, 5, 3))
    case PutDisplay => Some(Progress(9 + a, 46 + p + r, 5, 2))
    case Over => if s.state == IPERF_DONE then Some(Progress(10 + a, 47 + p + r, 6, 0)) else None
    case Broken => None
  }

  /** How many streams the client has opened. */
  function Made(cfg: Config, c: Client): nat
    requires Proper(cfg)
  {
    if c.pc.Creating? then c.pc.made
    else if ClientProgress(cfg, c).Some? && ClientProgress(cfg, c).value.read >= 2 then cfg.streams else 0
  }

  function Ours(queue: seq<bool>): nat {
    if queue == [] then 0 else (if queue[0] then 1 else 0) + Ours(queue[1..])
  }

  /** Every octet read was written as what it was read as. */
  predicate WellRead(log: seq<Take>) {
    forall t :: t in log ==> forall o :: o in t.got ==> o.kind == t.want
  }

  ghost predicate Inv(cfg: Config, w: World) {
    && Proper(cfg)
    && ClientProgress(cfg, w.c).Some? && ServerProgress(cfg, w.s).Some?
    && var c, s := ClientProgress(cfg, w.c).value, ServerProgress(cfg, w.s).value;
    && c.read <= s.wrote <= |DownScript(cfg)| && w.down == DownScript(cfg)[c.read..s.wrote]
    && s.read <= c.wrote <= |UpScript(cfg)| && w.up == UpScript(cfg)[s.read..c.wrote]
    && w.readDown == DownScript(cfg)[..c.read] && w.readUp == UpScript(cfg)[..s.read]
    && c.states <= 6 && s.states <= 6 && w.c.heard == ORDER[..c.states] && w.s.said == ORDER[..s.states]
    && w.c.ends == (if c.wrote >= 42 + |cfg.params| then 1 else 0)
    && w.s.accepted <= cfg.streams
    && (s.wrote < 2 ==> w.s.accepted == 0) && (s.wrote > 2 ==> w.s.accepted == cfg.streams)
    && Made(cfg, w.c) == w.s.accepted + Ours(w.queue)
    && WellRead(w.log)
  }

  lemma InvAtStart(cfg: Config)
    requires Proper(cfg)
    ensures Inv(cfg, START)
  {
  }

  // ----- every step keeps the invariant

  lemma {:induction false} OursMore(queue: seq<bool>, b: bool)
    ensures Ours(queue + [b]) == Ours(queue) + if b then 1 else 0
  {
    if queue == [] {
      assert queue + [b] == [b];
    } else {
      assert (queue + [b])[1..] == queue[1..] + [b];
      OursMore(queue[1..], b);
    }
  }

  /** What a client writes next. */
  function Writing(cfg: Config, c: Client): seq<Octet>
    requires Proper(cfg)
  {
    match c.pc
    case Connect => Marked(CookieOctet, cfg.cookie)
    case ParamsLength => Marked(LengthOctet, HostToNet(|cfg.params|))
    case ParamsBody => Marked(BodyOctet, cfg.params)
    case OurLength => Marked(LengthOctet, HostToNet(|cfg.ofClient|))
    case OurBody => Marked(BodyOctet, cfg.ofClient)
    case _ => StateOf(IPERF_DONE)
  }

  predicate Writes(c: Client) {
    c.pc in {Connect, ParamsLength, ParamsBody, OurLength, OurBody, End}
  }

  /** It is the next piece of the script, and takes the client that much further. */
  lemma WritesNext(cfg: Config, w: World)
    requires Proper(cfg) && ClientProgress(cfg, w.c).Some? && Writes(w.c)
    ensures Holds(UpScript(cfg), ClientProgress(cfg, w.c).value.wrote, Writing(cfg, w.c))
    ensures var now, v := ClientProgress(cfg, w.c).value, ClientActing(cfg, w);
            var next := ClientProgress(cfg, v.c);
            && v == w.(c := v.c, up := w.up + Writing(cfg, w.c)) && v.c.heard == w.c.heard && v.c.ends == w.c.ends
            && next.Some? && next.value.wrote == now.wrote + |Writing(cfg, w.c)| && next.value.read == now.read && next.value.states == now.states
            && Made(cfg, v.c) == Made(cfg, w.c)
            && (now.wrote >= 42 + |cfg.params| <==> next.value.wrote >= 42 + |cfg.params|)
  {
    hide UpScript, HostToNet;
    UpPiecesHold(cfg);
    LengthSize(|cfg.params|);
    LengthSize(|cfg.ofClient|);
  }

  lemma ClientWriteKeeps(cfg: Config, w: World)
    requires Inv(cfg, w) && Enabled(cfg, w, ClientActs) && !w.c.pc.Creating?
    ensures Inv(cfg, ClientActing(cfg, w))
  {
    hide UpScript, DownScript, HostToNet, WellRead, Ours, Made, ServerProgress, ClientProgress, Writing, ClientActing;
    WritesNext(cfg, w);
    Extends(UpScript(cfg), ServerProgress(cfg, w.s).value.read, ClientProgress(cfg, w.c).value.wrote, Writing(cfg, w.c));
  }

  lemma ClientCreateKeeps(cfg: Config, w: World)
    requires Inv(cfg, w) && w.c.pc.Creating?
    ensures Inv(cfg, ClientActing(cfg, w))
  {
    hide UpScript, DownScript, HostToNet, WellRead;
    OursMore(w.queue, true);
  }

  lemma ClientFinishKeeps(cfg: Config, w: World)
    requires Inv(cfg, w) && Enabled(cfg, w, ClientFinishes)
    ensures Inv(cfg, Step(cfg, w, ClientFinishes))
  {
    hide UpScript, DownScript, HostToNet, WellRead;
    UpPiecesHold(cfg);
    Extends(UpScript(cfg), ServerProgress(cfg, w.s).value.read, ClientProgress(cfg, w.c).value.wrote, StateOf(TEST_END));
  }

  /** Which state a server says next, and where it stands then. */
  function Saying(s: Server): (ServerPc, byte) {
    match s.pc
    case Offer => (ReadLength, PARAM_EXCHANGE)
    case Ask => (ServerPc.Serve, CREATE_STREAMS)
    case Serve => (PutRunning, TEST_START)
    case PutRunning => (ServerPc.Serve, TEST_RUNNING)
    case PutExchange => (ResultsLength, EXCHANGE_RESULTS)
    case _ => (ServerPc.Serve, DISPLAY_RESULTS)
  }

  predicate Says(s: Server) {
    s.pc in {Offer, Ask, PutRunning, PutExchange, PutDisplay} || (s.pc == Serve && s.state == CREATE_STREAMS)
  }

  /** It is the next of the order, and takes the server one further. */
  lemma SaysNext(cfg: Config, s: Server)
    requires Proper(cfg) && ServerProgress(cfg, s).Some? && Says(s)
    ensures var now := ServerProgress(cfg, s).value;
            && now.states < 6 && Saying(s).1 == ORDER[now.states]
            && Holds(DownScript(cfg), now.wrote, StateOf(ORDER[now.states]))
    ensures var now, next := ServerProgress(cfg, s).value,
                           ServerProgress(cfg, s.(pc := Saying(s).0, state := Saying(s).1, said := s.said + [Saying(s).1]));
            next.Some? && next.value.wrote == now.wrote + 1 && next.value.read == now.read && next.value.states == now.states + 1
    ensures s.pc == Serve <==> ServerProgress(cfg, s).value.wrote == 2
  {
    hide DownScript, HostToNet;
    DownPiecesHold(cfg);
  }

  lemma ServerSayKeeps(cfg: Config, w: World)
    requires Inv(cfg, w) && Enabled(cfg, w, ServerActs) && !w.s.pc.ReplyLength? && !w.s.pc.ReplyBody?
    ensures Inv(cfg, ServerActing(cfg, w))
  {
    hide UpScript, DownScript, HostToNet, WellRead, Ours, Made, ServerProgress, ClientProgress;
    SaysNext(cfg, w.s);
    var now := ServerProgress(cfg, w.s).value;
    assert ServerActing(cfg, w) == Say(w, Saying(w.s).0, Saying(w.s).1);
    Extends(DownScript(cfg), ClientProgress(cfg, w.c).value.read, now.wrote, StateOf(ORDER[now.states]));
    assert ORDER[..now.states] + [ORDER[now.states]] == ORDER[..now.states + 1];
  }

  lemma ServerReplyKeeps(cfg: Config, w: World)
    requires Inv(cfg, w) && (w.s.pc.ReplyLength? || w.s.pc.ReplyBody?)
    ensures Inv(cfg, ServerActing(cfg, w))
  {
    hide UpScript, DownScript, HostToNet, WellRead, Ours, Made;
    DownPiecesHold(cfg);
    LengthSize(|cfg.ofServer|);
    var piece := if w.s.pc.ReplyLength? then Marked(LengthOctet, HostToNet(|cfg.ofServer|)) else Marked(BodyOctet, cfg.ofServer);
    Extends(DownScript(cfg), ClientProgress(cfg, w.c).value.read, ServerProgress(cfg, w.s).value.wrote, piece);
  }

  lemma AcceptKeeps(cfg: Config, w: World)
    requires Inv(cfg, w) && Enabled(cfg, w, ServerAccepts)
    ensures Inv(cfg, ServerAccepting(cfg, w))
  {
    hide UpScript, DownScript, HostToNet, WellRead;
  }

  /** What a read takes off, when a piece of the script comes next. */
  lemma ReadsPiece(s: seq<Octet>, i: nat, j: nat, piece: seq<Octet>)
    requires i <= j <= |s| && Holds(s, i, piece) && |piece| <= j - i
    ensures s[i..j][..|piece|] == piece && s[i..j][|piece|..] == s[i + |piece|..j]
    ensures s[..i] + piece == s[..i + |piece|]
  {
    Consumes(s, i, j, |piece|);
  }

  lemma WellReadMore(log: seq<Take>, t: Take)
    requires WellRead(log) && forall o :: o in t.got ==> o.kind == t.want
    ensures WellRead(log + [t])
  {
  }

  lemma MarkedKind(kind: Kind, s: seq<byte>)
    ensures forall o :: o in Marked(kind, s) ==> o.kind == kind
    ensures Values(Marked(kind, s)) == s
  {
  }

  /** A server that has said more than TEST_RUNNING has read TEST_END. */
  lemma ServerWaitsForEnd(cfg: Config, s: Server)
    requires Proper(cfg) && ServerProgress(cfg, s).Some?
    ensures ServerProgress(cfg, s).value.wrote > 4 ==> ServerProgress(cfg, s).value.read > 41 + |cfg.params|
  {
  }

  /** The next state of the order takes a client one further. */
  lemma ClientTurns(cfg: Config, c: Client)
    requires Proper(cfg) && ClientProgress(cfg, c).Some? && c.pc == Loop && c.state != TEST_RUNNING
    ensures var now := ClientProgress(cfg, c).value;
            && now.states < 6
            && Holds(DownScript(cfg), now.read, StateOf(ORDER[now.states]))
            && var d := ClientSwitch(c, ORDER[now.states]);
               && ClientProgress(cfg, d).Some? && Made(cfg, d) == Made(cfg, c)
               && d.heard == c.heard + [ORDER[now.states]] && d.ends == c.ends
               && var then' := ClientProgress(cfg, d).value;
                  then'.wrote == now.wrote && then'.read == now.read + 1 && then'.states == now.states + 1
  {
    hide DownScript, HostToNet;
    DownPiecesHold(cfg);
  }

  /** A client that waits for a state gets the one the server says next. */
  lemma ClientHearKeeps(cfg: Config, w: World)
    requires Inv(cfg, w) && Enabled(cfg, w, ClientReads) && w.c.pc == Loop
    ensures Inv(cfg, ClientReading(w))
  {
    hide UpScript, DownScript, HostToNet, WellRead, NetToHost, Ours, ServerProgress, ClientProgress, Made, ClientSwitch, Holds;
    if w.c.state == TEST_RUNNING {
      ClientIdles(cfg, w.c);
    }
    ServerWaitsForEnd(cfg, w.s);
    var s := DownScript(cfg);
    var i, j := ClientProgress(cfg, w.c).value.read, ServerProgress(cfg, w.s).value.wrote;
    assert i < j;
    ClientTurns(cfg, w.c);
    var n := ClientProgress(cfg, w.c).value.states;
    ReadsPiece(s, i, j, StateOf(ORDER[n]));
    WellReadMore(w.log, Take(StateOctet, StateOf(ORDER[n])));
    assert ORDER[..n] + [ORDER[n]] == ORDER[..n + 1];
  }

  lemma ClientIdles(cfg: Config, c: Client)
    requires Proper(cfg) && ClientProgress(cfg, c).Some? && c.pc == Loop && c.state == TEST_RUNNING
    ensures ClientProgress(cfg, c).value.read == 4 && ClientProgress(cfg, c).value.wrote == 41 + |cfg.params|
  {
  }

  lemma ClientReadKeeps(cfg: Config, w: World)
    requires Inv(cfg, w) && Enabled(cfg, w, ClientReads) && w.c.pc != Loop
    ensures Inv(cfg, ClientReading(w))
  {
    hide UpScript, DownScript, HostToNet, WellRead, NetToHost, Ours, ServerProgress;
    DownPiecesHold(cfg);
    var a := |cfg.ofServer|;
    LengthSize(a);
    LengthRoundTrip(a);
    var s := DownScript(cfg);
    var i, j := ClientProgress(cfg, w.c).value.read, ServerProgress(cfg, w.s).value.wrote;
    var kind, body := if w.c.pc == TheirLength then LengthOctet else BodyOctet, if w.c.pc == TheirLength then HostToNet(a) else cfg.ofServer;
    ReadsPiece(s, i, j, Marked(kind, body));
    MarkedKind(kind, body);
    WellReadMore(w.log, Take(kind, Marked(kind, body)));
  }

  /** A client that has written TEST_END has read TEST_RUNNING, and one that has written IPERF_DONE all there is. */
  lemma ClientWaitsForStart(cfg: Config, c: Client)
    requires Proper(cfg) && ClientProgress(cfg, c).Some?
    ensures ClientProgress(cfg, c).value.wrote > 41 + |cfg.params| ==> ClientProgress(cfg, c).value.read >= 4
    ensures ClientProgress(cfg, c).value.wrote > 46 + |cfg.params| + |cfg.ofClient| ==> ClientProgress(cfg, c).value.read == 10 + |cfg.ofServer|
  {
  }

  /** A server in its main loop hears TEST_END or IPERF_DONE, when its turn has come. */
  lemma ServerHearKeeps(cfg: Config, w: World)
    requires Inv(cfg, w) && Enabled(cfg, w, ServerReads) && w.s.pc == Serve
    ensures Inv(cfg, ServerReading(w))
  {
    hide UpScript, DownScript, HostToNet, WellRead, NetToHost, Ours, ClientProgress, Made;
    ClientWaitsForStart(cfg, w.c);
    UpPiecesHold(cfg);
    var s := UpScript(cfg);
    var i, j := ServerProgress(cfg, w.s).value.read, ClientProgress(cfg, w.c).value.wrote;
    assert i < j;
    var next := if w.s.state == TEST_RUNNING then TEST_END else IPERF_DONE;
    assert Holds(s, i, StateOf(next));
    ReadsPiece(s, i, j, StateOf(next));
    WellReadMore(w.log, Take(StateOctet, StateOf(next)));
  }

  /** What a server that is not in its main loop reads next. */
  function Expected(cfg: Config, s: Server): (Kind, seq<byte>)
    requires Proper(cfg) && ServerNeeds(s).Some? && s.pc != Serve
  {
    match s.pc
    case AwaitCookie => (CookieOctet, cfg.cookie)
    case ReadLength => (LengthOctet, HostToNet(|cfg.params|))
    case ReadBody(_) => (BodyOctet, cfg.params)
    case ResultsLength => (LengthOctet, HostToNet(|cfg.ofClient|))
    case ResultsBody(_) => (BodyOctet, cfg.ofClient)
  }

  lemma ServerExpects(cfg: Config, s: Server)
    requires Proper(cfg) && ServerProgress(cfg, s).Some? && ServerNeeds(s).Some? && s.pc != Serve
    ensures |Expected(cfg, s).1| == ServerNeeds(s).value
    ensures Holds(UpScript(cfg), ServerProgress(cfg, s).value.read, Marked(Expected(cfg, s).0, Expected(cfg, s).1))
  {
    hide UpScript, Marked, HostToNet;
    UpPiecesHold(cfg);
    LengthSize(|cfg.params|);
    LengthSize(|cfg.ofClient|);
  }

  /** It takes the server that much further. */
  lemma ServerTakes(cfg: Config, w: World)
    requires Proper(cfg) && ServerProgress(cfg, w.s).Some? && Enabled(cfg, w, ServerReads) && w.s.pc != Serve
    requires var (kind, body) := Expected(cfg, w.s); |body| <= |w.up| && w.up[..|body|] == Marked(kind, body)
    ensures var (kind, body) := Expected(cfg, w.s);
            var v, now := ServerReading(w), ServerProgress(cfg, w.s).value;
            var next := ServerProgress(cfg, v.s);
            && v == w.(s := v.s, up := w.up[|body|..], readUp := w.readUp + Marked(kind, body), log := w.log + [Take(kind, Marked(kind, body))])
            && v.s.said == w.s.said && v.s.accepted == w.s.accepted
            && next.Some? && next.value.wrote == now.wrote && next.value.states == now.states && next.value.read == now.read + |body|
  {
    hide HostToNet, NetToHost, Marked, Values;
    LengthSize(|cfg.params|);
    LengthSize(|cfg.ofClient|);
    LengthRoundTrip(|cfg.params|);
    LengthRoundTrip(|cfg.ofClient|);
    MarkedKind(Expected(cfg, w.s).0, Expected(cfg, w.s).1);
  }

  lemma ServerReadKeeps(cfg: Config, w: World)
    requires Inv(cfg, w) && Enabled(cfg, w, ServerReads) && w.s.pc != Serve
    ensures Inv(cfg, ServerReading(w))
  {
    hide UpScript, DownScript, HostToNet, WellRead, NetToHost, Ours, ClientProgress;
    hide ServerProgress, Made, Marked, Values, Holds, Expected, ServerReading;
    ServerExpects(cfg, w.s);
    var (kind, body) := Expected(cfg, w.s);
    ReadsPiece(UpScript(cfg), ServerProgress(cfg, w.s).value.read, ClientProgress(cfg, w.c).value.wrote, Marked(kind, body));
    ServerTakes(cfg, w);
    MarkedKind(kind, body);
    WellReadMore(w.log, Take(kind, Marked(kind, body)));
  }

  lemma StepKeeps(cfg: Config, w: World, a: Action)
    requires Inv(cfg, w) && Enabled(cfg, w, a)
    ensures Inv(cfg, Step(cfg, w, a))
  {
    match a
    case ClientActs =>
      if w.c.pc.Creating? {
        ClientCreateKeeps(cfg, w);
      } else {
        ClientWriteKeeps(cfg, w);
      }
    case ClientReads =>
      if w.c.pc == Loop {
        ClientHearKeeps(cfg, w);
      } else {
        ClientReadKeeps(cfg, w);
      }
    case ClientFinishes => ClientFinishKeeps(cfg, w);
    case ServerActs =>
      if w.s.pc.ReplyLength? || w.s.pc.ReplyBody? {
        ServerReplyKeeps(cfg, w);
      } else {
        ServerSayKeeps(cfg, w);
      }
    case ServerReads =>
      if w.s.pc == Serve {
        ServerHearKeeps(cfg, w);
      } else {
        ServerReadKeeps(cfg, w);
      }
    case ServerAccepts => AcceptKeeps(cfg, w);
    case Foreign => ForeignKeeps(cfg, w);
  }

  lemma ForeignKeeps(cfg: Config, w: World)
    requires Inv(cfg, w)
    ensures Inv(cfg, w.(queue := w.queue + [false]))
  {
    hide UpScript, DownScript, WellRead, ServerProgress, ClientProgress;
    OursMore(w.queue, false);
  }

  // ----- runs

  /** Every action of the run is enabled where it happens. */
  ghost predicate IsRun(cfg: Config, w: World, run: seq<Action>)
    requires Proper(cfg)
    decreases |run|
  {
    run == [] || (Enabled(cfg, w, run[0]) && IsRun(cfg, Step(cfg, w, run[0]), run[1..]))
  }

  ghost function After(cfg: Config, w: World, run: seq<Action>): World
    requires Proper(cfg) && IsRun(cfg, w, run)
    decreases |run|
  {
    if run == [] then w else After(cfg, Step(cfg, w, run[0]), run[1..])
  }

  lemma {:induction false} RunKeeps(cfg: Config, w: World, run: seq<Action>)
    requires Inv(cfg, w) && IsRun(cfg, w, run)
    ensures Inv(cfg, After(cfg, w, run))
    decreases |run|
  {
    if run != [] {
      StepKeeps(cfg, w, run[0]);
      RunKeeps(cfg, Step(cfg, w, run[0]), run[1..]);
    }
  }

  /**
   * After any run from the start: every octet read as a state, a cookie, a length or a body was written as one; the
   * client has heard a prefix of what the server has said, which is a prefix of its order; TEST_END went out at most
   * once; and neither end has failed.
   */
  lemma ConversationIsSafe(cfg: Config, run: seq<Action>)
    requires Proper(cfg) && IsRun(cfg, START, run)
    ensures var w := After(cfg, START, run);
            && WellRead(w.log)
            && w.c.heard <= w.s.said <= ORDER
            && w.c.ends <= 1
            && w.c.pc != Failed && w.s.pc != Broken
  {
    InvAtStart(cfg);
    RunKeeps(cfg, START, run);
    var w := After(cfg, START, run);
    HeardIsSaid(cfg, w);
  }

  lemma StatesByRead(cfg: Config, c: Client, s: Server)
    requires Proper(cfg) && ClientProgress(cfg, c).Some? && ServerProgress(cfg, s).Some?
    requires ClientProgress(cfg, c).value.read <= ServerProgress(cfg, s).value.wrote
    ensures ClientProgress(cfg, c).value.states <= ServerProgress(cfg, s).value.states
  {
  }

  lemma HeardIsSaid(cfg: Config, w: World)
    requires Inv(cfg, w)
    ensures w.c.heard <= w.s.said <= ORDER
  {
    StatesByRead(cfg, w.c, w.s);
    hide UpScript, DownScript, WellRead, ServerProgress, ClientProgress, Made;
    var n, m := ClientProgress(cfg, w.c).value.states, ServerProgress(cfg, w.s).value.states;
    assert ORDER[..n] == ORDER[..m][..n];
  }

  // ----- progress

  /** The moves of the two ends themselves. */
  predicate Moves(cfg: Config, w: World) {
    || Enabled(cfg, w, ClientActs) || Enabled(cfg, w, ClientReads) || Enabled(cfg, w, ClientFinishes)
    || Enabled(cfg, w, ServerActs) || Enabled(cfg, w, ServerReads) || Enabled(cfg, w, ServerAccepts)
  }

  /** Where a client that cannot move stands: how much it has written and read, with too little under way to it. */
  lemma ClientStuck(cfg: Config, w: World)
    requires Proper(cfg) && ClientProgress(cfg, w.c).Some?
    requires !Enabled(cfg, w, ClientActs) && !Enabled(cfg, w, ClientReads) && !Enabled(cfg, w, ClientFinishes)
    ensures var p, r, a := |cfg.params|, |cfg.ofClient|, |cfg.ofServer|;
            var now, n := ClientProgress(cfg, w.c).value, |w.down|;
            || (now.wrote == 37 && now.read == 0 && n == 0)
            || (now.wrote == 41 + p && 1 <= now.read <= 3 && n == 0 && (now.read >= 2 ==> Made(cfg, w.c) == cfg.streams))
            || (now.wrote == 42 + p && now.read == 4 && n == 0)
            || (now.wrote == 46 + p + r && now.read == 5 && n < 4)
            || (now.wrote == 46 + p + r && now.read == 9 && n < a)
            || (now.wrote == 46 + p + r && now.read == 9 + a && n == 0)
            || (now.wrote == 47 + p + r && now.read == 10 + a && w.c.pc == Done)
  {
  }

  lemma ServerStuck(cfg: Config, w: World)
    requires Proper(cfg) && ServerProgress(cfg, w.s).Some?
    requires !Enabled(cfg, w, ServerActs) && !Enabled(cfg, w, ServerReads) && !Enabled(cfg, w, ServerAccepts)
    ensures var p, r, a := |cfg.params|, |cfg.ofClient|, |cfg.ofServer|;
            var now, n := ServerProgress(cfg, w.s).value, |w.up|;
            || (now.wrote == 0 && now.read == 0 && n < 37)
            || (now.wrote == 1 && now.read == 37 && n < 4)
            || (now.wrote == 1 && now.read == 41 && n < p)
            || (now.wrote == 2 && now.read == 41 + p && n == 0 && w.queue == [] && w.s.accepted != cfg.streams)
            || (now.wrote == 4 && now.read == 41 + p && n == 0)
            || (now.wrote == 5 && now.read == 42 + p && n < 4)
            || (now.wrote == 5 && now.read == 46 + p && n < r)
            || (now.wrote == 10 + a && now.read == 46 + p + r && n == 0)
            || (now.wrote == 10 + a && now.read == 47 + p + r && w.s.pc == Over)
  {
  }

  /** Until both ends are done one of them can move. */
  lemma NoDeadlock(cfg: Config, w: World)
    requires Inv(cfg, w)
    ensures Moves(cfg, w) || Finished(w)
  {
    hide UpScript, DownScript, WellRead, ClientProgress, ServerProgress, Enabled, Made;
    if !Moves(cfg, w) {
      ClientStuck(cfg, w);
      ServerStuck(cfg, w);
    }
  }

  /** What is left to do at both ends, and the connections not yet looked at. */
  ghost function Left(cfg: Config, w: World): nat
    requires Inv(cfg, w)
  {
    ClientProgress(cfg, w.c).value.left + ServerProgress(cfg, w.s).value.left + |w.queue|
  }

  /** A step of the client brings it nearer its end, by two when it adds to the queue. */
  lemma ClientSpends(cfg: Config, w: World, a: Action)
    requires Proper(cfg) && Enabled(cfg, w, a) && (a == ClientActs || a == ClientReads || a == ClientFinishes)
    requires ClientProgress(cfg, w.c).Some? && ClientProgress(cfg, Step(cfg, w, a).c).Some?
    requires |w.c.heard| == ClientProgress(cfg, w.c).value.states
    requires |Step(cfg, w, a).c.heard| == ClientProgress(cfg, Step(cfg, w, a).c).value.states
    ensures ClientProgress(cfg, Step(cfg, w, a).c).value.left + |Step(cfg, w, a).queue| < ClientProgress(cfg, w.c).value.left + |w.queue|
    ensures Step(cfg, w, a).s == w.s
  {
    hide Marked, HostToNet, NetToHost, Values;
  }

  lemma ServerSpends(cfg: Config, w: World, a: Action)
    requires Proper(cfg) && Enabled(cfg, w, a) && (a == ServerActs || a == ServerReads)
    requires ServerProgress(cfg, w.s).Some? && ServerProgress(cfg, Step(cfg, w, a).s).Some?
    requires ServerProgress(cfg, Step(cfg, w, a).s).value.read >= ServerProgress(cfg, w.s).value.read
    ensures ServerProgress(cfg, Step(cfg, w, a).s).value.left < ServerProgress(cfg, w.s).value.left
    ensures Step(cfg, w, a).c == w.c && Step(cfg, w, a).queue == w.queue
  {
    hide Marked, HostToNet, NetToHost, Values;
  }

  lemma AcceptSpends(cfg: Config, w: World)
    requires Proper(cfg) && Enabled(cfg, w, ServerAccepts)
    requires ServerProgress(cfg, w.s).Some?
    ensures ServerProgress(cfg, ServerAccepting(cfg, w).s) == ServerProgress(cfg, w.s)
    ensures ServerAccepting(cfg, w).c == w.c && |ServerAccepting(cfg, w).queue| == |w.queue| - 1
  {
  }

  lemma StepSpends(cfg: Config, w: World, a: Action)
    requires Inv(cfg, w) && Enabled(cfg, w, a) && Inv(cfg, Step(cfg, w, a))
    ensures Left(cfg, Step(cfg, w, a)) <= Left(cfg, w) + if a == Foreign then 1 else -1
  {
    hide UpScript, DownScript, WellRead, Ours, ClientProgress, ServerProgress, Made;
    match a
    case Foreign =>
    case ServerAccepts => AcceptSpends(cfg, w);
    case ServerActs => ServerSpends(cfg, w, a);
    case ServerReads =>
      assert |Step(cfg, w, a).up| <= |w.up| && Step(cfg, w, a).c == w.c;
      ServerSpends(cfg, w, a);
    case _ => ClientSpends(cfg, w, a);
  }

  function Foreigners(run: seq<Action>): nat {
    if run == [] then 0 else (if run[0] == Foreign then 1 else 0) + Foreigners(run[1..])
  }

  lemma {:induction false} RunSpends(cfg: Config, w: World, run: seq<Action>)
    requires Inv(cfg, w) && IsRun(cfg, w, run)
    ensures Inv(cfg, After(cfg, w, run))
    ensures |run| + Left(cfg, After(cfg, w, run)) <= Left(cfg, w) + 2 * Foreigners(run)
    decreases |run|
  {
    if run != [] {
      StepKeeps(cfg, w, run[0]);
      StepSpends(cfg, w, run[0]);
      RunSpends(cfg, Step(cfg, w, run[0]), run[1..]);
    }
  }

  /**
   * No run is longer than the two parts and the foreign connections allow, and one that neither end can continue has
   * brought both of them to IPERF_DONE with all streams accepted: the test always comes to its end.
   */
  lemma ConversationEnds(cfg: Config, run: seq<Action>)
    requires Proper(cfg) && IsRun(cfg, START, run)
    ensures |run| <= 32 + 2 * cfg.streams + 2 * Foreigners(run)
    ensures var w := After(cfg, START, run);
            !Moves(cfg, w) ==>
              && Finished(w) && w.c.heard == w.s.said == ORDER && w.c.ends == 1 && w.s.accepted == cfg.streams
              && w.up == [] && w.down == [] && w.c.state == w.s.state == 16
              && Values(w.readUp) == cfg.cookie + HostToNet(|cfg.params|) + cfg.params + [4] + HostToNet(|cfg.ofClient|) + cfg.ofClient + [16]
              && Values(w.readDown) == [9, 10, 1, 2, 13] + HostToNet(|cfg.ofServer|) + cfg.ofServer + [14]
  {
    hide After, IsRun, Moves, Inv, Finished;
    InvAtStart(cfg);
    LeftAtStart(cfg);
    RunSpends(cfg, START, run);
    var w := After(cfg, START, run);
    if !Moves(cfg, w) {
      NoDeadlock(cfg, w);
      AllIsDone(cfg, w);
    }
  }

  lemma LeftAtStart(cfg: Config)
    requires Inv(cfg, START)
    ensures Left(cfg, START) == 32 + 2 * cfg.streams
  {
  }

  lemma AllIsDone(cfg: Config, w: World)
    requires Inv(cfg, w) && Finished(w)
    ensures w.c.heard == w.s.said == ORDER && w.c.ends == 1 && w.s.accepted == cfg.streams && w.up == [] && w.down == []
    ensures w.c.state == w.s.state == 16
    ensures Values(w.readUp) == cfg.cookie + HostToNet(|cfg.params|) + cfg.params + [4] + HostToNet(|cfg.ofClient|) + cfg.ofClient + [16]
    ensures Values(w.readDown) == [9, 10, 1, 2, 13] + HostToNet(|cfg.ofServer|) + cfg.ofServer + [14]
  {
    hide UpScript, DownScript, WellRead, HostToNet, Values;
    DownPiecesHold(cfg);
    UpPiecesHold(cfg);
    ScriptsSay(cfg);
    assert w.readUp == UpScript(cfg) && w.readDown == DownScript(cfg);
  }

  /** The scripts, without the marks: the cookie, the parameters, TEST_END, the results and IPERF_DONE; and the states. */
  lemma ScriptsSay(cfg: Config)
    requires Proper(cfg)
    ensures Values(UpScript(cfg)) ==
            cfg.cookie + HostToNet(|cfg.params|) + cfg.params + [4] + HostToNet(|cfg.ofClient|) + cfg.ofClient + [16]
    ensures Values(DownScript(cfg)) == [9, 10, 1, 2, 13] + HostToNet(|cfg.ofServer|) + cfg.ofServer + [14]
  {
    UpSays(cfg);
    DownSays(cfg);
  }

  lemma UpSays(cfg: Config)
    requires Proper(cfg)
    ensures Values(UpScript(cfg)) ==
            cfg.cookie + HostToNet(|cfg.params|) + cfg.params + [4] + HostToNet(|cfg.ofClient|) + cfg.ofClient + [16]
  {
    hide HostToNet, Values, Marked;
    var t5 := BodyOf(cfg.ofClient) + StateOf(IPERF_DONE);
    var t4 := LengthOf(cfg.ofClient) + t5;
    var t3 := StateOf(TEST_END) + t4;
    var t2 := BodyOf(cfg.params) + t3;
    var t1 := LengthOf(cfg.params) + t2;
    ValuesJoin(Marked(CookieOctet, cfg.cookie), t1);
    ValuesJoin(LengthOf(cfg.params), t2);
    ValuesJoin(BodyOf(cfg.params), t3);
    ValuesJoin(StateOf(TEST_END), t4);
    ValuesJoin(LengthOf(cfg.ofClient), t5);
    ValuesJoin(BodyOf(cfg.ofClient), StateOf(IPERF_DONE));
    ValuesMarked(CookieOctet, cfg.cookie);
    ValuesOf(cfg.params);
    ValuesOf(cfg.ofClient);
    ValuesOfStates();
  }

  lemma DownSays(cfg: Config)
    requires Proper(cfg)
    ensures Values(DownScript(cfg)) == [9, 10, 1, 2, 13] + HostToNet(|cfg.ofServer|) + cfg.ofServer + [14]
  {
    hide HostToNet, Values, Marked;
    var t7 := BodyOf(cfg.ofServer) + StateOf(DISPLAY_RESULTS);
    var t6 := LengthOf(cfg.ofServer) + t7;
    var t5 := StateOf(EXCHANGE_RESULTS) + t6;
    var t4 := StateOf(TEST_RUNNING) + t5;
    var t3 := StateOf(TEST_START) + t4;
    var t2 := StateOf(CREATE_STREAMS) + t3;
    ValuesJoin(StateOf(PARAM_EXCHANGE), t2);
    ValuesJoin(StateOf(CREATE_STREAMS), t3);
    ValuesJoin(StateOf(TEST_START), t4);
    ValuesJoin(StateOf(TEST_RUNNING), t5);
    ValuesJoin(StateOf(EXCHANGE_RESULTS), t6);
    ValuesJoin(LengthOf(cfg.ofServer), t7);
    ValuesJoin(BodyOf(cfg.ofServer), StateOf(DISPLAY_RESULTS));
    ValuesOf(cfg.ofServer);
    ValuesOfStates();
  }

  lemma ValuesOf(body: seq<byte>)
    requires |body| < WORD
    ensures Values(LengthOf(body)) == HostToNet(|body|) && Values(BodyOf(body)) == body
  {
    hide HostToNet;
    ValuesMarked(LengthOctet, HostToNet(|body|));
    ValuesMarked(BodyOctet, body);
  }

  lemma ValuesOfStates()
    ensures forall s: byte :: Values(StateOf(s)) == [s]
  {
  }

  lemma ValuesMarked(kind: Kind, s: seq<byte>)
    ensures Values(Marked(kind, s)) == s
  {
  }

  lemma ValuesJoin(a: seq<Octet>, b: seq<Octet>)
    ensures Values(a + b) == Values(a) + Values(b)
  {
  }
}
