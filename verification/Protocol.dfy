/**
 * The control conversation of one test: a client and a server process, a FIFO of octets each way, and the queue of data
 * connections, into which other peers may also connect. Every octet carries a mark of what it was written as, which the
 * processes do not look at.
 */
module Protocol {
  import opened Bytes
  import opened Framing

  const PARAM_EXCHANGE: byte := 9
  const CREATE_STREAMS: byte := 10
  const TEST_START: byte := 1
  const TEST_RUNNING: byte := 2
  const TEST_END: byte := 4
  const EXCHANGE_RESULTS: byte := 13
  const DISPLAY_RESULTS: byte := 14
  const IPERF_DONE: byte := 16
  const CLIENT_TERMINATE: byte := 12
  const COOKIE_SIZE: nat := 37
  const MAX_PARAMS: nat := 8192

  /** The states a server goes through, in its order. */
  const ORDER: seq<byte> := [9, 10, 1, 2, 13, 14]

  datatype Kind = CookieOctet | StateOctet | LengthOctet | BodyOctet

  datatype Octet = Octet(kind: Kind, value: byte)

  function Marked(kind: Kind, s: seq<byte>): (r: seq<Octet>)
    ensures |r| == |s|
  {
    seq(|s|, i requires 0 <= i < |s| => Octet(kind, s[i]))
  }

  function Values(s: seq<Octet>): (r: seq<byte>)
    ensures |r| == |s|
  {
    seq(|s|, i requires 0 <= i < |s| => s[i].value)
  }

  /** What the two ends bring to the test. The JSON texts stand for themselves; iperf_exchange_results is modelled in Results. */
  datatype Config = Config(cookie: seq<byte>, params: seq<byte>, ofClient: seq<byte>, ofServer: seq<byte>, streams: nat)

  ghost predicate Proper(cfg: Config) {
    && |cfg.cookie| == COOKIE_SIZE
    && 0 < |cfg.params| <= MAX_PARAMS && 0 < |cfg.ofClient| < INT_LIMIT && 0 < |cfg.ofServer| < INT_LIMIT
  }

  // ----- the processes

  datatype ClientPc =
    | Connect
    | Loop                      // the main loop of iperf_run_client, in test->state
    | ParamsLength | ParamsBody
    | Creating(made: nat)
    | OurLength | OurBody | TheirLength | TheirBody(size: nat)
    | End
    | Done
    | Failed

  datatype Client = Client(pc: ClientPc, state: byte, heard: seq<byte>, ends: nat)

  datatype ServerPc =
    | AwaitCookie
    | Offer | ReadLength | ReadBody(size: nat) | Ask
    | Serve                     // the main loop of iperf_run_server, in test->state
    | PutRunning
    | PutExchange | ResultsLength | ResultsBody(size: nat) | ReplyLength | ReplyBody | PutDisplay
    | Over
    | Broken

  datatype Server = Server(pc: ServerPc, state: byte, said: seq<byte>, accepted: nat)

  /** A read that came back, and what it was meant to read. */
  datatype Take = Take(want: Kind, got: seq<Octet>)

  /** `readUp` and `readDown` are all the octets the server and the client have read. */
  datatype World = World(
    c: Client, s: Server, up: seq<Octet>, down: seq<Octet>, queue: seq<bool>, log: seq<Take>, readUp: seq<Octet>, readDown: seq<Octet>)

  const START: World := World(Client(Connect, 0, [], 0), Server(AwaitCookie, 15, [], 0), [], [], [], [], [], [])

  datatype Action = ClientActs | ClientReads | ClientFinishes | ServerActs | ServerReads | ServerAccepts | Foreign

  /** Neither end waits. */
  predicate Finished(w: World) {
    w.c.pc == Done && w.s.pc == Over
  }

  /** How much the client needs to go on reading, if it reads at all where it stands. */
  function ClientNeeds(c: Client): Option<nat> {
    match c.pc
    case Loop => Some(1)
    case TheirLength => Some(4)
    case TheirBody(size) => Some(size)
    case _ => None
  }

  function ServerNeeds(s: Server): Option<nat> {
    match s.pc
    case AwaitCookie => Some(COOKIE_SIZE)
    case ReadLength => Some(4)
    case ReadBody(size) => Some(size)
    case ResultsLength => Some(4)
    case ResultsBody(size) => Some(size)
    case Serve => Some(1)
    case _ => None
  }

  predicate Enabled(cfg: Config, w: World, a: Action) {
    match a
    case ClientActs => w.c.pc in {Connect, ParamsLength, ParamsBody, OurLength, OurBody, End} || w.c.pc.Creating?
    case ClientReads => ClientNeeds(w.c).Some? && |w.down| >= ClientNeeds(w.c).value
    case ClientFinishes => w.c.pc == Loop && w.c.state == TEST_RUNNING
    case ServerActs =>
      || w.s.pc in {Offer, Ask, PutRunning, PutExchange, ReplyLength, ReplyBody, PutDisplay}
      || (w.s.pc == Serve && w.s.state == CREATE_STREAMS && w.s.accepted == cfg.streams)
    case ServerReads => ServerNeeds(w.s).Some? && |w.up| >= ServerNeeds(w.s).value
    case ServerAccepts => w.s.pc == Serve && w.queue != []
    case Foreign => true
  }

  // ----- what the client does

  function SendUp(w: World, c: Client, octets: seq<Octet>): World {
    w.(c := c, up := w.up + octets)
  }

  /** The writes of the client, and its connects. */
  function ClientActing(cfg: Config, w: World): World
    requires Proper(cfg) && Enabled(cfg, w, ClientActs)
  {
    match w.c.pc
    case Connect => SendUp(w, w.c.(pc := Loop), Marked(CookieOctet, cfg.cookie))
    case ParamsLength => SendUp(w, w.c.(pc := ParamsBody), Marked(LengthOctet, HostToNet(|cfg.params|)))
    case ParamsBody => SendUp(w, w.c.(pc := Loop), Marked(BodyOctet, cfg.params))
    case Creating(made) =>
      if made < cfg.streams then w.(c := w.c.(pc := Creating(made + 1)), queue := w.queue + [true])
      else w.(c := w.c.(pc := Loop))
    case OurLength => SendUp(w, w.c.(pc := OurBody), Marked(LengthOctet, HostToNet(|cfg.ofClient|)))
    case OurBody => SendUp(w, w.c.(pc := TheirLength), Marked(BodyOctet, cfg.ofClient))
    case End => SendUp(w, w.c.(pc := Done, state := IPERF_DONE), [Octet(StateOctet, IPERF_DONE)])
  }

  /** The switch of iperf_handle_message_client. */
  function ClientSwitch(c: Client, state: byte): Client {
    var pc :=
      if state == PARAM_EXCHANGE then ParamsLength
      else if state == CREATE_STREAMS then Creating(0)
      else if state == TEST_START || state == TEST_RUNNING then Loop
      else if state == EXCHANGE_RESULTS then OurLength
      else if state == DISPLAY_RESULTS then End
      else if state == IPERF_DONE then Done
      else Failed;
    c.(pc := pc, state := state, heard := c.heard + [state])
  }

  /** The length check of JSON_read. */
  predicate Acceptable(size: nat, cap: nat) {
    size > 0 && (cap == 0 || size <= cap)
  }

  function ClientReading(w: World): World
    requires ClientNeeds(w.c).Some? && |w.down| >= ClientNeeds(w.c).value
  {
    var n := ClientNeeds(w.c).value;
    var got, rest := w.down[..n], w.down[n..];
    match w.c.pc
    case Loop =>
      w.(c := ClientSwitch(w.c, got[0].value), down := rest, readDown := w.readDown + got,
         log := w.log + [Take(StateOctet, got)])
    case TheirLength =>
      var size := NetToHost(Values(got));
      w.(c := w.c.(pc := if Acceptable(size, 0) then TheirBody(size) else Failed), down := rest, readDown := w.readDown + got,
         log := w.log + [Take(LengthOctet, got)])
    case TheirBody(size) =>
      w.(c := w.c.(pc := if size < INT_LIMIT then Loop else Failed), down := rest, readDown := w.readDown + got,
         log := w.log + [Take(BodyOctet, got)])
  }

  // ----- what the server does

  function SendDown(w: World, s: Server, octets: seq<Octet>): World {
    w.(s := s, down := w.down + octets)
  }

  /** iperf_set_send_state. */
  function Say(w: World, pc: ServerPc, state: byte): World {
    SendDown(w, w.s.(pc := pc, state := state, said := w.s.said + [state]), [Octet(StateOctet, state)])
  }

  function ServerActing(cfg: Config, w: World): World
    requires Proper(cfg) && Enabled(cfg, w, ServerActs)
  {
    match w.s.pc
    case Offer => Say(w, ReadLength, PARAM_EXCHANGE)
    case Ask => Say(w, Serve, CREATE_STREAMS)
    case Serve => Say(w, PutRunning, TEST_START)
    case PutRunning => Say(w, Serve, TEST_RUNNING)
    case PutExchange => Say(w, ResultsLength, EXCHANGE_RESULTS)
    case ReplyLength => SendDown(w, w.s.(pc := ReplyBody), Marked(LengthOctet, HostToNet(|cfg.ofServer|)))
    case ReplyBody => SendDown(w, w.s.(pc := PutDisplay), Marked(BodyOctet, cfg.ofServer))
    case PutDisplay => Say(w, Serve, DISPLAY_RESULTS)
  }

  /** The switch of iperf_handle_message_server. */
  function ServerSwitch(s: Server, state: byte): Server {
    if state == TEST_START then s.(state := state)
    else if state == TEST_END then s.(pc := PutExchange, state := state)
    else if state == IPERF_DONE || state == CLIENT_TERMINATE then s.(pc := Over, state := IPERF_DONE)
    else s.(pc := Broken, state := state)
  }

  function ServerReading(w: World): World
    requires ServerNeeds(w.s).Some? && |w.up| >= ServerNeeds(w.s).value
  {
    var n := ServerNeeds(w.s).value;
    var got, rest := w.up[..n], w.up[n..];
    match w.s.pc
    case AwaitCookie => w.(s := w.s.(pc := Offer), up := rest, readUp := w.readUp + got, log := w.log + [Take(CookieOctet, got)])
    case ReadLength =>
      var size := NetToHost(Values(got));
      w.(s := w.s.(pc := if Acceptable(size, MAX_PARAMS) then ReadBody(size) else Broken), up := rest, readUp := w.readUp + got,
         log := w.log + [Take(LengthOctet, got)])
    case ReadBody(_) => w.(s := w.s.(pc := Ask), up := rest, readUp := w.readUp + got, log := w.log + [Take(BodyOctet, got)])
    case ResultsLength =>
      var size := NetToHost(Values(got));
      w.(s := w.s.(pc := if Acceptable(size, 0) then ResultsBody(size) else Broken), up := rest, readUp := w.readUp + got,
         log := w.log + [Take(LengthOctet, got)])
    case ResultsBody(size) =>
      w.(s := w.s.(pc := if size < INT_LIMIT then ReplyLength else Broken), up := rest, readUp := w.readUp + got,
         log := w.log + [Take(BodyOctet, got)])
    case Serve => w.(s := ServerSwitch(w.s, got[0].value), up := rest, readUp := w.readUp + got, log := w.log + [Take(StateOctet, got)])
  }

  /** A connection is taken as a stream while streams are created, if it bears the cookie; at any other time it is denied. */
  function ServerAccepting(cfg: Config, w: World): World
    requires w.queue != []
  {
    var ours := w.queue[0] && w.s.state == CREATE_STREAMS && w.s.accepted < cfg.streams;
    w.(s := w.s.(accepted := w.s.accepted + if ours then 1 else 0), queue := w.queue[1..])
  }

  function Step(cfg: Config, w: World, a: Action): World
    requires Proper(cfg) && Enabled(cfg, w, a)
  {
    match a
    case ClientActs => ClientActing(cfg, w)
    case ClientReads => ClientReading(w)
    case ClientFinishes => SendUp(w, w.c.(state := TEST_END, ends := w.c.ends + 1), [Octet(StateOctet, TEST_END)])
    case ServerActs => ServerActing(cfg, w)
    case ServerReads => ServerReading(w)
    case ServerAccepts => ServerAccepting(cfg, w)
    case Foreign => w.(queue := w.queue + [false])
  }
}
