/** Length-prefixed JSON over a byte stream whose reads and writes may be cut anywhere, be interrupted and fail. */
module Framing {
  import opened Bytes
  import opened JsonText
  import opened JsonGrammar
  import opened RoundTrip
  import JsonPrinter
  import JsonParser

  const WORD: nat := 0x1_0000_0000
  const INT_LIMIT: nat := 0x8000_0000

  const NET_SOFTERROR: int := -1
  const NET_HARDERROR: int := -2

  /** A count returned as a 32-bit int. */
  function AsInt(n: nat): (r: int)
    ensures r == n <==> n < INT_LIMIT
    ensures n < WORD && r >= 0 ==> r == n
  {
    if n % WORD < INT_LIMIT then n % WORD else n % WORD - WORD
  }

  // ----- the stream

  /** What write(2) may answer: a count, EINTR or EAGAIN, ENOBUFS, or another error. */
  datatype Written = Wrote(n: nat) | Interrupted | NoBuffers | WriteError

  /**
   * The sending side of a socket: what the kernel has accepted so far, and how it will answer the writes to come, whole
   * when nothing else is foreseen.
   */
  class Outgoing {
    var data: seq<byte>
    var answers: seq<Written>

    constructor (answers: seq<Written>)
      ensures data == [] && this.answers == answers
    {
      data, this.answers := [], answers;
    }

    /** write(2). */
    method Write(buf: seq<byte>) returns (r: Written)
      modifies this
      ensures r == Answer(old(answers), |buf|) && answers == Later(old(answers))
      ensures data == if r.Wrote? then old(data) + buf[..r.n] else old(data)
    {
      r := Answer(answers, |buf|);
      answers := Later(answers);
      if r.Wrote? {
        data := data + buf[..r.n];
      }
    }
  }

  function Answer(answers: seq<Written>, size: nat): (r: Written)
    ensures r.Wrote? ==> r.n <= size
  {
    if answers == [] then Wrote(size)
    else if answers[0].Wrote? then Wrote(Least(answers[0].n, size))
    else answers[0]
  }

  function Later<T>(s: seq<T>): seq<T> {
    if s == [] then [] else s[1..]
  }

  /** What Nwrite returns, and how many bytes are out. */
  datatype Sent = Sent(code: int, count: nat, answers: seq<Written>)

  /** How the answers let a write of `size` bytes go of which `done` are out. */
  ghost function Sending(answers: seq<Written>, done: nat, size: nat): (s: Sent)
    requires done <= size
    ensures done <= s.count <= size
    ensures s.code in {AsInt(s.count), NET_SOFTERROR, NET_HARDERROR} && (s.count == size ==> s.code == AsInt(size))
    ensures answers == [] ==> s == Sent(AsInt(size), size, [])
    ensures s.count < size && s.code >= 0 ==> s.count > 0 && Interrupted in answers
    ensures forall a :: a in s.answers ==> a in answers
    decreases |answers|
  {
    if done == size then Sent(AsInt(size), size, answers)
    else if answers == [] then Sent(AsInt(size), size, [])
    else
      match answers[0]
      case Interrupted => Sent(if done == 0 then NET_SOFTERROR else AsInt(done), done, answers[1..])
      case NoBuffers => Sent(NET_SOFTERROR, done, answers[1..])
      case WriteError => Sent(NET_HARDERROR, done, answers[1..])
      case Wrote(n) => if n == 0 then Sent(NET_SOFTERROR, done, answers[1..]) else Sending(answers[1..], Least(done + n, size), size)
  }

  /** All the bytes of some writes. */
  function Total(counts: seq<nat>): nat {
    if counts == [] then 0 else counts[0] + Total(counts[1..])
  }

  function Wholes(counts: seq<nat>): seq<Written> {
    seq(|counts|, i requires 0 <= i < |counts| => Wrote(counts[i]))
  }

  /** The first answer that is not a count ends it: with what is out when it is an interruption after the first byte. */
  lemma {:induction false} FirstFailure(counts: seq<nat>, a: Written, rest: seq<Written>, done: nat, size: nat)
    requires forall i :: 0 <= i < |counts| ==> counts[i] > 0
    requires done + Total(counts) < size && (a.Wrote? ==> a.n == 0)
    ensures var out := done + Total(counts);
            Sending(Wholes(counts) + [a] + rest, done, size) ==
              match a
              case Interrupted => Sent(if out == 0 then -1 else AsInt(out), out, rest)
              case NoBuffers => Sent(-1, out, rest)
              case WriteError => Sent(-2, out, rest)
              case Wrote(_) => Sent(-1, out, rest)
    decreases |counts|
  {
    hide Sending, AsInt;
    var answers := Wholes(counts) + [a] + rest;
    SendingStep(answers, done, size);
    if counts == [] {
      assert answers[0] == a && answers[1..] == rest;
    } else {
      WholesFirst(counts, [a] + rest);
      hide Wholes;
      assert answers == Wholes(counts) + ([a] + rest) && Wholes(counts[1..]) + [a] + rest == Wholes(counts[1..]) + ([a] + rest);
      FirstFailure(counts[1..], a, rest, done + counts[0], size);
    }
  }

  lemma WholesFirst(counts: seq<nat>, more: seq<Written>)
    requires counts != []
    ensures var answers := Wholes(counts) + more; answers[0] == Wrote(counts[0]) && answers[1..] == Wholes(counts[1..]) + more
  {
  }

  /** Without one the whole goes out. */
  lemma {:induction false} NoFailure(counts: seq<nat>, done: nat, size: nat)
    requires done <= size && forall i :: 0 <= i < |counts| ==> counts[i] > 0
    ensures Sending(Wholes(counts), done, size).count == size && Sending(Wholes(counts), done, size).code == AsInt(size)
    decreases |counts|
  {
    if counts != [] && done < size {
      assert Wholes(counts)[1..] == Wholes(counts[1..]);
      NoFailure(counts[1..], Least(done + counts[0], size), size);
    }
  }

  /** Below 2^31 bytes a count that is no error is that of the bytes out, and all of them exactly if all are. */
  lemma CountIsTold(answers: seq<Written>, size: nat)
    requires size < INT_LIMIT
    ensures var s := Sending(answers, 0, size); (s.code >= 0 ==> s.code == s.count) && (s.code == size <==> s.count == size)
  {
  }

  /** What a read may bring: a piece of the data, a time-out or interruption, or an error. */
  datatype Arrival = Piece(size: nat) | Pause | Broke

  /** The receiving side: what will still arrive before the peer closes, and how the reads to come go. */
  class Incoming {
    var data: seq<byte>
    var arrivals: seq<Arrival>

    constructor (data: seq<byte>, arrivals: seq<Arrival>)
      ensures this.data == data && this.arrivals == arrivals
    {
      this.data, this.arrivals := data, arrivals;
    }

    /** select(2) and read(2): at least one byte unless the stream is at its end. */
    method Read(n: nat) returns (how: Arrival, chunk: seq<byte>)
      requires n > 0
      modifies this
      ensures |chunk| <= n && old(data) == chunk + data
      ensures if how.Piece? then chunk == [] <==> old(data) == [] else chunk == []
      ensures old(arrivals) == [] ==> how.Piece? && arrivals == []
      ensures old(arrivals) != [] ==> how == old(arrivals)[0] && arrivals == old(arrivals)[1..]
    {
      how := if arrivals == [] then Piece(n) else arrivals[0];
      arrivals := if arrivals == [] then [] else arrivals[1..];
      chunk := [];
      if how.Piece? {
        var r := Least(Least(if how.size == 0 then 1 else how.size, n), |data|);
        chunk := data[..r];
        data := data[r..];
      }
    }
  }

  lemma SendingStep(answers: seq<Written>, done: nat, size: nat)
    requires done < size
    ensures Sending(answers, done, size) ==
            match Answer(answers, size - done)
            case Interrupted => Sent(if done == 0 then NET_SOFTERROR else AsInt(done), done, Later(answers))
            case NoBuffers => Sent(NET_SOFTERROR, done, Later(answers))
            case WriteError => Sent(NET_HARDERROR, done, Later(answers))
            case Wrote(n) => if n == 0 then Sent(NET_SOFTERROR, done, Later(answers)) else Sending(Later(answers), done + n, size)
  {
  }

  lemma SendingEnds(answers: seq<Written>, size: nat)
    ensures Sending(answers, size, size) == Sent(AsInt(size), size, answers)
  {
  }

  /**
   * Nwrite. By the properties of Sending a count below 2^31 that is not an error is that of the bytes that went out; after
   * an error, or from 2^31 on, nobody is told how many did.
   */
  method Nwrite(out: Outgoing, buf: seq<byte>) returns (code: int, ghost sent: nat)
    modifies out
    ensures Sent(code, sent, out.answers) == Sending(old(out.answers), 0, |buf|)
    ensures out.data == old(out.data) + buf[..sent]
  {
    hide Sending, Answer, Later, AsInt;
    var nleft: nat, at: nat := |buf|, 0;
    assert buf[..0] == [] && old(out.data) + [] == old(out.data);
    while nleft > 0
      invariant at + nleft == |buf|
      invariant out.data == old(out.data) + buf[..at]
      invariant Sending(out.answers, at, |buf|) == Sending(old(out.answers), 0, |buf|)
      decreases nleft
    {
      SendingStep(out.answers, at, |buf|);
      var r := out.Write(buf[at..]);
      match r {
        case Interrupted => return if nleft == |buf| then NET_SOFTERROR else AsInt(at), at;
        case NoBuffers => return NET_SOFTERROR, at;
        case WriteError => return NET_HARDERROR, at;
        case Wrote(n) =>
          if n == 0 {
            return NET_SOFTERROR, at;
          }
          assert buf[..at] + buf[at..][..n] == buf[..at + n];
          nleft := nleft - n;
          at := at + n;
      }
    }
    SendingEnds(out.answers, |buf|);
    return AsInt(|buf|), at;
  }

  function Least(a: nat, b: nat): nat { if a < b then a else b }

  /**
   * Nread: the bytes that came, in order, and an error or their number; fewer than asked for only when the peer closes
   * first or a read fails.
   */
  method Nread(src: Incoming, count: nat) returns (code: int, got: seq<byte>, ghost failed: bool)
    modifies src
    ensures |got| <= count && old(src.data) == got + src.data
    ensures code == AsInt(|got|) || (code == NET_HARDERROR && failed && Broke in old(src.arrivals))
    ensures failed && Broke !in old(src.arrivals) ==> Pause in old(src.arrivals)
    ensures failed && Pause !in old(src.arrivals) ==> code == NET_HARDERROR
    ensures failed ==> |got| < count
    ensures !failed ==> |got| == Least(count, |old(src.data)|)
    ensures old(src.arrivals) == [] ==> !failed && src.arrivals == []
  {
    got, failed := [], false;
    var nleft: nat := count;
    while nleft > 0
      invariant nleft + |got| == count && !failed
      invariant old(src.data) == got + src.data
      invariant old(src.arrivals) == [] ==> src.arrivals == []
      invariant forall a :: a in src.arrivals ==> a in old(src.arrivals)
      decreases nleft
    {
      ghost var arrivals := src.arrivals;
      assert arrivals != [] ==> arrivals[0] in arrivals;
      var how, chunk := src.Read(nleft);
      match how {
        case Broke => return NET_HARDERROR, got, true;
        case Pause => return AsInt(|got|), got, true;
        case Piece(_) =>
          if chunk == [] {
            return AsInt(|got|), got, false;
          }
          got := got + chunk;
          nleft := nleft - |chunk|;
      }
    }
    code := AsInt(|got|);
  }

  // ----- the four length bytes

  function HostToNet(n: nat): seq<byte>
    requires n < WORD
  {
    [n / 0x100_0000, n / 0x1_0000 % 0x100, n / 0x100 % 0x100, n % 0x100]
  }

  function NetToHost(b: seq<byte>): (n: nat)
    requires |b| == 4
    ensures n < WORD
  {
    var w: int, x: int, y: int, z: int := b[0], b[1], b[2], b[3];
    w * 0x100_0000 + x * 0x1_0000 + y * 0x100 + z
  }

  /** Most significant octet first, both ways. */
  lemma OctetsPlaced(n: nat, b: seq<byte>)
    requires n < WORD && |b| == 4
    ensures |HostToNet(n)| == 4
    ensures var h := HostToNet(n); var p: int, q: int, r: int, s: int := h[0], h[1], h[2], h[3];
            n == p * 0x100_0000 + q * 0x1_0000 + r * 0x100 + s
    ensures var p: int, q: int, r: int, s: int := b[0], b[1], b[2], b[3];
            NetToHost(b) == p * 0x100_0000 + q * 0x1_0000 + r * 0x100 + s
  {
    assert n / 0x100 / 0x100 == n / 0x1_0000 && n / 0x1_0000 / 0x100 == n / 0x100_0000;
  }

  lemma LengthRoundTrip(n: nat)
    requires n < WORD
    ensures NetToHost(HostToNet(n)) == n
  {
    assert n / 0x100 / 0x100 == n / 0x1_0000 && n / 0x1_0000 / 0x100 == n / 0x100_0000;
  }

  // ----- JSON_write and JSON_read

  /** The bytes JSON_write puts on the stream; a length that does not fit 32 bits wraps. */
  function Frame(text: seq<byte>): seq<byte> {
    HostToNet(|text| % WORD) + text[..|text| % WORD]
  }

  /** Four octets with the length of the text, most significant first, and the text. */
  lemma FrameSpelled(text: seq<byte>)
    requires |text| < 0x1_0000_0000
    ensures |Frame(text)| == 4 + |text| && Frame(text)[4..] == text
    ensures var f := Frame(text); var p: int, q: int, r: int, s: int := f[0], f[1], f[2], f[3];
            p * 0x100_0000 + q * 0x1_0000 + r * 0x100 + s == |text|
  {
    hide HostToNet, NetToHost;
    OctetsPlaced(|text|, [0, 0, 0, 0]);
    assert text[..|text|] == text;
  }

  /**
   * JSON_write. A whole frame is reported as a success exactly if its length is below 2^31, and so is one that was cut by
   * an interruption after the first byte of a write.
   */
  method JsonWrite(out: Outgoing, v: Json) returns (ok: bool)
    requires Printable(v)
    modifies out
    ensures old(out.answers) == [] ==>
              out.data == old(out.data) + Frame(Compact(v)) && (ok <==> |Compact(v)| % WORD < INT_LIMIT)
    ensures ok ==> out.data == old(out.data) + Frame(Compact(v)) || Interrupted in old(out.answers)
    ensures (out.data, ok) == (old(out.data) + Writing(old(out.answers), Compact(v)).0, Writing(old(out.answers), Compact(v)).1)
  {
    hide Text, HostToNet, Frame;
    var str := JsonPrinter.Print(v, false);
    ghost var text := Compact(v);
    JsonPrinter.TextNulFree(v, false, 0);
    assert str[..][..|text|] == text;
    CStrStops(str[..], |text|);
    ok := WriteFrame(out, CStr(str[..]));
  }

  /** What the two writes of JSON_write leave on the stream, and whether neither answered an error. */
  ghost function Writing(answers: seq<Written>, text: seq<byte>): (r: (seq<byte>, bool))
    ensures answers == [] ==> r.0 == Frame(text)
    ensures r.0 == Frame(text) ==> (r.1 <==> |text| % WORD < INT_LIMIT)
    ensures r.1 ==> r.0 == Frame(text) || Interrupted in answers
  {
    var hsize := |text| % WORD;
    var head := Sending(answers, 0, 4);
    var body := Sending(head.answers, 0, hsize);
    assert HostToNet(hsize)[..4] == HostToNet(hsize) && text[..hsize][..hsize] == text[..hsize];
    if head.code < 0 then (HostToNet(hsize)[..head.count], false)
    else (HostToNet(hsize)[..head.count] + text[..hsize][..body.count], body.code >= 0)
  }

  /** Of a frame whose text fits 32 bits. */
  lemma WritingIs(answers: seq<Written>, text: seq<byte>, head: Sent, body: Sent)
    requires |text| < 0x1_0000_0000 && head == Sending(answers, 0, 4) && body == Sending(head.answers, 0, |text|)
    ensures head.count <= 4 && body.count <= |text| && |Frame(text)| == 4 + |text|
    ensures head.code < 0 ==> Writing(answers, text) == (Frame(text)[..head.count], false)
    ensures head.code >= 0 && head.count == 4 ==> Writing(answers, text) == (Frame(text)[..4 + body.count], body.code >= 0)
  {
    hide HostToNet, Sending;
    HeadLength(|text|);
    var h := HostToNet(|text|);
    assert text[..|text|] == text && h[..4] == h;
    assert (h + text)[..head.count] == h[..head.count];
    assert (h + text)[..4 + body.count] == h + text[..body.count];
  }

  /** A write that fails inside the length bytes is reported, and nothing of the text goes out. */
  lemma LengthFails(counts: seq<nat>, a: Written, rest: seq<Written>, text: seq<byte>)
    requires |text| < 0x1_0000_0000 && (forall i :: 0 <= i < |counts| ==> counts[i] > 0) && Total(counts) < 4
    requires (a.Wrote? ==> a.n == 0) && (a.Interrupted? ==> counts == [])
    ensures Total(counts) < |Frame(text)| && Writing(Wholes(counts) + [a] + rest, text) == (Frame(text)[..Total(counts)], false)
  {
    hide Sending, HostToNet, Wholes, Frame, Writing, Total;
    Breaks(counts, a, rest, 4);
    HeadFails(Wholes(counts) + [a] + rest, text);
  }

  lemma Breaks(counts: seq<nat>, a: Written, rest: seq<Written>, size: nat)
    requires (forall i :: 0 <= i < |counts| ==> counts[i] > 0) && Total(counts) < size
    requires (a.Wrote? ==> a.n == 0) && (a.Interrupted? ==> counts == [])
    ensures var s := Sending(Wholes(counts) + [a] + rest, 0, size); s.code < 0 && s.count == Total(counts)
  {
    hide Sending, Wholes;
    FirstFailure(counts, a, rest, 0, size);
  }

  lemma HeadFails(answers: seq<Written>, text: seq<byte>)
    requires |text| < 0x1_0000_0000 && Sending(answers, 0, 4).code < 0
    ensures var s := Sending(answers, 0, 4); |Frame(text)| == 4 + |text| && Writing(answers, text) == (Frame(text)[..s.count], false)
  {
    hide Sending, HostToNet, Frame, Writing;
    var head := Sending(answers, 0, 4);
    WritingIs(answers, text, head, Sending(head.answers, 0, |text|));
  }

  /** One that fails inside the text is reported unless it is an interruption after the first byte of the text. */
  lemma TextFails(counts: seq<nat>, a: Written, rest: seq<Written>, text: seq<byte>)
    requires |text| < 0x8000_0000 && (forall i :: 0 <= i < |counts| ==> counts[i] > 0) && Total(counts) < |text|
    requires a.Wrote? ==> a.n == 0
    ensures 4 + Total(counts) < |Frame(text)|
    ensures Writing([Wrote(4)] + (Wholes(counts) + [a] + rest), text) ==
            (Frame(text)[..4 + Total(counts)], a.Interrupted? && Total(counts) > 0)
  {
    hide Sending, HostToNet, Wholes, Frame, Writing, Total;
    FirstFailure(counts, a, rest, 0, |text|);
    HeadFirst(Wholes(counts) + [a] + rest, text);
  }

  lemma HeadFirst(more: seq<Written>, text: seq<byte>)
    requires |text| < 0x1_0000_0000
    ensures var s := Sending(more, 0, |text|);
            |Frame(text)| == 4 + |text| && Writing([Wrote(4)] + more, text) == (Frame(text)[..4 + s.count], s.code >= 0)
  {
    hide Sending, HostToNet, Frame, Writing;
    HeadWritten(more);
    WritingIs([Wrote(4)] + more, text, Sent(4, 4, more), Sending(more, 0, |text|));
  }

  lemma HeadWritten(more: seq<Written>)
    ensures Sending([Wrote(4)] + more, 0, 4) == Sent(4, 4, more)
  {
    assert ([Wrote(4)] + more)[1..] == more;
  }

  /** The two writes of JSON_write, which takes any count for success. */
  method WriteFrame(out: Outgoing, text: seq<byte>) returns (ok: bool)
    modifies out
    ensures (out.data, ok) == (old(out.data) + Writing(old(out.answers), text).0, Writing(old(out.answers), text).1)
  {
    hide HostToNet;
    var hsize := |text| % WORD;
    HeadLength(hsize);
    var n, sent := Nwrite(out, HostToNet(hsize));
    if n < 0 {
      return false;
    }
    ghost var first := HostToNet(hsize)[..sent];
    n, sent := Nwrite(out, text[..hsize]);
    ok := n >= 0;
    assert old(out.data) + first + text[..hsize][..sent] == old(out.data) + (first + text[..hsize][..sent]);
  }

  /** What JSON_read answers and what it leaves on the stream; `cap` 0 means no cap. */
  function ReadFrame(data: seq<byte>, cap: nat): (Parsed<Json>, seq<byte>) {
    if |data| < 4 then (Fail, [])
    else
      var hsize := NetToHost(data[..4]);
      if hsize == 0 || (cap != 0 && hsize > cap) then (Fail, data[4..])
      else if (hsize + 1) % WORD == 0 then (Fail, data[4..])
      else if |data| - 4 < hsize then (Fail, [])
      else if AsInt(hsize) < 0 then (Fail, data[4 + hsize..])
      else (Parse(CStr(data[4..4 + hsize])), data[4 + hsize..])
  }

  /** However the reads go, JSON_read answers what the bytes say or fails. */
  method JsonRead(src: Incoming, cap: nat) returns (r: Parsed<Json>, ghost failed: bool)
    modifies src
    ensures !failed ==> (r, src.data) == ReadFrame(old(src.data), cap)
    ensures failed ==> r == Fail
    ensures old(src.arrivals) == [] ==> !failed
  {
    hide Parse, NetToHost;
    var data := src.data;
    var rc, nsize;
    rc, nsize, failed := Nread(src, 4);
    assert data[..|nsize|] == nsize && data[|nsize|..] == src.data;
    r := Fail;
    if rc == 4 {
      var hsize := NetToHost(nsize);
      if hsize > 0 && (cap == 0 || hsize <= cap) && (hsize + 1) % WORD != 0 {
        var str;
        rc, str, failed := Nread(src, hsize);
        assert data[4..] == str + src.data;
        if |str| == hsize {
          assert str == data[4..4 + hsize] && src.data == data[4 + hsize..];
        }
        if rc >= 0 && rc == hsize {
          var end;
          r, end := JsonParser.ParseText(CStr(str));
        }
      }
    }
  }

  /**
   * What JSON_write wrote, JSON_read gives back and nothing more is consumed, exactly when the length is below 2^31 and
   * respects the cap: for every tree the parser can return, and whatever follows on the stream.
   */
  lemma FrameRoundTrip(v: Json, cap: nat, rest: seq<byte>)
    requires Fits(v, NESTING_LIMIT)
    ensures |Compact(v)| < INT_LIMIT && (cap == 0 || |Compact(v)| <= cap) <==>
            ReadFrame(Frame(Compact(v)) + rest, cap) == (Ok(v, |Compact(v)|), rest)
  {
    hide Text, Fits, Parse, HostToNet, NetToHost, CStr;
    var text := Compact(v);
    var n := |text| % WORD;
    var data := Frame(text) + rest;
    HeadLength(n);
    LengthRoundTrip(n);
    assert data[..4] == HostToNet(n);
    assert data[4..4 + n] == text[..n] && data[4 + n..] == rest;
    if n == |text| {
      assert text[..n] == text;
      JsonPrinter.TextNulFree(v, false, 0);
      CStrWhole(text);
      FirstByte(v, false, 0);
      ParseUndoesPrint(v, false);
    }
  }

  /** A frame over the cap is refused for its length, and its text is left on the stream. */
  lemma RefusedFrames(text: seq<byte>, cap: nat, rest: seq<byte>)
    requires 0 < cap < |text| < 0x1_0000_0000
    ensures ReadFrame(Frame(text) + rest, cap) == (Fail, text + rest)
  {
    hide HostToNet, NetToHost, Parse;
    HeadLength(|text|);
    LengthRoundTrip(|text|);
    var data := Frame(text) + rest;
    assert text[..|text|] == text && data[..4] == HostToNet(|text|) && data[4..] == text + rest;
  }

  /** A frame of which the end never comes is refused, and nothing is left. */
  lemma CutFrames(text: seq<byte>, cap: nat, n: nat)
    requires n < 4 + |text| < 0x1_0000_0000 && (cap == 0 || |text| <= cap)
    ensures ReadFrame(Frame(text)[..n], cap) == (Fail, [])
  {
    hide HostToNet, NetToHost, Parse;
    HeadLength(|text|);
    LengthRoundTrip(|text|);
    assert text[..|text|] == text;
    var data := Frame(text)[..n];
    if n >= 4 {
      assert data[..4] == HostToNet(|text|);
    }
  }

  lemma HeadLength(n: nat)
    requires n < WORD
    ensures |HostToNet(n)| == 4
  {
  }

  function Frames(vs: seq<Json>): seq<byte> {
    if vs == [] then [] else Frame(Compact(vs[0])) + Frames(vs[1..])
  }

  function ReadFrames(data: seq<byte>, cap: nat, n: nat): (seq<Parsed<Json>>, seq<byte>)
    decreases n
  {
    if n == 0 then ([], data)
    else
      var (r, more) := ReadFrame(data, cap);
      var (rs, end) := ReadFrames(more, cap, n - 1);
      ([r] + rs, end)
  }

  /** What reading each of these back gives. */
  function Returned(vs: seq<Json>): (r: seq<Parsed<Json>>)
    ensures |r| == |vs| && forall i :: 0 <= i < |vs| ==> r[i] == Ok(vs[i], |Compact(vs[i])|)
  {
    if vs == [] then [] else [Ok(vs[0], |Compact(vs[0])|)] + Returned(vs[1..])
  }

  /** Any number of messages written one behind the other are read back one by one, in order. */
  lemma {:induction false} ManyFrames(vs: seq<Json>, cap: nat, rest: seq<byte>)
    requires forall v :: v in vs ==> Fits(v, NESTING_LIMIT) && |Compact(v)| < INT_LIMIT && (cap == 0 || |Compact(v)| <= cap)
    ensures ReadFrames(Frames(vs) + rest, cap, |vs|) == (Returned(vs), rest)
  {
    if vs == [] {
      assert Frames(vs) + rest == rest;
    } else {
      hide Text, Fits, Frame, ReadFrame, Compact;
      assert vs[0] in vs;
      var more := Frames(vs[1..]) + rest;
      assert Frames(vs) + rest == Frame(Compact(vs[0])) + more;
      FrameRoundTrip(vs[0], cap, more);
      ManyFrames(vs[1..], cap, rest);
    }
  }

  /**
   * A write interrupted between two of the length bytes: the frame is cut, the text follows all the same, and success
   * is reported.
   */
  lemma CutFrameIsReported(text: seq<byte>)
    requires 0 < |text| < INT_LIMIT
    ensures Writing([Wrote(2), Interrupted], text) == (HostToNet(|text|)[..2] + text, true)
  {
    hide HostToNet;
    var answers := [Wrote(2), Interrupted];
    assert answers[1..] == [Interrupted] && answers[1..][1..] == [];
    assert Sending(answers, 0, 4) == Sending([Interrupted], 2, 4) == Sent(2, 2, []);
    assert text[..|text|][..|text|] == text;
  }
}
