/**
 * UDP sequence accounting: the numbers a sender puts on its datagrams, without segmentation offload, and the three
 * counters a receiver keeps instead of the set of numbers it has seen, with receive offload or without.
 */
module Udp {
  import opened Bytes

  const TWO_32: int := 0x1_0000_0000

  type pos = n: nat | n > 0 witness 1

  // ----- the counters

  datatype Counters = Counters(packetCount: nat, cntError: nat, outOfOrder: nat)

  /** What one arrival does to the counters. */
  function Receive(c: Counters, n: nat): Counters {
    if n > c.packetCount then Counters(n, c.cntError + (n - 1 - c.packetCount), c.outOfOrder)
    else Counters(c.packetCount, if c.cntError > 0 then c.cntError - 1 else 0, c.outOfOrder + 1)
  }

  /** The counters after these arrivals. */
  function Tally(arrivals: seq<nat>): Counters {
    if arrivals == [] then Counters(0, 0, 0)
    else Receive(Tally(arrivals[..|arrivals| - 1]), arrivals[|arrivals| - 1])
  }

  /** The counters after more arrivals. */
  function ReceiveAll(c: Counters, numbers: seq<nat>): Counters
    decreases |numbers|
  {
    if numbers == [] then c else ReceiveAll(Receive(c, numbers[0]), numbers[1..])
  }

  lemma {:induction false} TallyMore(arrivals: seq<nat>, numbers: seq<nat>)
    ensures Tally(arrivals + numbers) == ReceiveAll(Tally(arrivals), numbers)
    decreases |numbers|
  {
    if numbers == [] {
      assert arrivals + numbers == arrivals;
    } else {
      var next := arrivals + [numbers[0]];
      assert next[..|arrivals|] == arrivals;
      TallyMore(next, numbers[1..]);
      assert next + numbers[1..] == arrivals + numbers;
    }
  }

  /** How many datagrams of a read of `r` bytes are looked at: whole blocks, as long as a header fits what is left. */
  function Blocks(r: int, blksize: pos, header: nat): nat
    decreases r
  {
    if r >= blksize && r >= header then 1 + Blocks(r - blksize, blksize, header) else 0
  }

  /** That many whole blocks lie in the read, each with room for a header where it starts, and then no more do. */
  lemma {:induction false} BlocksCount(r: int, blksize: pos, header: nat)
    ensures var k := Blocks(r, blksize, header);
            && (r >= 0 ==> k * blksize <= r) && (r < 0 ==> k == 0)
            && (r - k * blksize < blksize || r - k * blksize < header)
            && forall j :: 0 <= j < k ==> r - j * blksize >= header
    decreases r
  {
    if r >= blksize && r >= header {
      var m := Blocks(r - blksize, blksize, header);
      BlocksCount(r - blksize, blksize, header);
      assert (m + 1) * blksize == m * blksize + blksize;
      forall j | 0 <= j < m + 1 ensures r - j * blksize >= header {
        if j > 0 {
          assert r - blksize - (j - 1) * blksize >= header;
          assert (j - 1) * blksize == j * blksize - blksize;
        }
      }
    }
  }

  /** The count is determined by that. */
  lemma {:induction false} BlocksAre(r: int, blksize: pos, header: nat, k: nat)
    requires k * blksize <= r && (r - k * blksize < blksize || r - k * blksize < header)
    requires forall j :: 0 <= j < k ==> r - j * blksize >= header
    ensures Blocks(r, blksize, header) == k
  {
    BlocksCount(r, blksize, header);
    var m := Blocks(r, blksize, header);
    assert m < k ==> r - m * blksize >= header;
    assert k < m ==> r - k * blksize >= header;
    if m < k {
      Stacked(m, k, blksize);
    } else if k < m {
      Stacked(k, m, blksize);
    }
  }

  lemma Stacked(j: nat, k: nat, b: nat)
    requires j < k
    ensures j * b + b <= k * b
  {
    assert (k - j - 1) * b >= 0;
    assert k * b == j * b + b + (k - j - 1) * b;
  }

  /** One datagram of the negotiated size, as without receive offload, counts once. */
  lemma OneBlock(blksize: pos, counters64: bool)
    ensures Blocks(blksize, blksize, HeaderSize(counters64)) == if blksize >= (if counters64 then 16 else 12) then 1 else 0
  {
  }

  /** Two time words and the counter. */
  function HeaderSize(counters64: bool): nat {
    if counters64 then 16 else 12
  }

  /** iperf_stream, as far as sequence accounting goes. */
  class UdpStream {
    var packetCount: nat
    var cntError: nat
    var outOfOrder: nat
    var bytesReceived: nat
    var bytesSent: nat
    const blksize: pos
    const counters64: bool

    constructor (blksize: pos, counters64: bool)
      ensures Counts() == Counters(0, 0, 0) && bytesReceived == bytesSent == 0
      ensures this.blksize == blksize && this.counters64 == counters64
    {
      this.blksize, this.counters64 := blksize, counters64;
      packetCount, cntError, outOfOrder := 0, 0, 0;
      bytesReceived, bytesSent := 0, 0;
    }

    function Counts(): Counters
      reads this
    {
      Counters(packetCount, cntError, outOfOrder)
    }

    /** iperf_udp_recv, after a read of `r` bytes, a datagram or several, whose headers hold these numbers. */
    method Recv(r: int, numbers: seq<nat>, running: bool) returns (code: int)
      requires Blocks(r, blksize, HeaderSize(counters64)) <= |numbers|
      modifies `packetCount, `cntError, `outOfOrder, `bytesReceived
      ensures code == r
      ensures Counts() ==
              if running then ReceiveAll(old(Counts()), numbers[..Blocks(r, blksize, HeaderSize(counters64))]) else old(Counts())
      ensures bytesReceived == old(bytesReceived) + if running && r > 0 then r else 0
    {
      if r <= 0 {
        return r;
      }
      if running {
        bytesReceived := bytesReceived + r;
        var left, at: nat := r, 0;
        ghost var all := Blocks(r, blksize, HeaderSize(counters64));
        while left >= blksize
          invariant bytesReceived == old(bytesReceived) + r
          invariant 0 <= left && at + Blocks(left, blksize, HeaderSize(counters64)) == all
          invariant ReceiveAll(Counts(), numbers[at..all]) == ReceiveAll(old(Counts()), numbers[..all])
          decreases left
        {
          if left < 12 {
            break;
          }
          if counters64 && left < 16 {
            break;
          }
          assert numbers[at..all][0] == numbers[at] && numbers[at..all][1..] == numbers[at + 1..all];
          Count(numbers[at]);
          left := left - blksize;
          at := at + 1;
        }
        assert numbers[at..all] == [];
      }
      return r;
    }

    /** What a header's number does to the counters. */
    method Count(n: nat)
      modifies `packetCount, `cntError, `outOfOrder
      ensures Counts() == Receive(old(Counts()), n)
    {
      if n >= packetCount + 1 {
        if n > packetCount + 1 {
          cntError := cntError + (n - 1 - packetCount);
        }
        packetCount := n;
      } else {
        outOfOrder := outOfOrder + 1;
        if cntError > 0 {
          cntError := cntError - 1;
        }
      }
    }

    /** The number a header has room for. */
    function Header(n: nat): nat {
      if counters64 then n else n % TWO_32
    }

    /** iperf_udp_send, when the write returns `r`: the number of the datagram that left, if one did. */
    method Send(r: int) returns (code: int, sent: Option<nat>)
      modifies `packetCount, `bytesSent
      ensures code == r
      ensures sent == if r > 0 then Some(Header(old(packetCount) + 1)) else None
      ensures r > 0 && !counters64 ==> sent == Some((old(packetCount) + 1) % 0x1_0000_0000)
      ensures packetCount == old(packetCount) + if r > 0 then 1 else 0
      ensures bytesSent == old(bytesSent) + if r > 0 then r else 0
    {
      packetCount := packetCount + 1;
      var number := Header(packetCount);
      if r <= 0 {
        packetCount := packetCount - 1;
        if r < 0 {
          return r, None;
        }
      }
      bytesSent := bytesSent + r;
      return r, if r > 0 then Some(number) else None;
    }
  }

  // ----- the sender

  /** Any mixture of sends and soft failures leaves the numbers 1, 2, ... on the wire, in order. */
  method SendAll(results: seq<int>, counters64: bool, blksize: pos) returns (stream: UdpStream, wire: seq<nat>)
    requires counters64 || |results| < TWO_32
    ensures |wire| == stream.packetCount == |Sends(results)|
    ensures forall i :: 0 <= i < |wire| ==> wire[i] == i + 1
  {
    stream := new UdpStream(blksize, counters64);
    wire := [];
    for i := 0 to |results|
      invariant fresh(stream) && stream.counters64 == counters64
      invariant stream.packetCount == |wire| == |Sends(results[..i])| <= i
      invariant forall k :: 0 <= k < |wire| ==> wire[k] == k + 1
    {
      assert results[..i + 1][..i] == results[..i];
      var code, sent := stream.Send(results[i]);
      if sent.Some? {
        wire := wire + [sent.value];
      }
    }
    assert results[..|results|] == results;
  }

  /** The writes that sent something. */
  function Sends(results: seq<int>): seq<int> {
    if results == [] then []
    else
      var rest, last := Sends(results[..|results| - 1]), results[|results| - 1];
      if last > 0 then rest + [last] else rest
  }

  // ----- the receiver

  /** A read of `r` bytes with these numbers in its headers, before or after the test has started. */
  datatype Datagrams = Datagrams(r: int, numbers: seq<nat>, running: bool)

  predicate Filled(d: Datagrams, blksize: pos, counters64: bool) {
    Blocks(d.r, blksize, HeaderSize(counters64)) <= |d.numbers|
  }

  /** The numbers of a read that are counted. */
  function Counted(d: Datagrams, blksize: pos, counters64: bool): seq<nat>
    requires Filled(d, blksize, counters64)
  {
    if d.running then d.numbers[..Blocks(d.r, blksize, HeaderSize(counters64))] else []
  }

  function Arrivals(datagrams: seq<Datagrams>, blksize: pos, counters64: bool): seq<nat>
    requires forall d :: d in datagrams ==> Filled(d, blksize, counters64)
  {
    if datagrams == [] then []
    else Arrivals(datagrams[..|datagrams| - 1], blksize, counters64) + Counted(datagrams[|datagrams| - 1], blksize, counters64)
  }

  /**
   * A stream that takes in any reads ends with the tally of the datagrams counted; when these are numbered from 1 and
   * none came twice, its loss counter is the number of those missing below the highest.
   */
  method RecvAll(datagrams: seq<Datagrams>, blksize: pos, counters64: bool) returns (stream: UdpStream)
    requires forall d :: d in datagrams ==> Filled(d, blksize, counters64)
    ensures stream.Counts() == Tally(Arrivals(datagrams, blksize, counters64))
    ensures var arrivals := Arrivals(datagrams, blksize, counters64);
            Numbered(arrivals) && NoDuplicates(arrivals) ==> stream.cntError == Missing(arrivals, stream.packetCount)
    ensures blksize >= 16 && (forall d :: d in datagrams ==> d.running && d.r == blksize) ==>
              stream.Counts() ==
              Tally(seq(|datagrams|, i requires 0 <= i < |datagrams| => if datagrams[i].numbers == [] then 0 else datagrams[i].numbers[0]))
  {
    hide Tally, ReceiveAll, Blocks, Missing, SeenSet;
    stream := new UdpStream(blksize, counters64);
    NoneArrived([]);
    for i := 0 to |datagrams|
      invariant fresh(stream) && stream.counters64 == counters64 && stream.blksize == blksize
      invariant stream.Counts() == Tally(Arrivals(datagrams[..i], blksize, counters64))
    {
      var d := datagrams[i];
      assert datagrams[..i + 1][..i] == datagrams[..i] && d in datagrams;
      TallyMore(Arrivals(datagrams[..i], blksize, counters64), Counted(d, blksize, counters64));
      NoneCounted(stream.Counts());
      var code := stream.Recv(d.r, d.numbers, d.running);
    }
    assert datagrams[..|datagrams|] == datagrams;
    if blksize >= 16 && forall d :: d in datagrams ==> d.running && d.r == blksize {
      FullBlocks(datagrams, blksize, counters64);
    }
    var arrivals := Arrivals(datagrams, blksize, counters64);
    if Numbered(arrivals) && NoDuplicates(arrivals) {
      LossIsExact(arrivals);
    }
  }

  /** Of reads of one full block each, every one counts, with the number it bears. */
  lemma {:induction false} FullBlocks(datagrams: seq<Datagrams>, blksize: pos, counters64: bool)
    requires forall d :: d in datagrams ==> Filled(d, blksize, counters64) && d.running && d.r == blksize && blksize >= 16
    ensures forall d :: d in datagrams ==> d.numbers != []
    ensures Arrivals(datagrams, blksize, counters64) ==
            seq(|datagrams|, i requires 0 <= i < |datagrams| => if datagrams[i].numbers == [] then 0 else datagrams[i].numbers[0])
  {
    OneBlock(blksize, counters64);
    if datagrams != [] {
      var last := datagrams[|datagrams| - 1];
      FullBlocks(datagrams[..|datagrams| - 1], blksize, counters64);
      assert last in datagrams && Counted(last, blksize, counters64) == [last.numbers[0]];
    }
    forall d | d in datagrams ensures d.numbers != [] {
      assert Filled(d, blksize, counters64);
    }
  }

  lemma NoneCounted(c: Counters)
    ensures ReceiveAll(c, []) == c
  {
  }

  // ----- the receiver against the set of numbers seen

  function SeenSet(arrivals: seq<nat>): set<nat> {
    set n | n in arrivals
  }

  function UpTo(max: nat): (r: set<nat>)
    ensures |r| == max
    ensures forall n: nat :: n in r <==> 1 <= n <= max
  {
    if max == 0 then {} else UpTo(max - 1) + {max}
  }

  ghost predicate Numbered(arrivals: seq<nat>) {
    forall i :: 0 <= i < |arrivals| ==> arrivals[i] >= 1
  }

  ghost predicate NoDuplicates(arrivals: seq<nat>) {
    forall i, j :: 0 <= i < j < |arrivals| ==> arrivals[i] != arrivals[j]
  }

  /** The number of values not seen among 1, ..., the highest. */
  function Missing(arrivals: seq<nat>, max: nat): nat {
    |UpTo(max) - SeenSet(arrivals)|
  }

  lemma SubsetSize(a: set<nat>, b: set<nat>)
    requires a <= b
    ensures |a| <= |b| && |b - a| == |b| - |a|
    ensures |a| == |b| ==> a == b
  {
    if a != {} {
      var x :| x in a;
      SubsetSize(a - {x}, b - {x});
      assert (b - {x}) - (a - {x}) == b - a;
    } else {
      assert b - a == b;
    }
  }

  /** The highest number seen, whatever the order. */
  lemma {:induction false} HighestSeen(arrivals: seq<nat>)
    ensures forall n :: n in arrivals ==> n <= Tally(arrivals).packetCount
    ensures Tally(arrivals).packetCount in arrivals || Tally(arrivals).packetCount == 0
  {
    if arrivals != [] {
      var rest, n := arrivals[..|arrivals| - 1], arrivals[|arrivals| - 1];
      assert arrivals == rest + [n];
      HighestSeen(rest);
    }
  }

  lemma Grows(rest: seq<nat>, n: nat)
    ensures SeenSet(rest + [n]) == SeenSet(rest) + {n}
  {
    assert forall x :: x in rest + [n] <==> x in rest || x == n;
  }

  lemma {:induction false} SizesBound(arrivals: seq<nat>)
    ensures |SeenSet(arrivals)| <= |arrivals|
    ensures NoDuplicates(arrivals) ==> |SeenSet(arrivals)| == |arrivals|
  {
    if arrivals != [] {
      var rest, n := arrivals[..|arrivals| - 1], arrivals[|arrivals| - 1];
      SizesBound(rest);
      Grows(rest, n);
      assert arrivals == rest + [n];
      if NoDuplicates(arrivals) {
        assert n !in rest;
      }
    }
  }

  lemma SeenFits(arrivals: seq<nat>)
    requires Numbered(arrivals)
    ensures |SeenSet(arrivals)| <= Tally(arrivals).packetCount
    ensures Missing(arrivals, Tally(arrivals).packetCount) == Tally(arrivals).packetCount - |SeenSet(arrivals)|
  {
    HighestSeen(arrivals);
    SubsetSize(SeenSet(arrivals), UpTo(Tally(arrivals).packetCount));
  }

  /** How many distinct numbers one more arrival makes. */
  lemma SeenMore(rest: seq<nat>, n: nat)
    requires Numbered(rest) && n >= 1
    ensures |SeenSet(rest + [n])| == |SeenSet(rest)| + if n in rest then 0 else 1
    ensures n in rest ==> n <= Tally(rest).packetCount
    ensures Tally(rest + [n]) == Receive(Tally(rest), n)
  {
    var more := rest + [n];
    assert more[..|rest|] == rest && more[|rest|] == n;
    Grows(rest, n);
    HighestSeen(rest);
    if n in rest {
      assert SeenSet(more) == SeenSet(rest);
    }
  }

  /** The number at this place is not above all that came before. */
  predicate IsLate(arrivals: seq<nat>, i: nat)
    requires i < |arrivals|
  {
    exists j :: 0 <= j < i && arrivals[j] >= arrivals[i]
  }

  function Late(arrivals: seq<nat>): set<nat> {
    set i | 0 <= i < |arrivals| && IsLate(arrivals, i)
  }

  lemma LateMore(rest: seq<nat>, n: nat)
    ensures var k := |rest|;
            Late(rest + [n]) == Late(rest) + (if IsLate(rest + [n], k) then {k} else {}) && k !in Late(rest)
  {
    var arrivals := rest + [n];
    forall i | 0 <= i < |rest| ensures IsLate(arrivals, i) == IsLate(rest, i) {
      assert forall j :: 0 <= j <= i ==> arrivals[j] == rest[j];
    }
  }

  lemma LateIs(rest: seq<nat>, n: nat)
    requires Numbered(rest) && n >= 1
    ensures IsLate(rest + [n], |rest|) <==> n <= Tally(rest).packetCount
  {
    hide Tally;
    HighestSeen(rest);
    var arrivals := rest + [n];
    var p := Tally(rest).packetCount;
    if n <= p {
      var j :| 0 <= j < |rest| && rest[j] == p;
      assert arrivals[j] == p;
    }
    if IsLate(arrivals, |rest|) {
      var j :| 0 <= j < |rest| && arrivals[j] >= n;
      assert rest[j] in rest;
    }
  }

  /** The out-of-order counter is the number of such places. */
  lemma {:induction false} LateIsCounted(arrivals: seq<nat>)
    requires Numbered(arrivals)
    ensures Tally(arrivals).outOfOrder == |Late(arrivals)|
  {
    if arrivals != [] {
      var k := |arrivals| - 1;
      var rest, n := arrivals[..k], arrivals[k];
      assert arrivals == rest + [n];
      LateIsCounted(rest);
      hide Late, IsLate;
      LateMore(rest, n);
      LateIs(rest, n);
    }
  }

  /** With duplicates the loss counter is still between two exact figures. */
  lemma {:induction false} LossBounds(arrivals: seq<nat>)
    requires Numbered(arrivals)
    ensures var c := Tally(arrivals);
            c.packetCount - |arrivals| <= c.cntError <= c.packetCount - |SeenSet(arrivals)|
  {
    if arrivals == [] {
      assert SeenSet(arrivals) == {};
    } else {
      var rest, n := arrivals[..|arrivals| - 1], arrivals[|arrivals| - 1];
      assert arrivals == rest + [n];
      hide SeenSet, Missing;
      LossBounds(rest);
      SeenMore(rest, n);
      SeenFits(arrivals);
    }
  }

  /** Without duplicates the three counters are those of the set: the highest number, and how many below it are missing. */
  lemma LossIsExact(arrivals: seq<nat>)
    requires Numbered(arrivals) && NoDuplicates(arrivals)
    ensures var c := Tally(arrivals);
            && c.cntError == Missing(arrivals, c.packetCount) == c.packetCount - |arrivals|
            && (forall n :: n in arrivals ==> n <= c.packetCount)
            && (arrivals != [] ==> c.packetCount in arrivals)
  {
    var c := Tally(arrivals);
    LossBounds(arrivals);
    SizesBound(arrivals);
    SeenFits(arrivals);
    HighestSeen(arrivals);
    assert arrivals != [] ==> arrivals[0] in arrivals;
  }

  /** The order of arrival does not show. */
  lemma OrderDoesNotMatter(a: seq<nat>, b: seq<nat>)
    requires Numbered(a) && NoDuplicates(a) && Numbered(b) && NoDuplicates(b)
    requires SeenSet(a) == SeenSet(b)
    ensures Tally(a).packetCount == Tally(b).packetCount && Tally(a).cntError == Tally(b).cntError
  {
    LossIsExact(a);
    LossIsExact(b);
    SizesBound(a);
    SizesBound(b);
    var p, q := Tally(a).packetCount, Tally(b).packetCount;
    if a != [] {
      assert a[0] in SeenSet(b);
      assert p in SeenSet(a) && q in SeenSet(b);
    }
  }

  /** An exact loss counter stays exact just when the next number is new, or nothing is counted lost: a duplicate hides a loss. */
  lemma StaysExact(arrivals: seq<nat>, n: nat)
    requires Numbered(arrivals) && n >= 1
    requires Tally(arrivals).cntError == Missing(arrivals, Tally(arrivals).packetCount)
    ensures Tally(arrivals + [n]).cntError == Missing(arrivals + [n], Tally(arrivals + [n]).packetCount)
            <==> n !in arrivals || Tally(arrivals).cntError == 0
  {
    hide SeenSet, Missing, Tally;
    SeenFits(arrivals);
    SeenFits(arrivals + [n]);
    SeenMore(arrivals, n);
  }

  lemma FirstArrives(one: seq<nat>)
    requires |one| == 1 && one[0] == 1
    ensures Tally(one) == Counters(1, 0, 0) && |SeenSet(one)| == 1
  {
    hide Tally, SeenSet;
    NoneArrived(one[..0]);
    LastCounts(one);
    OneSeen(one);
  }

  lemma NoneArrived(none: seq<nat>)
    requires none == []
    ensures Tally(none) == Counters(0, 0, 0)
  {
  }

  lemma LastCounts(arrivals: seq<nat>)
    requires arrivals != []
    ensures Tally(arrivals) == Receive(Tally(arrivals[..|arrivals| - 1]), arrivals[|arrivals| - 1])
  {
  }

  lemma OneSeen(one: seq<nat>)
    requires |one| == 1
    ensures SeenSet(one) == {one[0]}
  {
  }

  lemma OneGap(m: nat)
    requires m >= 3
    ensures Tally([1, m]) == Counters(m, m - 2, 0) && |SeenSet([1, m])| == 2
  {
    hide Tally, SeenSet, Missing;
    var one, two := [1], [1, m];
    assert two == one + [m];
    FirstArrives(one);
    SeenMore(one, m);
  }

  lemma OneDuplicate(m: nat)
    requires m >= 3
    ensures Tally([1, m, m]) == Counters(m, m - 3, 1) && |SeenSet([1, m, m])| == 2
  {
    hide Tally, SeenSet, Missing;
    var two, three := [1, m], [1, m, m];
    assert three == two + [m];
    OneGap(m);
    SeenMore(two, m);
  }

  /** A loss hidden: what lies between 1 and `m` is missing, `m` comes twice, and the counter is one short. */
  lemma DuplicateHidesLoss(m: nat)
    requires m >= 3
    ensures Tally([1, m]).cntError == Missing([1, m], m) == m - 2
    ensures Tally([1, m, m]).cntError == m - 3 && Missing([1, m, m], m) == m - 2
  {
    hide Tally, SeenSet, Missing;
    OneGap(m);
    OneDuplicate(m);
    SeenFits([1, m]);
    SeenFits([1, m, m]);
  }

  // ----- end to end

  /**
   * Whatever sends failed softly, and whatever the network drops and reorders without duplicating, the losses the
   * receiver counts and the datagrams sent after the highest one it saw add up to the datagrams that did not arrive.
   */
  lemma LossesAddUp(wire: seq<nat>, arrivals: seq<nat>)
    requires forall i :: 0 <= i < |wire| ==> wire[i] == i + 1
    requires NoDuplicates(arrivals) && forall n :: n in arrivals ==> n in wire
    ensures Tally(arrivals).packetCount <= |wire|
    ensures |wire| - |arrivals| == Tally(arrivals).cntError + (|wire| - Tally(arrivals).packetCount)
  {
    forall i | 0 <= i < |arrivals| ensures arrivals[i] >= 1 {
      assert arrivals[i] in wire;
    }
    LossIsExact(arrivals);
    if arrivals != [] {
      assert Tally(arrivals).packetCount in wire;
    }
  }
}
