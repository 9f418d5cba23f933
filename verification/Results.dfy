/** The exchange of results: each end prints its streams as JSON and takes over what the other one knows. */
module Results {
  import opened Bytes
  import opened JsonText
  import opened JsonGrammar
  import opened RoundTrip
  import opened JsonForms
  import opened Compare
  import opened Streams

  // ----- the message

  const ID: seq<byte> := [105, 100]
  const BYTES: seq<byte> := [98, 121, 116, 101, 115]
  const RETRANSMITS: seq<byte> := [114, 101, 116, 114, 97, 110, 115, 109, 105, 116, 115]
  const ERRORS: seq<byte> := [101, 114, 114, 111, 114, 115]
  const OMITTED_ERRORS: seq<byte> := [111, 109, 105, 116, 116, 101, 100, 95, 101, 114, 114, 111, 114, 115]
  const PACKETS: seq<byte> := [112, 97, 99, 107, 101, 116, 115]
  const OMITTED_PACKETS: seq<byte> := [111, 109, 105, 116, 116, 101, 100, 95, 112, 97, 99, 107, 101, 116, 115]
  const HAS_RETRANSMITS: seq<byte> :=
    [115, 101, 110, 100, 101, 114, 95, 104, 97, 115, 95, 114, 101, 116, 114, 97, 110, 115, 109, 105, 116, 115]
  const STREAMS: seq<byte> := [115, 116, 114, 101, 97, 109, 115]

  /** What is said about one stream; old peers leave the omitted counts out. */
  datatype Report = Report(id: int, bytes: int, retransmits: int, errors: int, packets: int, omitted: Option<Omitted>)

  datatype Omitted = Omitted(errors: int, packets: int)

  function ReportJson(r: Report): Json
    requires r.omitted.Some?
  {
    Obj([Member(ID, Num(r.id)), Member(BYTES, Num(r.bytes)), Member(RETRANSMITS, Num(r.retransmits)), Member(ERRORS, Num(r.errors)),
         Member(OMITTED_ERRORS, Num(r.omitted.value.errors)), Member(PACKETS, Num(r.packets)),
         Member(OMITTED_PACKETS, Num(r.omitted.value.packets))])
  }

  function MessageJson(hasRetransmits: int, reports: seq<Report>): Json
    requires forall r :: r in reports ==> r.omitted.Some?
  {
    Obj([Member(HAS_RETRANSMITS, Num(hasRetransmits)),
         Member(STREAMS, Arr(seq(|reports|, i requires 0 <= i < |reports| => ReportJson(reports[i]))))])
  }

  /** cJSON_GetObjectItem, which does not look at case. */
  function GetItem(v: Json, key: seq<byte>): Option<Json> {
    if v.Obj? then
      var f := Find(v.members, key, false);
      if f < |v.members| then Some(v.members[f].value) else None
    else None
  }

  /** iperf_cJSON_GetObjectItemType for a number. */
  function GetNumber(v: Json, key: seq<byte>): Option<int> {
    match GetItem(v, key)
    case Some(Num(n)) => Some(n)
    case _ => None
  }

  /** The checks get_results makes on one element of the array. */
  function ReadReport(v: Json): Option<Report> {
    var id, bytes, retransmits := GetNumber(v, ID), GetNumber(v, BYTES), GetNumber(v, RETRANSMITS);
    var errors, packets := GetNumber(v, ERRORS), GetNumber(v, PACKETS);
    var omittedErrors, omittedPackets := GetNumber(v, OMITTED_ERRORS), GetNumber(v, OMITTED_PACKETS);
    if id.None? || bytes.None? || retransmits.None? || errors.None? || packets.None? then None
    else if omittedErrors.None? != omittedPackets.None? then None
    else
      Some(Report(id.value, bytes.value, retransmits.value, errors.value, packets.value,
                  if omittedErrors.None? then None else Some(Omitted(omittedErrors.value, omittedPackets.value))))
  }

  // ----- what is sent is what is read

  lemma KeysApart(k: seq<byte>, l: seq<byte>)
    requires |k| != |l|
    ensures !SameKey(k, l, false)
  {
    assert |Lowered(k)| == |k| && |Lowered(l)| == |l|;
  }

  /** In an object whose keys all differ in length, every key finds its member. */
  lemma FindsByLength(members: seq<Member>, i: nat)
    requires i < |members|
    requires forall j, k :: 0 <= j < k < |members| ==> |members[j].key| != |members[k].key|
    ensures GetItem(Obj(members), members[i].key) == Some(members[i].value)
  {
    forall j, k | 0 <= j < k < |members| ensures !SameKey(members[j].key, members[k].key, false) {
      KeysApart(members[j].key, members[k].key);
    }
    FindsIt(members, i, members[i].key, false);
  }

  lemma ReadsBack(r: Report)
    requires r.omitted.Some?
    ensures ReadReport(ReportJson(r)) == Some(r)
  {
    hide GetItem;
    var members := ReportJson(r).members;
    forall i | 0 <= i < |members| ensures GetItem(Obj(members), members[i].key) == Some(members[i].value) {
      FindsByLength(members, i);
    }
    assert members[0].key == ID && members[1].key == BYTES && members[2].key == RETRANSMITS && members[3].key == ERRORS;
    assert members[4].key == OMITTED_ERRORS && members[5].key == PACKETS && members[6].key == OMITTED_PACKETS;
  }

  /** The keys, in order, with what stands behind each. */
  lemma KeysSpelled(r: Report, hasRetransmits: int, reports: seq<Report>)
    requires r.omitted.Some? && forall x :: x in reports ==> x.omitted.Some?
    ensures ReportJson(r) ==
            Obj([Member(Ascii("id"), Num(r.id)), Member(Ascii("bytes"), Num(r.bytes)), Member(Ascii("retransmits"), Num(r.retransmits)),
                 Member(Ascii("errors"), Num(r.errors)), Member(Ascii("omitted_errors"), Num(r.omitted.value.errors)),
                 Member(Ascii("packets"), Num(r.packets)), Member(Ascii("omitted_packets"), Num(r.omitted.value.packets))])
    ensures MessageJson(hasRetransmits, reports) ==
            Obj([Member(Ascii("sender_has_retransmits"), Num(hasRetransmits)),
                 Member(Ascii("streams"), Arr(seq(|reports|, i requires 0 <= i < |reports| => ReportJson(reports[i]))))])
  {
    KeyBytes();
  }

  /** A report is refused exactly for a missing or mistyped field, or for one of the omitted counts without the other. */
  lemma RefusedReports(v: Json)
    ensures ReadReport(v).None? <==>
            || GetNumber(v, Ascii("id")).None? || GetNumber(v, Ascii("bytes")).None? || GetNumber(v, Ascii("retransmits")).None?
            || GetNumber(v, Ascii("errors")).None? || GetNumber(v, Ascii("packets")).None?
            || GetNumber(v, Ascii("omitted_errors")).None? != GetNumber(v, Ascii("omitted_packets")).None?
    ensures ReadReport(v).Some? ==>
              var r := ReadReport(v).value;
              && GetNumber(v, Ascii("id")) == Some(r.id) && GetNumber(v, Ascii("bytes")) == Some(r.bytes)
              && GetNumber(v, Ascii("retransmits")) == Some(r.retransmits) && GetNumber(v, Ascii("errors")) == Some(r.errors)
              && GetNumber(v, Ascii("packets")) == Some(r.packets)
              && (r.omitted.Some? ==>
                    && GetNumber(v, Ascii("omitted_errors")) == Some(r.omitted.value.errors)
                    && GetNumber(v, Ascii("omitted_packets")) == Some(r.omitted.value.packets))
              && (r.omitted.None? ==> GetNumber(v, Ascii("omitted_errors")).None?)
  {
    hide GetNumber;
    KeyBytes();
  }

  lemma KeyBytes()
    ensures ID == Ascii("id") && BYTES == Ascii("bytes") && RETRANSMITS == Ascii("retransmits") && ERRORS == Ascii("errors")
    ensures HAS_RETRANSMITS == Ascii("sender_has_retransmits") && STREAMS == Ascii("streams")
    ensures PACKETS == Ascii("packets") && OMITTED_ERRORS == Ascii("omitted_errors") && OMITTED_PACKETS == Ascii("omitted_packets")
  {
    ShortKeys();
    LongKeys();
    LongestKey();
  }

  lemma ShortKeys()
    ensures ID == Ascii("id") && BYTES == Ascii("bytes") && ERRORS == Ascii("errors")
    ensures STREAMS == Ascii("streams") && PACKETS == Ascii("packets")
  {
  }

  lemma LongKeys()
    ensures RETRANSMITS == Ascii("retransmits") && OMITTED_ERRORS == Ascii("omitted_errors") && OMITTED_PACKETS == Ascii("omitted_packets")
  {
  }

  lemma LongestKey()
    ensures HAS_RETRANSMITS == Ascii("sender_has_retransmits")
  {
  }

  /** A number is found under the first key that is the same but for case. */
  lemma NumberFound(members: seq<Member>, i: nat, key: seq<byte>)
    requires i < |members| && Lowered(members[i].key) == Lowered(key) && members[i].value.Num?
    requires forall j :: 0 <= j < i ==> Lowered(members[j].key) != Lowered(key)
    ensures GetNumber(Obj(members), key) == Some(members[i].value.n)
  {
    assert Find(members, key, false) == i;
  }

  /** The reports of a message, if get_results finds its way to them. */
  function ReadMessage(v: Json): Option<seq<Json>> {
    if GetNumber(v, HAS_RETRANSMITS).None? then None
    else
      match GetItem(v, STREAMS)
      case Some(Arr(items)) => Some(items)
      case _ => None
  }

  lemma MessageReadsBack(hasRetransmits: int, reports: seq<Report>)
    requires forall r :: r in reports ==> r.omitted.Some?
    ensures GetNumber(MessageJson(hasRetransmits, reports), HAS_RETRANSMITS) == Some(hasRetransmits)
    ensures var items := ReadMessage(MessageJson(hasRetransmits, reports));
            items.Some? && |items.value| == |reports| && forall i :: 0 <= i < |reports| ==> ReadReport(items.value[i]) == Some(reports[i])
  {
    hide GetItem, ReadReport;
    var members := MessageJson(hasRetransmits, reports).members;
    FindsByLength(members, 0);
    FindsByLength(members, 1);
    assert members[0].key == HAS_RETRANSMITS && members[1].key == STREAMS;
    forall i | 0 <= i < |reports| ensures ReadReport(ReportJson(reports[i])) == Some(reports[i]) {
      ReadsBack(reports[i]);
    }
  }

  predicate Exact(n: int) {
    -MAX_EXACT <= n <= MAX_EXACT
  }

  predicate ExactReport(r: Report) {
    && Exact(r.id) && Exact(r.bytes) && Exact(r.retransmits) && Exact(r.errors) && Exact(r.packets)
    && r.omitted.Some? && Exact(r.omitted.value.errors) && Exact(r.omitted.value.packets)
  }

  lemma KeysAreStrings()
    ensures NulFree(ID) && NulFree(BYTES) && NulFree(RETRANSMITS) && NulFree(ERRORS) && NulFree(OMITTED_ERRORS)
    ensures NulFree(PACKETS) && NulFree(OMITTED_PACKETS) && NulFree(HAS_RETRANSMITS) && NulFree(STREAMS)
  {
  }

  lemma ReportFits(r: Report, levels: int)
    requires ExactReport(r) && levels > 0
    ensures Fits(ReportJson(r), levels)
  {
    KeysAreStrings();
  }

  /** The message survives being printed and parsed. */
  lemma MessageTravels(hasRetransmits: int, reports: seq<Report>)
    requires Exact(hasRetransmits) && forall r :: r in reports ==> r.omitted.Some? && ExactReport(r)
    ensures var v := MessageJson(hasRetransmits, reports); Parse(Compact(v)) == Ok(v, |Compact(v)|)
  {
    var v := MessageJson(hasRetransmits, reports);
    KeysAreStrings();
    forall i | 0 <= i < |reports| ensures Fits(ReportJson(reports[i]), NESTING_LIMIT - 2) {
      ReportFits(reports[i], NESTING_LIMIT - 2);
    }
    var list := v.members[1].value;
    assert Fits(list, NESTING_LIMIT - 1);
    assert Fits(Num(hasRetransmits), NESTING_LIMIT - 1);
    assert Fits(v, NESTING_LIMIT);
    ParseUndoesPrint(v, false);
  }

  // ----- sending

  /** Bytes sent since the omitted start of the test. */
  function NetSent(sp: Stream): int
    reads sp`bytesSent, sp`bytesSentOmit
  {
    sp.bytesSent - sp.bytesSentOmit
  }

  /** What send_results says of a stream. */
  function ReportOf(sp: Stream, hasRetransmits: bool): Report
    reads sp
  {
    Report(sp.id, if sp.sender then NetSent(sp) else sp.bytesReceived, if sp.sender && hasRetransmits then sp.retrans else -1,
           sp.cntError, sp.packetCount, Some(Omitted(sp.omittedCntError, sp.omittedPacketCount)))
  }

  ghost predicate ReportsAre(reports: seq<Report>, streams: seq<Stream>, hasRetransmits: bool)
    reads streams
  {
    |reports| == |streams| && forall k :: 0 <= k < |streams| ==> reports[k] == ReportOf(streams[k], hasRetransmits)
  }

  ghost function ReportsOf(streams: seq<Stream>, hasRetransmits: bool): (r: seq<Report>)
    reads streams
    ensures ReportsAre(r, streams, hasRetransmits) && forall x :: x in r ==> x.omitted.Some?
  {
    if streams == [] then [] else [ReportOf(streams[0], hasRetransmits)] + ReportsOf(streams[1..], hasRetransmits)
  }

  /** send_results, up to the printed text. */
  method SendResults(e: Endpoint) returns (text: seq<byte>)
    ensures text == Compact(MessageJson(Says(e), ReportsOf(e.streams, Has(e))))
    ensures text == Compact(MessageJson(if e.mode == Receiver then -1 else e.senderHasRetransmits, ReportsOf(e.streams, Has(e))))
    ensures forall k :: 0 <= k < |e.streams| ==>
              var sp, r := e.streams[k], ReportsOf(e.streams, Has(e))[k];
              && r.id == sp.id && r.errors == sp.cntError && r.packets == sp.packetCount
              && r.omitted == Some(Omitted(sp.omittedCntError, sp.omittedPacketCount))
              && (sp.sender ==> r.bytes + sp.bytesSentOmit == sp.bytesSent)
              && (!sp.sender ==> r.bytes == sp.bytesReceived)
              && r.retransmits == if sp.sender && e.senderHasRetransmits != 0 then sp.retrans else -1
  {
    hide ReportsOf, ReportOf, ReportJson, MessageJson, Compact;
    ReportFields(e.streams, Has(e));
    var hasRetransmits := Has(e);
    var list: seq<Json> := [];
    ghost var reports := ReportsOf(e.streams, hasRetransmits);
    var k: nat := 0;
    while k < |e.streams|
      invariant k <= |e.streams| && |list| == k
      invariant forall i :: 0 <= i < k ==> list[i] == ReportJson(reports[i])
    {
      list := list + [ReportJson(ReportOf(e.streams[k], hasRetransmits))];
      k := k + 1;
    }
    MessageOf(list, Says(e), reports);
    text := Compact(Obj([Member(HAS_RETRANSMITS, Num(Says(e))), Member(STREAMS, Arr(list))]));
  }

  lemma MessageOf(list: seq<Json>, flag: int32, reports: seq<Report>)
    requires |list| == |reports| && forall r :: r in reports ==> r.omitted.Some?
    requires forall i :: 0 <= i < |list| ==> list[i] == ReportJson(reports[i])
    ensures Obj([Member(HAS_RETRANSMITS, Num(flag)), Member(STREAMS, Arr(list))]) == MessageJson(flag, reports)
  {
    assert list == seq(|reports|, i requires 0 <= i < |reports| => ReportJson(reports[i]));
  }

  lemma ReportFields(streams: seq<Stream>, hasRetransmits: bool)
    ensures forall k :: 0 <= k < |streams| ==>
              var sp, r := streams[k], ReportsOf(streams, hasRetransmits)[k];
              && r.id == sp.id && r.errors == sp.cntError && r.packets == sp.packetCount
              && r.omitted == Some(Omitted(sp.omittedCntError, sp.omittedPacketCount))
              && (sp.sender ==> r.bytes + sp.bytesSentOmit == sp.bytesSent)
              && (!sp.sender ==> r.bytes == sp.bytesReceived)
              && r.retransmits == if sp.sender && hasRetransmits then sp.retrans else -1
  {
  }

  function Has(e: Endpoint): bool
    reads e`senderHasRetransmits
  {
    e.senderHasRetransmits != 0
  }

  /** What the message says of retransmits as a whole. */
  function Says(e: Endpoint): int32
    reads e`mode, e`senderHasRetransmits
  {
    if e.mode == Receiver then -1 else e.senderHasRetransmits
  }

  // ----- receiving

  /** A byte count as iperf_size_t holds it. */
  function AsSize(n: int): nat {
    n % 0x1_0000_0000_0000_0000
  }

  /** What get_results takes over into a stream; the rest of it stays. */
  twostate predicate Took(sp: Stream, r: Report)
    reads sp
  {
    && sp.id == old(sp.id) && sp.packetCount == old(sp.packetCount) && sp.omittedPacketCount == old(sp.omittedPacketCount)
    && sp.bytesSentOmit == old(sp.bytesSentOmit) && sp.peerPacketCount == r.packets
    && (sp.sender ==>
          && sp.cntError == r.errors && sp.bytesReceived == AsSize(r.bytes)
          && sp.bytesSent == old(sp.bytesSent) && sp.retrans == old(sp.retrans)
          && sp.omittedCntError == (if r.omitted.Some? then r.omitted.value.errors
                                    else if sp.omittedPacketCount > 0 then (if r.errors > 0 then -1 else 0) else r.errors)
          && sp.peerOmittedPacketCount == (if r.omitted.Some? then r.omitted.value.packets else sp.omittedPacketCount))
    && (!sp.sender ==>
          && sp.cntError == old(sp.cntError) && sp.omittedCntError == old(sp.omittedCntError) && sp.bytesReceived == old(sp.bytesReceived)
          && sp.bytesSent == AsSize(r.bytes) && sp.retrans == r.retransmits
          && sp.peerOmittedPacketCount == if r.omitted.Some? then r.omitted.value.packets else r.packets)
  }

  method Take(sp: Stream, r: Report)
    modifies sp
    ensures Took(sp, r)
    ensures sp.sender && r.omitted.None? ==>
              && sp.peerOmittedPacketCount == old(sp.omittedPacketCount)
              && sp.omittedCntError == if old(sp.omittedPacketCount) <= 0 then r.errors else if r.errors > 0 then -1 else 0
    ensures !sp.sender && r.omitted.None? ==> sp.peerOmittedPacketCount == sp.peerPacketCount == r.packets
  {
    if sp.sender {
      sp.cntError := r.errors;
      sp.peerPacketCount := r.packets;
      sp.bytesReceived := AsSize(r.bytes);
      if r.omitted.Some? {
        sp.omittedCntError := r.omitted.value.errors;
        sp.peerOmittedPacketCount := r.omitted.value.packets;
      } else {
        sp.peerOmittedPacketCount := sp.omittedPacketCount;
        if sp.peerOmittedPacketCount > 0 {
          sp.omittedCntError := if sp.cntError > 0 then -1 else 0;
        } else {
          sp.omittedCntError := sp.cntError;
        }
      }
    } else {
      sp.peerPacketCount := r.packets;
      sp.bytesSent := AsSize(r.bytes);
      sp.retrans := r.retransmits;
      if r.omitted.Some? {
        sp.peerOmittedPacketCount := r.omitted.value.packets;
      } else {
        sp.peerOmittedPacketCount := sp.peerPacketCount;
      }
    }
  }

  ghost predicate IdsDistinct(streams: seq<Stream>)
    reads streams
  {
    forall k, l :: 0 <= k < l < |streams| ==> streams[k].id != streams[l].id
  }

  /** The reports name exactly these streams, in order. */
  ghost predicate Names(reports: seq<Report>, streams: seq<Stream>)
    reads streams
  {
    |reports| == |streams| && forall k :: 0 <= k < |streams| ==> reports[k].id == streams[k].id
  }

  /** The search of get_results for the stream of a report. */
  method Lookup(streams: seq<Stream>, id: int) returns (at: nat)
    ensures at <= |streams| && (at < |streams| ==> streams[at].id == id)
    ensures forall k :: 0 <= k < at ==> streams[k].id != id
  {
    at := 0;
    while at < |streams| && streams[at].id != id
      invariant at <= |streams| && forall k :: 0 <= k < at ==> streams[k].id != id
    {
      at := at + 1;
    }
  }

  /** valueint: a number as a 32-bit int, at its ends when it is beyond. */
  function ValueInt(n: int): (r: int32)
    ensures -0x8000_0000 <= n < 0x8000_0000 ==> r == n
    ensures n >= 0x8000_0000 ==> r == 0x7FFF_FFFF
    ensures n < -0x8000_0000 ==> r == -0x8000_0000
  {
    if n >= 0x7FFF_FFFF then 0x7FFF_FFFF else if n <= -0x8000_0000 then -0x8000_0000 else n
  }

  /** What a message says of retransmits as a whole. */
  function FlagIn(text: seq<byte>): Option<int> {
    match Parse(text)
    case Ok(v, _) => GetNumber(v, HAS_RETRANSMITS)
    case _ => None
  }

  /** The reports of a message, as it has them. */
  function ItemsIn(text: seq<byte>): Option<seq<Json>> {
    match Parse(text)
    case Ok(v, _) => ReadMessage(v)
    case _ => None
  }

  /** What becomes of the two flags: a receiver takes the sender's for its own, a bidirectional end notes it beside its own. */
  function Hears(mode: Mode, own: int32, other: int32, flag: Option<int>): (int32, int32) {
    match flag
    case None => (own, other)
    case Some(n) =>
      match mode
      case Sender => (own, other)
      case Receiver => (ValueInt(n), 0)
      case Bidirectional => (own, ValueInt(n))
  }

  /** get_results, on the text read from the control connection. */
  method GetResults(e: Endpoint, text: seq<byte>, ghost ids: seq<int>) returns (ok: bool)
    requires IdsDistinct(e.streams) && Identified(e.streams, ids)
    modifies e.streams, e`senderHasRetransmits, e`otherSideHasRetransmits
    ensures IdsDistinct(e.streams) && forall sp :: sp in e.streams ==> sp.id == old(sp.id)
    ensures (e.senderHasRetransmits, e.otherSideHasRetransmits) ==
            Hears(e.mode, old(e.senderHasRetransmits), old(e.otherSideHasRetransmits), FlagIn(text))
    ensures FlagIn(text).Some? ==>
              && e.senderHasRetransmits == (if e.mode == Receiver then ValueInt(FlagIn(text).value) else old(e.senderHasRetransmits))
              && e.otherSideHasRetransmits ==
                 if e.mode == Receiver then 0 else if e.mode == Bidirectional then ValueInt(FlagIn(text).value)
                 else old(e.otherSideHasRetransmits)
    ensures ok <==> ItemsIn(text).Some? && forall i :: 0 <= i < |ItemsIn(text).value| ==> HasPlace(ItemsIn(text).value[i], ids)
    ensures forall k :: 0 <= k < |e.streams| && (ItemsIn(text).None? || Unnamed(ItemsIn(text).value, |ItemsIn(text).value|, ids[k])) ==>
              unchanged(e.streams[k])
    ensures ItemsIn(text).Some? ==> forall k: nat, i: nat :: k < |e.streams| && Alone(ItemsIn(text).value, |ItemsIn(text).value|, i, ids[k]) ==>
              Took(e.streams[k], ReadReport(ItemsIn(text).value[i]).value)
  {
    hide Parse, GetItem, GetNumber, Read, ReadMessage, ReadReport, ValueInt, HasPlace, Alone, Unnamed;
    var parsed := Parse(text);
    if !parsed.Ok? {
      return false;
    }
    var flag := GetNumber(parsed.value, HAS_RETRANSMITS);
    if flag.None? {
      NoFlag(parsed.value);
      return false;
    }
    if e.mode == Receiver {
      e.senderHasRetransmits := ValueInt(flag.value);
      e.otherSideHasRetransmits := 0;
    } else if e.mode == Bidirectional {
      e.otherSideHasRetransmits := ValueInt(flag.value);
    }
    var found := ReadMessage(parsed.value);
    if found.None? {
      return false;
    }
    ok := TakeAll(e.streams, found.value, ids);
  }

  lemma NoFlag(v: Json)
    requires GetNumber(v, HAS_RETRANSMITS).None?
    ensures ReadMessage(v).None?
  {
  }

  /** Reports that name the streams one by one. */
  lemma EachAlone(items: seq<Json>, reports: seq<Report>, ids: seq<int>)
    requires Read(items, reports) && |reports| == |ids| && forall k :: 0 <= k < |ids| ==> reports[k].id == ids[k]
    requires forall k, l :: 0 <= k < l < |ids| ==> ids[k] != ids[l]
    ensures forall i :: 0 <= i < |items| ==> HasPlace(items[i], ids)
    ensures forall k :: 0 <= k < |ids| ==> Alone(items, |items|, k, ids[k]) && ReadReport(items[k]) == Some(reports[k])
  {
    hide ReadReport;
    forall i | 0 <= i < |items| ensures HasPlace(items[i], ids) {
      assert ReportsOn(items[i], ids[i]);
    }
  }

  /** These items read as these reports. */
  ghost predicate Read(items: seq<Json>, reports: seq<Report>) {
    |items| == |reports| && forall i :: 0 <= i < |reports| ==> ReadReport(items[i]) == Some(reports[i])
  }

  /** The item is a report on a stream with this id. */
  predicate ReportsOn(item: Json, id: int) {
    ReadReport(item).Some? && ReadReport(item).value.id == id
  }

  ghost predicate HasPlace(item: Json, ids: seq<int>) {
    exists k :: 0 <= k < |ids| && ReportsOn(item, ids[k])
  }

  ghost predicate Identified(streams: seq<Stream>, ids: seq<int>)
    reads streams
  {
    && |ids| == |streams| && (forall k :: 0 <= k < |streams| ==> streams[k].id == ids[k])
    && (forall k, l :: 0 <= k < l < |streams| ==> ids[k] != ids[l])
  }

  ghost function IdsOf(streams: seq<Stream>): (ids: seq<int>)
    reads streams
    ensures IdsDistinct(streams) ==> Identified(streams, ids)
  {
    seq(|streams|, k requires 0 <= k < |streams| reads streams => streams[k].id)
  }

  /** Of the first `n` items the one at `i` is on the stream with this id, and no other is. */
  ghost predicate Alone(items: seq<Json>, n: nat, i: nat, id: int) {
    i < n <= |items| && ReportsOn(items[i], id) && forall j :: 0 <= j < n && j != i ==> !ReportsOn(items[j], id)
  }

  ghost predicate Unnamed(items: seq<Json>, n: nat, id: int) {
    n <= |items| && forall i :: 0 <= i < n ==> !ReportsOn(items[i], id)
  }

  /**
   * The loop of get_results over the array: an item that is no report, or on no stream, spoils the result, and the others
   * are still taken. A stream reported on once takes that report; one reported on not at all stays as it is.
   */
  method TakeAll(streams: seq<Stream>, items: seq<Json>, ghost ids: seq<int>) returns (ok: bool)
    requires Identified(streams, ids)
    modifies streams
    ensures Identified(streams, ids)
    ensures ok <==> forall i :: 0 <= i < |items| ==> HasPlace(items[i], ids)
    ensures forall k :: 0 <= k < |streams| && Unnamed(items, |items|, ids[k]) ==> unchanged(streams[k])
    ensures forall k: nat, i: nat :: k < |streams| && Alone(items, |items|, i, ids[k]) ==> Took(streams[k], ReadReport(items[i]).value)
  {
    hide ReadReport, HasPlace;
    ok := true;
    var i: nat := 0;
    while i < |items|
      invariant i <= |items| && Identified(streams, ids)
      invariant ok <==> forall j :: 0 <= j < i ==> HasPlace(items[j], ids)
      invariant forall k :: 0 <= k < |streams| && Unnamed(items, i, ids[k]) ==> unchanged(streams[k])
      invariant forall k: nat, j: nat :: k < |streams| && Alone(items, i, j, ids[k]) ==> Took(streams[k], ReadReport(items[j]).value)
    {
      var taken := TakeOne(streams, items[i], ids);
      ok := ok && taken;
      i := i + 1;
    }
  }

  /** One turn of it. */
  method TakeOne(streams: seq<Stream>, item: Json, ghost ids: seq<int>) returns (ok: bool)
    requires Identified(streams, ids)
    modifies streams
    ensures Identified(streams, ids) && (ok <==> HasPlace(item, ids))
    ensures forall k :: 0 <= k < |streams| ==>
              if ReportsOn(item, ids[k]) then Took(streams[k], ReadReport(item).value) else unchanged(streams[k])
  {
    hide ReadReport;
    ok := false;
    var r := ReadReport(item);
    if r.Some? {
      var at := Lookup(streams, r.value.id);
      if at < |streams| {
        assert ReportsOn(item, ids[at]);
        Take(streams[at], r.value);
        ok := true;
      }
    }
  }

  /** The text is that of a message with these reports. */
  ghost predicate Carries(text: seq<byte>, reports: seq<Report>) {
    Parse(text).Ok? && ReadMessage(Parse(text).value).Some? && Read(ReadMessage(Parse(text).value).value, reports)
  }

  lemma Carried(text: seq<byte>, reports: seq<Report>, ids: seq<int>)
    requires Carries(text, reports) && |reports| == |ids| && forall k :: 0 <= k < |ids| ==> reports[k].id == ids[k]
    requires forall k, l :: 0 <= k < l < |ids| ==> ids[k] != ids[l]
    ensures ItemsIn(text).Some? && |ItemsIn(text).value| == |reports|
    ensures forall i :: 0 <= i < |ItemsIn(text).value| ==> HasPlace(ItemsIn(text).value[i], ids)
    ensures forall k :: 0 <= k < |ids| ==>
              Alone(ItemsIn(text).value, |ItemsIn(text).value|, k, ids[k]) && ReadReport(ItemsIn(text).value[k]) == Some(reports[k])
  {
    EachAlone(ItemsIn(text).value, reports, ids);
  }

  // ----- the exchange

  /** Counts cJSON holds exactly, and nothing sent by a stream that only receives. */
  ghost predicate Sound(sp: Stream)
    reads sp
  {
    && sp.id <= MAX_EXACT && sp.bytesSentOmit <= sp.bytesSent <= MAX_EXACT && sp.bytesReceived <= MAX_EXACT
    && Exact(sp.packetCount) && Exact(sp.omittedPacketCount) && Exact(sp.cntError) && Exact(sp.omittedCntError) && Exact(sp.retrans)
    && (!sp.sender ==> sp.bytesSentOmit == 0)
  }

  lemma SoundReports(streams: seq<Stream>, hasRetransmits: bool, reports: seq<Report>)
    requires ReportsAre(reports, streams, hasRetransmits) && AllSound(streams)
    ensures forall r :: r in reports ==> ExactReport(r)
  {
    forall i | 0 <= i < |reports| ensures ExactReport(reports[i]) {
      assert streams[i] in streams;
    }
  }

  lemma SoundTravels(flag: int32, streams: seq<Stream>, hasRetransmits: bool, reports: seq<Report>)
    requires ReportsAre(reports, streams, hasRetransmits) && AllSound(streams)
    requires forall r :: r in reports ==> r.omitted.Some?
    ensures var text := Compact(MessageJson(flag, reports)); Carries(text, reports) && FlagIn(text) == Some(flag)
  {
    SoundReports(streams, hasRetransmits, reports);
    MessageTravels(flag, reports);
    MessageReadsBack(flag, reports);
  }

  /** A stream that reported `own` and has taken over `peer`, with the rest of it as it was. */
  ghost predicate Holds(sp: Stream, own: Report, has: bool, peer: Report)
    reads sp
  {
    && sp.id == own.id == peer.id && sp.packetCount == own.packets && sp.peerPacketCount == peer.packets
    && own.retransmits == (if sp.sender && has then sp.retrans else -1)
    && (if sp.sender then NetSent(sp) == own.bytes && sp.bytesReceived == peer.bytes && sp.cntError == peer.errors
        else NetSent(sp) == peer.bytes && sp.bytesReceived == own.bytes && sp.cntError == own.errors)
    && (!sp.sender ==> sp.retrans == peer.retransmits)
    && own.omitted.Some? && peer.omitted.Some?
    && sp.omittedPacketCount == own.omitted.value.packets && sp.peerOmittedPacketCount == peer.omitted.value.packets
    && sp.omittedCntError == (if sp.sender then peer else own).omitted.value.errors
  }

  ghost predicate AllHold(streams: seq<Stream>, own: seq<Report>, has: bool, peer: seq<Report>)
    reads streams
  {
    |own| == |peer| == |streams| && forall k :: 0 <= k < |streams| ==> Holds(streams[k], own[k], has, peer[k])
  }

  ghost predicate AllSound(streams: seq<Stream>)
    reads streams
  {
    forall sp :: sp in streams ==> Sound(sp)
  }

  /** What reports can say: exact counts, and no negative bytes. */
  ghost predicate AllExact(reports: seq<Report>) {
    forall r :: r in reports ==> ExactReport(r) && r.bytes >= 0
  }

  lemma ReadyToTake(streams: seq<Stream>, own: seq<Report>, has: bool, peer: seq<Report>)
    requires ReportsAre(own, streams, has) && Names(peer, streams) && AllSound(streams) && AllExact(peer)
    ensures |own| == |peer| == |streams|
    ensures forall k :: 0 <= k < |streams| ==>
              && Sound(streams[k]) && own[k] == ReportOf(streams[k], has) && peer[k].id == streams[k].id
              && ExactReport(peer[k]) && AsSize(peer[k].bytes) == peer[k].bytes
  {
    forall k | 0 <= k < |streams| ensures Sound(streams[k]) && ExactReport(peer[k]) && AsSize(peer[k].bytes) == peer[k].bytes {
      assert streams[k] in streams && peer[k] in peer;
    }
  }

  /** get_results on the message of a sound peer. */
  method Receive(e: Endpoint, text: seq<byte>, ghost has: bool, ghost own: seq<Report>, ghost peer: seq<Report>) returns (ok: bool)
    requires IdsDistinct(e.streams) && ReportsAre(own, e.streams, has) && Names(peer, e.streams)
    requires Carries(text, peer) && AllExact(peer) && AllSound(e.streams)
    modifies e.streams, e`senderHasRetransmits, e`otherSideHasRetransmits
    ensures IdsDistinct(e.streams)
    ensures ok && AllSound(e.streams) && AllHold(e.streams, own, has, peer)
    ensures forall k :: 0 <= k < |e.streams| && e.streams[k].sender ==>
              && e.streams[k].bytesSent == old(e.streams[k].bytesSent) && e.streams[k].bytesSentOmit == old(e.streams[k].bytesSentOmit)
              && e.streams[k].retrans == old(e.streams[k].retrans)
    ensures Says(e) == old(Says(e)) && (Has(e) == old(Has(e)) || e.mode == Receiver)
    ensures (e.senderHasRetransmits, e.otherSideHasRetransmits) ==
            Hears(e.mode, old(e.senderHasRetransmits), old(e.otherSideHasRetransmits), FlagIn(text))
  {
    hide Carries, IdsDistinct, Names, AsSize, AllExact, ReportsAre, FlagIn, ItemsIn, HasPlace, Alone, Unnamed, ReadReport;
    ReadyToTake(e.streams, own, has, peer);
    ghost var ids := IdsOf(e.streams);
    Carried(text, peer, ids);
    ok := GetResults(e, text, ids);
    forall k | 0 <= k < |e.streams| ensures Holds(e.streams[k], own[k], has, peer[k]) {
      assert Took(e.streams[k], peer[k]);
    }
    forall k | 0 <= k < |e.streams| ensures Sound(e.streams[k]) {
      assert Took(e.streams[k], peer[k]);
    }
  }

  /**
   * Both ends of a pair hold the same totals, and they are what the sending end reported sent and the receiving end
   * reported received and lost.
   */
  ghost predicate Agree(a: Stream, b: Stream, wasA: Report, wasB: Report)
    reads a, b
  {
    var tx, rx := if a.sender then wasA else wasB, if a.sender then wasB else wasA;
    && NetSent(a) == NetSent(b) == tx.bytes
    && a.bytesReceived == b.bytesReceived == rx.bytes
    && a.cntError == b.cntError == rx.errors
    && a.packetCount == wasA.packets == b.peerPacketCount
    && b.packetCount == wasB.packets == a.peerPacketCount
    && wasA.omitted.Some? && wasB.omitted.Some?
    && a.omittedPacketCount == wasA.omitted.value.packets == b.peerOmittedPacketCount
    && b.omittedPacketCount == wasB.omitted.value.packets == a.peerOmittedPacketCount
    && a.omittedCntError == b.omittedCntError == rx.omitted.value.errors
    && (if a.sender then b else a).retrans == tx.retransmits
  }

  /** Reading first does not change what an end says of a stream, but for the loss count of a stream it sends on. */
  predicate SaysTheSame(before: Report, after: Report, sender: bool) {
    && after.id == before.id && after.bytes == before.bytes && after.retransmits == before.retransmits && after.packets == before.packets
    && before.omitted.Some? && after.omitted.Some? && after.omitted.value.packets == before.omitted.value.packets
    && (!sender ==> after.errors == before.errors && after.omitted == before.omitted)
  }

  lemma SoundNames(streams: seq<Stream>, has: bool, reports: seq<Report>, peers: seq<Stream>)
    requires ReportsAre(reports, streams, has) && AllSound(streams)
    requires |streams| == |peers| && forall k :: 0 <= k < |streams| ==> streams[k].id == peers[k].id
    ensures Names(reports, peers) && AllExact(reports)
  {
    SoundReports(streams, has, reports);
    forall i | 0 <= i < |reports| ensures reports[i].bytes >= 0 {
      assert streams[i] in streams;
    }
  }

  lemma SameIds(streams: seq<Stream>, own: seq<Report>, has: bool, peer: seq<Report>)
    requires AllHold(streams, own, has, peer)
    ensures forall k :: 0 <= k < |streams| ==> streams[k].id == own[k].id == peer[k].id
  {
  }

  /** Two ends that took over one another's reports, the second after the first had. */
  lemma BothHold(cs: seq<Stream>, ss: seq<Stream>, ofClient: seq<Report>, ofServer: seq<Report>, said: seq<Report>, clientHas: bool, has: bool)
    requires |cs| == |ss| && forall k :: 0 <= k < |cs| ==> cs[k].sender != ss[k].sender
    requires AllHold(ss, ofServer, has, ofClient) && AllHold(cs, ofClient, clientHas, said) && ReportsAre(said, ss, has)
    ensures forall k :: 0 <= k < |cs| ==> Agree(cs[k], ss[k], ofClient[k], ofServer[k])
    ensures forall k :: 0 <= k < |cs| && ss[k].sender ==> said[k].errors == ofClient[k].errors
    ensures forall k :: 0 <= k < |cs| ==> SaysTheSame(ofServer[k], said[k], ss[k].sender)
  {
    forall k | 0 <= k < |cs|
      ensures Agree(cs[k], ss[k], ofClient[k], ofServer[k]) && SaysTheSame(ofServer[k], said[k], ss[k].sender)
    {
      assert Holds(ss[k], ofServer[k], has, ofClient[k]) && Holds(cs[k], ofClient[k], clientHas, said[k]) && said[k] == ReportOf(ss[k], has);
    }
  }

  lemma Ready(client: Endpoint, server: Endpoint)
    requires Matched(client, server)
    ensures IdsDistinct(client.streams) && IdsDistinct(server.streams)
    ensures forall i :: 0 <= i < |client.streams| ==> client.streams[i] !in server.streams
    ensures forall i :: 0 <= i < |server.streams| ==> server.streams[i] !in client.streams
  {
  }

  lemma AsMany(reports: seq<Report>, streams: seq<Stream>, has: bool)
    requires ReportsAre(reports, streams, has)
    ensures |reports| == |streams| && forall k :: 0 <= k < |streams| ==> reports[k].id == streams[k].id
  {
  }

  /** Without senders the flag does not show in the reports. */
  lemma FlagHidden(e: Endpoint, was: bool, reports: seq<Report>)
    requires Directed(e) && (Has(e) == was || e.mode == Receiver) && ReportsAre(reports, e.streams, Has(e))
    ensures ReportsAre(reports, e.streams, was)
  {
  }

  /**
   * The ends of one stream after the exchange, against what they were: what was sent is what the sending end had sent
   * since the omitted start, what came in and what was lost is what the receiving end had counted, and each end has the
   * other's packet counts.
   */
  twostate predicate Settled(tx: Stream, rx: Stream, has: bool)
    reads tx, rx
  {
    && (tx.sender ==>
          && tx.bytesSent == old(tx.bytesSent) && rx.bytesSent == old(tx.bytesSent - tx.bytesSentOmit)
          && tx.bytesReceived == rx.bytesReceived == old(rx.bytesReceived)
          && tx.cntError == rx.cntError == old(rx.cntError) && tx.omittedCntError == rx.omittedCntError == old(rx.omittedCntError)
          && rx.retrans == if has then old(tx.retrans) else -1)
    && tx.peerPacketCount == old(rx.packetCount) && tx.peerOmittedPacketCount == old(rx.omittedPacketCount)
  }

  /**
   * iperf_exchange_results at both ends: the client sends first, the server reads first. An end that only receives, or
   * goes both ways, learns the other's flag; what the server says of retransmits is not changed by what it has read.
   */
  method Exchange(client: Endpoint, server: Endpoint)
    returns (ok: bool, ghost ofClient: seq<Report>, ghost ofServer: seq<Report>, ghost said: seq<Report>)
    requires client != server && Matched(client, server) && AllSound(client.streams) && AllSound(server.streams)
    requires Directed(client) && Directed(server)
    modifies client.streams, server.streams, client`senderHasRetransmits, client`otherSideHasRetransmits
    modifies server`senderHasRetransmits, server`otherSideHasRetransmits
    ensures ok
    ensures ofClient == old(ReportsOf(client.streams, Has(client))) && ofServer == old(ReportsOf(server.streams, Has(server)))
    ensures |ofClient| == |ofServer| == |said| == |client.streams| == |server.streams|
    ensures forall k :: 0 <= k < |client.streams| ==> Agree(client.streams[k], server.streams[k], ofClient[k], ofServer[k])
    ensures forall k :: 0 <= k < |client.streams| ==>
              && Settled(client.streams[k], server.streams[k], old(client.senderHasRetransmits) != 0)
              && Settled(server.streams[k], client.streams[k], old(server.senderHasRetransmits) != 0)
    ensures ReportsAre(said, server.streams, Has(server)) && Says(server) == old(Says(server))
    ensures forall k :: 0 <= k < |server.streams| ==> SaysTheSame(ofServer[k], said[k], server.streams[k].sender)
    ensures forall k :: 0 <= k < |server.streams| && server.streams[k].sender ==> said[k].errors == ofClient[k].errors
    ensures (server.senderHasRetransmits, server.otherSideHasRetransmits) ==
            old(Hears(server.mode, server.senderHasRetransmits, server.otherSideHasRetransmits, Some(Says(client))))
    ensures (client.senderHasRetransmits, client.otherSideHasRetransmits) ==
            old(Hears(client.mode, client.senderHasRetransmits, client.otherSideHasRetransmits, Some(Says(server))))
  {
    hide AllSound, Agree, SaysTheSame, ReportOf, ReportsAre, ReportsOf, Directed, Hears, Says, Matched;
    Opposite(client, server);
    ok, ofClient, ofServer, said := ExchangeAll(client, server);
    forall k | 0 <= k < |client.streams|
      ensures Settled(client.streams[k], server.streams[k], old(client.senderHasRetransmits) != 0)
      ensures Settled(server.streams[k], client.streams[k], old(server.senderHasRetransmits) != 0)
    {
      assert old(Tells(client.streams[k], Has(client), ofClient[k]) && Tells(server.streams[k], Has(server), ofServer[k]));
      assert Total(client.streams[k], server.streams[k], ofClient[k], ofServer[k]);
      assert Total(server.streams[k], client.streams[k], ofServer[k], ofClient[k]);
    }
  }

  lemma Opposite(client: Endpoint, server: Endpoint)
    requires Matched(client, server)
    ensures |client.streams| == |server.streams|
    ensures forall k :: 0 <= k < |client.streams| ==> client.streams[k].sender != server.streams[k].sender
    ensures forall k :: 0 <= k < |client.streams| ==> client.streams[k].id == server.streams[k].id
  {
  }

  /** The four messages of it. */
  method ExchangeAll(client: Endpoint, server: Endpoint)
    returns (ok: bool, ghost ofClient: seq<Report>, ghost ofServer: seq<Report>, ghost said: seq<Report>)
    requires client != server && Matched(client, server) && AllSound(client.streams) && AllSound(server.streams)
    requires Directed(client) && Directed(server)
    modifies client.streams, server.streams, client`senderHasRetransmits, client`otherSideHasRetransmits
    modifies server`senderHasRetransmits, server`otherSideHasRetransmits
    ensures ok
    ensures ofClient == old(ReportsOf(client.streams, Has(client))) && ofServer == old(ReportsOf(server.streams, Has(server)))
    ensures old(Told(client.streams, Has(client), ofClient)) && old(Told(server.streams, Has(server), ofServer))
    ensures forall k :: 0 <= k < |client.streams| && client.streams[k].sender ==> client.streams[k].bytesSent == old(client.streams[k].bytesSent)
    ensures forall k :: 0 <= k < |server.streams| && server.streams[k].sender ==> server.streams[k].bytesSent == old(server.streams[k].bytesSent)
    ensures |ofClient| == |ofServer| == |said| == |client.streams| == |server.streams|
    ensures forall k :: 0 <= k < |client.streams| ==>
              && Total(client.streams[k], server.streams[k], ofClient[k], ofServer[k])
              && Total(server.streams[k], client.streams[k], ofServer[k], ofClient[k])
    ensures forall k :: 0 <= k < |client.streams| ==> Agree(client.streams[k], server.streams[k], ofClient[k], ofServer[k])
    ensures ReportsAre(said, server.streams, Has(server)) && Says(server) == old(Says(server))
    ensures forall k :: 0 <= k < |server.streams| ==> SaysTheSame(ofServer[k], said[k], server.streams[k].sender)
    ensures forall k :: 0 <= k < |server.streams| && server.streams[k].sender ==> said[k].errors == ofClient[k].errors
    ensures (server.senderHasRetransmits, server.otherSideHasRetransmits) ==
            old(Hears(server.mode, server.senderHasRetransmits, server.otherSideHasRetransmits, Some(Says(client))))
    ensures (client.senderHasRetransmits, client.otherSideHasRetransmits) ==
            old(Hears(client.mode, client.senderHasRetransmits, client.otherSideHasRetransmits, Some(Says(server))))
  {
    hide AllSound, Agree, AllHold, SaysTheSame, ReportOf, ReportsAre, ReportsOf, IdsDistinct, Directed, Hears, Says, Matched, Told, Total;
    Ready(client, server);
    Opposite(client, server);
    ghost var clientHas, serverHas := Has(client), Has(server);
    InReports(client.streams, clientHas, ReportsOf(client.streams, clientHas));
    InReports(server.streams, serverHas, ReportsOf(server.streams, serverHas));
    ok, ofClient, ofServer := Convey(client, server);
    var heard;
    ghost var own;
    heard, said, own := Convey(server, client);
    ok := ok && heard;
    AreReports(server, said);
    FlagHidden(server, serverHas, said);
    BothHold(client.streams, server.streams, ofClient, ofServer, said, clientHas, serverHas);
    InFields(client.streams, server.streams, ofClient, ofServer);
  }

  lemma AreReports(e: Endpoint, reports: seq<Report>)
    requires reports == ReportsOf(e.streams, Has(e))
    ensures ReportsAre(reports, e.streams, Has(e))
  {
  }

  /** One end's message and the other's reading of it. */
  method Convey(from: Endpoint, to: Endpoint) returns (ok: bool, ghost said: seq<Report>, ghost own: seq<Report>)
    requires from != to && IdsDistinct(to.streams) && AllSound(from.streams) && AllSound(to.streams)
    requires |from.streams| == |to.streams|
    requires forall k :: 0 <= k < |to.streams| ==> from.streams[k].id == to.streams[k].id
    requires forall k :: 0 <= k < |to.streams| ==> to.streams[k] !in from.streams && from.streams[k] !in to.streams
    modifies to.streams, to`senderHasRetransmits, to`otherSideHasRetransmits
    ensures ok && said == old(ReportsOf(from.streams, Has(from))) && own == old(ReportsOf(to.streams, Has(to)))
    ensures said == ReportsOf(from.streams, Has(from)) && |said| == |own| == |to.streams|
    ensures AllSound(to.streams) && AllSound(from.streams) && AllHold(to.streams, own, old(Has(to)), said)
    ensures IdsDistinct(to.streams) && forall k :: 0 <= k < |to.streams| ==> from.streams[k].id == to.streams[k].id
    ensures forall k :: 0 <= k < |to.streams| && to.streams[k].sender ==> to.streams[k].bytesSent == old(to.streams[k].bytesSent)
    ensures Says(to) == old(Says(to)) && (Has(to) == old(Has(to)) || to.mode == Receiver)
    ensures (to.senderHasRetransmits, to.otherSideHasRetransmits) ==
            old(Hears(to.mode, to.senderHasRetransmits, to.otherSideHasRetransmits, Some(Says(from))))
  {
    hide Carries, AllSound, AllHold, Names, AllExact, ReportOf, ReportsAre, ReportsOf, IdsDistinct, FlagIn, Hears, Says;
    own := ReportsOf(to.streams, Has(to));
    AreReports(to, own);
    AsMany(own, to.streams, Has(to));
    var text;
    text, said := Tell(from, to.streams);
    AsMany(said, from.streams, Has(from));
    ok := Receive(to, text, Has(to), own, said);
    SameIds(to.streams, own, old(Has(to)), said);
  }

  /** Agreement on the reports, in the fields of the streams. */
  lemma InFields(cs: seq<Stream>, ss: seq<Stream>, ofClient: seq<Report>, ofServer: seq<Report>)
    requires |cs| == |ss| == |ofClient| == |ofServer| && AllSound(cs) && AllSound(ss)
    requires forall k :: 0 <= k < |cs| ==> cs[k].sender != ss[k].sender && Agree(cs[k], ss[k], ofClient[k], ofServer[k])
    ensures forall k :: 0 <= k < |cs| ==> Total(cs[k], ss[k], ofClient[k], ofServer[k]) && Total(ss[k], cs[k], ofServer[k], ofClient[k])
  {
    forall k | 0 <= k < |cs| ensures Sound(cs[k]) && Sound(ss[k]) && Agree(cs[k], ss[k], ofClient[k], ofServer[k]) {
      assert cs[k] in cs && ss[k] in ss;
    }
  }

  /** What the receiving end of a pair has in the end, and the sending end. */
  ghost predicate Total(tx: Stream, rx: Stream, ofTx: Report, ofRx: Report)
    reads tx, rx
  {
    && tx.peerPacketCount == ofRx.packets && ofRx.omitted.Some? && tx.peerOmittedPacketCount == ofRx.omitted.value.packets
    && (tx.sender ==>
          && rx.bytesSent == ofTx.bytes && tx.bytesReceived == rx.bytesReceived == ofRx.bytes
          && tx.cntError == rx.cntError == ofRx.errors && tx.omittedCntError == rx.omittedCntError == ofRx.omitted.value.errors
          && rx.retrans == ofTx.retransmits)
  }

  /** The report tells what the stream holds. */
  ghost predicate Tells(sp: Stream, has: bool, r: Report)
    reads sp
  {
    && r.errors == sp.cntError && r.packets == sp.packetCount && r.omitted == Some(Omitted(sp.omittedCntError, sp.omittedPacketCount))
    && (sp.sender ==> r.bytes == sp.bytesSent - sp.bytesSentOmit) && (!sp.sender ==> r.bytes == sp.bytesReceived)
    && r.retransmits == if sp.sender && has then sp.retrans else -1
  }

  ghost predicate Told(streams: seq<Stream>, has: bool, reports: seq<Report>)
    reads streams
  {
    |reports| == |streams| && forall k :: 0 <= k < |streams| ==> Tells(streams[k], has, reports[k])
  }

  lemma InReports(streams: seq<Stream>, has: bool, reports: seq<Report>)
    requires ReportsAre(reports, streams, has)
    ensures Told(streams, has, reports)
  {
  }

  /** send_results of a sound end, to a peer with the same stream ids. */
  method Tell(e: Endpoint, ghost peers: seq<Stream>) returns (text: seq<byte>, ghost reports: seq<Report>)
    requires AllSound(e.streams)
    requires |e.streams| == |peers| && forall k :: 0 <= k < |peers| ==> e.streams[k].id == peers[k].id
    ensures reports == ReportsOf(e.streams, Has(e)) && ReportsAre(reports, e.streams, Has(e)) && |reports| == |e.streams|
    ensures Carries(text, reports) && FlagIn(text) == Some(Says(e)) && Names(reports, peers) && AllExact(reports)
  {
    hide Carries, AllSound, Names, AllExact, ReportOf, ReportsAre, FlagIn;
    text := SendResults(e);
    reports := ReportsOf(e.streams, Has(e));
    AsMany(reports, e.streams, Has(e));
    SoundTravels(Says(e), e.streams, Has(e), reports);
    SoundNames(e.streams, Has(e), reports, peers);
  }

  /**
   * Such a change: the server sends one stream, of which the client has lost one datagram. The server would have reported
   * no error before it read the client's results, and reports one after.
   */
  method LossIsEchoed() returns (ghost before: Report, ghost after: Report)
    ensures before.errors == 0 && after.errors == 1
  {
    hide Matched, AllSound, Directed, Agree, SaysTheSame, Hears, Says;
    var client, server := OneLoss();
    var ok, ofClient, ofServer, said := Exchange(client, server);
    before, after := ofServer[0], said[0];
  }

  method OneLoss() returns (client: Endpoint, server: Endpoint)
    ensures fresh(client) && fresh(server) && client != server
    ensures Matched(client, server) && Directed(client) && Directed(server) && AllSound(client.streams) && AllSound(server.streams)
    ensures |client.streams| == |server.streams| == 1 && fresh(client.streams[0]) && fresh(server.streams[0])
    ensures client.streams[0].cntError == 1 && server.streams[0].cntError == 0 && server.streams[0].sender
  {
    var arrivals: seq<Option<nat>> := [Some(0)];
    assert arrivals[..0] == [] && Ours(arrivals) == [0];
    hide Ours, EndsMeet;
    var established;
    established, client, server := Establish(true, false, 1, arrivals, false, false);
    var cs, ss := client.streams, server.streams;
    assert established && |cs| == |ss| == 1;
    assert cs[0] in cs + ss && ss[0] in cs + ss;
    assert Idle(cs[0]) && Idle(ss[0]);
    cs[0].cntError := 1;
    assert Sound(cs[0]) && Sound(ss[0]);
  }
}
