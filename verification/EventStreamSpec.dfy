/** Amazon event-stream framing: what the decoder accepts, and a reference encoder it inverts. */
module EventStreamSpec {
  import opened Wrappers

  type Byte = b: int | 0 <= b < 256
  type Bytes = seq<Byte>

  const PRELUDE_LEN := 12
  const OVERHEAD := 16
  const MAX_FRAME := 16 * 1024 * 1024

  const EVENT_TYPE: Bytes := [58, 101, 118, 101, 110, 116, 45, 116, 121, 112, 101]  // ":event-type"

  datatype Frame = Frame(eventType: Bytes, payload: Bytes)

  function U16(b: Bytes): nat
    requires |b| >= 2
  {
    b[0] as int * 0x100 + b[1] as int
  }

  function U32(b: Bytes): nat
    requires |b| >= 4
  {
    b[0] as int * 0x100_0000 + b[1] as int * 0x1_0000 + b[2] as int * 0x100 + b[3] as int
  }

  // ---------------------------------------------------------------- the decoder, as functions

  /** The fixed width of a header value type, when it has one. */
  function FixedWidth(kind: Byte): Option<nat> {
    if kind <= 1 then Some(0)
    else if kind == 2 then Some(1)
    else if kind == 3 then Some(2)
    else if kind == 4 then Some(4)
    else if kind == 5 || kind == 8 then Some(8)
    else if kind == 9 then Some(16)
    else None
  }

  /** How a value of this type at the front of `rest` is laid out: the length prefix and the value length. */
  function ValueSpan(kind: Byte, rest: Bytes): Option<(nat, nat)> {
    if FixedWidth(kind).Some? then Some((0, FixedWidth(kind).value))
    else if (kind == 6 || kind == 7) && |rest| >= 2 then Some((2, U16(rest)))
    else None
  }

  datatype Header = Header(name: Bytes, kind: Byte, value: Bytes)

  /** The header at the front of `data`, and how many bytes it takes. */
  function FirstHeader(data: Bytes): (r: Option<(Header, nat)>)
    requires data != []
    ensures r.Some? ==> 0 < r.value.1 <= |data|
  {
    var n := data[0];
    if 1 + n >= |data| then None
    else
      var kind, rest := data[1 + n], data[2 + n..];
      var span := ValueSpan(kind, rest);
      if span.None? || span.value.0 + span.value.1 > |rest| then None
      else
        var end := span.value.0 + span.value.1;
        Some((Header(data[1..1 + n], kind, rest[span.value.0..end]), 2 + n + end))
  }

  function Latest(h: Header, last: Bytes): Bytes {
    if h.name == EVENT_TYPE && h.kind == 7 then h.value else last
  }

  /** The event type after all headers in `data`, starting from `last`; absent when they are malformed. */
  function Headers(data: Bytes, last: Bytes): Option<Bytes>
    decreases |data|
  {
    if data == [] then Some(last)
    else
      var first := FirstHeader(data);
      if first.None? then None else Headers(data[first.value.1..], Latest(first.value.0, last))
  }

  /** The first frame of `data` and its total length. */
  function FirstFrame(data: Bytes): (r: Option<(Frame, nat)>)
    ensures r.Some? ==> OVERHEAD <= r.value.1 <= |data|
  {
    if |data| < PRELUDE_LEN then None
    else
      var total, headersLen := U32(data), U32(data[4..]);
      if total < OVERHEAD || total > MAX_FRAME || headersLen > total - OVERHEAD || total > |data| then None
      else
        var headersEnd := PRELUDE_LEN + headersLen;
        var eventType := Headers(data[PRELUDE_LEN..headersEnd], []);
        if eventType.None? then None
        else Some((Frame(eventType.value, data[headersEnd..total - 4]), total))
  }

  /** All frames of `data`, which may be none. */
  function Frames(data: Bytes): Option<seq<Frame>>
    decreases |data|
  {
    if data == [] then Some([])
    else
      var first := FirstFrame(data);
      if first.None? then None else Join(Some([first.value.0]), Frames(data[first.value.1..]))
  }

  /** One accepted stretch after another. */
  function Join(x: Option<seq<Frame>>, y: Option<seq<Frame>>): Option<seq<Frame>> {
    if x.None? || y.None? then None else Some(x.value + y.value)
  }

  /** What the decoder returns: an empty input is not a stream. */
  function Decode(data: Bytes): Option<seq<Frame>> {
    var frames := Frames(data);
    if frames.None? || frames.value == [] then None else frames
  }

  // ---------------------------------------------------------------- the reference encoder

  /** A frame on the wire. The checksums are carried, not computed. */
  datatype WireFrame = WireFrame(headers: seq<Header>, payload: Bytes, preludeCrc: Bytes, messageCrc: Bytes)

  predicate ValidHeader(h: Header) {
    |h.name| < 0x100 && h.kind <= 9 &&
    if FixedWidth(h.kind).Some? then |h.value| == FixedWidth(h.kind).value else |h.value| < 0x1_0000
  }

  predicate ValidFrame(f: WireFrame) {
    && (forall h :: h in f.headers ==> ValidHeader(h))
    && |f.preludeCrc| == 4 && |f.messageCrc| == 4
    && OVERHEAD + |EncodeHeaders(f.headers)| + |f.payload| <= MAX_FRAME
  }

  predicate ValidFrames(fs: seq<WireFrame>) {
    forall f :: f in fs ==> ValidFrame(f)
  }

  function B8(n: nat): Byte { n % 0x100 }
  function B16(n: nat): Bytes { [n / 0x100 % 0x100, n % 0x100] }
  function B32(n: nat): Bytes { [n / 0x100_0000 % 0x100, n / 0x1_0000 % 0x100, n / 0x100 % 0x100, n % 0x100] }

  function EncodeValue(h: Header): Bytes {
    if FixedWidth(h.kind).Some? then h.value else B16(|h.value|) + h.value
  }

  function EncodeHeader(h: Header): Bytes {
    [B8(|h.name|)] + h.name + [h.kind] + EncodeValue(h)
  }

  function EncodeHeaders(hs: seq<Header>): Bytes {
    if hs == [] then [] else EncodeHeader(hs[0]) + EncodeHeaders(hs[1..])
  }

  function EncodePrelude(f: WireFrame): Bytes {
    var hs := EncodeHeaders(f.headers);
    B32(OVERHEAD + |hs| + |f.payload|) + B32(|hs|) + f.preludeCrc
  }

  function EncodeFrame(f: WireFrame): Bytes {
    EncodePrelude(f) + EncodeHeaders(f.headers) + f.payload + f.messageCrc
  }

  function Encode(fs: seq<WireFrame>): Bytes {
    if fs == [] then [] else EncodeFrame(fs[0]) + Encode(fs[1..])
  }

  /** What a receiver should see of a frame: the last `:event-type` string, and the payload. */
  function EventType(hs: seq<Header>): Bytes {
    if hs == [] then []
    else
      var h := hs[|hs| - 1];
      Latest(h, EventType(hs[..|hs| - 1]))
  }

  function Meaning(f: WireFrame): Frame {
    Frame(EventType(f.headers), f.payload)
  }

  function Meanings(fs: seq<WireFrame>): seq<Frame> {
    if fs == [] then [] else [Meaning(fs[0])] + Meanings(fs[1..])
  }

  // ---------------------------------------------------------------- decoding inverts encoding

  /** The event type after `hs` when `last` was seen before them. */
  function EventTypeFrom(hs: seq<Header>, last: Bytes): Bytes {
    if hs == [] then last
    else EventTypeFrom(hs[1..], Latest(hs[0], last))
  }

  lemma {:induction false} EventTypeFromAppend(hs: seq<Header>, h: Header, last: Bytes)
    ensures EventTypeFrom(hs + [h], last) == Latest(h, EventTypeFrom(hs, last))
    decreases |hs|
  {
    if hs == [] {
      assert ([] + [h])[1..] == [];
    } else {
      assert (hs + [h])[1..] == hs[1..] + [h];
      EventTypeFromAppend(hs[1..], h, Latest(hs[0], last));
    }
  }

  lemma {:induction false} EventTypeForwards(hs: seq<Header>)
    ensures EventTypeFrom(hs, []) == EventType(hs)
    decreases |hs|
  {
    if hs != [] {
      var k := |hs| - 1;
      assert hs == hs[..k] + [hs[k]];
      EventTypeFromAppend(hs[..k], hs[k], []);
      EventTypeForwards(hs[..k]);
    }
  }

  lemma ValueRoundTrip(h: Header, tail: Bytes)
    requires ValidHeader(h)
    ensures var span := ValueSpan(h.kind, EncodeValue(h) + tail);
            && span.Some? && span.value.0 + span.value.1 == |EncodeValue(h)|
            && (EncodeValue(h) + tail)[span.value.0..|EncodeValue(h)|] == h.value
  {
    if FixedWidth(h.kind).None? {
      var rest := EncodeValue(h) + tail;
      assert rest[0] == |h.value| / 0x100 && rest[1] == |h.value| % 0x100;
    }
  }

  lemma HeaderLayout(n: Byte, name: Bytes, kind: Byte, value: Bytes, tail: Bytes)
    requires n == |name|
    ensures var data := [n] + name + [kind] + value + tail;
            && |data| == 2 + n + |value| + |tail|
            && data[0] == n && data[1 + n] == kind && data[1..1 + n] == name && data[2 + n..] == value + tail
  {
    var data := [n] + name + [kind] + value + tail;
    assert data[1..1 + n] == name;
    assert data[2 + n..] == value + tail;
  }

  /** Reading one encoded header off the front gives it back. */
  lemma HeaderRoundTrip(h: Header, tail: Bytes)
    requires ValidHeader(h)
    ensures FirstHeader(EncodeHeader(h) + tail) == Some((h, |EncodeHeader(h)|))
  {
    ValueRoundTrip(h, tail);
    HeaderLayout(B8(|h.name|), h.name, h.kind, EncodeValue(h), tail);
    hide EncodeValue, ValueSpan, FixedWidth;
  }

  lemma {:induction false} HeadersRoundTrip(hs: seq<Header>, last: Bytes)
    requires forall h :: h in hs ==> ValidHeader(h)
    ensures Headers(EncodeHeaders(hs), last) == Some(EventTypeFrom(hs, last))
    decreases |hs|
  {
    if hs != [] {
      assert hs[0] in hs && forall h :: h in hs[1..] ==> h in hs;
      HeaderRoundTrip(hs[0], EncodeHeaders(hs[1..]));
      assert EncodeHeaders(hs)[|EncodeHeader(hs[0])|..] == EncodeHeaders(hs[1..]);
      HeadersRoundTrip(hs[1..], Latest(hs[0], last));
    }
  }

  lemma B32Inverse(n: nat)
    requires n < 0x1_0000_0000
    ensures U32(B32(n)) == n
  {
    var q1 := n / 0x100;
    var q2 := q1 / 0x100;
    var q3 := q2 / 0x100;
    assert n / 0x1_0000 == q2 && n / 0x100_0000 == q3 < 0x100;
    assert n == q1 * 0x100 + n % 0x100 && q1 == q2 * 0x100 + q1 % 0x100 && q2 == q3 * 0x100 + q2 % 0x100;
  }

  lemma U32Prefix(a: Bytes, b: Bytes)
    requires |a| >= 4 && |b| >= 4 && a[..4] == b[..4]
    ensures U32(a) == U32(b)
  {
    assert forall i :: 0 <= i < 4 ==> a[i] == a[..4][i] && b[i] == b[..4][i];
  }

  /** The length fields of an encoded frame. */
  lemma PreludeRoundTrip(f: WireFrame, tail: Bytes)
    requires ValidFrame(f)
    ensures |EncodeFrame(f)| == OVERHEAD + |EncodeHeaders(f.headers)| + |f.payload|
    ensures U32(EncodeFrame(f) + tail) == |EncodeFrame(f)|
    ensures U32((EncodeFrame(f) + tail)[4..]) == |EncodeHeaders(f.headers)|
  {
    var hs, p := EncodeHeaders(f.headers), EncodePrelude(f);
    var total := OVERHEAD + |hs| + |f.payload|;
    var data := EncodeFrame(f) + tail;
    B32Inverse(total);
    B32Inverse(|hs|);
    assert data[..12] == p;
    assert data[..4] == p[..4] == B32(total);
    assert data[4..][..4] == p[4..][..4] == B32(|hs|);
    U32Prefix(data, B32(total));
    U32Prefix(data[4..], B32(|hs|));
  }

  lemma Middle(before: Bytes, part: Bytes, after: Bytes)
    ensures (before + part + after)[|before|..|before| + |part|] == part
  {}

  /** Where the headers and the payload of an encoded frame lie. */
  lemma FrameParts(f: WireFrame, tail: Bytes)
    requires ValidFrame(f)
    ensures var (data, headersEnd) := (EncodeFrame(f) + tail, PRELUDE_LEN + |EncodeHeaders(f.headers)|);
            && |EncodeFrame(f)| == headersEnd + |f.payload| + 4
            && data[PRELUDE_LEN..headersEnd] == EncodeHeaders(f.headers)
            && data[headersEnd..headersEnd + |f.payload|] == f.payload
  {
    var prelude, hs := EncodePrelude(f), EncodeHeaders(f.headers);
    assert EncodeFrame(f) + tail == prelude + hs + (f.payload + f.messageCrc + tail);
    assert EncodeFrame(f) + tail == (prelude + hs) + f.payload + (f.messageCrc + tail);
    Middle(prelude, hs, f.payload + f.messageCrc + tail);
    Middle(prelude + hs, f.payload, f.messageCrc + tail);
  }

  /** `data` starts with a frame of this length, header block and payload. */
  ghost predicate StartsWithFrame(data: Bytes, total: nat, headers: Bytes, payload: Bytes) {
    && total == OVERHEAD + |headers| + |payload| <= MAX_FRAME && total <= |data|
    && U32(data) == total && U32(data[4..]) == |headers|
    && data[PRELUDE_LEN..PRELUDE_LEN + |headers|] == headers
    && data[PRELUDE_LEN + |headers|..total - 4] == payload
  }

  lemma EncodedStartsWithFrame(f: WireFrame, tail: Bytes)
    requires ValidFrame(f)
    ensures StartsWithFrame(EncodeFrame(f) + tail, |EncodeFrame(f)|, EncodeHeaders(f.headers), f.payload)
  {
    PreludeRoundTrip(f, tail);
    FrameParts(f, tail);
  }

  lemma FirstFrameFields(data: Bytes, total: nat, headers: Bytes, eventType: Bytes, payload: Bytes)
    requires StartsWithFrame(data, total, headers, payload) && Headers(headers, []) == Some(eventType)
    ensures FirstFrame(data) == Some((Frame(eventType, payload), total))
  {}

  lemma FrameRoundTrip(f: WireFrame, tail: Bytes)
    requires ValidFrame(f)
    ensures FirstFrame(EncodeFrame(f) + tail) == Some((Meaning(f), |EncodeFrame(f)|))
  {
    HeadersRoundTrip(f.headers, []);
    EventTypeForwards(f.headers);
    var data, total := EncodeFrame(f) + tail, |EncodeFrame(f)|;
    assert StartsWithFrame(data, total, EncodeHeaders(f.headers), f.payload) by { EncodedStartsWithFrame(f, tail); }
    FirstFrameFields(data, total, EncodeHeaders(f.headers), EventType(f.headers), f.payload);
  }

  /** Decoding inverts encoding, for every list of well-formed frames. */
  lemma {:induction false} RoundTrip(fs: seq<WireFrame>)
    requires ValidFrames(fs)
    ensures Frames(Encode(fs)) == Some(Meanings(fs))
    decreases |fs|
  {
    if fs != [] {
      assert fs[0] in fs && forall f :: f in fs[1..] ==> f in fs;
      FrameRoundTrip(fs[0], Encode(fs[1..]));
      RoundTrip(fs[1..]);
      assert Encode(fs)[|EncodeFrame(fs[0])|..] == Encode(fs[1..]);
    }
  }

  // ---------------------------------------------------------------- what the wire says, in figures

  /** A string header whose name reads ":event-type". */
  predicate NamesEventType(h: Header) {
    h.kind == 7 && |h.name| == |":event-type"| && forall k :: 0 <= k < |h.name| ==> h.name[k] == ":event-type"[k] as int
  }

  lemma NameIsLiteral(h: Header)
    ensures NamesEventType(h) <==> h.kind == 7 && h.name == EVENT_TYPE
  {
    assert |":event-type"| == |EVENT_TYPE| == 11;
    assert forall k :: 0 <= k < 11 ==> EVENT_TYPE[k] == ":event-type"[k] as int;
  }

  lemma NamingIsTaken(h: Header, last: Bytes)
    ensures Latest(h, last) == if NamesEventType(h) then h.value else last
  {
    NameIsLiteral(h);
  }

  /** No later header names the event type. */
  predicate LastToName(hs: seq<Header>, i: int) {
    0 <= i < |hs| && NamesEventType(hs[i]) && forall j :: i < j < |hs| ==> !NamesEventType(hs[j])
  }

  lemma {:induction false} EventTypeByIndex(hs: seq<Header>, last: Bytes)
    ensures forall i :: LastToName(hs, i) ==> EventTypeFrom(hs, last) == hs[i].value
    ensures (forall h :: h in hs ==> !NamesEventType(h)) ==> EventTypeFrom(hs, last) == last
    decreases |hs|
  {
    hide NamesEventType, Latest;
    if hs != [] {
      var rest, now := hs[1..], Latest(hs[0], last);
      NamingIsTaken(hs[0], last);
      EventTypeByIndex(rest, now);
      assert hs[0] in hs && forall h :: h in rest ==> h in hs;
      forall i | LastToName(hs, i)
        ensures EventTypeFrom(hs, last) == hs[i].value
      {
        if i > 0 {
          assert forall j :: 0 <= j < |rest| ==> rest[j] == hs[j + 1];
          assert LastToName(rest, i - 1);
        } else {
          assert forall j :: 0 <= j < |rest| ==> !NamesEventType(rest[j]);
        }
      }
    }
  }

  /** The event type decoded from a header block is the value of the last string header named ":event-type", and
      empty without one. */
  lemma LastEventTypeWins(hs: seq<Header>)
    requires forall h :: h in hs ==> ValidHeader(h)
    ensures forall i :: LastToName(hs, i) ==> Headers(EncodeHeaders(hs), []) == Some(hs[i].value)
    ensures (forall h :: h in hs ==> !NamesEventType(h)) ==> Headers(EncodeHeaders(hs), []) == Some([])
  {
    hide LastToName, NamesEventType, ValidHeader;
    HeadersRoundTrip(hs, []);
    EventTypeByIndex(hs, []);
  }

  /** Header lengths by value type: none for a boolean, 1, 2, 4 and 8 bytes for integers, 8 for a timestamp, 16 for a
      UUID, a two-byte length and its bytes for byte arrays and strings; there is no other type. */
  lemma HeaderWidths(h: Header)
    requires ValidHeader(h)
    ensures var n := |EncodeHeader(h)| - 2 - |h.name|;
            && h.kind in {0, 1, 2, 3, 4, 5, 6, 7, 8, 9}
            && (h.kind in {0, 1} ==> n == 0) && (h.kind == 2 ==> n == 1) && (h.kind == 3 ==> n == 2)
            && (h.kind == 4 ==> n == 4) && (h.kind in {5, 8} ==> n == 8) && (h.kind == 9 ==> n == 16)
            && (h.kind in {6, 7} ==> n == 2 + |h.value|)
  {}

  const KNOWN_HEADER: Bytes := [11, 58, 101, 118, 101, 110, 116, 45, 116, 121, 112, 101, 7, 1, 44]

  lemma KnownHeader(value: Bytes)
    requires |value| == 300
    ensures EncodeHeaders([Header(EVENT_TYPE, 7, value)]) == KNOWN_HEADER + value
  {
    var h := Header(EVENT_TYPE, 7, value);
    assert [h][1..] == [] && EncodeHeaders([h]) == EncodeHeader(h) + [] == EncodeHeader(h);
    assert B16(300) == [1, 44];
  }

  lemma KnownPrelude()
    ensures B32(331) == [0, 0, 1, 75] && B32(315) == [0, 0, 1, 59]
  {}

  lemma KnownParts(value: Bytes, preludeCrc: Bytes, messageCrc: Bytes)
    requires |value| == 300 && |preludeCrc| == |messageCrc| == 4
    ensures var f := WireFrame([Header(EVENT_TYPE, 7, value)], [], preludeCrc, messageCrc);
            && ValidFrame(f)
            && EncodeFrame(f) == [0, 0, 1, 75] + [0, 0, 1, 59] + preludeCrc + (KNOWN_HEADER + value) + messageCrc
  {
    hide EncodeHeaders, EncodeHeader, B32;
    KnownHeader(value);
    KnownPrelude();
    var f := WireFrame([Header(EVENT_TYPE, 7, value)], [], preludeCrc, messageCrc);
    var hs := EncodeHeaders(f.headers);
    assert EncodePrelude(f) + hs + [] == EncodePrelude(f) + hs;
  }

  lemma OneFrame(f: WireFrame)
    requires ValidFrame(f)
    ensures Decode(EncodeFrame(f)) == Some([Meaning(f)])
  {
    hide EncodeFrame, Meaning, Frames, ValidFrame;
    assert [f][1..] == [] && Encode([f]) == EncodeFrame(f) + [] == EncodeFrame(f);
    RoundTrip([f]);
    assert Meanings([f]) == [Meaning(f)] + [] == [Meaning(f)];
  }

  /** A frame of one string header with a value of 300 bytes, written out byte by byte; all lengths are big-endian. */
  lemma KnownFrame(value: Bytes, preludeCrc: Bytes, messageCrc: Bytes)
    requires |value| == 300 && |preludeCrc| == |messageCrc| == 4
    ensures Decode([0, 0, 1, 75] + [0, 0, 1, 59] + preludeCrc
                   + ([11, 58, 101, 118, 101, 110, 116, 45, 116, 121, 112, 101, 7, 1, 44] + value) + messageCrc)
         == Some([Frame(value, [])])
  {
    hide Decode, EncodeFrame, ValidFrame;
    var h := Header(EVENT_TYPE, 7, value);
    var f := WireFrame([h], [], preludeCrc, messageCrc);
    KnownParts(value, preludeCrc, messageCrc);
    OneFrame(f);
    NameIsLiteral(h);
    assert LastToName([h], 0);
    EventTypeByIndex([h], []);
    EventTypeForwards([h]);
  }

  /** A frame without headers fits up to 16 MiB in all. */
  lemma FrameLimit(payload: Bytes, crc: Bytes)
    requires |payload| < 0x1_0000_0000 - 16 && |crc| == 4
    ensures FirstFrame(EncodeFrame(WireFrame([], payload, crc, crc))).Some? <==> |payload| <= 16_777_200
  {
    var f := WireFrame([], payload, crc, crc);
    var data := EncodeFrame(f);
    if |payload| <= 16_777_200 {
      FrameRoundTrip(f, []);
      assert data + [] == data;
    } else {
      B32Inverse(16 + |payload|);
      assert data[..4] == B32(16 + |payload|);
      U32Prefix(data, B32(16 + |payload|));
    }
  }

  // ---------------------------------------------------------------- only encodings are accepted

  lemma ValueParsed(h: Header, rest: Bytes, skip: nat, end: nat)
    requires h.kind <= 9 && ValueSpan(h.kind, rest) == Some((skip, end - skip)) && skip <= end <= |rest|
    requires h.value == rest[skip..end] && |h.name| < 0x100
    ensures ValidHeader(h) && EncodeValue(h) == rest[..end]
  {
    if FixedWidth(h.kind).None? {
      assert rest[..2] == B16(U16(rest));
      assert rest[..end] == rest[..2] + rest[2..end];
    }
  }

  lemma HeaderParsed(data: Bytes)
    requires data != [] && FirstHeader(data).Some?
    ensures ValidHeader(FirstHeader(data).value.0)
    ensures data[..FirstHeader(data).value.1] == EncodeHeader(FirstHeader(data).value.0)
  {
    var h, n := FirstHeader(data).value.0, FirstHeader(data).value.1;
    var rest := data[2 + data[0]..];
    var end := n - 2 - data[0];
    ValueParsed(h, rest, ValueSpan(h.kind, rest).value.0, end);
    assert data[..n] == [data[0]] + data[1..1 + data[0]] + [data[1 + data[0]]] + rest[..end];
  }

  function ParsedHeaders(data: Bytes): seq<Header>
    decreases |data|
  {
    if data == [] || FirstHeader(data).None? then []
    else [FirstHeader(data).value.0] + ParsedHeaders(data[FirstHeader(data).value.1..])
  }

  lemma EncodeHeadersCons(h: Header, hs: seq<Header>)
    ensures EncodeHeaders([h] + hs) == EncodeHeader(h) + EncodeHeaders(hs)
  {
    assert ([h] + hs)[1..] == hs;
  }

  lemma {:induction false} HeadersParsed(data: Bytes, last: Bytes)
    requires Headers(data, last).Some?
    ensures EncodeHeaders(ParsedHeaders(data)) == data
    ensures forall h :: h in ParsedHeaders(data) ==> ValidHeader(h)
    decreases |data|
  {
    hide FirstHeader, ValidHeader, EncodeHeader;
    if data != [] {
      var h, n := FirstHeader(data).value.0, FirstHeader(data).value.1;
      assert ValidHeader(h) && data[..n] == EncodeHeader(h) by { HeaderParsed(data); }
      HeadersParsed(data[n..], Latest(h, last));
      EncodeHeadersCons(h, ParsedHeaders(data[n..]));
      assert data == data[..n] + data[n..];
    }
  }

  lemma B32OfU32(b: Bytes)
    requires |b| >= 4
    ensures B32(U32(b)) == b[..4]
  {
    var n := U32(b);
    assert n / 0x100_0000 == b[0] && n / 0x1_0000 == b[0] as int * 0x100 + b[1] as int;
    assert n / 0x100 == b[0] as int * 0x1_0000 + b[1] as int * 0x100 + b[2] as int;
  }

  lemma PreludeParts(data: Bytes)
    requires |data| >= 12
    ensures data[..12] == data[..4] + data[4..][..4] + data[8..12]
  {}

  lemma FrameCut(data: Bytes, h: nat, total: nat)
    requires 12 <= h <= total - 4 && total <= |data|
    ensures data[..total] == data[..12] + data[12..h] + data[h..total - 4] + data[total - 4..total]
  {
    assert data[..h] == data[..12] + data[12..h];
    assert data[..total - 4] == data[..h] + data[h..total - 4];
  }

  /** The wire frame at the front of accepted data. */
  lemma FrameParsed(data: Bytes, total: nat) returns (f: WireFrame)
    requires FirstFrame(data).Some? && FirstFrame(data).value.1 == total
    ensures ValidFrame(f) && EncodeFrame(f) == data[..total]
  {
    var h := PRELUDE_LEN + U32(data[4..]);
    var block := data[PRELUDE_LEN..h];
    var hs := ParsedHeaders(block);
    assert EncodeHeaders(hs) == block && (forall x :: x in hs ==> ValidHeader(x)) by { HeadersParsed(block, []); }
    f := WireFrame(hs, data[h..total - 4], data[8..12], data[total - 4..total]);
    FrameFromParts(data, total, hs, f);
  }

  lemma FrameFromParts(data: Bytes, total: nat, hs: seq<Header>, f: WireFrame)
    requires OVERHEAD + |EncodeHeaders(hs)| <= total <= |data| && total <= MAX_FRAME
    requires U32(data) == total && U32(data[4..]) == |EncodeHeaders(hs)|
    requires data[PRELUDE_LEN..PRELUDE_LEN + |EncodeHeaders(hs)|] == EncodeHeaders(hs)
    requires forall h :: h in hs ==> ValidHeader(h)
    requires var h := PRELUDE_LEN + |EncodeHeaders(hs)|;
             f == WireFrame(hs, data[h..total - 4], data[8..12], data[total - 4..total])
    ensures ValidFrame(f) && EncodeFrame(f) == data[..total]
  {
    B32OfU32(data);
    B32OfU32(data[4..]);
    PreludeParts(data);
    FrameCut(data, PRELUDE_LEN + |EncodeHeaders(hs)|, total);
  }

  /** Every accepted input is the encoding of some list of well-formed frames. */
  lemma {:induction false} AcceptedIsEncoding(data: Bytes) returns (fs: seq<WireFrame>)
    requires Frames(data).Some?
    ensures ValidFrames(fs) && Encode(fs) == data
    decreases |data|
  {
    if data == [] {
      fs := [];
    } else {
      var n := FirstFrame(data).value.1;
      var f := FrameParsed(data, n);
      var rest := AcceptedIsEncoding(data[n..]);
      fs := [f] + rest;
      EncodeCons(f, rest);
      assert data == data[..n] + data[n..];
    }
  }

  lemma EncodeCons(f: WireFrame, fs: seq<WireFrame>)
    ensures Encode([f] + fs) == EncodeFrame(f) + Encode(fs)
  {
    assert ([f] + fs)[1..] == fs;
  }

  ghost predicate IsEncodingOf(data: Bytes, fs: seq<WireFrame>) {
    fs != [] && ValidFrames(fs) && Encode(fs) == data
  }

  /** The decoder accepts exactly the encodings of non-empty lists of well-formed frames, and then returns
      what those frames mean. */
  lemma DecodesExactlyEncodings(data: Bytes)
    ensures Decode(data).Some? <==> exists fs :: IsEncodingOf(data, fs)
    ensures forall fs :: IsEncodingOf(data, fs) ==> Decode(data) == Some(Meanings(fs))
  {
    forall fs | IsEncodingOf(data, fs)
      ensures Decode(data) == Some(Meanings(fs))
    {
      RoundTrip(fs);
    }
    if Decode(data).Some? {
      var fs := AcceptedIsEncoding(data);
      assert IsEncodingOf(data, fs);
    }
  }

  // ---------------------------------------------------------------- concatenation and truncation

  /** The first frame is read from its own bytes alone. */
  lemma FirstFrameIsLocal(a: Bytes, b: Bytes)
    requires FirstFrame(a).Some?
    ensures FirstFrame(a + b) == FirstFrame(a)
  {
    hide U32, Headers;
    var total, h := U32(a), PRELUDE_LEN + U32(a[4..]);
    assert (a + b)[..4] == a[..4];
    assert (a + b)[4..][..4] == a[4..][..4];
    U32Prefix(a + b, a);
    U32Prefix((a + b)[4..], a[4..]);
    assert (a + b)[PRELUDE_LEN..h] == a[PRELUDE_LEN..h];
    assert (a + b)[h..total - 4] == a[h..total - 4];
  }

  lemma FirstFrameIsOwn(data: Bytes, tail: Bytes)
    requires FirstFrame(data).Some?
    ensures FirstFrame(data[..FirstFrame(data).value.1] + tail) == FirstFrame(data)
  {
    hide FirstFrame, EncodeFrame, Meaning, ValidFrame;
    var total := FirstFrame(data).value.1;
    var f := FrameParsed(data, total);
    FrameRoundTrip(f, tail);
    FrameRoundTrip(f, data[total..]);
    assert data == data[..total] + data[total..];
  }

  lemma JoinAssociative(x: Option<seq<Frame>>, y: Option<seq<Frame>>, z: Option<seq<Frame>>)
    ensures Join(Join(x, y), z) == Join(x, Join(y, z))
  {
    if x.Some? && y.Some? && z.Some? {
      assert (x.value + y.value) + z.value == x.value + (y.value + z.value);
    }
  }

  lemma FramesStep(data: Bytes, f: Frame, n: nat)
    requires FirstFrame(data) == Some((f, n))
    ensures Frames(data) == Join(Some([f]), Frames(data[n..]))
  {}

  lemma FramesStepAppended(a: Bytes, b: Bytes, f: Frame, n: nat)
    requires FirstFrame(a) == Some((f, n))
    ensures Frames(a + b) == Join(Some([f]), Frames(a[n..] + b))
  {
    FirstFrameIsLocal(a, b);
    FramesStep(a + b, f, n);
    assert (a + b)[n..] == a[n..] + b;
  }

  /** Decoding distributes over concatenation after an accepted input, and a rejected rest spoils it. */
  lemma {:induction false} FramesAppend(a: Bytes, b: Bytes)
    requires Frames(a).Some?
    ensures Frames(a + b) == Join(Frames(a), Frames(b))
    decreases |a|
  {
    if a == [] {
      assert a + b == b;
      if Frames(b).Some? { assert [] + Frames(b).value == Frames(b).value; }
    } else {
      var f, n := FirstFrame(a).value.0, FirstFrame(a).value.1;
      FramesStep(a, f, n);
      FramesStepAppended(a, b, f, n);
      FramesAppend(a[n..], b);
      JoinAssociative(Some([f]), Frames(a[n..]), Frames(b));
    }
  }

  /** A proper part of a frame is no frame. */
  lemma CutFrameRejected(data: Bytes, k: nat)
    requires FirstFrame(data).Some? && 0 < k < FirstFrame(data).value.1
    ensures Frames(data[..k]).None?
  {
    if k >= PRELUDE_LEN {
      assert data[..k][..4] == data[..4];
      U32Prefix(data[..k], data);
    }
  }

  /** `k` is where some number of leading frames of `data` end. */
  ghost predicate AtFrameEnd(data: Bytes, k: nat)
    decreases |data|
  {
    k == 0 || (FirstFrame(data).Some? && k >= FirstFrame(data).value.1
               && AtFrameEnd(data[FirstFrame(data).value.1..], k - FirstFrame(data).value.1))
  }

  /** Cut anywhere, accepted input stays accepted exactly when the cut is between frames. */
  lemma {:induction false} TruncationExact(data: Bytes, k: nat)
    requires Frames(data).Some? && k <= |data|
    ensures Frames(data[..k]).Some? <==> AtFrameEnd(data, k)
    decreases |data|
  {
    hide FirstFrame;
    if 0 < k {
      var n := FirstFrame(data).value.1;
      if k < n {
        CutFrameRejected(data, k);
      } else {
        assert data[..n] + data[n..k] == data[..k] && data[n..][..k - n] == data[n..k];
        TruncationExact(data[n..], k - n);
        FirstFrameIsOwn(data, data[n..k]);
        assert data[..k][n..] == data[n..k];
      }
    }
  }
}
