/** The event-stream decoder: two loops that walk byte offsets. */
module EventStream {
  import opened Wrappers
  import opened EventStreamSpec

  method BedrockEventStreamFrames(data: Bytes) returns (frames: seq<Frame>, ok: bool)
    ensures ok == Decode(data).Some?
    ensures frames == if ok then Decode(data).value else []
  {
    hide Frames, Headers;
    frames := [];
    var offset := 0;
    JoinNothing(Frames(data));
    while offset < |data|
      invariant offset <= |data|
      invariant Frames(data) == Join(Some(frames), Frames(data[offset..]))
      invariant (offset == 0) == (frames == [])
    {
      var remaining := data[offset..];
      FramesEnd(remaining);
      if |remaining| < PRELUDE_LEN { return [], false; }
      var totalLen, headersLen := U32(remaining[0..4]), U32(remaining[4..8]);
      LengthFields(remaining);
      if totalLen < OVERHEAD || totalLen > MAX_FRAME || headersLen > totalLen - OVERHEAD || totalLen > |remaining| {
        return [], false;
      }
      var headersEnd := PRELUDE_LEN + headersLen;
      var eventType, headersOk := BedrockEventStreamEventType(remaining[PRELUDE_LEN..headersEnd]);
      if !headersOk { return [], false; }
      var frame := Frame(eventType, remaining[headersEnd..totalLen - 4]);
      FrameAt(data, offset, frame, totalLen, frames);
      frames := frames + [frame];
      offset := offset + totalLen;
    }
    FramesEnd(data[offset..]);
    ok := frames != [];
  }

  /** Where the frames of `data` stop. */
  lemma FramesEnd(data: Bytes)
    ensures data == [] ==> Frames(data) == Some([])
    ensures data != [] && FirstFrame(data).None? ==> Frames(data) == None
  {}

  method BedrockEventStreamEventType(data: Bytes) returns (eventType: Bytes, ok: bool)
    ensures Headers(data, []) == if ok then Some(eventType) else None
  {
    hide Headers;
    eventType := [];
    var offset := 0;
    while offset < |data|
      invariant offset <= |data|
      invariant Headers(data, []) == Headers(data[offset..], eventType)
    {
      var nameLen := data[offset];
      var at := offset + 1;
      if at + nameLen >= |data| { HeaderCutOff(data, offset, eventType); return [], false; }
      var name := data[at..at + nameLen];
      at := at + nameLen;
      var valueType := data[at];
      at := at + 1;
      var known, valueOffset, valueLen := ValueLayout(data, at, valueType);
      if !known || at + valueOffset + valueLen > |data| {
        HeaderCutOff(data, offset, eventType);
        return [], false;
      }
      var value := data[at + valueOffset..at + valueOffset + valueLen];
      HeaderAt(data, offset, Header(name, valueType, value), valueOffset, valueOffset + valueLen, eventType);
      if name == EVENT_TYPE && valueType == 7 { eventType := value; }
      offset := at + valueOffset + valueLen;
    }
    assert Headers(data[offset..], eventType) == Some(eventType) by { NoMoreHeaders(eventType); assert data[offset..] == []; }
    ok := true;
  }

  /** The switch over value types. */
  method ValueLayout(data: Bytes, at: nat, valueType: Byte) returns (known: bool, valueOffset: nat, valueLen: nat)
    requires at <= |data|
    ensures ValueSpan(valueType, data[at..]) == if known then Some((valueOffset, valueLen)) else None
  {
    known, valueOffset, valueLen := true, 0, 0;
    if valueType <= 1 {
    } else if valueType == 2 {
      valueLen := 1;
    } else if valueType == 3 {
      valueLen := 2;
    } else if valueType == 4 {
      valueLen := 4;
    } else if valueType == 5 || valueType == 8 {
      valueLen := 8;
    } else if valueType == 9 {
      valueLen := 16;
    } else if valueType == 6 || valueType == 7 {
      if at + 2 > |data| { return false, 0, 0; }
      valueLen := U16(data[at..at + 2]);
      valueOffset := 2;
    } else {
      known := false;
    }
  }

  lemma LengthFields(data: Bytes)
    requires |data| >= PRELUDE_LEN
    ensures U32(data[0..4]) == U32(data) && U32(data[4..8]) == U32(data[4..])
  {
    assert data[0..4][..4] == data[..4];
    assert data[4..8][..4] == data[4..][..4];
    U32Prefix(data[0..4], data);
    U32Prefix(data[4..8], data[4..]);
  }

  /** Taking the accepted frame at `offset` off the rest. */
  lemma FrameAt(data: Bytes, offset: nat, frame: Frame, total: nat, frames: seq<Frame>)
    requires offset <= |data| && FirstFrame(data[offset..]) == Some((frame, total))
    requires Frames(data) == Join(Some(frames), Frames(data[offset..]))
    ensures Frames(data) == Join(Some(frames + [frame]), Frames(data[offset + total..]))
  {
    FramesStep(data[offset..], frame, total);
    TailTail(data, offset, total);
    JoinAssociative(Some(frames), Some([frame]), Frames(data[offset + total..]));
  }

  lemma NoMoreHeaders(last: Bytes)
    ensures Headers([], last) == Some(last)
  {}

  lemma JoinNothing(x: Option<seq<Frame>>)
    ensures Join(Some([]), x) == x
  {
    if x.Some? { assert [] + x.value == x.value; }
  }

  lemma TailSlice(data: Bytes, offset: nat, x: nat, y: nat)
    requires offset + x <= offset + y <= |data|
    ensures data[offset..][x..y] == data[offset + x..offset + y]
  {}

  lemma TailTail(data: Bytes, offset: nat, x: nat)
    requires offset + x <= |data|
    ensures data[offset..][x..] == data[offset + x..]
  {}

  lemma HeadersStep(data: Bytes, h: Header, n: nat, last: Bytes)
    requires data != [] && FirstHeader(data) == Some((h, n))
    ensures Headers(data, last) == Headers(data[n..], Latest(h, last))
  {}

  /** The first header of `rest`, once its name length, type and value layout are known. */
  lemma HeaderHere(rest: Bytes, h: Header, skip: nat, end: nat)
    requires 1 + |h.name| < |rest| && rest[0] == |h.name| && rest[1 + |h.name|] == h.kind && rest[1..1 + |h.name|] == h.name
    requires skip <= end && ValueSpan(h.kind, rest[2 + |h.name|..]) == Some((skip, end - skip))
    requires 2 + |h.name| + end <= |rest| && h.value == rest[2 + |h.name|..][skip..end]
    ensures FirstHeader(rest) == Some((h, 2 + |h.name| + end))
  {}

  /** The header at `offset` of `data`, lying wholly in it. */
  lemma HeaderAt(data: Bytes, offset: nat, h: Header, skip: nat, end: nat, last: Bytes)
    requires offset + 2 + |h.name| + end <= |data| && skip <= end
    requires data[offset] == |h.name| && data[offset + 1 + |h.name|] == h.kind
    requires data[offset + 1..offset + 1 + |h.name|] == h.name
    requires ValueSpan(h.kind, data[offset + 2 + |h.name|..]) == Some((skip, end - skip))
    requires data[offset + 2 + |h.name| + skip..offset + 2 + |h.name| + end] == h.value
    ensures Headers(data[offset..], last) == Headers(data[offset + 2 + |h.name| + end..], Latest(h, last))
  {
    var rest, n := data[offset..], |h.name|;
    TailTail(data, offset, 2 + n);
    TailSlice(data, offset, 1, 1 + n);
    TailSlice(data, offset + 2 + n, skip, end);
    HeaderHere(rest, h, skip, end);
    HeadersStep(rest, h, 2 + n + end, last);
    TailTail(data, offset, 2 + n + end);
  }

  /** A header at `offset` whose name or value would reach past the end. */
  lemma HeaderCutOff(data: Bytes, offset: nat, last: Bytes)
    requires offset < |data|
    requires var at := offset + 2 + data[offset];
             at > |data| || ValueSpan(data[at - 1], data[at..]).None?
             || at + ValueSpan(data[at - 1], data[at..]).value.0 + ValueSpan(data[at - 1], data[at..]).value.1 > |data|
    ensures Headers(data[offset..], last) == None
  {
    if offset + 2 + data[offset] <= |data| { TailTail(data, offset, 2 + data[offset] as int); }
  }
}
