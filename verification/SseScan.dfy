/** Reading a cost out of server-sent events, whole or chunk by chunk. */
module SseScanSpec {
  import opened Sequences
  import opened Text
  import opened Wrappers

  const DATA_PREFIX := "data: "
  const EVENT_PREFIX := "event:"
  const DONE := "[DONE]"

  /** The payload of one line, if it carries one. */
  function Payload(raw: string): Option<string> {
    var line := TrimRight(raw, '\r');
    var value :=
      if HasPrefix(line, DATA_PREFIX) then line[|DATA_PREFIX|..]
      else if HasPrefix(line, EVENT_PREFIX) then TrimSpace(line[|EVENT_PREFIX|..])
      else "";
    if value == DONE || value == "" then None else Some(value)
  }

  /** The cost on one line; `lookup` is the JSONPath extraction followed by number parsing. */
  function LineCost(raw: string, lookup: string -> Option<real>): Option<real> {
    var p := Payload(raw);
    if p.None? then None else lookup(p.value)
  }

  /** The later of two readings wins. */
  function Later(a: Option<real>, b: Option<real>): Option<real> {
    if b.Some? then b else a
  }

  function LastCost(lines: seq<string>, lookup: string -> Option<real>): Option<real> {
    if lines == [] then None else Later(LineCost(lines[0], lookup), LastCost(lines[1..], lookup))
  }

  /** The reading of a buffered body. */
  function WholeCost(body: string, lookup: string -> Option<real>): Option<real> {
    LastCost(Split(body, '\n'), lookup)
  }

  datatype Scan = Scan(cost: Option<real>, remaining: string)

  /** The reading of the complete lines of `buf`, and the incomplete line left over. */
  function ScanLines(buf: string, lookup: string -> Option<real>): Scan
    decreases |buf|
  {
    var i := IndexOf(buf, '\n');
    if i == |buf| then Scan(None, buf)
    else
      var rest := ScanLines(buf[i + 1..], lookup);
      Scan(Later(LineCost(buf[..i], lookup), rest.cost), rest.remaining)
  }

  /** The caller's protocol: the left-over is put before the next chunk and the latest match is kept. */
  function Feed(s: Scan, chunk: string, lookup: string -> Option<real>): Scan {
    var t := ScanLines(s.remaining + chunk, lookup);
    Scan(Later(s.cost, t.cost), t.remaining)
  }

  function FeedAll(s: Scan, chunks: seq<string>, lookup: string -> Option<real>): Scan
    decreases |chunks|
  {
    if chunks == [] then s else FeedAll(Feed(s, chunks[0], lookup), chunks[1..], lookup)
  }

  function Concat(chunks: seq<string>): string {
    if chunks == [] then "" else chunks[0] + Concat(chunks[1..])
  }

  lemma ScanStep(buf: string, lookup: string -> Option<real>)
    ensures var i := IndexOf(buf, '\n');
            ScanLines(buf, lookup) ==
              if i == |buf| then Scan(None, buf)
              else
                var t := ScanLines(buf[i + 1..], lookup);
                Scan(Later(LineCost(buf[..i], lookup), t.cost), t.remaining)
  {
    hide LineCost, IndexOf;
  }

  /** Scanning in two goes is scanning at once. */
  lemma {:induction false} ScanAppend(a: string, b: string, lookup: string -> Option<real>)
    ensures ScanLines(a + b, lookup) == Feed(ScanLines(a, lookup), b, lookup)
    decreases |a|
  {
    hide ScanLines, LineCost, IndexOf;
    var i := IndexOf(a, '\n');
    ScanStep(a, lookup);
    if i < |a| {
      var tail := a[i + 1..];
      assert (a + b)[..i] == a[..i] && (a + b)[i + 1..] == tail + b;
      IndexOfUnique(a + b, '\n', i);
      ScanStep(a + b, lookup);
      ScanAppend(tail, b, lookup);
      var t := ScanLines(tail, lookup);
      LaterAssociative(LineCost(a[..i], lookup), t.cost, ScanLines(t.remaining + b, lookup).cost);
    }
  }

  /** For every cutting of a body into chunks, the folded reading is that of the complete lines of the whole body,
      and what is left over is its incomplete last line. */
  lemma {:induction false} CuttingIsInvisible(s: string, chunks: seq<string>, lookup: string -> Option<real>)
    ensures FeedAll(ScanLines(s, lookup), chunks, lookup) == ScanLines(s + Concat(chunks), lookup)
    decreases |chunks|
  {
    hide ScanLines;
    if chunks == [] {
      assert s + "" == s;
    } else {
      ScanAppend(s, chunks[0], lookup);
      CuttingIsInvisible(s + chunks[0], chunks[1..], lookup);
      assert s + chunks[0] + Concat(chunks[1..]) == s + Concat(chunks);
    }
  }

  lemma OneLineMore(line: string, tail: string, lines: string, r: string)
    requires line != "" && line[|line| - 1] == '\n' && EndsIn(tail, lines, r)
    ensures EndsIn(line + tail, line + lines, r)
  {
    Associates(line, lines, r);
  }

  lemma NoLine(body: string)
    ensures EndsIn(body, "", body)
  {}

  /** The left-over is the suffix after the last newline. */
  lemma {:induction false} LeftOverIsLastLine(body: string, lookup: string -> Option<real>)
    ensures '\n' !in ScanLines(body, lookup).remaining
    ensures exists lines :: EndsIn(body, lines, ScanLines(body, lookup).remaining)
    decreases |body|
  {
    hide LineCost, Later, EndsIn;
    var i := IndexOf(body, '\n');
    if i < |body| {
      var tail, r := body[i + 1..], ScanLines(body, lookup).remaining;
      LeftOverIsLastLine(tail, lookup);
      var lines :| EndsIn(tail, lines, r);
      assert body == body[..i + 1] + tail;
      OneLineMore(body[..i + 1], tail, lines, r);
    } else {
      assert body[..i] == body;
      NoLine(body);
    }
  }

  /** `body` is complete lines followed by `r`. */
  ghost predicate EndsIn(body: string, lines: string, r: string) {
    body == lines + r && (lines == "" || lines[|lines| - 1] == '\n')
  }

  lemma LaterAssociative(a: Option<real>, b: Option<real>, c: Option<real>)
    ensures Later(Later(a, b), c) == Later(a, Later(b, c))
  {}

  /** The buffered reading also counts the incomplete last line. */
  lemma {:induction false} WholeIsScanAndLastLine(body: string, lookup: string -> Option<real>)
    ensures var s := ScanLines(body, lookup);
            WholeCost(body, lookup) == Later(s.cost, LineCost(s.remaining, lookup))
    decreases |body|
  {
    hide LineCost;
    var i := IndexOf(body, '\n');
    if i < |body| {
      var s := ScanLines(body[i + 1..], lookup);
      WholeIsScanAndLastLine(body[i + 1..], lookup);
      LaterAssociative(LineCost(body[..i], lookup), s.cost, LineCost(s.remaining, lookup));
      var tail := Split(body[i + 1..], '\n');
      assert ([body[..i]] + tail)[1..] == tail;
    } else {
      assert LastCost([body][1..], lookup) == None;
    }
  }

  lemma NothingToScan(lookup: string -> Option<real>)
    ensures ScanLines("", lookup) == Scan(None, "") && LineCost("", lookup) == None
  {
    assert Payload("") == None;
  }

  /** Chunked and buffered readings agree precisely when the unterminated last line adds nothing new; in
      particular on every body that ends in a newline. */
  lemma ChunkedIsBuffered(chunks: seq<string>, lookup: string -> Option<real>)
    ensures var (s, body) := (FeedAll(Scan(None, ""), chunks, lookup), Concat(chunks));
            && ((s.cost == WholeCost(body, lookup)) <==> LineCost(s.remaining, lookup) in {None, s.cost})
            && (body == "" || body[|body| - 1] == '\n' ==> s == Scan(WholeCost(body, lookup), ""))
  {
    hide ScanLines, FeedAll, WholeCost, LineCost, Concat;
    NothingToScan(lookup);
    CuttingIsInvisible("", chunks, lookup);
    assert "" + Concat(chunks) == Concat(chunks);
    WholeIsScanAndLastLine(Concat(chunks), lookup);
    LeftOverIsLastLine(Concat(chunks), lookup);
    var body, r := Concat(chunks), ScanLines(Concat(chunks), lookup).remaining;
    var lines :| EndsIn(body, lines, r);
    assert r != "" ==> body[|body| - 1] == r[|r| - 1] && r[|r| - 1] in r;
  }

  // ---------------------------------------------------------------- which cost is the one read

  /** What a line carries: after "data: " its text as it stands, after "event:" its trimmed text, carriage returns at
      the end aside; nothing on any other line, and neither an empty text nor the end marker. */
  lemma PayloadInWords(text: string)
    requires text == "" || text[|text| - 1] != '\r'
    ensures Payload("data: " + text) == if text == "" || text == "[DONE]" then None else Some(text)
    ensures Payload("data: " + text + "\r") == Payload("data: " + text)
    ensures var trimmed := TrimSpace(text);
            Payload("event:" + text) == if trimmed == "" || trimmed == "[DONE]" then None else Some(trimmed)
  {
    hide Payload, TrimSpace;
    DataPayload("data: " + text, text);
    DataPayload("data: " + text + "\r", text);
    EventPayload(text);
  }

  lemma DataPayload(raw: string, text: string)
    requires text == "" || text[|text| - 1] != '\r'
    requires raw == "data: " + text || raw == "data: " + text + "\r"
    ensures Payload(raw) == if text == "" || text == "[DONE]" then None else Some(text)
  {
    hide TrimSpace, TrimRight;
    var data := "data: " + text;
    TrimmedOnce(data, raw);
    assert data[..6] == DATA_PREFIX && data[6..] == text;
  }

  lemma EventPayload(text: string)
    requires text == "" || text[|text| - 1] != '\r'
    ensures var trimmed := TrimSpace(text);
            Payload("event:" + text) == if trimmed == "" || trimmed == "[DONE]" then None else Some(trimmed)
  {
    hide TrimSpace, TrimRight, HasPrefix;
    var event := "event:" + text;
    TrimmedOnce(event, event);
    EventPrefix(text);
  }

  lemma EventPrefix(text: string)
    ensures var event := "event:" + text;
            HasPrefix(event, EVENT_PREFIX) && !HasPrefix(event, DATA_PREFIX) && event[|EVENT_PREFIX|..] == text
  {
    var event := "event:" + text;
    assert event[..6] == EVENT_PREFIX && event[6..] == text;
    assert event[0] == 'e' && DATA_PREFIX[0] == 'd';
  }

  lemma TrimmedOnce(line: string, raw: string)
    requires line != "" && line[|line| - 1] != '\r' && (raw == line || raw == line + "\r")
    ensures TrimRight(raw, '\r') == line
  {
    assert (line + "\r")[..|line|] == line;
  }

  lemma OtherLinesCarryNothing(raw: string)
    requires !HasPrefix(TrimRight(raw, '\r'), "data: ") && !HasPrefix(TrimRight(raw, '\r'), "event:")
    ensures Payload(raw) == None
  {}

  /** The reading is the cost on the last line that has one. */
  lemma {:induction false} LastCostWins(lines: seq<string>, lookup: string -> Option<real>)
    ensures forall i :: 0 <= i < |lines| && LineCost(lines[i], lookup).Some?
                        && (forall j :: i < j < |lines| ==> LineCost(lines[j], lookup).None?) ==>
              LastCost(lines, lookup) == LineCost(lines[i], lookup)
    ensures (forall l :: l in lines ==> LineCost(l, lookup).None?) ==> LastCost(lines, lookup) == None
  {
    hide LineCost;
    if lines != [] {
      var rest := lines[1..];
      LastCostWins(rest, lookup);
      assert lines[0] in lines && forall l :: l in rest ==> l in lines;
      forall i | 0 <= i < |lines| && LineCost(lines[i], lookup).Some?
                 && (forall j :: i < j < |lines| ==> LineCost(lines[j], lookup).None?)
        ensures LastCost(lines, lookup) == LineCost(lines[i], lookup)
      {
        assert forall j :: 0 <= j < |rest| ==> rest[j] == lines[j + 1];
        if i == 0 {
          assert forall l :: l in rest ==> LineCost(l, lookup).None?;
        } else {
          assert LineCost(rest[i - 1], lookup).Some?;
        }
      }
    }
  }

  /** A payload's cost is what is looked up in it. */
  lemma CostIsLookedUp(raw: string, lookup: string -> Option<real>)
    ensures LineCost(raw, lookup) == if Payload(raw).Some? then lookup(Payload(raw).value) else None
  {}
}

/** The two scanning loops. */
module SseScan {
  import opened Wrappers
  import opened Text
  import opened SseScanSpec

  method ParseSSEChunk(buf: string, lookup: string -> Option<real>)
    returns (lastCost: real, found: bool, remaining: string)
    ensures ScanLines(buf, lookup) == Scan(if found then Some(lastCost) else None, remaining)
  {
    var s := buf;
    lastCost, found := 0.0, false;
    while true
      invariant var t := ScanLines(s, lookup);
                ScanLines(buf, lookup) == Scan(Later(if found then Some(lastCost) else None, t.cost), t.remaining)
      decreases |s|
    {
      var idx := IndexOf(s, '\n');
      if idx == |s| { return lastCost, found, s; }
      var raw := s[..idx];
      ghost var old_s, before := s, if found then Some(lastCost) else None;
      s := s[idx + 1..];
      LaterAssociative(before, LineCost(raw, lookup), ScanLines(s, lookup).cost);
      var value := LineValue(raw);
      if value == DONE || value == "" { continue; }
      var cost := lookup(value);
      if cost.None? { continue; }
      lastCost, found := cost.value, true;
    }
  }

  /** The prefix switch on one line. */
  method LineValue(raw: string) returns (value: string)
    ensures Payload(raw) == if value == DONE || value == "" then None else Some(value)
  {
    var line := TrimRight(raw, '\r');
    if HasPrefix(line, DATA_PREFIX) {
      value := line[|DATA_PREFIX|..];
    } else if HasPrefix(line, EVENT_PREFIX) {
      value := TrimSpace(line[|EVENT_PREFIX|..]);
    } else {
      value := "";
    }
  }

  method ExtractFromSSEBodyBytes(body: string, lookup: string -> Option<real>) returns (lastVal: real, found: bool)
    ensures WholeCost(body, lookup) == if found then Some(lastVal) else None
  {
    lastVal, found := 0.0, false;
    var lines := Split(body, '\n');
    for i := 0 to |lines|
      invariant LastCost(lines, lookup) == Later(if found then Some(lastVal) else None, LastCost(lines[i..], lookup))
    {
      ghost var before := if found then Some(lastVal) else None;
      assert lines[i..][1..] == lines[i + 1..];
      LaterAssociative(before, LineCost(lines[i], lookup), LastCost(lines[i + 1..], lookup));
      var value := LineValue(lines[i]);
      if value == DONE || value == "" { continue; }
      var cost := lookup(value);
      if cost.None? { continue; }
      lastVal, found := cost.value, true;
    }
  }
}
