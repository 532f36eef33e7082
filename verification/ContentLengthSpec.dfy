/** A length limit on streamed content: what each chunk adds to the count and when the stream is cut off. */
module ContentLengthSpec {
  import opened Sequences
  import opened Text
  import opened Wrappers
  import opened SseScanSpec

  datatype Params = Params(enabled: bool, min: int, max: int, invert: bool)

  /** The configured range, checked unless the direction is switched off. */
  datatype RangeError = MinMissing | MaxMissing | MinNegative | MaxNotPositive | MinAboveMax

  datatype Parsed = Accepted(min: int, max: int) | Rejected(error: RangeError)

  predicate InRange(p: Params, n: int) { p.min <= n && (p.max == 0 || n <= p.max) }

  predicate Passes(p: Params, n: int) { if p.invert then !InRange(p, n) else InRange(p, n) }

  /** A range the policy accepts for a direction that is not switched off. */
  predicate ValidRange(p: Params) { 0 <= p.min <= p.max && 0 < p.max }

  // ---------------------------------------------------------------- content

  /** The content on one line; `content` is the JSONPath extraction with its fallbacks. Texts are byte strings. */
  function LineContent(raw: string, content: string -> string): string {
    var p := Payload(raw);
    if p.Some? then content(p.value) else ""
  }

  function LinesContent(lines: seq<string>, content: string -> string): string {
    if lines == [] then "" else LineContent(lines[0], content) + LinesContent(lines[1..], content)
  }

  function DeltaContent(s: string, content: string -> string): string {
    LinesContent(Split(s, '\n'), content)
  }

  predicate IsSSELine(line: string) { HasPrefix(line, DATA_PREFIX) || HasPrefix(line, EVENT_PREFIX) }

  /** Only the first five lines are looked at. */
  predicate IsSSEChunk(s: string) {
    exists i :: 0 <= i < 5 && i < |Split(s, '\n')| && IsSSELine(Split(s, '\n')[i])
  }

  // ---------------------------------------------------------------- one stream

  datatype Chunk = Chunk(text: string, endOfStream: bool)

  datatype Action = Forward | Terminate

  datatype State = State(running: int, accJson: string)

  /** What a chunk does; `rejects` is the validation of a complete body that is not an event stream. */
  function Step(p: Params, s: State, c: Chunk, content: string -> string, rejects: string -> bool): (State, Action) {
    if !p.enabled || c.text == "" then (s, Forward)
    else if !IsSSEChunk(c.text) then
      var full := s.accJson + c.text;
      (s.(accJson := full), if c.endOfStream && rejects(full) then Terminate else Forward)
    else
      var running := s.running + |DeltaContent(c.text, content)|;
      (s.(running := running),
       if p.max > 0 && !p.invert && running > p.max then Terminate
       else if c.endOfStream && !Passes(p, running) then Terminate
       else Forward)
  }

  /** How many chunks are forwarded before the stream is cut off, if it is. */
  function Forwarded(p: Params, s: State, chunks: seq<Chunk>, content: string -> string, rejects: string -> bool): nat
    decreases |chunks|
  {
    if chunks == [] then 0
    else
      var (t, action) := Step(p, s, chunks[0], content, rejects);
      if action.Terminate? then 0 else 1 + Forwarded(p, t, chunks[1..], content, rejects)
  }

  predicate Terminated(p: Params, s: State, chunks: seq<Chunk>, content: string -> string, rejects: string -> bool) {
    Forwarded(p, s, chunks, content, rejects) < |chunks|
  }

  /** The content of the chunks recognised as event-stream text, which is what is counted. */
  function Counted(chunks: seq<Chunk>, content: string -> string): nat {
    if chunks == [] then 0
    else (if IsSSEChunk(chunks[0].text) then |DeltaContent(chunks[0].text, content)| else 0) + Counted(chunks[1..], content)
  }

  /** The content of the other chunks, which is forwarded without being counted. */
  function Uncounted(chunks: seq<Chunk>, content: string -> string): nat {
    if chunks == [] then 0
    else (if IsSSEChunk(chunks[0].text) then 0 else |DeltaContent(chunks[0].text, content)|) + Uncounted(chunks[1..], content)
  }

  function Total(chunks: seq<Chunk>, content: string -> string): nat {
    if chunks == [] then 0 else |DeltaContent(chunks[0].text, content)| + Total(chunks[1..], content)
  }

  /** The chunks not recognised, taken together as one plain body. */
  function Plain(chunks: seq<Chunk>): string {
    if chunks == [] then "" else (if IsSSEChunk(chunks[0].text) then "" else chunks[0].text) + Plain(chunks[1..])
  }

  /** The last chunk, and no other, ends the stream. */
  ghost predicate EndsOnce(chunks: seq<Chunk>) {
    chunks != [] && forall i :: 0 <= i < |chunks| ==> (chunks[i].endOfStream <==> i == |chunks| - 1)
  }

  predicate MaxExceeded(p: Params, n: int) { p.max > 0 && !p.invert && n > p.max }

  lemma EmptyHasNoContent(content: string -> string)
    ensures DeltaContent("", content) == "" && !IsSSEChunk("")
  {
    assert Payload("") == None;
  }

  lemma {:induction false} TotalIsCountedAndUncounted(chunks: seq<Chunk>, content: string -> string)
    ensures Total(chunks, content) == Counted(chunks, content) + Uncounted(chunks, content)
  {
    hide IsSSEChunk, DeltaContent;
    if chunks != [] { TotalIsCountedAndUncounted(chunks[1..], content); }
  }

  lemma TailEndsOnce(chunks: seq<Chunk>)
    requires EndsOnce(chunks) && |chunks| > 1
    ensures EndsOnce(chunks[1..])
  {
    var tail := chunks[1..];
    assert forall i :: 0 <= i < |tail| ==> tail[i] == chunks[i + 1];
  }

  /** What cuts off a stream whose counted content is `n` and whose plain body is `plain`: a maximum exceeded anywhere,
      or the test its last chunk calls for; an empty last chunk calls for none. */
  predicate CutOff(p: Params, n: int, plain: string, last: string, rejects: string -> bool) {
    || MaxExceeded(p, n)
    || (last != "" && if IsSSEChunk(last) then !Passes(p, n) else rejects(plain))
  }

  /** For any chunks of which only the last ends the stream, whatever they hold: exactly when it is cut off. */
  lemma {:induction false} TerminatedIff(p: Params, s: State, chunks: seq<Chunk>, content: string -> string,
                                         rejects: string -> bool)
    requires EndsOnce(chunks) && !MaxExceeded(p, s.running)
    ensures Terminated(p, s, chunks, content, rejects)
            <==> p.enabled && CutOff(p, s.running + Counted(chunks, content), s.accJson + Plain(chunks),
                                     chunks[|chunks| - 1].text, rejects)
    decreases |chunks|
  {
    hide IsSSEChunk, DeltaContent;
    var c, tail := chunks[0], chunks[1..];
    EmptyHasNoContent(content);
    var (t, action) := Step(p, s, c, content, rejects);
    if |chunks| > 1 {
      TailEndsOnce(chunks);
      assert tail[|tail| - 1] == chunks[|chunks| - 1];
      Associates(s.accJson, if IsSSEChunk(c.text) then "" else c.text, Plain(tail));
      assert p.enabled ==> s.accJson + Plain(chunks) == t.accJson + Plain(tail);
      assert p.enabled ==> s.running + Counted(chunks, content) == t.running + Counted(tail, content);
      if action == Forward {
        TerminatedIff(p, t, tail, content, rejects);
      }
    } else {
      assert tail == [] && Plain(chunks) == (if IsSSEChunk(c.text) then "" else c.text) + "";
      assert Plain(chunks) == if IsSSEChunk(c.text) then "" else c.text;
    }
  }

  /** In normal mode the counted content that is forwarded never exceeds the maximum, on any run, ended or not. */
  lemma {:induction false} ForwardedWithinMax(p: Params, s: State, chunks: seq<Chunk>, content: string -> string,
                                              rejects: string -> bool)
    requires p.enabled && p.max > 0 && !p.invert && s.running <= p.max
    ensures Forwarded(p, s, chunks, content, rejects) <= |chunks|
    ensures s.running + Counted(chunks[..Forwarded(p, s, chunks, content, rejects)], content) <= p.max
    decreases |chunks|
  {
    hide IsSSEChunk, DeltaContent;
    if chunks != [] {
      var c := chunks[0];
      EmptyHasNoContent(content);
      var (t, action) := Step(p, s, c, content, rejects);
      if action == Forward {
        ForwardedWithinMax(p, t, chunks[1..], content, rejects);
        var n := Forwarded(p, t, chunks[1..], content, rejects);
        assert chunks[..n + 1][1..] == chunks[1..][..n] && chunks[..n + 1][0] == c;
      }
    }
  }

  // ---------------------------------------------------------------- cutting

  predicate LineAligned(s: string) { s == "" || s[|s| - 1] == '\n' }

  lemma FirstLineContent(a: string, i: nat, content: string -> string)
    requires i < |a| && i == IndexOf(a, '\n')
    ensures DeltaContent(a, content) == LineContent(a[..i], content) + DeltaContent(a[i + 1..], content)
  {
    hide LineContent, IndexOf;
    var tail := Split(a[i + 1..], '\n');
    assert ([a[..i]] + tail)[1..] == tail;
  }

  /** Content splits where a line ends. */
  lemma {:induction false} ContentOfAligned(a: string, b: string, content: string -> string)
    requires LineAligned(a)
    ensures DeltaContent(a + b, content) == DeltaContent(a, content) + DeltaContent(b, content)
    decreases |a|
  {
    hide LineContent, DeltaContent;
    if a == "" {
      EmptyHasNoContent(content);
      assert a + b == b;
    } else {
      var i := IndexOf(a, '\n');
      assert a[..|a|] == a && a[|a| - 1] in a;
      var rest := a[i + 1..];
      assert (a + b)[..i] == a[..i] && (a + b)[i + 1..] == rest + b;
      IndexOfUnique(a + b, '\n', i);
      ContentOfAligned(rest, b, content);
      FirstLineContent(a, i, content);
      FirstLineContent(a + b, i, content);
      Associates(LineContent(a[..i], content), DeltaContent(rest, content), DeltaContent(b, content));
    }
  }

  ghost function Texts(chunks: seq<Chunk>): string {
    if chunks == [] then "" else chunks[0].text + Texts(chunks[1..])
  }

  /** The count depends on the body alone when chunks are cut at line ends. */
  lemma {:induction false} TotalIsOfTheBody(chunks: seq<Chunk>, content: string -> string)
    requires forall c :: c in chunks ==> LineAligned(c.text)
    ensures Total(chunks, content) == |DeltaContent(Texts(chunks), content)|
  {
    hide DeltaContent;
    if chunks == [] {
      EmptyHasNoContent(content);
    } else {
      assert chunks[0] in chunks;
      TotalIsOfTheBody(chunks[1..], content);
      ContentOfAligned(chunks[0].text, Texts(chunks[1..]), content);
    }
  }

  /** The promise for one cutting: whatever the range and the other test, the stream is cut off exactly when the
      content of its body fails the range. */
  ghost predicate JudgedAsABody(chunks: seq<Chunk>, content: string -> string) {
    forall p: Params, rejects: string -> bool :: p.enabled && ValidRange(p) ==>
      (Terminated(p, State(0, ""), chunks, content, rejects) <==> !Passes(p, |DeltaContent(Texts(chunks), content)|))
  }

  /** A line-aligned cutting keeps the promise exactly when its last chunk is recognised as event-stream text and no
      chunk that is not recognised carries content. */
  lemma JudgedAsABodyIff(chunks: seq<Chunk>, content: string -> string)
    requires EndsOnce(chunks) && forall c :: c in chunks ==> LineAligned(c.text)
    ensures JudgedAsABody(chunks, content)
            <==> IsSSEChunk(chunks[|chunks| - 1].text) && Uncounted(chunks, content) == 0
  {
    hide DeltaContent, IsSSEChunk, Counted, Uncounted, Total, Plain, Terminated, EndsOnce;
    assert chunks != [] by { EndsOnceIsSome(chunks); }
    var last, n, u := chunks[|chunks| - 1].text, Counted(chunks, content), Uncounted(chunks, content);
    TotalIsOfTheBody(chunks, content);
    TotalIsCountedAndUncounted(chunks, content);
    EmptyHasNoContent(content);
    forall p: Params, rejects: string -> bool | ValidRange(p)
      ensures Terminated(p, State(0, ""), chunks, content, rejects)
              <==> p.enabled && CutOff(p, n, Plain(chunks), last, rejects)
    {
      TerminatedIff(p, State(0, ""), chunks, content, rejects);
      assert "" + Plain(chunks) == Plain(chunks);
    }
    if !(IsSSEChunk(last) && u == 0) {
      // An empty last chunk escapes the minimum, another's content is not counted, and a plain one is judged apart.
      var p := if last == "" then Params(true, n + u + 1, n + u + 1, false)
               else if !IsSSEChunk(last) then Params(true, 0, n + u + 1, false)
               else Params(true, n + u, n + u, false);
      var rejects := (x: string) => true;
      assert Terminated(p, State(0, ""), chunks, content, rejects) != !Passes(p, n + u);
    }
  }

  lemma EndsOnceIsSome(chunks: seq<Chunk>)
    requires EndsOnce(chunks)
    ensures chunks != []
  {}

  /** A stream that ends in a recognised chunk, in both modes, on the configured bounds: cut off when its counted
      content lies outside the range, or, inverted, inside it. */
  lemma BothModes(p: Params, chunks: seq<Chunk>, content: string -> string, rejects: string -> bool)
    requires EndsOnce(chunks) && IsSSEChunk(chunks[|chunks| - 1].text) && p.enabled && ValidRange(p)
    ensures var n := Counted(chunks, content);
            && (!p.invert ==> (Terminated(p, State(0, ""), chunks, content, rejects) <==> n < p.min || p.max < n))
            && (p.invert ==> (Terminated(p, State(0, ""), chunks, content, rejects) <==> p.min <= n <= p.max))
  {
    hide IsSSEChunk, DeltaContent, Terminated, Counted;
    EmptyHasNoContent(content);
    TerminatedIff(p, State(0, ""), chunks, content, rejects);
  }

  /** A chunk is recognised by a line that opens with a data or an event field, among its first five. */
  lemma RecognisedByFirstFive(lines: seq<string>)
    requires lines != [] && forall l :: l in lines ==> '\n' !in l
    ensures IsSSEChunk(Join(lines, '\n')) <==>
              exists i :: 0 <= i < |lines| && i <= 4 && ("data: " <= lines[i] || "event:" <= lines[i])
  {
    hide Split, Join;
    JoinSplit(lines, '\n');
    assert forall l: string :: IsSSELine(l) <==> "data: " <= l || "event:" <= l;
  }

  /** A direction that is switched off cuts nothing off. */
  lemma SwitchedOff(p: Params, chunks: seq<Chunk>, content: string -> string, rejects: string -> bool)
    requires !p.enabled
    ensures !Terminated(p, State(0, ""), chunks, content, rejects)
  {
    OffIgnoresRange(p, State(0, ""), chunks, content, rejects);
  }

  lemma {:induction false} OffIgnoresRange(p: Params, s: State, chunks: seq<Chunk>, content: string -> string,
                                           rejects: string -> bool)
    requires !p.enabled
    ensures Forwarded(p, s, chunks, content, rejects) == |chunks|
    decreases |chunks|
  {
    if chunks != [] { OffIgnoresRange(p, s, chunks[1..], content, rejects); }
  }

  // ---------------------------------------------------------------- how it fails

  const EVENT := "data: ab"
  const LINE := EVENT + ['\n']
  const BLANK := ['\n']
  const RANGE := Params(true, 1, 200, false)

  function Same(x: string): string { x }

  lemma SplitLines()
    ensures Split(LINE, '\n') == [EVENT, ""] && Split(BLANK, '\n') == ["", ""]
    ensures Split(LINE + BLANK, '\n') == [EVENT, "", ""]
  {
    hide Split;
    SplitCons(EVENT, "", '\n');
    SplitCons(EVENT, BLANK, '\n');
    SplitCons("", "", '\n');
    SplitSingle("", '\n');
    assert LINE == EVENT + ['\n'] + "" && LINE + BLANK == EVENT + ['\n'] + BLANK && BLANK == "" + ['\n'] + "";
  }

  /** One event: with two bytes of content, alone and before a blank line; the blank line alone is not recognised. */
  lemma OneLine()
    ensures IsSSEChunk(LINE) && !IsSSEChunk(BLANK) && IsSSEChunk(LINE + BLANK)
    ensures DeltaContent(LINE, Same) == "ab" && DeltaContent(BLANK, Same) == "" && DeltaContent(LINE + BLANK, Same) == "ab"
  {
    hide Split, LinesContent, LineContent, IsSSELine;
    SplitLines();
    PayloadOfLine();
    assert IsSSELine(Split(LINE, '\n')[0]) && IsSSELine(Split(LINE + BLANK, '\n')[0]);
    assert forall i :: 0 <= i < 2 ==> !IsSSELine(Split(BLANK, '\n')[i]);
    ContentOfTwo(EVENT, "");
    ContentOfTwo("", "");
    ContentOfThree(EVENT, "", "");
  }

  lemma PayloadOfLine()
    ensures LineContent(EVENT, Same) == "ab" && LineContent("", Same) == ""
    ensures IsSSELine(EVENT) && !IsSSELine("")
  {
    var line := EVENT;
    assert line[|line| - 1] != '\r' && TrimRight(line, '\r') == line;
    assert line[..6] == DATA_PREFIX && line[6..] == "ab";
    assert Payload(line) == Some("ab") && Payload("") == None;
  }

  lemma ContentOfTwo(a: string, b: string)
    ensures LinesContent([a, b], Same) == LineContent(a, Same) + LineContent(b, Same)
  {
    hide LineContent;
    assert [a, b][1..] == [b] && LinesContent([b], Same) == LineContent(b, Same) + "";
    assert LinesContent([b][1..], Same) == "";
  }

  lemma ContentOfThree(a: string, b: string, c: string)
    ensures LinesContent([a, b, c], Same) == LineContent(a, Same) + (LineContent(b, Same) + LineContent(c, Same))
  {
    hide LineContent;
    assert [a, b, c][1..] == [b, c];
    ContentOfTwo(b, c);
  }

  /** One conforming event: let through whole, and cut off when its blank line comes as a chunk of its own, if a blank
      body is rejected. */
  lemma BlankLastChunkIsJudgedApart(rejects: string -> bool)
    requires rejects(BLANK)
    ensures !Terminated(RANGE, State(0, ""), [Chunk(LINE + BLANK, true)], Same, rejects)
    ensures Terminated(RANGE, State(0, ""), [Chunk(LINE, false), Chunk(BLANK, true)], Same, rejects)
    ensures Texts([Chunk(LINE, false), Chunk(BLANK, true)]) == LINE + BLANK
  {
    hide DeltaContent, IsSSEChunk, Terminated, CutOff;
    OneLine();
    OneChunk(RANGE, Chunk(LINE + BLANK, true), rejects);
    TwoChunks(RANGE, Chunk(LINE, false), Chunk(BLANK, true), rejects);
    assert "" + BLANK == BLANK;
    assert CutOff(RANGE, 2, BLANK, BLANK, rejects) && !CutOff(RANGE, 2, "", LINE + BLANK, rejects) by { Judged(rejects); }
  }

  lemma Judged(rejects: string -> bool)
    requires rejects(BLANK)
    ensures CutOff(RANGE, 2, BLANK, BLANK, rejects) && !CutOff(RANGE, 2, "", LINE + BLANK, rejects)
  {
    hide IsSSEChunk;
    OneLine();
  }

  /** A stream below the minimum is let through when its last chunk is empty, and cut off otherwise. */
  lemma EmptyLastChunkIsUntested(rejects: string -> bool)
    ensures var p, chunks := Params(true, 3, 200, false), [Chunk(LINE, false), Chunk("", true)];
            && !Passes(p, |DeltaContent(Texts(chunks), Same)|)
            && !Terminated(p, State(0, ""), chunks, Same, rejects)
            && Terminated(p, State(0, ""), [Chunk(LINE, true)], Same, rejects)
  {
    hide DeltaContent, IsSSEChunk, Terminated;
    OneLine();
    EmptyHasNoContent(Same);
    var p := Params(true, 3, 200, false);
    OneChunk(p, Chunk(LINE, true), rejects);
    TwoChunks(p, Chunk(LINE, false), Chunk("", true), rejects);
    assert LINE + "" == LINE;
  }

  lemma OneChunk(p: Params, c: Chunk, rejects: string -> bool)
    requires p.enabled && c.endOfStream && IsSSEChunk(c.text)
    ensures Terminated(p, State(0, ""), [c], Same, rejects)
            <==> CutOff(p, |DeltaContent(c.text, Same)|, "", c.text, rejects)
  {
    hide DeltaContent, IsSSEChunk, Terminated, CutOff;
    assert [c][1..] == [] && Plain([]) == "";
    assert Plain([c]) == "" && Counted([c], Same) == |DeltaContent(c.text, Same)|;
    TerminatedIff(p, State(0, ""), [c], Same, rejects);
  }

  lemma TwoChunks(p: Params, a: Chunk, b: Chunk, rejects: string -> bool)
    requires p.enabled && !a.endOfStream && b.endOfStream && IsSSEChunk(a.text) && !IsSSEChunk(b.text)
    ensures Texts([a, b]) == a.text + b.text
    ensures Terminated(p, State(0, ""), [a, b], Same, rejects)
            <==> CutOff(p, |DeltaContent(a.text, Same)|, b.text, b.text, rejects)
  {
    hide DeltaContent, IsSSEChunk, Terminated, CutOff;
    var chunks := [a, b];
    assert chunks[1..] == [b] && [b][1..] == [];
    assert b.text + "" == b.text && "" + b.text == b.text;
    assert Texts([b]) == b.text && Plain([b]) == b.text && Counted([b], Same) == 0;
    assert Plain(chunks) == b.text && Counted(chunks, Same) == |DeltaContent(a.text, Same)|;
    TerminatedIff(p, State(0, ""), chunks, Same, rejects);
  }

  const BLANKS := BLANK + (BLANK + (BLANK + (BLANK + BLANK)))

  /** Content after five other lines is forwarded without being counted, past any maximum it exceeds. */
  lemma LateContentIsUncounted(rejects: string -> bool)
    ensures var p, chunks := Params(true, 0, 1, false), [Chunk(BLANKS + LINE, false)];
            Forwarded(p, State(0, ""), chunks, Same, rejects) == 1 && Total(chunks, Same) == 2 > p.max
  {
    hide DeltaContent, IsSSEChunk;
    var c := Chunk(BLANKS + LINE, false);
    assert [c][1..] == [] && Total([], Same) == 0;
    assert Forwarded(Params(true, 0, 1, false), State(0, BLANKS + LINE), [], Same, rejects) == 0;
    LateLine();
    assert "" + c.text == c.text;
    assert Step(Params(true, 0, 1, false), State(0, ""), c, Same, rejects) == (State(0, c.text), Forward);
  }

  lemma LateLine()
    ensures !IsSSEChunk(BLANKS + LINE) && |DeltaContent(BLANKS + LINE, Same)| == 2
  {
    hide DeltaContent, IsSSEChunk;
    OneLine();
    var l1, l2, l3, l4 := BLANK + LINE, BLANK + (BLANK + LINE), BLANK + (BLANK + (BLANK + LINE)),
                          BLANK + (BLANK + (BLANK + (BLANK + LINE)));
    assert BLANKS + LINE == BLANK + l4;
    BlankFirst(LINE);
    BlankFirst(l1);
    BlankFirst(l2);
    BlankFirst(l3);
    BlankFirst(l4);
    FiveBlanks(BLANK + l4, Split(LINE, '\n'));
  }

  lemma FiveBlanks(s: string, lines: seq<string>)
    requires Split(s, '\n') == [""] + ([""] + ([""] + ([""] + ([""] + lines))))
    ensures !IsSSEChunk(s)
  {
    hide Split, IsSSELine;
    PayloadOfLine();
    assert forall i :: 0 <= i < 5 ==> Split(s, '\n')[i] == "";
  }

  lemma BlankFirst(rest: string)
    ensures Split(BLANK + rest, '\n') == [""] + Split(rest, '\n')
    ensures DeltaContent(BLANK + rest, Same) == DeltaContent(rest, Same)
  {
    hide LineContent, LinesContent, Split;
    SplitCons("", rest, '\n');
    assert "" + ['\n'] + rest == BLANK + rest;
    FirstBlank(Split(rest, '\n'));
  }

  lemma FirstBlank(lines: seq<string>)
    ensures LinesContent([""] + lines, Same) == LinesContent(lines, Same)
  {
    PayloadOfLine();
    hide LineContent;
    assert ([""] + lines)[1..] == lines;
    assert "" + LinesContent(lines, Same) == LinesContent(lines, Same);
  }
}
