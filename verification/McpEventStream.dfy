/** Parsing and building the server-sent events that carry MCP messages. */
module McpEventStreamSpec {
  import opened Sequences
  import opened Text

  datatype Event = Event(fields: seq<string>, data: string)

  const DATA := "data:"

  // ---------------------------------------------------------------- parsing

  /** The value of a `data:` line, less one leading space. */
  function DataValue(line: string): string
    requires HasPrefix(line, DATA)
  {
    var v := line[|DATA|..];
    if v != "" && v[0] == ' ' then v[1..] else v
  }

  function Flush(fields: seq<string>, dataLines: seq<string>): seq<Event> {
    if fields == [] && dataLines == [] then [] else [Event(fields, Join(dataLines, '\n'))]
  }

  function ParseLines(lines: seq<string>, fields: seq<string>, dataLines: seq<string>): seq<Event>
    decreases |lines|
  {
    if lines == [] then Flush(fields, dataLines)
    else
      var line := TrimSuffix(lines[0], '\r');
      if line == "" then Flush(fields, dataLines) + ParseLines(lines[1..], [], [])
      else if HasPrefix(line, DATA) then ParseLines(lines[1..], fields, dataLines + [DataValue(line)])
      else ParseLines(lines[1..], fields + [line], dataLines)
  }

  function Parse(body: string): seq<Event> {
    ParseLines(Split(body, '\n'), [], [])
  }

  // ---------------------------------------------------------------- building

  function DataLines(pieces: seq<string>): seq<string> {
    if pieces == [] then [] else ["data: " + pieces[0]] + DataLines(pieces[1..])
  }

  function EventLines(e: Event): seq<string> {
    e.fields + (if e.data != "" then DataLines(Split(e.data, '\n')) else []) + [""]
  }

  function Lines(es: seq<Event>): seq<string> {
    if es == [] then [] else EventLines(es[0]) + Lines(es[1..])
  }

  /** Every line followed by a newline. */
  function Terminated(lines: seq<string>): string {
    if lines == [] then "" else lines[0] + "\n" + Terminated(lines[1..])
  }

  function Build(es: seq<Event>): string {
    Terminated(Lines(es))
  }

  // ---------------------------------------------------------------- what survives

  predicate EndsInCR(s: string) {
    s != "" && s[|s| - 1] == '\r'
  }

  /** A field line that reads back as a field. */
  predicate FieldLike(f: string) {
    f != "" && '\n' !in f && !HasPrefix(f, DATA)
  }

  predicate FieldsLike(es: seq<Event>) {
    forall e :: e in es ==> forall f :: f in e.fields ==> FieldLike(f)
  }

  predicate NoCR(parts: seq<string>) {
    forall p :: p in parts ==> !EndsInCR(p)
  }

  /** No field and no line of data ends in a carriage return. */
  predicate NoTrailingCR(es: seq<Event>) {
    forall e :: e in es ==> NoCR(e.fields) && NoCR(Split(e.data, '\n'))
  }

  predicate IsEmpty(e: Event) {
    e.fields == [] && e.data == ""
  }

  function NonEmpty(es: seq<Event>): seq<Event> {
    if es == [] then [] else (if IsEmpty(es[0]) then [] else [es[0]]) + NonEmpty(es[1..])
  }

  lemma {:induction false} SplitTerminated(lines: seq<string>)
    requires forall l :: l in lines ==> '\n' !in l
    ensures Split(Terminated(lines), '\n') == lines + [""]
    decreases |lines|
  {
    hide Split;
    if lines == [] {
      SplitSingle("", '\n');
    } else {
      assert lines[0] in lines && forall l :: l in lines[1..] ==> l in lines;
      SplitTerminated(lines[1..]);
      SplitCons(lines[0], Terminated(lines[1..]), '\n');
      assert lines[0] + "\n" + Terminated(lines[1..]) == lines[0] + ['\n'] + Terminated(lines[1..]);
      assert [lines[0]] + (lines[1..] + [""]) == lines + [""];
    }
  }

  lemma {:induction false} ParseFields(fs: seq<string>, rest: seq<string>, fields: seq<string>, dataLines: seq<string>)
    requires NoCR(fs) && forall f :: f in fs ==> FieldLike(f)
    ensures ParseLines(fs + rest, fields, dataLines) == ParseLines(rest, fields + fs, dataLines)
    decreases |fs|
  {
    if fs == [] {
      assert [] + rest == rest && fields + [] == fields;
    } else {
      assert fs[0] in fs && forall f :: f in fs[1..] ==> f in fs;
      assert (fs + rest)[1..] == fs[1..] + rest;
      ParseFields(fs[1..], rest, fields + [fs[0]], dataLines);
      assert fields + [fs[0]] + fs[1..] == fields + fs;
    }
  }

  lemma DataLineValue(piece: string)
    requires !EndsInCR(piece)
    ensures var line := "data: " + piece;
            TrimSuffix(line, '\r') == line && HasPrefix(line, DATA) && DataValue(line) == piece
  {
    var line := "data: " + piece;
    assert line[|line| - 1] == if piece == "" then ' ' else piece[|piece| - 1];
    assert line[..5] == DATA;
    assert line[5..] == [' '] + piece;
  }

  lemma {:induction false} ParseData(pieces: seq<string>, rest: seq<string>, fields: seq<string>, dataLines: seq<string>)
    requires NoCR(pieces)
    ensures ParseLines(DataLines(pieces) + rest, fields, dataLines) == ParseLines(rest, fields, dataLines + pieces)
    decreases |pieces|
  {
    hide DataValue, TrimSuffix, Flush;
    if pieces == [] {
      assert [] + rest == rest && dataLines + [] == dataLines;
    } else {
      assert pieces[0] in pieces && forall p :: p in pieces[1..] ==> p in pieces;
      DataLineValue(pieces[0]);
      assert (DataLines(pieces) + rest)[0] == "data: " + pieces[0];
      assert (DataLines(pieces) + rest)[1..] == DataLines(pieces[1..]) + rest;
      ParseData(pieces[1..], rest, fields, dataLines + [pieces[0]]);
      assert dataLines + [pieces[0]] + pieces[1..] == dataLines + pieces;
    }
  }

  /** One built event reads back as itself, or as nothing when it is empty. */
  lemma ParseEvent(e: Event, rest: seq<string>)
    requires NoCR(e.fields) && NoCR(Split(e.data, '\n')) && forall f :: f in e.fields ==> FieldLike(f)
    ensures ParseLines(EventLines(e) + rest, [], []) == NonEmpty([e]) + ParseLines(rest, [], [])
  {
    hide DataValue, Split, FieldLike;
    var pieces := if e.data != "" then Split(e.data, '\n') else [];
    var after := [""] + rest;
    assert EventLines(e) + rest == e.fields + (DataLines(pieces) + after);
    ParseFields(e.fields, DataLines(pieces) + after, [], []);
    ParseData(pieces, after, [] + e.fields, []);
    assert [] + e.fields == e.fields && [] + pieces == pieces && after[1..] == rest;
    SplitJoin(e.data, '\n');
    assert NonEmpty([e][1..]) == [];
  }

  lemma OneEventMore(e: Event, es: seq<Event>)
    ensures Lines([e] + es) == EventLines(e) + Lines(es)
    ensures NonEmpty([e] + es) == NonEmpty([e]) + NonEmpty(es)
  {
    hide EventLines, IsEmpty;
    assert ([e] + es)[1..] == es && NonEmpty([e][1..]) == [];
  }

  lemma {:induction false} ParseBuilt(es: seq<Event>, rest: seq<string>)
    requires FieldsLike(es) && NoTrailingCR(es)
    ensures ParseLines(Lines(es) + rest, [], []) == NonEmpty(es) + ParseLines(rest, [], [])
    decreases |es|
  {
    hide EventLines, ParseLines, Split, FieldLike, NoCR, EndsInCR;
    if es == [] {
      assert [] + rest == rest && [] + ParseLines(rest, [], []) == ParseLines(rest, [], []);
    } else {
      hide Lines, NonEmpty;
      var e, tail := es[0], es[1..];
      assert es == [e] + tail && e in es && forall x :: x in tail ==> x in es;
      OneEventMore(e, tail);
      ParseEvent(e, Lines(tail) + rest);
      ParseBuilt(tail, rest);
      Associates(EventLines(e), Lines(tail), rest);
      Associates(NonEmpty([e]), NonEmpty(tail), ParseLines(rest, [], []));
    }
  }

  lemma {:induction false} LinesAreLines(es: seq<Event>)
    requires FieldsLike(es)
    ensures forall l :: l in Lines(es) ==> '\n' !in l
    decreases |es|
  {
    if es != [] {
      assert es[0] in es && forall e :: e in es[1..] ==> e in es;
      LinesAreLines(es[1..]);
      SplitJoin(es[0].data, '\n');
      DataLinesAreLines(Split(es[0].data, '\n'));
    }
  }

  lemma {:induction false} DataLinesAreLines(pieces: seq<string>)
    requires forall p :: p in pieces ==> '\n' !in p
    ensures forall l :: l in DataLines(pieces) ==> '\n' !in l
    decreases |pieces|
  {
    if pieces != [] {
      assert pieces[0] in pieces && forall p :: p in pieces[1..] ==> p in pieces;
      DataLinesAreLines(pieces[1..]);
    }
  }

  /** A built stream of field-like events without trailing carriage returns reads back as its non-empty events. */
  lemma BuiltReadsBack(es: seq<Event>)
    requires FieldsLike(es) && NoTrailingCR(es)
    ensures Parse(Build(es)) == NonEmpty(es)
  {
    LinesAreLines(es);
    SplitTerminated(Lines(es));
    ParseBuilt(es, [""]);
    assert ParseLines([""][1..], [], []) == [];
    assert NonEmpty(es) + ParseLines([""], [], []) == NonEmpty(es);
  }

  // ---------------------------------------------------------------- nothing else survives

  /** Every parsed field is field-like. */
  lemma {:induction false} ParsedFieldsLike(lines: seq<string>, fields: seq<string>, dataLines: seq<string>)
    requires forall l :: l in lines ==> '\n' !in l
    requires forall f :: f in fields ==> FieldLike(f)
    ensures FieldsLike(ParseLines(lines, fields, dataLines))
    decreases |lines|
  {
    if lines != [] {
      assert lines[0] in lines && forall l :: l in lines[1..] ==> l in lines;
      var line := TrimSuffix(lines[0], '\r');
      if line == "" {
        ParsedFieldsLike(lines[1..], [], []);
      } else if HasPrefix(line, DATA) {
        ParsedFieldsLike(lines[1..], fields, dataLines + [DataValue(line)]);
      } else {
        ParsedFieldsLike(lines[1..], fields + [line], dataLines);
      }
    }
  }

  function Len(parts: seq<string>): nat {
    if parts == [] then 0 else |parts[0]| + Len(parts[1..])
  }

  lemma {:induction false} LenAppend(a: seq<string>, b: seq<string>)
    ensures Len(a + b) == Len(a) + Len(b)
    decreases |a|
  {
    if a == [] {
      assert [] + b == b;
    } else {
      assert (a + b)[1..] == a[1..] + b;
      LenAppend(a[1..], b);
    }
  }

  /** How many characters of fields and data lines a stream carries. */
  function Weight(es: seq<Event>): nat {
    if es == [] then 0 else Len(es[0].fields) + Len(Split(es[0].data, '\n')) + Weight(es[1..])
  }

  /** What a line contributes when parsed. */
  function LineWeight(raw: string): nat {
    var line := TrimSuffix(raw, '\r');
    if HasPrefix(line, DATA) then |DataValue(line)| else |line|
  }

  function LinesWeight(lines: seq<string>): nat {
    if lines == [] then 0 else LineWeight(lines[0]) + LinesWeight(lines[1..])
  }

  lemma {:induction false} LinesWeightAppend(a: seq<string>, b: seq<string>)
    ensures LinesWeight(a + b) == LinesWeight(a) + LinesWeight(b)
    decreases |a|
  {
    if a == [] {
      assert [] + b == b;
    } else {
      assert (a + b)[1..] == a[1..] + b;
      LinesWeightAppend(a[1..], b);
    }
  }

  lemma FlushWeight(fields: seq<string>, dataLines: seq<string>, rest: seq<Event>)
    requires forall d :: d in dataLines ==> '\n' !in d
    ensures Weight(Flush(fields, dataLines) + rest) == Len(fields) + Len(dataLines) + Weight(rest)
  {
    if fields == [] && dataLines == [] {
      assert [] + rest == rest;
    } else {
      assert (Flush(fields, dataLines) + rest)[1..] == rest;
      if dataLines == [] {
        SplitSingle("", '\n');
        assert Len([""][1..]) == 0;
      } else {
        JoinSplit(dataLines, '\n');
      }
    }
  }

  /** Parsing neither loses nor invents characters beyond what each line says. */
  lemma {:induction false} ParseKeepsWeight(lines: seq<string>, fields: seq<string>, dataLines: seq<string>)
    requires forall l :: l in lines ==> '\n' !in l
    requires forall d :: d in dataLines ==> '\n' !in d
    ensures Weight(ParseLines(lines, fields, dataLines)) == Len(fields) + Len(dataLines) + LinesWeight(lines)
    decreases |lines|
  {
    if lines == [] {
      FlushWeight(fields, dataLines, []);
      assert Flush(fields, dataLines) + [] == Flush(fields, dataLines);
    } else {
      assert lines[0] in lines && forall l :: l in lines[1..] ==> l in lines;
      var line := TrimSuffix(lines[0], '\r');
      if line == "" {
        ParseKeepsWeight(lines[1..], [], []);
        FlushWeight(fields, dataLines, ParseLines(lines[1..], [], []));
      } else if HasPrefix(line, DATA) {
        ParseKeepsWeight(lines[1..], fields, dataLines + [DataValue(line)]);
        LenAppend(dataLines, [DataValue(line)]);
        assert Len([DataValue(line)][1..]) == 0;
      } else {
        ParseKeepsWeight(lines[1..], fields + [line], dataLines);
        LenAppend(fields, [line]);
        assert Len([line][1..]) == 0;
      }
    }
  }

  /** How many parts end in a carriage return. */
  function CRs(parts: seq<string>): nat {
    if parts == [] then 0 else (if EndsInCR(parts[0]) then 1 else 0) + CRs(parts[1..])
  }

  function AllCRs(es: seq<Event>): nat {
    if es == [] then 0 else CRs(es[0].fields) + CRs(Split(es[0].data, '\n')) + AllCRs(es[1..])
  }

  lemma {:induction false} NoCRIffNone(parts: seq<string>)
    ensures CRs(parts) == 0 <==> NoCR(parts)
    decreases |parts|
  {
    if parts != [] {
      assert parts == [parts[0]] + parts[1..];
      NoCRIffNone(parts[1..]);
    }
  }

  lemma {:induction false} AllCRsZero(es: seq<Event>)
    ensures AllCRs(es) == 0 <==> NoTrailingCR(es)
    decreases |es|
  {
    if es != [] {
      assert es == [es[0]] + es[1..];
      NoCRIffNone(es[0].fields);
      NoCRIffNone(Split(es[0].data, '\n'));
      AllCRsZero(es[1..]);
    }
  }

  lemma {:induction false} FieldLinesWeight(fs: seq<string>)
    requires forall f :: f in fs ==> FieldLike(f)
    ensures LinesWeight(fs) + CRs(fs) == Len(fs)
    decreases |fs|
  {
    if fs != [] {
      assert fs[0] in fs && forall f :: f in fs[1..] ==> f in fs;
      FieldLinesWeight(fs[1..]);
      var t := TrimSuffix(fs[0], '\r');
      if |t| >= 5 { assert t[..5] == fs[0][..5]; }
    }
  }

  lemma {:induction false} DataLinesWeight(pieces: seq<string>)
    ensures LinesWeight(DataLines(pieces)) + CRs(pieces) == Len(pieces)
    decreases |pieces|
  {
    if pieces != [] {
      var p, line := pieces[0], "data: " + pieces[0];
      if EndsInCR(p) {
        assert TrimSuffix(line, '\r') == ("data: " + p[..|p| - 1]);
        if EndsInCR(p[..|p| - 1]) {
          assert ("data: " + p[..|p| - 1])[..5] == DATA;
          assert ("data: " + p[..|p| - 1])[5..] == [' '] + p[..|p| - 1];
        } else {
          DataLineValue(p[..|p| - 1]);
        }
      } else {
        DataLineValue(p);
      }
      DataLinesWeight(pieces[1..]);
    }
  }

  /** Building and parsing costs exactly the trailing carriage returns. */
  lemma {:induction false} BuiltLinesWeight(es: seq<Event>)
    requires FieldsLike(es)
    ensures LinesWeight(Lines(es)) + AllCRs(es) == Weight(es)
    decreases |es|
  {
    if es != [] {
      var e := es[0];
      assert e in es && forall x :: x in es[1..] ==> x in es;
      var data := if e.data != "" then DataLines(Split(e.data, '\n')) else [];
      FieldLinesWeight(e.fields);
      DataLinesWeight(Split(e.data, '\n'));
      if e.data == "" { SplitSingle("", '\n'); assert [""][1..] == []; }
      LinesWeightAppend(e.fields, data);
      LinesWeightAppend(e.fields + data, [""]);
      assert LinesWeight([""][1..]) == 0;
      LinesWeightAppend(EventLines(e), Lines(es[1..]));
      BuiltLinesWeight(es[1..]);
    }
  }

  lemma RebuiltWeight(es: seq<Event>)
    requires FieldsLike(es)
    ensures Weight(Parse(Build(es))) + AllCRs(es) == Weight(es)
  {
    LinesAreLines(es);
    SplitTerminated(Lines(es));
    ParseKeepsWeight(Lines(es) + [""], [], []);
    LinesWeightAppend(Lines(es), [""]);
    assert LinesWeight([""][1..]) == 0;
    BuiltLinesWeight(es);
  }

  lemma {:induction false} NonEmptyKeeps(es: seq<Event>)
    ensures Weight(NonEmpty(es)) == Weight(es)
    ensures |NonEmpty(es)| <= |es| && (NonEmpty(es) == es <==> forall e :: e in es ==> !IsEmpty(e))
    decreases |es|
  {
    if es != [] {
      assert es == [es[0]] + es[1..];
      NonEmptyKeeps(es[1..]);
      if IsEmpty(es[0]) {
        SplitSingle("", '\n');
        assert Len([""][1..]) == 0;
        assert [] + NonEmpty(es[1..]) == NonEmpty(es[1..]);
      } else {
        assert NonEmpty(es)[1..] == NonEmpty(es[1..]);
      }
    }
  }

  lemma ParsedIsFieldsLike(body: string)
    ensures FieldsLike(Parse(body))
  {
    SplitJoin(body, '\n');
    ParsedFieldsLike(Split(body, '\n'), [], []);
  }

  /** Exactly which event lists survive being built and parsed: no event is empty, every field reads as a field,
      and no line ends in a carriage return. */
  lemma RoundTripExact(es: seq<Event>)
    ensures Parse(Build(es)) == es <==> FieldsLike(es) && NoTrailingCR(es) && forall e :: e in es ==> !IsEmpty(e)
  {
    NonEmptyKeeps(es);
    if FieldsLike(es) && NoTrailingCR(es) { BuiltReadsBack(es); }
    if Parse(Build(es)) == es {
      ParsedIsFieldsLike(Build(es));
      RebuiltWeight(es);
      AllCRsZero(es);
    }
  }

  /** A parsed body built again parses as before, less its empty events, exactly when no line of it was left with a
      carriage return. */
  lemma ReparseExact(body: string)
    ensures Parse(Build(Parse(body))) == NonEmpty(Parse(body)) <==> NoTrailingCR(Parse(body))
  {
    var es := Parse(body);
    ParsedIsFieldsLike(body);
    NonEmptyKeeps(es);
    AllCRsZero(es);
    RebuiltWeight(es);
    if NoTrailingCR(es) { BuiltReadsBack(es); }
  }

  /** Parsing takes one carriage return off each line, so only a doubled one can be left. */
  lemma {:induction false} ParsedNoCR(lines: seq<string>, fields: seq<string>, dataLines: seq<string>)
    requires forall l :: l in lines ==> '\n' !in l && !EndsInCR(TrimSuffix(l, '\r'))
    requires NoCR(fields) && NoCR(dataLines) && forall d :: d in dataLines ==> '\n' !in d
    ensures NoTrailingCR(ParseLines(lines, fields, dataLines))
    decreases |lines|
  {
    if lines == [] {
      FlushNoCR(fields, dataLines);
    } else {
      assert lines[0] in lines && forall l :: l in lines[1..] ==> l in lines;
      var line := TrimSuffix(lines[0], '\r');
      if line == "" {
        FlushNoCR(fields, dataLines);
        ParsedNoCR(lines[1..], [], []);
      } else if HasPrefix(line, DATA) {
        ParsedNoCR(lines[1..], fields, dataLines + [DataValue(line)]);
      } else {
        ParsedNoCR(lines[1..], fields + [line], dataLines);
      }
    }
  }

  lemma FlushNoCR(fields: seq<string>, dataLines: seq<string>)
    requires NoCR(fields) && NoCR(dataLines) && forall d :: d in dataLines ==> '\n' !in d
    ensures NoTrailingCR(Flush(fields, dataLines))
  {
    if dataLines == [] { SplitSingle("", '\n'); } else { JoinSplit(dataLines, '\n'); }
  }

  /** Input without a doubled trailing carriage return parses the same after being parsed and built, less its
      empty events. */
  lemma ReparseStable(body: string)
    requires forall l :: l in Split(body, '\n') ==> !EndsInCR(TrimSuffix(l, '\r'))
    ensures Parse(Build(Parse(body))) == NonEmpty(Parse(body))
  {
    SplitJoin(body, '\n');
    ParsedNoCR(Split(body, '\n'), [], []);
    ReparseExact(body);
  }

  // ---------------------------------------------------------------- single lines

  /** A data line reads as what follows "data:", less one space if there is one. */
  lemma DataLineInWords(v: string)
    ensures HasPrefix("data:" + v, DATA)
    ensures DataValue("data:" + v) == if v != "" && v[0] == ' ' then v[1..] else v
  {
    assert ("data:" + v)[..5] == DATA && ("data:" + v)[5..] == v;
  }

  /** One data line and a blank line are one event, with or without carriage returns. */
  lemma OneDataLine(v: string, cr: string)
    requires '\n' !in v && !EndsInCR(v) && (cr == "" || cr == "\r")
    ensures Parse("data:" + v + cr + "\n" + cr + "\n") == [Event([], if v != "" && v[0] == ' ' then v[1..] else v)]
  {
    hide DataValue;
    var line := "data:" + v;
    DataLineInWords(v);
    assert line[|line| - 1] == if v == "" then ':' else v[|v| - 1];
    assert TrimSuffix(line + cr, '\r') == line by { assert (line + "\r")[..|line|] == line && line + "" == line; }
    ParsedPair(line + cr, cr);
    ReadAsData(line + cr, cr, line);
  }

  /** One event of one line of data, as it is written. */
  lemma OneEventText(f: string, v: string)
    requires '\n' !in v && v != ""
    ensures Build([Event([f], v)]) == f + "\n" + "data: " + v + "\n" + "\n"
  {
    var e := Event([f], v);
    SplitSingle(v, '\n');
    assert [v][1..] == [] && DataLines([v]) == ["data: " + v] + [] == ["data: " + v];
    assert EventLines(e) == [f, "data: " + v, ""];
    assert [e][1..] == [] && Lines([e]) == EventLines(e) + [] == EventLines(e);
    var lines := [f, "data: " + v, ""];
    assert lines[1..] == ["data: " + v, ""] && lines[1..][1..] == [""] && [""][1..] == [];
    assert Terminated([""]) == "" + "\n" + "" == "\n";
    assert Terminated(lines[1..]) == "data: " + v + "\n" + "\n";
    assert Terminated(lines) == f + "\n" + ("data: " + v + "\n" + "\n");
  }

  /** Any other line is a field. */
  lemma OneFieldLine(f: string, cr: string)
    requires FieldLike(f) && !EndsInCR(f) && (cr == "" || cr == "\r")
    ensures Parse(f + cr + "\n" + cr + "\n") == [Event([f], "")]
  {
    assert TrimSuffix(f + cr, '\r') == f by { assert (f + "\r")[..|f|] == f && f + "" == f; }
    ParsedPair(f + cr, cr);
    ReadAsField(f + cr, cr, f);
  }

  lemma ParsedPair(a: string, b: string)
    requires '\n' !in a && '\n' !in b
    ensures Parse(a + "\n" + b + "\n") == ParseLines([a, b, ""], [], [])
  {
    var body := a + "\n" + b + "\n";
    assert body == a + ['\n'] + (b + ['\n'] + "");
    SplitCons(a, b + ['\n'] + "", '\n');
    SplitCons(b, "", '\n');
    SplitSingle("", '\n');
    assert [a] + ([b] + [""]) == [a, b, ""];
  }

  lemma Ending(b: string, fields: seq<string>, dataLines: seq<string>)
    requires b == "" || b == "\r"
    ensures ParseLines([b, ""], fields, dataLines) == Flush(fields, dataLines)
  {
    assert TrimSuffix(b, '\r') == "" && TrimSuffix("", '\r') == "";
    assert [b, ""][1..] == [""] && [""][1..] == [];
    assert ParseLines([""], [], []) == [] + [] == [];
    assert Flush(fields, dataLines) + [] == Flush(fields, dataLines);
  }

  lemma ReadAsData(a: string, b: string, line: string)
    requires (b == "" || b == "\r") && TrimSuffix(a, '\r') == line && line != "" && HasPrefix(line, DATA)
    ensures ParseLines([a, b, ""], [], []) == [Event([], DataValue(line))]
  {
    hide DataValue;
    var v := DataValue(line);
    assert [a, b, ""][1..] == [b, ""] && [] + [v] == [v];
    Ending(b, [], [v]);
  }

  lemma ReadAsField(a: string, b: string, f: string)
    requires (b == "" || b == "\r") && TrimSuffix(a, '\r') == f && f != "" && !HasPrefix(f, DATA)
    ensures ParseLines([a, b, ""], [], []) == [Event([f], "")]
  {
    assert [a, b, ""][1..] == [b, ""] && [] + [f] == [f];
    Ending(b, [f], []);
  }
}

/** The parser and the builder as loops. */
module McpEventStream {
  import opened Text
  import opened McpEventStreamSpec

  method ParseEventStream(body: string) returns (events: seq<Event>)
    ensures events == Parse(body)
  {
    var lines := Split(body, '\n');
    events := [];
    var fields: seq<string>, dataLines: seq<string> := [], [];
    for i := 0 to |lines|
      invariant events + ParseLines(lines[i..], fields, dataLines) == Parse(body)
    {
      assert lines[i..][1..] == lines[i + 1..];
      var line := TrimSuffix(lines[i], '\r');
      if line == "" {
        var flushed := FlushInto(events, fields, dataLines);
        assert flushed + ParseLines(lines[i + 1..], [], []) == events + (Flush(fields,
              dataLines) + ParseLines(lines[i + 1..], [], []));
        events, fields, dataLines := flushed, [], [];
        continue;
      }
      if HasPrefix(line, "data:") {
        var data := line[5..];
        if HasPrefix(data, " ") { data := data[1..]; }
        dataLines := dataLines + [data];
        continue;
      }
      fields := fields + [line];
    }
    events := FlushInto(events, fields, dataLines);
  }

  method FlushInto(events: seq<Event>, fields: seq<string>, dataLines: seq<string>) returns (flushed: seq<Event>)
    ensures flushed == events + Flush(fields, dataLines)
  {
    if |fields| == 0 && |dataLines| == 0 { return events; }
    flushed := events + [Event(fields, Join(dataLines, '\n'))];
  }

  method BuildEventStream(events: seq<Event>) returns (text: string)
    ensures text == Build(events)
  {
    text := "";
    for i := 0 to |events|
      invariant text + Terminated(Lines(events[i..])) == Build(events)
    {
      var written := WriteEvent(events[i]);
      EventWritten(events, i, text, written);
      text := text + written;
    }
  }

  method WriteData(pieces: seq<string>) returns (text: string)
    ensures text == Terminated(DataLines(pieces))
  {
    text := "";
    for j := 0 to |pieces|
      invariant text + Terminated(DataLines(pieces[j..])) == Terminated(DataLines(pieces))
    {
      assert pieces[j..][1..] == pieces[j + 1..];
      text := text + "data: " + pieces[j] + "\n";
    }
    assert text + "" == text;
  }

  method WriteEvent(event: Event) returns (text: string)
    ensures text == Terminated(EventLines(event))
  {
    text := "";
    for i := 0 to |event.fields|
      invariant text + Terminated(event.fields[i..]) == Terminated(event.fields)
    {
      text := text + event.fields[i] + "\n";
    }
    assert text + "" == text;
    ghost var data := [];
    if event.data != "" {
      var pieces := Split(event.data, '\n');
      data := DataLines(pieces);
      var written := WriteData(pieces);
      text := text + written;
    }
    assert text == Terminated(event.fields) + Terminated(data);
    TerminatedAppend(event.fields, data);
    TerminatedAppend(event.fields + data, [""]);
    assert Terminated([""]) == "" + "\n" + Terminated([""][1..]) == "\n";
    text := text + "\n";
  }

  lemma {:induction false} TerminatedAppend(a: seq<string>, b: seq<string>)
    ensures Terminated(a + b) == Terminated(a) + Terminated(b)
    decreases |a|
  {
    if a == [] {
      assert [] + b == b;
    } else {
      assert (a + b)[1..] == a[1..] + b;
      TerminatedAppend(a[1..], b);
    }
  }

  lemma EventWritten(events: seq<Event>, i: nat, text: string, written: string)
    requires i < |events| && text + Terminated(Lines(events[i..])) == Build(events)
    requires written == Terminated(EventLines(events[i]))
    ensures text + written + Terminated(Lines(events[i + 1..])) == Build(events)
  {
    hide EventLines;
    assert events[i..][1..] == events[i + 1..];
    TerminatedAppend(EventLines(events[i]), Lines(events[i + 1..]));
  }
}
