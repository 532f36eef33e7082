/** The guardrail's parameter check, content extraction and per-request state. */
module ContentLength {
  import opened Sequences
  import opened Text
  import opened Wrappers
  import opened SseScanSpec
  import SseScan
  import opened ContentLengthSpec

  /** The checks on `min` and `max`. A range is accepted for a direction that is not switched off exactly when both
      are given, the minimum is not negative, the maximum is positive and they are in order. */
  method ParseRange(enabled: Option<bool>, min: Option<int>, max: Option<int>) returns (r: Parsed)
    ensures enabled == Some(false) ==> r == Accepted(0, 0)
    ensures enabled != Some(false) ==>
              (r.Accepted? <==> min.Some? && max.Some? && 0 <= min.value <= max.value && 0 < max.value)
    ensures enabled != Some(false) && r.Accepted? ==> r == Accepted(min.value, max.value)
  {
    var enabledExplicitlyFalse := enabled == Some(false);
    var hasMin, hasMax := min.Some?, max.Some?;
    if !enabledExplicitlyFalse {
      if !hasMin { return Rejected(MinMissing); }
      if !hasMax { return Rejected(MaxMissing); }
    }
    if enabledExplicitlyFalse { hasMin, hasMax := false, false; }
    var low, high := 0, 0;
    if hasMin {
      if min.value < 0 { return Rejected(MinNegative); }
      low := min.value;
    }
    if hasMax {
      if max.value <= 0 { return Rejected(MaxNotPositive); }
      high := max.value;
    }
    if hasMin && hasMax && low > high { return Rejected(MinAboveMax); }
    return Accepted(low, high);
  }

  method ExtractSSEDeltaContent(s: string, content: string -> string) returns (r: string)
    ensures r == DeltaContent(s, content)
  {
    hide Payload, Split;
    var lines := Split(s, '\n');
    r := "";
    assert lines[0..] == lines;
    for i := 0 to |lines|
      invariant LinesContent(lines, content) == r + LinesContent(lines[i..], content)
    {
      assert lines[i..][1..] == lines[i + 1..];
      ghost var rest := LinesContent(lines[i + 1..], content);
      var value := SseScan.LineValue(lines[i]);
      if value == DONE || value == "" {
        assert LineContent(lines[i], content) == "" && "" + rest == rest;
        continue;
      }
      assert LineContent(lines[i], content) == content(value);
      Associates(r, content(value), rest);
      r := r + content(value);
    }
  }

  class ResponseStream {
    var running: int
    var accJsonBody: string

    constructor ()
      ensures Now() == State(0, "")
    {
      running, accJsonBody := 0, "";
    }

    ghost function Now(): State
      reads this
    {
      State(running, accJsonBody)
    }

    method OnResponseBodyChunk(p: Params, c: Chunk, content: string -> string, rejects: string -> bool)
      returns (action: Action)
      modifies this
      ensures (Now(), action) == Step(p, old(Now()), c, content, rejects)
    {
      hide DeltaContent, IsSSEChunk;
      if !p.enabled { return Forward; }
      if |c.text| == 0 { return Forward; }
      if !IsSSEChunk(c.text) {
        accJsonBody := accJsonBody + c.text;
        if !c.endOfStream { return Forward; }
        if rejects(accJsonBody) { return Terminate; }
        return Forward;
      }
      var chunkContent := ExtractSSEDeltaContent(c.text, content);
      running := running + |chunkContent|;
      if p.max > 0 && !p.invert && running > p.max { return Terminate; }
      if c.endOfStream {
        var inRange := running >= p.min && (p.max == 0 || running <= p.max);
        var passed := inRange;
        if p.invert { passed := !inRange; }
        if !passed { return Terminate; }
      }
      return Forward;
    }
  }
}
