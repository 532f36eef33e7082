/** The string operations the policies share. */
module Text {

  predicate HasPrefix(s: string, prefix: string) {
    prefix <= s
  }

  /** The position of the first `c`, or the length of `s`. */
  function IndexOf(s: string, c: char): (i: nat)
    ensures i <= |s| && c !in s[..i] && (i < |s| ==> s[i] == c)
  {
    if s == "" || s[0] == c then 0 else 1 + IndexOf(s[1..], c)
  }

  /** The pieces between separators; always at least one. */
  function Split(s: string, c: char): (parts: seq<string>)
    ensures parts != []
    decreases |s|
  {
    var i := IndexOf(s, c);
    if i == |s| then [s] else [s[..i]] + Split(s[i + 1..], c)
  }

  function Join(parts: seq<string>, c: char): string {
    if parts == [] then "" else if |parts| == 1 then parts[0] else parts[0] + [c] + Join(parts[1..], c)
  }

  /** Drop every trailing `c`. */
  function TrimRight(s: string, c: char): string
    decreases |s|
  {
    if s != "" && s[|s| - 1] == c then TrimRight(s[..|s| - 1], c) else s
  }

  /** Drop one trailing `c`. */
  function TrimSuffix(s: string, c: char): string {
    if s != "" && s[|s| - 1] == c then s[..|s| - 1] else s
  }

  /** White space as Unicode defines it. */
  predicate IsSpace(c: char) {
    || '\t' <= c <= '\r' || c == ' ' || c == '\U{0085}' || c == '\U{00A0}' || c == '\U{1680}'
    || '\U{2000}' <= c <= '\U{200A}' || c == '\U{2028}' || c == '\U{2029}' || c == '\U{202F}' || c == '\U{205F}'
    || c == '\U{3000}'
  }

  function TrimSpace(s: string): (t: string)
    ensures |t| <= |s|
    ensures t != "" ==> !IsSpace(t[0]) && !IsSpace(t[|t| - 1])
    decreases |s|
  {
    if s == "" then ""
    else if IsSpace(s[0]) then TrimSpace(s[1..])
    else if IsSpace(s[|s| - 1]) then TrimSpace(s[..|s| - 1])
    else s
  }

  // ---------------------------------------------------------------- laws

  lemma IndexOfUnique(s: string, c: char, i: nat)
    requires i <= |s| && c !in s[..i] && (i < |s| ==> s[i] == c)
    ensures IndexOf(s, c) == i
  {
    var j := IndexOf(s, c);
    assert forall k :: 0 <= k < i ==> s[k] in s[..i];
    assert forall k :: 0 <= k < j ==> s[k] in s[..j];
  }

  /** White space, by code point. */
  lemma SpacesByCodePoint(c: char)
    ensures IsSpace(c) <==> (9 <= c as int <= 13 || 0x2000 <= c as int <= 0x200A
                             || c as int in {0x20, 0x85, 0xA0, 0x1680, 0x2028, 0x2029, 0x202F, 0x205F, 0x3000})
  {}

  predicate OnlySpaces(s: string) { forall c :: c in s ==> IsSpace(c) }

  /** Trimming takes white space off both ends and nothing else. */
  lemma {:induction false} TrimTakesSpaces(s: string) returns (a: string, b: string)
    ensures s == a + TrimSpace(s) + b && OnlySpaces(a) && OnlySpaces(b)
    decreases |s|
  {
    hide IsSpace;
    a, b := "", "";
    if s != "" && IsSpace(s[0]) {
      a, b := TrimTakesSpaces(s[1..]);
      a := [s[0]] + a;
    } else if s != "" && IsSpace(s[|s| - 1]) {
      a, b := TrimTakesSpaces(s[..|s| - 1]);
      b := b + [s[|s| - 1]];
    }
  }

  /** A line followed by a separator is split off first. */
  lemma SplitCons(line: string, rest: string, c: char)
    requires c !in line
    ensures Split(line + [c] + rest, c) == [line] + Split(rest, c)
  {
    var s := line + [c] + rest;
    assert s[..|line|] == line && s[|line| + 1..] == rest;
    IndexOfUnique(s, c, |line|);
  }

  lemma SplitSingle(line: string, c: char)
    requires c !in line
    ensures Split(line, c) == [line]
  {
    assert line[..|line|] == line;
    IndexOfUnique(line, c, |line|);
  }

  /** The pieces hold no separator, and joining them gives the string back. */
  lemma {:induction false} SplitJoin(s: string, c: char)
    ensures forall p :: p in Split(s, c) ==> c !in p
    ensures Join(Split(s, c), c) == s
    decreases |s|
  {
    var i := IndexOf(s, c);
    if i < |s| {
      SplitJoin(s[i + 1..], c);
      var tail := Split(s[i + 1..], c);
      assert ([s[..i]] + tail)[1..] == tail;
      assert s == s[..i] + [c] + s[i + 1..];
    } else {
      assert s[..i] == s;
    }
  }

  /** Splitting what was joined from separator-free pieces gives the pieces back. */
  lemma {:induction false} JoinSplit(parts: seq<string>, c: char)
    requires parts != [] && forall p :: p in parts ==> c !in p
    ensures Split(Join(parts, c), c) == parts
    decreases |parts|
  {
    if |parts| == 1 {
      SplitSingle(parts[0], c);
    } else {
      assert parts == [parts[0]] + parts[1..];
      JoinSplit(parts[1..], c);
      SplitCons(parts[0], Join(parts[1..], c), c);
    }
  }
}
