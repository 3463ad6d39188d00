/** Character-level helpers shared by the coordinator's line framing and the
    observer's keyboard handling: Python's str.strip(), str.lower() and
    str.split('\n', 1), restricted to the ASCII range. */
module Text {

  /** The ASCII characters for which Python's str.isspace() holds. */
  predicate IsSpace(c: char) {
    c == ' ' || 9 <= c as int <= 13 || 28 <= c as int <= 31
  }

  /** Number of whitespace characters at the start of s. */
  function LeadingSpaces(s: string): (n: nat)
    ensures n <= |s|
    ensures forall i :: 0 <= i < n ==> IsSpace(s[i])
    ensures n < |s| ==> !IsSpace(s[n])
  {
    if s == [] || !IsSpace(s[0]) then 0 else 1 + LeadingSpaces(s[1..])
  }

  /** Number of whitespace characters at the end of s. */
  function TrailingSpaces(s: string): (n: nat)
    ensures n <= |s|
    ensures forall i :: |s| - n <= i < |s| ==> IsSpace(s[i])
    ensures n < |s| ==> !IsSpace(s[|s| - 1 - n])
  {
    if s == [] || !IsSpace(s[|s| - 1]) then 0 else 1 + TrailingSpaces(s[..|s| - 1])
  }

  /** str.strip(): s without its leading and trailing whitespace. */
  function Strip(s: string): (r: string)
    ensures |r| <= |s|
    ensures r == [] <==> forall i :: 0 <= i < |s| ==> IsSpace(s[i])
    ensures r != [] ==> !IsSpace(r[0]) && !IsSpace(r[|r| - 1])
    ensures LeadingSpaces(s) + |r| <= |s| && r == s[LeadingSpaces(s)..LeadingSpaces(s) + |r|]
    // only whitespace follows the result: strip removes the leading and the
    // trailing whitespace and nothing else
    ensures forall i :: LeadingSpaces(s) + |r| <= i < |s| ==> IsSpace(s[i])
    ensures r != [] ==> LeadingSpaces(s) + |r| + TrailingSpaces(s) == |s|
  {
    var lead := LeadingSpaces(s);
    if lead == |s| then [] else
      var trail := TrailingSpaces(s);
      assert !IsSpace(s[lead]);
      assert lead <= |s| - 1 - trail;
      var r := s[lead..|s| - trail];
      assert r == s[lead..lead + |r|];
      r
  }

  /** A line made of whitespace only, which is what `line.strip()` empties
      (see Strip). */
  predicate IsBlank(line: string) {
    forall i :: 0 <= i < |line| ==> IsSpace(line[i])
  }

  function LowerChar(c: char): char {
    if 'A' <= c <= 'Z' then (c as int + 32) as char else c
  }

  /** str.lower() on ASCII letters; every other character is kept. */
  function Lower(s: string): (r: string)
    ensures |r| == |s|
    // no capital is left, every other character is kept, and a capital
    // becomes its own small letter
    ensures forall i :: 0 <= i < |r| ==> !('A' <= r[i] <= 'Z')
    ensures forall i :: 0 <= i < |s| && !('A' <= s[i] <= 'Z') ==> r[i] == s[i]
    ensures forall i :: 0 <= i < |s| && 'A' <= s[i] <= 'Z' ==> 'a' <= r[i] <= 'z' && r[i] as int - s[i] as int == 'a' as int - 'A' as int
  {
    seq(|s|, i requires 0 <= i < |s| => LowerChar(s[i]))
  }

  /** The only strings that lower-case to a given lower-case letter are that
      letter and its capital. */
  lemma LowerSingleLetter(s: string, c: char)
    requires 'a' <= c <= 'z'
    ensures Lower(s) == [c] <==> s == [c] || s == [(c as int - 32) as char]
  {
    if Lower(s) == [c] {
      assert LowerChar(s[0]) == c;
    }
  }

  /** Index of the first newline of s, which must contain one. */
  function FirstNewline(s: string): (k: nat)
    requires '\n' in s
    ensures k < |s| && s[k] == '\n'
    ensures forall i :: 0 <= i < k ==> s[i] != '\n'
  {
    if s[0] == '\n' then 0 else
      assert '\n' in s[1..] by { var j :| 0 <= j < |s| && s[j] == '\n'; assert s[1..][j - 1] == '\n'; }
      1 + FirstNewline(s[1..])
  }

  /** `buffer.split('\n', 1)` on a buffer that holds a newline: the text
      before the first newline and the text after it. */
  function SplitFirst(buffer: string): (parts: (string, string))
    requires '\n' in buffer
    ensures '\n' !in parts.0
    ensures buffer == parts.0 + "\n" + parts.1
    ensures |parts.1| < |buffer|
  {
    var k := FirstNewline(buffer);
    assert buffer == buffer[..k] + "\n" + buffer[k + 1..];
    (buffer[..k], buffer[k + 1..])
  }

  /** The text of lines each terminated by a newline. */
  function Unlines(lines: seq<string>): string {
    if lines == [] then "" else Unlines(lines[..|lines| - 1]) + lines[|lines| - 1] + "\n"
  }

  /** The text received on a connection: the chunks up to (excluding) the
      first empty one, which stands for end of stream. */
  function Received(chunks: seq<string>): string {
    if chunks == [] || chunks[0] == "" then "" else chunks[0] + Received(chunks[1..])
  }

  /** The framing of a text into newline-terminated lines and an incomplete
      tail is unique: given the text, the lines and the tail are determined. */
  lemma {:induction false} FramingIsUnique(l1: seq<string>, r1: string, l2: seq<string>, r2: string)
    requires forall i :: 0 <= i < |l1| ==> '\n' !in l1[i]
    requires forall i :: 0 <= i < |l2| ==> '\n' !in l2[i]
    requires '\n' !in r1 && '\n' !in r2
    requires Unlines(l1) + r1 == Unlines(l2) + r2
    ensures l1 == l2 && r1 == r2
  {
    if l1 == [] && l2 == [] {
      assert Unlines(l1) == "" == Unlines(l2);
      assert r1 == Unlines(l1) + r1 && r2 == Unlines(l2) + r2;
    } else if l1 == [] {
      NewlineInUnlines(l2, r2);
      assert false;
    } else if l2 == [] {
      NewlineInUnlines(l1, r1);
      assert false;
    } else {
      FramingFirst(l1, r1);
      FramingFirst(l2, r2);
      var s := Unlines(l1) + r1;
      FirstNewlineAfter(l1[0], Unlines(l1[1..]) + r1);
      FirstNewlineAfter(l2[0], Unlines(l2[1..]) + r2);
      var k := |l1[0]|;
      assert l1[0] == s[..k] == l2[0];
      assert Unlines(l1[1..]) + r1 == s[k + 1..] == Unlines(l2[1..]) + r2;
      FramingIsUnique(l1[1..], r1, l2[1..], r2);
      assert l1 == [l1[0]] + l1[1..];
      assert l2 == [l2[0]] + l2[1..];
    }
  }

  /** A line without a newline, then a newline: the first newline is the one
      right after the line. */
  lemma FirstNewlineAfter(line: string, rest: string)
    requires '\n' !in line
    ensures '\n' in line + "\n" + rest
    ensures FirstNewline(line + "\n" + rest) == |line|
  {
    var s := line + "\n" + rest;
    assert s[|line|] == '\n';
    assert forall i :: 0 <= i < |line| ==> s[i] == line[i];
  }

  lemma {:induction false} NewlineInUnlines(lines: seq<string>, rest: string)
    requires lines != []
    ensures '\n' in Unlines(lines) + rest
  {
    var u := Unlines(lines);
    assert u[|u| - 1] == '\n';
    assert (u + rest)[|u| - 1] == '\n';
  }

  /** Unlines read from the front: the first line, its newline, then the rest. */
  lemma {:induction false} FramingFirst(lines: seq<string>, rest: string)
    requires lines != []
    ensures Unlines(lines) + rest == lines[0] + "\n" + (Unlines(lines[1..]) + rest)
  {
    UnlinesFront(lines);
  }

  lemma {:induction false} UnlinesFront(lines: seq<string>)
    requires lines != []
    ensures Unlines(lines) == lines[0] + "\n" + Unlines(lines[1..])
    decreases |lines|
  {
    if |lines| == 1 {
      assert lines[..0] == [];
      assert lines[1..] == [];
    } else {
      var init, last := lines[..|lines| - 1], lines[|lines| - 1];
      var tail := lines[1..];
      UnlinesFront(init);
      assert init[0] == lines[0];
      assert tail[..|tail| - 1] == init[1..];
      assert tail[|tail| - 1] == last;
      calc {
        Unlines(lines);
        Unlines(init) + last + "\n";
        (lines[0] + "\n" + Unlines(init[1..])) + last + "\n";
        lines[0] + "\n" + (Unlines(init[1..]) + last + "\n");
        lines[0] + "\n" + Unlines(tail);
      }
    }
  }

  /** Received text grows chunk by chunk until the end-of-stream chunk. */
  lemma {:induction false} ReceivedSnoc(chunks: seq<string>, i: nat)
    requires i < |chunks|
    requires forall j :: 0 <= j <= i ==> chunks[j] != ""
    ensures Received(chunks[..i + 1]) == Received(chunks[..i]) + chunks[i]
    decreases i
  {
    if i == 0 {
      assert chunks[..1][1..] == [];
    } else {
      assert chunks[..i + 1][1..] == chunks[1..][..i];
      assert chunks[..i][1..] == chunks[1..][..i - 1];
      ReceivedSnoc(chunks[1..], i - 1);
    }
  }

  /** Once the end-of-stream chunk is reached, nothing more is received. */
  lemma {:induction false} ReceivedStops(chunks: seq<string>, i: nat)
    requires i <= |chunks|
    requires i == |chunks| || chunks[i] == ""
    ensures Received(chunks) == Received(chunks[..i])
    decreases i
  {
    if i == 0 {
    } else if chunks[0] == "" {
    } else {
      assert chunks[..i][1..] == chunks[1..][..i - 1];
      ReceivedStops(chunks[1..], i - 1);
    }
  }

  /** What has been received after some of the chunks is a prefix of what is
      received after all of them. */
  lemma {:induction false} ReceivedPrefix(chunks: seq<string>, n: nat)
    requires n <= |chunks|
    ensures Received(chunks[..n]) <= Received(chunks)
    decreases n
  {
    if n == 0 {
    } else if chunks[0] == "" {
      assert chunks[..n][0] == "";
    } else {
      assert chunks[..n][0] == chunks[0];
      assert chunks[..n][1..] == chunks[1..][..n - 1];
      ReceivedPrefix(chunks[1..], n - 1);
    }
  }

  /** One more chunk received and framed: the framed text grows by the
      chunk and is what the chunks read so far deliver. */
  lemma ChunkFramed(chunks: seq<string>, i: nat, lines: seq<string>, buffer: string,
                    framed: seq<string>, rest: string)
    requires i < |chunks|
    requires forall j :: 0 <= j <= i ==> chunks[j] != ""
    requires Unlines(lines) + buffer == Received(chunks[..i])
    requires Unlines(framed) + rest == Unlines(lines) + (buffer + chunks[i])
    ensures Unlines(framed) + rest == Received(chunks[..i + 1])
  {
    ReceivedSnoc(chunks, i);
    assert Unlines(lines) + (buffer + chunks[i]) == (Unlines(lines) + buffer) + chunks[i];
  }

  /** Taking one line out of the buffer keeps the framed text unchanged. */
  lemma FrameStep(lines: seq<string>, buffer: string)
    requires '\n' in buffer
    ensures Unlines(lines + [SplitFirst(buffer).0]) + SplitFirst(buffer).1 == Unlines(lines) + buffer
  {
    var parts := SplitFirst(buffer);
    assert (lines + [parts.0])[..|lines|] == lines;
  }
}
