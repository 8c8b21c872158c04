/** The story script file: the text `create_story_script` writes, and the
    `Audio: audio_output/...` references the audio creator reads back from it
    (`re.findall(r"Audio: (audio_output/[^\n]+)", content)`). */
module ScriptFormat {
  import opened Results
  import opened Strings
  import opened Domain

  /** The text that introduces an audio reference the reader accepts. */
  const Marker: string := "Audio: audio_output/"
  /** The directory prefix every accepted reference starts with. */
  const AudioDir: string := "audio_output/"

  function Repeat(c: char, n: nat): (r: string)
    ensures |r| == n && forall i :: 0 <= i < n ==> r[i] == c
  {
    seq(n, _ => c)
  }

  /** The lines written for one segment, numbered from 1: the audio line only
      when the segment has a non-empty audio file. */
  function BlockLines(number: nat, segment: Segment): seq<string> {
    HeadLines(number, segment) + AudioLines(segment) + [Repeat('-', 30), ""]
  }

  function HeadLines(number: nat, segment: Segment): seq<string> {
    ["Segment " + NatToString(number) + ":",
     "Character: " + segment.character.name,
     "Voice: " + segment.character.voiceId,
     "Text: " + segment.text]
  }

  /** `if segment.audio_file:` - a missing or empty file writes no line. */
  function AudioLines(segment: Segment): seq<string> {
    if segment.audioFile.Some? && segment.audioFile.value != []
    then ["Audio: " + segment.audioFile.value] else []
  }

  function BodyLines(segments: seq<Segment>, number: nat): seq<string>
    decreases |segments|
  {
    if segments == [] then []
    else BlockLines(number, segments[0]) + BodyLines(segments[1..], number + 1)
  }

  /** Every line of the script, without its terminating newline. */
  function ScriptLines(segments: seq<Segment>): seq<string> {
    HeaderLines() + BodyLines(segments, 1)
  }

  /** The title, a rule of 50 `=` and a blank line. */
  function HeaderLines(): seq<string> {
    ["STORY SCRIPT", Repeat('=', 50), ""]
  }

  /** Lines none of which holds the character `c`. */
  predicate LinesAvoid(lines: seq<string>, c: char) {
    forall k :: 0 <= k < |lines| ==> c !in lines[k]
  }

  /** Lines without newlines of their own. */
  predicate SingleLines(lines: seq<string>) {
    LinesAvoid(lines, '\n')
  }

  lemma {:induction false} LinesAvoidAppend(a: seq<string>, b: seq<string>, c: char)
    requires LinesAvoid(a, c) && LinesAvoid(b, c)
    ensures LinesAvoid(a + b, c)
  {
    forall k | 0 <= k < |a + b| ensures c !in (a + b)[k] {
      if k >= |a| {
        assert (a + b)[k] == b[k - |a|];
      }
    }
  }

  /** Lines joined with a newline after each one, as the file is written. */
  function Unlines(lines: seq<string>): string {
    if lines == [] then [] else lines[0] + "\n" + Unlines(lines[1..])
  }

  /** Joining lines that avoid a character other than the newline gives a
      text that avoids it. */
  lemma {:induction false} UnlinesAvoid(lines: seq<string>, c: char)
    requires c != '\n' && LinesAvoid(lines, c)
    ensures c !in Unlines(lines)
    decreases |lines|
  {
    if lines != [] {
      UnlinesAvoid(lines[1..], c);
      AvoidConcat(lines[0], "\n", c);
      AvoidConcat(lines[0] + "\n", Unlines(lines[1..]), c);
    }
  }

  /** The content of the script file. */
  function ScriptText(segments: seq<Segment>): string {
    Unlines(ScriptLines(segments))
  }

  /** What reading a file in Python's text mode gives (universal newlines):
      each `\r\n` and each lone `\r` becomes `\n`. */
  function TextModeRead(raw: string): (r: string)
    ensures |r| <= |raw|
    decreases |raw|
  {
    if raw == [] then []
    else if raw[0] == '\r' then
      if |raw| > 1 && raw[1] == '\n' then "\n" + TextModeRead(raw[2..])
      else "\n" + TextModeRead(raw[1..])
    else [raw[0]] + TextModeRead(raw[1..])
  }

  lemma MarkerFacts()
    ensures |Marker| == 20 && |AudioDir| == 13
    ensures Marker == "Audio: " + AudioDir
    ensures Marker[0] == 'A' && '\n' !in Marker
  {
  }

  /** Whether the pattern matches at the start of `content`: the marker and
      then at least one character other than a newline. */
  predicate MatchesAt(content: string) {
    StartsWith(content, Marker) && |content| > |Marker| && content[|Marker|] != '\n'
  }

  /** `re.findall` of the audio reference pattern: scanning left to right,
      the captured path runs from `audio_output/` to the end of the line, and
      scanning resumes after it. */
  function FindAudioPaths(content: string): seq<string>
    decreases |content|
  {
    if content == [] then []
    else if MatchesAt(content) then
      var path := BeforeFirst(content[7..], '\n');
      [path] + FindAudioPaths(content[7 + |path|..])
    else
      FindAudioPaths(content[1..])
  }

  /** A path under `audio_output/` with a name after the directory, on one
      line. */
  predicate AudioPath(p: string) {
    StartsWith(p, AudioDir) && |p| > |AudioDir| && '\n' !in p
  }

  /** Every reference found is a path under `audio_output/` with a name
      after the directory, on one line. */
  lemma {:induction false} FoundPathsShape(content: string)
    ensures forall k :: 0 <= k < |FindAudioPaths(content)| ==> AudioPath(FindAudioPaths(content)[k])
    decreases |content|
  {
    if content != [] {
      if MatchesAt(content) {
        var path := BeforeFirst(content[7..], '\n');
        var rest := FindAudioPaths(content[7 + |path|..]);
        MatchedPathShape(content);
        FoundPathsShape(content[7 + |path|..]);
        assert FindAudioPaths(content) == [path] + rest;
      } else {
        FoundPathsShape(content[1..]);
        assert FindAudioPaths(content) == FindAudioPaths(content[1..]);
      }
    }
  }

  /** A match captures a path under `audio_output/`, with a name after the
      directory, up to the end of the line. */
  lemma {:induction false} MatchedPathShape(content: string)
    requires MatchesAt(content)
    ensures AudioPath(BeforeFirst(content[7..], '\n'))
  {
    MarkerFacts();
    var tail := content[7..];
    var path := BeforeFirst(tail, '\n');
    assert content[..20] == Marker;
    assert tail[..13] == content[7..20];
    assert content[7..20] == Marker[7..];
    assert Marker[7..] == AudioDir;
    assert tail[13] == content[20];
    assert '\n' !in AudioDir;
    assert |path| > 13;
    assert path[..13] == tail[..13];
  }

  /** The scan of each line on its own, concatenated. */
  function ScanLines(lines: seq<string>): seq<string> {
    if lines == [] then [] else FindAudioPaths(lines[0]) + ScanLines(lines[1..])
  }

  lemma {:induction false} ScanLinesAppend(a: seq<string>, b: seq<string>)
    ensures ScanLines(a + b) == ScanLines(a) + ScanLines(b)
    decreases |a|
  {
    if a == [] {
      assert a + b == b;
    } else {
      var head := FindAudioPaths(a[0]);
      assert (a + b)[0] == a[0];
      assert (a + b)[1..] == a[1..] + b;
      assert ScanLines(a + b) == head + ScanLines(a[1..] + b);
      ScanLinesAppend(a[1..], b);
      assert head + (ScanLines(a[1..]) + ScanLines(b)) == (head + ScanLines(a[1..])) + ScanLines(b);
    }
  }

  /** A newline right after a line does not change whether the pattern
      matches at its start. */
  lemma {:induction false} MatchesAtLine(line: string, rest: string)
    requires '\n' !in line
    ensures MatchesAt(line + "\n" + rest) == MatchesAt(line)
  {
    MarkerFacts();
    var s := line + "\n" + rest;
    if |line| >= 20 {
      assert s[..20] == line[..20];
      if |line| == 20 {
        assert s[20] == '\n';
      } else {
        assert s[20] == line[20];
      }
    } else {
      assert s[|line|] == '\n';
    }
  }

  /** A match inside a line captures the rest of that line. */
  lemma {:induction false} PathInLine(line: string, rest: string)
    requires '\n' !in line && |line| >= 7
    ensures BeforeFirst((line + "\n" + rest)[7..], '\n') == line[7..]
    ensures BeforeFirst(line[7..], '\n') == line[7..]
  {
    assert (line + "\n" + rest)[7..] == line[7..] + ['\n'] + rest;
    assert forall c :: c in line[7..] ==> c in line;
    SplitAtFirst(line[7..], '\n', rest);
  }

  /** No match crosses a newline: scanning a line and what follows it is
      scanning each on its own. */
  lemma {:induction false} FindAudioPathsLine(line: string, rest: string)
    requires '\n' !in line
    ensures FindAudioPaths(line + "\n" + rest) == FindAudioPaths(line) + FindAudioPaths(rest)
    decreases |line|
  {
    var s := line + "\n" + rest;
    if line == [] {
      assert s == "\n" + rest;
      NewlineSkipped(rest);
    } else if MatchesAt(line) {
      MatchedLine(line, rest);
    } else {
      MatchesAtLine(line, rest);
      assert s[1..] == line[1..] + "\n" + rest;
      FindAudioPathsLine(line[1..], rest);
    }
  }

  /** A line break is never the start of a match. */
  lemma {:induction false} NewlineSkipped(rest: string)
    ensures FindAudioPaths("\n" + rest) == FindAudioPaths(rest)
  {
    MarkerFacts();
    var s := "\n" + rest;
    assert s[0] != Marker[0];
    assert s[1..] == rest;
  }

  /** A match at the start of a line takes the rest of the line and resumes
      at the line break. */
  lemma {:induction false} MatchedLine(line: string, rest: string)
    requires '\n' !in line && MatchesAt(line)
    ensures FindAudioPaths(line + "\n" + rest) == FindAudioPaths(line) + FindAudioPaths(rest)
  {
    var s := line + "\n" + rest;
    MarkerFacts();
    MatchesAtLine(line, rest);
    PathInLine(line, rest);
    var path := line[7..];
    assert FindAudioPaths(s) == [path] + FindAudioPaths(s[7 + |path|..]);
    assert s[7 + |path|..] == "\n" + rest;
    NewlineSkipped(rest);
    LineMatch(line);
  }

  /** A line that matches at its start yields the rest of it, once. */
  lemma {:induction false} LineMatch(line: string)
    requires '\n' !in line && MatchesAt(line)
    ensures FindAudioPaths(line) == [line[7..]]
  {
    MarkerFacts();
    var path := line[7..];
    assert '\n' !in path by {
      assert forall k :: 0 <= k < |path| ==> path[k] == line[7 + k];
    }
    assert BeforeFirst(path, '\n') == path;
    assert FindAudioPaths(line) == [path] + FindAudioPaths(line[7 + |path|..]);
    assert line[7 + |path|..] == [];
  }

  /** Scanning newline-terminated lines is scanning each line. */
  lemma {:induction false} FindAudioPathsUnlines(lines: seq<string>)
    requires SingleLines(lines)
    ensures FindAudioPaths(Unlines(lines)) == ScanLines(lines)
    decreases |lines|
  {
    if lines != [] {
      FindAudioPathsLine(lines[0], Unlines(lines[1..]));
      FindAudioPathsUnlines(lines[1..]);
    }
  }

  /** A line without the marker yields nothing. */
  lemma {:induction false} NoMarkerNoPaths(line: string)
    requires !Contains(line, Marker)
    ensures FindAudioPaths(line) == []
    decreases |line|
  {
    if line != [] {
      NoMarkerNoPaths(line[1..]);
    }
  }

  /** A line without an `A` cannot hold the marker. */
  lemma {:induction false} NoCapitalANoPaths(line: string)
    requires 'A' !in line
    ensures FindAudioPaths(line) == []
  {
    MarkerFacts();
    if Contains(line, Marker) {
      ContainsChars(line, Marker, 'A');
    }
    NoMarkerNoPaths(line);
  }

  /** The audio line of a segment yields its file. */
  lemma {:induction false} AudioLinePath(file: string)
    requires StartsWith(file, AudioDir) && |file| > |AudioDir| && '\n' !in file
    ensures FindAudioPaths("Audio: " + file) == [file]
  {
    MarkerFacts();
    var line := "Audio: " + file;
    assert line[..|Marker|] == Marker;
    assert line[|Marker|] == file[|AudioDir|];
    assert line[7..] == file;
    assert line[7 + |file|..] == [];
  }

  /** Text without a carriage return passes through a text-mode read
      unchanged, whatever follows it. */
  lemma {:induction false} TextModeReadPrefix(prefix: string, rest: string)
    requires '\r' !in prefix
    ensures TextModeRead(prefix + rest) == prefix + TextModeRead(rest)
    decreases |prefix|
  {
    if prefix == [] {
      assert prefix + rest == rest;
    } else {
      var x, tail := prefix[0], prefix[1..];
      assert x != '\r' && '\r' !in tail && prefix + rest == [x] + (tail + rest) by {
        assert prefix == [x] + tail;
      }
      TextModeReadPrefix(tail, rest);
      TextModeReadCons(x, tail + rest);
      assert [x] + (tail + TextModeRead(rest)) == prefix + TextModeRead(rest) by {
        assert prefix == [x] + tail;
      }
    }
  }

  /** Text without carriage returns is read as it is. */
  lemma {:induction false} TextModeReadIdentity(raw: string)
    requires '\r' !in raw
    ensures TextModeRead(raw) == raw
  {
    TextModeReadPrefix(raw, []);
    assert raw + [] == raw;
  }

  /** No carriage return survives the read. */
  lemma {:induction false} TextModeReadNoReturn(raw: string)
    ensures '\r' !in TextModeRead(raw)
    decreases |raw|
  {
    if raw != [] {
      if raw[0] == '\r' && |raw| > 1 && raw[1] == '\n' {
        TextModeReadNoReturn(raw[2..]);
        AvoidConcat("\n", TextModeRead(raw[2..]), '\r');
      } else if raw[0] == '\r' {
        TextModeReadNoReturn(raw[1..]);
        AvoidConcat("\n", TextModeRead(raw[1..]), '\r');
      } else {
        TextModeReadNoReturn(raw[1..]);
        AvoidConcat([raw[0]], TextModeRead(raw[1..]), '\r');
      }
    }
  }

  /** One character other than a carriage return is read as itself. */
  lemma {:induction false} TextModeReadCons(x: char, rest: string)
    requires x != '\r'
    ensures TextModeRead([x] + rest) == [x] + TextModeRead(rest)
  {
    assert ([x] + rest)[1..] == rest;
  }

  /** A carriage return is read as a newline, taking a newline right after
      it along. */
  lemma {:induction false} TextModeReadReturn(rest: string)
    ensures TextModeRead("\r" + rest)
              == "\n" + TextModeRead(if rest != [] && rest[0] == '\n' then rest[1..] else rest)
  {
    var t := "\r" + rest;
    assert t[0] == '\r';
    if rest != [] && rest[0] == '\n' {
      assert t[1] == '\n' && t[2..] == rest[1..];
    } else {
      assert t[1..] == rest;
    }
  }

  /** A carriage return after a line reads as the line break, taking a
      newline right after it along. */
  lemma {:induction false} CarriageReturnRead(line: string, rest: string)
    requires '\r' !in line
    ensures TextModeRead(line + "\r" + rest)
              == line + "\n" + TextModeRead(if rest != [] && rest[0] == '\n' then rest[1..] else rest)
  {
    var t := "\r" + rest;
    assert line + "\r" + rest == line + t;
    TextModeReadPrefix(line, t);
    TextModeReadReturn(rest);
  }

  /** Why a written audio path must hold no carriage return: the read turns
      it into a line break, so the reference read back for the path
      `file + "\r" + rest` is `file` alone. */
  lemma {:induction false} CarriageReturnEndsPath(file: string, rest: string)
    requires StartsWith(file, AudioDir) && |file| > |AudioDir|
    requires '\n' !in file && '\r' !in file
    ensures var read := FindAudioPaths(TextModeRead("Audio: " + file + "\r" + rest));
            read != [] && read[0] == file
  {
    var line := "Audio: " + file;
    AvoidConcat("Audio: ", file, '\r');
    AvoidConcat("Audio: ", file, '\n');
    CarriageReturnRead(line, rest);
    var after := TextModeRead(if rest != [] && rest[0] == '\n' then rest[1..] else rest);
    AudioLinePath(file);
    FindAudioPathsLine(line, after);
  }

  /** What the script must avoid for the read-back to be exact: one-line
      fields whose lines do not carry the marker, and an audio file (when set)
      under `audio_output/` with a name after the directory. */
  predicate Scriptable(segment: Segment) {
    && '\n' !in segment.character.name
    && '\n' !in segment.character.voiceId
    && '\n' !in segment.text
    && '\r' !in segment.character.name
    && '\r' !in segment.character.voiceId
    && '\r' !in segment.text
    && !Contains("Character: " + segment.character.name, Marker)
    && !Contains("Voice: " + segment.character.voiceId, Marker)
    && !Contains("Text: " + segment.text, Marker)
    && (segment.audioFile.Some? && segment.audioFile.value != [] ==>
          StartsWith(segment.audioFile.value, AudioDir)
          && |segment.audioFile.value| > |AudioDir|
          && '\n' !in segment.audioFile.value
          && '\r' !in segment.audioFile.value)
  }


  /** Joining strings that both avoid a character gives one that avoids it. */
  lemma {:induction false} AvoidConcat(a: string, b: string, c: char)
    requires c !in a && c !in b
    ensures c !in a + b
  {
    assert forall x :: x in a + b ==> x in a || x in b;
  }

  /** Lines that each yield nothing yield nothing together. */
  lemma {:induction false} ScanLinesNone(lines: seq<string>)
    requires forall k :: 0 <= k < |lines| ==> FindAudioPaths(lines[k]) == []
    ensures ScanLines(lines) == []
    decreases |lines|
  {
    if lines != [] {
      ScanLinesNone(lines[1..]);
    }
  }

  /** The head lines avoid any character that is not a digit and that
      neither the field labels nor the fields hold. */
  lemma {:induction false} HeadLinesAvoid(number: nat, segment: Segment, c: char)
    requires !IsDigit(c) && c !in "Segment :" && c !in "Character: Voice: Text: "
    requires c !in segment.character.name && c !in segment.character.voiceId && c !in segment.text
    ensures LinesAvoid(HeadLines(number, segment), c)
  {
    var digits := NatToString(number);
    assert c !in digits by {
      assert forall x :: x in digits ==> IsDigit(x);
    }
    assert c !in "Segment " && c !in ":" && c !in "Character: " && c !in "Voice: " && c !in "Text: ";
    AvoidConcat("Segment ", digits, c);
    AvoidConcat("Segment " + digits, ":", c);
    AvoidConcat("Character: ", segment.character.name, c);
    AvoidConcat("Voice: ", segment.character.voiceId, c);
    AvoidConcat("Text: ", segment.text, c);
  }

  /** The numbered segment line holds no audio path. */
  lemma {:induction false} SegmentLineScan(number: nat)
    ensures FindAudioPaths("Segment " + NatToString(number) + ":") == []
  {
    var digits := NatToString(number);
    assert 'A' !in digits by {
      assert forall c :: c in digits ==> IsDigit(c);
    }
    AvoidConcat("Segment ", digits, 'A');
    AvoidConcat("Segment " + digits, ":", 'A');
    NoCapitalANoPaths("Segment " + digits + ":");
  }

  /** The head lines hold no audio path when no field line carries the
      marker. */
  lemma {:induction false} HeadLinesScan(number: nat, segment: Segment)
    requires !Contains("Character: " + segment.character.name, Marker)
    requires !Contains("Voice: " + segment.character.voiceId, Marker)
    requires !Contains("Text: " + segment.text, Marker)
    ensures ScanLines(HeadLines(number, segment)) == []
  {
    var head := HeadLines(number, segment);
    SegmentLineScan(number);
    NoMarkerNoPaths(head[1]);
    NoMarkerNoPaths(head[2]);
    NoMarkerNoPaths(head[3]);
    ScanLinesNone(head);
  }

  lemma {:induction false} HeadLinesFacts(number: nat, segment: Segment)
    requires Scriptable(segment)
    ensures SingleLines(HeadLines(number, segment))
    ensures LinesAvoid(HeadLines(number, segment), '\r')
    ensures ScanLines(HeadLines(number, segment)) == []
  {
    HeadLinesAvoid(number, segment, '\n');
    HeadLinesAvoid(number, segment, '\r');
    HeadLinesScan(number, segment);
  }

  lemma HeaderLinesOneLine()
    ensures SingleLines(HeaderLines()) && LinesAvoid(HeaderLines(), '\r')
  {
  }

  /** Lines without an `A` yield nothing. */
  lemma {:induction false} ScanLinesNoCapitalA(lines: seq<string>)
    requires LinesAvoid(lines, 'A')
    ensures ScanLines(lines) == []
  {
    forall k | 0 <= k < |lines| ensures FindAudioPaths(lines[k]) == [] {
      NoCapitalANoPaths(lines[k]);
    }
    ScanLinesNone(lines);
  }

  lemma HeaderLinesFacts()
    ensures ScanLines(HeaderLines()) == []
  {
    var rule := Repeat('=', 50);
    assert 'A' !in rule by {
      assert forall c :: c in rule ==> c == '=';
    }
    ScanLinesNoCapitalA(HeaderLines());
  }

  lemma TailLinesFacts()
    ensures SingleLines([Repeat('-', 30), ""]) && LinesAvoid([Repeat('-', 30), ""], '\r')
    ensures ScanLines([Repeat('-', 30), ""]) == []
  {
    var tail := [Repeat('-', 30), ""];
    NoCapitalANoPaths(tail[0]);
    NoCapitalANoPaths(tail[1]);
    ScanLinesNone(tail);
  }

  lemma {:induction false} AudioLinesFacts(segment: Segment)
    requires Scriptable(segment)
    ensures SingleLines(AudioLines(segment)) && LinesAvoid(AudioLines(segment), '\r')
    ensures ScanLines(AudioLines(segment)) == AudioFilesOf([segment])
  {
    assert [segment][1..] == [];
    if AudioLines(segment) != [] {
      AudioLinePath(segment.audioFile.value);
      AvoidConcat("Audio: ", segment.audioFile.value, '\n');
      AvoidConcat("Audio: ", segment.audioFile.value, '\r');
      assert AudioLines(segment)[1..] == [];
    }
  }

  /** One segment's block yields the segment's audio file, if any. */
  lemma {:induction false} BlockFacts(number: nat, segment: Segment)
    requires Scriptable(segment)
    ensures SingleLines(BlockLines(number, segment)) && LinesAvoid(BlockLines(number, segment), '\r')
    ensures ScanLines(BlockLines(number, segment)) == AudioFilesOf([segment])
  {
    var head := HeadLines(number, segment);
    var audio := AudioLines(segment);
    var tail := [Repeat('-', 30), ""];
    HeadLinesFacts(number, segment);
    AudioLinesFacts(segment);
    TailLinesFacts();
    ScanLinesAppend(head, audio);
    ScanLinesAppend(head + audio, tail);
    LinesAvoidAppend(head, audio, '\n');
    LinesAvoidAppend(head + audio, tail, '\n');
    LinesAvoidAppend(head, audio, '\r');
    LinesAvoidAppend(head + audio, tail, '\r');
  }

  lemma {:induction false} AudioFilesOfCons(segments: seq<Segment>)
    requires segments != []
    ensures AudioFilesOf(segments) == AudioFilesOf([segments[0]]) + AudioFilesOf(segments[1..])
  {
    assert [segments[0]][1..] == [];
  }

  lemma {:induction false} BodyRoundTrip(segments: seq<Segment>, number: nat)
    requires forall k :: 0 <= k < |segments| ==> Scriptable(segments[k])
    ensures SingleLines(BodyLines(segments, number)) && LinesAvoid(BodyLines(segments, number), '\r')
    ensures ScanLines(BodyLines(segments, number)) == AudioFilesOf(segments)
    decreases |segments|
  {
    if segments != [] {
      var block := BlockLines(number, segments[0]);
      var rest := BodyLines(segments[1..], number + 1);
      BlockFacts(number, segments[0]);
      BodyRoundTrip(segments[1..], number + 1);
      ScanLinesAppend(block, rest);
      AudioFilesOfCons(segments);
      LinesAvoidAppend(block, rest, '\n');
      LinesAvoidAppend(block, rest, '\r');
    }
  }

  /** Reading back what the script writer wrote: the text holds no carriage
      return, so reading it in text mode changes nothing, and the audio
      references found in it are exactly the segments' audio files, in
      segment order. */
  lemma {:induction false} ScriptRoundTrip(segments: seq<Segment>)
    requires forall k :: 0 <= k < |segments| ==> Scriptable(segments[k])
    ensures '\r' !in ScriptText(segments)
    ensures TextModeRead(ScriptText(segments)) == ScriptText(segments)
    ensures FindAudioPaths(ScriptText(segments)) == AudioFilesOf(segments)
  {
    var header := HeaderLines();
    var body := BodyLines(segments, 1);
    BodyRoundTrip(segments, 1);
    HeaderLinesOneLine();
    HeaderLinesFacts();
    ScanLinesAppend(header, body);
    LinesAvoidAppend(header, body, '\n');
    LinesAvoidAppend(header, body, '\r');
    FindAudioPathsUnlines(header + body);
    UnlinesAvoid(header + body, '\r');
    TextModeReadIdentity(ScriptText(segments));
  }
}
