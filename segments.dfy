/** The line grammar of `parse_story_into_segments`: a story is split on
    newlines, each line is stripped and blank ones are skipped; a line with a
    colon is a speaker label and a text, any other line is narration. */
module SegmentParsing {
  import opened Strings

  /** What one stripped, non-blank line of a story says. */
  datatype ParsedLine = Dialogue(speaker: string, text: string) | Narration(text: string)

  /** The speaker a label names: the label stripped, cut before its first
      `(` (where a stage direction starts) and stripped again. */
  function LabelSpeaker(head: string): (r: string)
    ensures '(' !in r && Strip(r) == r
    ensures forall c :: c in r ==> c in head
    ensures '(' !in Strip(head) ==> r == Strip(head)
    ensures '(' in Strip(head) ==>
              exists q :: 0 <= q < |Strip(head)| && Strip(head)[q] == '('
                          && '(' !in Strip(head)[..q] && r == Strip(Strip(head)[..q])
  {
    var name := Strip(head);
    var cut := BeforeFirst(name, '(');
    StripIdempotent(cut);
    StripIdempotent(head);
    assert '(' in name ==> name[..|cut|] == cut;
    Strip(cut)
  }

  /** A line with a colon is dialogue: the speaker is what the label before
      the first colon names, the text is the rest of the line after that
      colon, stripped. A line without a colon is narration. */
  function ParseLine(line: string): (p: ParsedLine)
    ensures p.Narration? <==> ':' !in line
    ensures p.Narration? ==> p.text == line
    ensures p.Dialogue? ==>
              exists c :: 0 <= c < |line| && line[c] == ':' && ':' !in line[..c]
                          && p.speaker == LabelSpeaker(line[..c]) && p.text == Strip(line[c + 1..])
    ensures p.Dialogue? ==> ':' !in p.speaker && '(' !in p.speaker
    ensures p.Dialogue? ==> Strip(p.speaker) == p.speaker && Strip(p.text) == p.text
  {
    if ':' in line then
      var head := BeforeFirst(line, ':');
      var text := Strip(AfterFirst(line, ':'));
      StripIdempotent(AfterFirst(line, ':'));
      assert line[..|head|] == head && line[|head| + 1..] == AfterFirst(line, ':');
      Dialogue(LabelSpeaker(head), text)
    else
      Narration(line)
  }

  /** A stage direction in parentheses after the name does not become part
      of the speaker: `Name (aside): text` is spoken by `Name`. */
  lemma {:induction false} StageDirectionDropped(name: string, direction: string, text: string)
    requires name != [] && Strip(name) == name && ':' !in name && '(' !in name
    requires ':' !in direction && Strip(text) == text
    ensures ParseLine(name + " (" + direction + "): " + text) == Dialogue(name, text)
  {
    var head := name + " (" + direction + ")";
    assert name + " (" + direction + "): " + text == head + [':'] + (" " + text);
    assert forall c :: c in head ==> c in name || c in direction || c in " ()";
    SplitAtFirst(head, ':', " " + text);
    StripLeadingSpace(' ', text);
    DirectionNamesSpeaker(name, direction);
  }

  /** The label `Name (direction)` names `Name`. */
  lemma {:induction false} DirectionNamesSpeaker(name: string, direction: string)
    requires name != [] && Strip(name) == name && '(' !in name
    ensures LabelSpeaker(name + " (" + direction + ")") == name
  {
    var head := name + " (" + direction + ")";
    assert head[0] == name[0] && head[|head| - 1] == ')';
    StripNoop(head);
    assert head == (name + " ") + ['('] + (direction + ")");
    assert '(' !in name + " ";
    SplitAtFirst(name + " ", '(', direction + ")");
    StripTrailingSpace(name, ' ');
  }

  /** A colon at the very start of a line still makes dialogue, spoken by
      the empty name. */
  lemma {:induction false} EmptyLabelSpeaks(rest: string)
    ensures ParseLine([':'] + rest) == Dialogue([], Strip(rest))
  {
    assert [':'] + rest == [] + [':'] + rest;
    SplitAtFirst([], ':', rest);
    assert Strip([]) == [];
  }

  /** The lines of a list that are not blank, stripped, in order. */
  function ContentLines(lines: seq<string>): (r: seq<string>)
    ensures |r| <= |lines|
    ensures forall i :: 0 <= i < |r| ==> r[i] != [] && Strip(r[i]) == r[i]
  {
    if lines == [] then []
    else
      var last := Strip(lines[|lines| - 1]);
      StripIdempotent(lines[|lines| - 1]);
      ContentLines(lines[..|lines| - 1]) + (if last == [] then [] else [last])
  }

  /** The lines `parse_story_into_segments` turns into segments, one each. */
  function StoryLines(story: string): seq<string> {
    ContentLines(Split(story, '\n'))
  }

  /** Skipping blank lines commutes with concatenation: each piece of a story
      contributes its own content lines. */
  lemma {:induction false} ContentLinesAppend(a: seq<string>, b: seq<string>)
    ensures ContentLines(a + b) == ContentLines(a) + ContentLines(b)
    decreases |b|
  {
    if b == [] {
      assert a + b == a;
    } else {
      var b' := b[..|b| - 1];
      var last := Strip(b[|b| - 1]);
      var tail := if last == [] then [] else [last];
      assert (a + b)[..|a + b| - 1] == a + b';
      assert (a + b)[|a + b| - 1] == b[|b| - 1];
      assert ContentLines(a + b) == ContentLines(a + b') + tail;
      ContentLinesAppend(a, b');
      assert (ContentLines(a) + ContentLines(b')) + tail == ContentLines(a) + (ContentLines(b') + tail);
    }
  }

  /** Lines that are already stripped and non-blank all survive, unchanged. */
  lemma {:induction false} ContentLinesKeep(lines: seq<string>)
    requires forall i :: 0 <= i < |lines| ==> lines[i] != [] && Strip(lines[i]) == lines[i]
    ensures ContentLines(lines) == lines
    decreases |lines|
  {
    if lines != [] {
      ContentLinesKeep(lines[..|lines| - 1]);
      assert lines == lines[..|lines| - 1] + [lines[|lines| - 1]];
    }
  }

  /** A story line in the prompt's format: `Name: text`. */
  function FormatLine(speaker: string, text: string): string {
    speaker + ": " + text
  }

  /** A speaker and a text the prompt's format can carry unambiguously: both
      non-empty and stripped, on one line, and the label free of colons and
      parentheses. */
  predicate Representable(speaker: string, text: string) {
    && speaker != [] && text != []
    && Strip(speaker) == speaker && Strip(text) == text
    && ':' !in speaker && '(' !in speaker
    && '\n' !in speaker && '\n' !in text
  }

  /** A formatted line parses back into its speaker and its text. */
  lemma {:induction false} DialogueRoundTrip(speaker: string, text: string)
    requires Representable(speaker, text)
    ensures Strip(FormatLine(speaker, text)) == FormatLine(speaker, text)
    ensures ParseLine(FormatLine(speaker, text)) == Dialogue(speaker, text)
  {
    var line := FormatLine(speaker, text);
    assert line == speaker + [':'] + ([' '] + text);
    assert line[0] == speaker[0] && line[|line| - 1] == text[|text| - 1];
    StripNoop(line);
    SplitAtFirst(speaker, ':', [' '] + text);
    StripLeadingSpace(' ', text);
  }

  /** A formatted line is one non-empty line when its parts are. */
  lemma {:induction false} FormatLineSingle(speaker: string, text: string)
    requires '\n' !in speaker && '\n' !in text
    ensures '\n' !in FormatLine(speaker, text) && FormatLine(speaker, text) != []
  {
    var line := FormatLine(speaker, text);
    assert forall c :: c in line ==> c in speaker || c == ':' || c == ' ' || c in text;
  }

  /** The lines of a story written one `Name: text` line per entry. */
  function FormatLines(entries: seq<(string, string)>): (lines: seq<string>)
    ensures |lines| == |entries|
    ensures forall i :: 0 <= i < |entries| ==> lines[i] == FormatLine(entries[i].0, entries[i].1)
  {
    if entries == [] then []
    else [FormatLine(entries[0].0, entries[0].1)] + FormatLines(entries[1..])
  }

  /** A story written in the format the story prompt asks for is parsed back
      into exactly its entries, in order. */
  lemma {:induction false} FormattedStoryParses(entries: seq<(string, string)>)
    requires |entries| >= 1
    requires forall i :: 0 <= i < |entries| ==> Representable(entries[i].0, entries[i].1)
    ensures |StoryLines(Join(FormatLines(entries), '\n'))| == |entries|
    ensures forall i :: 0 <= i < |entries| ==>
              ParseLine(StoryLines(Join(FormatLines(entries), '\n'))[i]) == Dialogue(entries[i].0, entries[i].1)
  {
    var lines := FormatLines(entries);
    forall i | 0 <= i < |lines|
      ensures '\n' !in lines[i]
      ensures lines[i] != [] && Strip(lines[i]) == lines[i]
      ensures ParseLine(lines[i]) == Dialogue(entries[i].0, entries[i].1)
    {
      DialogueRoundTrip(entries[i].0, entries[i].1);
      FormatLineSingle(entries[i].0, entries[i].1);
    }
    SplitJoin(lines, '\n');
    ContentLinesKeep(lines);
  }
}
