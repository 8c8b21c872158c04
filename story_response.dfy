/** The decision `generate_story` makes over a chat completion reply: take the
    message content, fall back to the story embedded in the reasoning
    content, or report why no story came back. */
module StoryResponse {
  import opened Results
  import opened Strings
  import opened Usage

  datatype Message = Message(content: Option<string>, reasoningContent: Option<string>)
  datatype Choice = Choice(message: Option<Message>, finishReason: Option<string>)
  /** The parsed body of a chat completion reply, with absent keys as `None`. */
  datatype ChatReply = ChatReply(choices: Option<seq<Choice>>, usage: Option<UsageBlock>)

  /** Why `generate_story` gave up, or the story it returns. */
  datatype StoryOutcome =
    | Story(text: string)
    | TokenLimit    // blank content and `finish_reason == "length"`
    | EmptyContent  // blank content for any other reason
    | NoContent
    | NoMessage
    | NoChoices

  /** The speaker labels searched for in the reasoning content. */
  const StoryLabels: seq<string> := ["NARRATOR:", "HERO:", "VILLAIN:", "FRIEND:", "WIZARD:"]

  /** The largest `find` index of the `labels` in `s`, -1 when none occurs. */
  function MaxFind(s: string, labels: seq<string>): (k: int)
    ensures -1 <= k <= |s|
    ensures forall i :: 0 <= i < |labels| ==> Find(s, labels[i]) <= k
    ensures k == -1 || exists i :: 0 <= i < |labels| && k == Find(s, labels[i])
    ensures k == -1 <==> forall i :: 0 <= i < |labels| ==> !Contains(s, labels[i])
    ensures k >= 0 ==> exists i :: 0 <= i < |labels| && StartsWith(s[k..], labels[i])
  {
    if labels == [] then -1
    else
      var first := Find(s, labels[0]);
      var rest := MaxFind(s, labels[1..]);
      assert forall i :: 1 <= i < |labels| ==> labels[i] == labels[1..][i - 1];
      if first < rest then
        var j :| 0 <= j < |labels| - 1 && rest == Find(s, labels[1..][j]);
        assert rest == Find(s, labels[j + 1]);
        rest
      else
        first
  }

  /** Python's `max` of the five `find` results: where the last-starting
      label's first occurrence begins. */
  function ReasoningStart(reasoning: string): (k: int)
    ensures -1 <= k <= |reasoning|
    ensures forall i :: 0 <= i < |StoryLabels| ==> Find(reasoning, StoryLabels[i]) <= k
    ensures k == -1 || exists i :: 0 <= i < |StoryLabels| && k == Find(reasoning, StoryLabels[i])
    ensures k == -1 <==> forall i :: 0 <= i < |StoryLabels| ==> !Contains(reasoning, StoryLabels[i])
    ensures k >= 0 ==>
              exists i :: 0 <= i < |StoryLabels| && StartsWith(reasoning[k..], StoryLabels[i])
  {
    MaxFind(reasoning, StoryLabels)
  }

  /** Every label starts and ends with a non-space character. */
  lemma LabelsTrimmed()
    ensures forall i :: 0 <= i < |StoryLabels| ==>
              StoryLabels[i] != [] && !IsSpace(StoryLabels[i][0])
              && !IsSpace(StoryLabels[i][|StoryLabels[i]| - 1])
  {
  }

  lemma {:induction false} ReasoningStartFound(reasoning: string)
    requires Contains(reasoning, "NARRATOR:") || Contains(reasoning, "HERO:")
    ensures ReasoningStart(reasoning) >= 0
  {
    assert Contains(reasoning, StoryLabels[0]) || Contains(reasoning, StoryLabels[1]);
  }

  /** When the reasoning names the narrator or the hero, the stripped text
      from the extraction point on starts with a label. */
  lemma {:induction false} ReasoningStoryStartsWithLabel(reasoning: string)
    requires Contains(reasoning, "NARRATOR:") || Contains(reasoning, "HERO:")
    ensures ReasoningStart(reasoning) >= 0
    ensures var story := Strip(reasoning[ReasoningStart(reasoning)..]);
            !IsBlank(story) && exists i :: 0 <= i < |StoryLabels| && StartsWith(story, StoryLabels[i])
  {
    ReasoningStartFound(reasoning);
    var k := ReasoningStart(reasoning);
    var suffix := reasoning[k..];
    var i :| 0 <= i < |StoryLabels| && StartsWith(suffix, StoryLabels[i]);
    LabelsTrimmed();
    StripKeepsPrefix(suffix, StoryLabels[i]);
    var story := Strip(suffix);
    assert StartsWith(story, StoryLabels[i]);
    assert story[0] == StoryLabels[i][0];
    assert !IsSpace(story[0]);
  }

  /** `max` picks the label whose first occurrence starts last, not the
      first label of the story: when the hero speaks before the narrator,
      the extraction starts at the narrator's line. */
  lemma {:induction false} ReasoningStartTakesLatestLabel(a: string, b: string)
    requires 'N' !in a
    requires 'V' !in a + b && 'F' !in a + b && 'W' !in a + b
    ensures ReasoningStart("HERO:" + a + "NARRATOR:" + b) == 5 + |a|
  {
    var s := "HERO:" + a + "NARRATOR:" + b;
    assert 'V' !in s && 'F' !in s && 'W' !in s;
    NarratorAfterHero(a, b, s);
    OtherLabelsAbsent(s);
    ReasoningStartIs(s, 5 + |a|);
  }

  lemma {:induction false} NarratorAfterHero(a: string, b: string, s: string)
    requires 'N' !in a && s == "HERO:" + a + "NARRATOR:" + b
    ensures Find(s, "NARRATOR:") == 5 + |a| && Find(s, "HERO:") == 0
  {
    assert s == ("HERO:" + a) + ("NARRATOR:" + b);
    FindAfter("HERO:" + a, "NARRATOR:" + b, "NARRATOR:");
    assert StartsWith(s, "HERO:");
    FindAfter([], s, "HERO:");
  }

  lemma {:induction false} OtherLabelsAbsent(s: string)
    requires 'V' !in s && 'F' !in s && 'W' !in s
    ensures Find(s, "VILLAIN:") == Find(s, "FRIEND:") == Find(s, "WIZARD:") == -1
  {
    FindAbsent(s, "VILLAIN:", 'V');
    FindAbsent(s, "FRIEND:", 'F');
    FindAbsent(s, "WIZARD:", 'W');
  }

  /** When the narrator's label is found at `n` and no other label later,
      the extraction starts at `n`. */
  lemma ReasoningStartIs(s: string, n: int)
    requires Find(s, "NARRATOR:") == n
    requires Find(s, "HERO:") <= n && Find(s, "VILLAIN:") <= n
    requires Find(s, "FRIEND:") <= n && Find(s, "WIZARD:") <= n
    ensures ReasoningStart(s) == n
  {
    var k := ReasoningStart(s);
    assert Find(s, StoryLabels[0]) <= k;
    if k != -1 {
      var i :| 0 <= i < |StoryLabels| && k == Find(s, StoryLabels[i]);
      assert i == 0 || i == 1 || i == 2 || i == 3 || i == 4;
    }
  }

  /** A pattern whose first character does not occur in `a` is first found
      where `b` starts with it. */
  lemma {:induction false} FindAfter(a: string, b: string, sub: string)
    requires sub != [] && sub[0] !in a && StartsWith(b, sub)
    ensures Find(a + b, sub) == |a|
  {
    var s := a + b;
    assert s[|a|..] == b;
    ContainsDrop(s, |a|, sub);
  }

  /** A pattern holding a character that `s` lacks is not found. */
  lemma {:induction false} FindAbsent(s: string, sub: string, c: char)
    requires c in sub && c !in s
    ensures Find(s, sub) == -1
  {
    if Contains(s, sub) {
      ContainsChars(s, sub, c);
    }
  }

  /** The fallback taken when the content is blank: when the reasoning names
      the narrator or the hero, the stripped text from `ReasoningStart` on. */
  function FromReasoning(reasoning: string): (r: Option<string>)
    ensures r.Some? <==> Contains(reasoning, "NARRATOR:") || Contains(reasoning, "HERO:")
    ensures r.Some? ==> ReasoningStart(reasoning) >= 0 && r.value == Strip(reasoning[ReasoningStart(reasoning)..])
    ensures r.Some? ==> !IsBlank(r.value)
    ensures r.Some? ==>
              exists i :: 0 <= i < |StoryLabels| && StartsWith(r.value, StoryLabels[i])
  {
    if Contains(reasoning, "NARRATOR:") || Contains(reasoning, "HERO:") then
      ReasoningStoryStartsWithLabel(reasoning);
      var start := ReasoningStart(reasoning);
      if start != -1 then Some(Strip(reasoning[start..])) else None
    else
      None
  }

  predicate HasChoice(reply: ChatReply) {
    reply.choices.Some? && |reply.choices.value| > 0
  }

  /** The outcome for a blank message content. */
  function BlankContentOutcome(m: Message, finishReason: Option<string>): (o: StoryOutcome)
    ensures o.Story? <==> m.reasoningContent.Some? && FromReasoning(m.reasoningContent.value).Some?
    ensures o.Story? ==> o == Story(FromReasoning(m.reasoningContent.value).value)
    ensures !o.Story? ==> (o.TokenLimit? <==> finishReason == Some("length"))
    ensures o.Story? || o.TokenLimit? || o.EmptyContent?
  {
    if m.reasoningContent.Some? && FromReasoning(m.reasoningContent.value).Some? then
      Story(FromReasoning(m.reasoningContent.value).value)
    else if finishReason == Some("length") then
      TokenLimit
    else
      EmptyContent
  }

  /** `generate_story`'s reading of a successful reply: the first choice's
      message content when it is not blank, else the reasoning fallback, else
      the reason for failing. */
  function DecideStory(reply: ChatReply): (o: StoryOutcome)
    ensures o.NoChoices? <==> !HasChoice(reply)
    ensures o.NoMessage? <==> HasChoice(reply) && reply.choices.value[0].message.None?
    ensures o.NoContent? <==> HasChoice(reply) && reply.choices.value[0].message.Some?
                              && reply.choices.value[0].message.value.content.None?
    ensures o.Story? ==> !IsBlank(o.text)
    ensures HasChoice(reply) && reply.choices.value[0].message.Some? ==>
              var c := reply.choices.value[0];
              var m := c.message.value;
              m.content.Some? ==>
                (!IsBlank(m.content.value) ==> o == Story(m.content.value))
                && (IsBlank(m.content.value) ==> o == BlankContentOutcome(m, c.finishReason))
  {
    if !HasChoice(reply) then NoChoices
    else
      var choice := reply.choices.value[0];
      match choice.message
      case None => NoMessage
      case Some(message) =>
        match message.content
        case None => NoContent
        case Some(story) =>
          if !IsBlank(story) then Story(story)
          else BlankContentOutcome(message, choice.finishReason)
  }

  /** A reply whose content is blank and whose reasoning names neither the
      narrator nor the hero yields no story, whatever else it holds. */
  lemma {:induction false} BlankWithoutLabelsFails(reply: ChatReply)
    requires HasChoice(reply)
    requires reply.choices.value[0].message.Some?
    requires var m := reply.choices.value[0].message.value;
             m.content.Some? && IsBlank(m.content.value)
             && (m.reasoningContent.None?
                 || (!Contains(m.reasoningContent.value, "NARRATOR:")
                     && !Contains(m.reasoningContent.value, "HERO:")))
    ensures !DecideStory(reply).Story?
  {
  }
}
