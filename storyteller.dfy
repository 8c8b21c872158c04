/** The story teller object (`MiniMaxStoryTeller` in main.py): its session
    state (rate limiters, characters, segments, caches, usage ledger) and the
    operations that change it. The network is an oracle: every request is
    answered by a given `Exchange`, and the clock is the injected `Clock`. */
module StoryTellerModel {
  import opened Results
  import opened Strings
  import opened Domain
  import opened RateLimiting
  import opened Usage
  import opened StoryResponse
  import opened NameAnalysis
  import opened SegmentParsing
  import opened ScriptFormat
  import AudioOrder
  import Config

  /** What one POST yields: a status code and the body decoded as JSON (None
      when it is not valid JSON), or a failure of the transport itself. */
  datatype HttpReply<T> = Delivered(status: int, body: Option<T>) | TransportFailure

  /** The server's reply to a request and, should that one be rate limited,
      its reply to the retry. */
  datatype Exchange<T> = Exchange(first: HttpReply<T>, retry: HttpReply<T>)

  predicate RateLimited<T>(reply: HttpReply<T>) {
    reply.Delivered? && reply.status == 429
  }

  /** The reply `raise_for_status` is applied to: the retry's after a 429,
      otherwise the first. */
  function FinalReply<T>(ex: Exchange<T>): HttpReply<T> {
    if RateLimited(ex.first) then ex.retry else ex.first
  }

  /** The statuses `raise_for_status` rejects. */
  predicate IsHttpError(status: int) {
    400 <= status < 600
  }

  /** Why a request raised. */
  datatype ApiError = RequestFailed | HttpError(status: int) | InvalidJson

  /** A reply after `raise_for_status` and `.json()`. */
  function Outcome<T>(reply: HttpReply<T>): (r: Result<T, ApiError>)
    ensures r.Success? <==> reply.Delivered? && !IsHttpError(reply.status) && reply.body.Some?
    ensures r.Success? ==> r.value == reply.body.value
    ensures r == Failure(RequestFailed) <==> reply.TransportFailure?
  {
    match reply
    case TransportFailure => Failure(RequestFailed)
    case Delivered(status, body) =>
      if IsHttpError(status) then Failure(HttpError(status))
      else if body.None? then Failure(InvalidJson)
      else Success(body.value)
  }

  /** The speech reply body, reduced to `result["data"]["audio"]`. */
  datatype TtsBody = TtsBody(audioHex: Option<string>)

  /** One synthesis request: the server's replies, and whether the hex audio
      decodes and the file is written. */
  datatype TtsCall = TtsCall(exchange: Exchange<TtsBody>, saved: bool)

  /** A synthesis request produces a file: the final reply passes
      `raise_for_status`, parses, carries audio, and the audio is saved. */
  predicate TtsSucceeds(call: TtsCall) {
    var o := Outcome(FinalReply(call.exchange));
    o.Success? && o.value.audioHex.Some? && call.saved
  }

  /** `int(time.time())` for a clock that reads a non-negative epoch time. */
  function Stamp(t: real): nat
    requires t >= 0.0
  {
    t.Floor
  }

  /** A later clock reading never gives an earlier stamp. */
  lemma {:induction false} StampMonotone(t: real, u: real)
    requires 0.0 <= t <= u
    ensures Stamp(t) <= Stamp(u)
  {
  }

  /** `f"{output_dir}/{char.name}_{timestamp}.mp3"` */
  function AudioFileName(dir: string, name: string, stamp: nat): string {
    dir + "/" + name + "_" + NatToString(stamp) + ".mp3"
  }

  /** The audio orderer reads back the timestamp a file was named with. */
  lemma {:induction false} AudioFileNameStamp(dir: string, name: string, stamp: nat)
    ensures AudioOrder.ExtractTimestamp(AudioFileName(dir, name, stamp)) == stamp
  {
    assert AudioFileName(dir, name, stamp) == (dir + "/" + name) + "_" + NatToString(stamp) + ".mp3";
    AudioOrder.TimestampOfAudioFilename(dir + "/" + name, stamp);
  }

  /** The analysis the classifier reply provides: the first choice's message
      content, stripped and decoded as a JSON object by `decode`. Nothing when
      the call failed or any part of the reply is missing. */
  function ClassifierAnalysis(o: Result<ChatReply, ApiError>, decode: string -> Option<Analysis>): Option<Analysis> {
    if o.Success? && HasChoice(o.value) && o.value.choices.value[0].message.Some?
       && o.value.choices.value[0].message.value.content.Some?
    then decode(Strip(o.value.choices.value[0].message.value.content.value))
    else None
  }

  /** The analysis `analyze_character_name_with_ai` returns for `name`: the
      cached one (cache keyed by the lowercased name), else the classifier's
      completed with defaults, else the pattern-based fallback. */
  function AnalysisFor(name: string, cache: map<string, Analysis>, o: Result<ChatReply, ApiError>,
                       decode: string -> Option<Analysis>): Analysis
  {
    if Lower(name) in cache then cache[Lower(name)]
    else match ClassifierAnalysis(o, decode)
      case Some(parsed) => WithDefaults(parsed)
      case None => FallbackAnalysis(name)
  }

  /** The four built-in characters the story teller starts with. */
  function DefaultCharacters(): map<string, Character> {
    map[
      "narrator" := Character("Narrator", Config.NarratorDescription, "English_expressive_narrator",
                              1.0, 1.0, 0.0, "calm"),
      "hero" := Character("Hero", Config.HeroDescription, "English_magnetic_voiced_man",
                          1.0, 1.0, 0.0, "brave"),
      "villain" := Character("Villain", Config.VillainDescription, "English_ManWithDeepVoice",
                             0.8, 1.0, -0.3, "sinister"),
      "friend" := Character("Friend", Config.FriendDescription, "English_radiant_girl",
                            1.1, 1.0, 0.2, "friendly")]
  }

  /** The segment `parse_story_into_segments` builds for a content line:
      narration goes to the built-in narrator, a speaker's line to the
      profile the resolver cached for that exact name. */
  predicate SegmentFor(line: string, seg: Segment, narrator: Character, cache: map<string, Character>) {
    && seg.audioFile.None?
    && match ParseLine(line)
       case Narration(text) => seg.character == narrator && seg.text == text
       case Dialogue(speaker, text) => speaker in cache && seg.character == cache[speaker] && seg.text == text
  }

  /** Each of `segments` is what the line at its position gives. */
  ghost predicate SegmentsFor(lines: seq<string>, segments: seq<Segment>, narrator: Character,
                              cache: map<string, Character>)
  {
    |segments| <= |lines| && forall i :: 0 <= i < |segments| ==> SegmentFor(lines[i], segments[i], narrator, cache)
  }

  /** The segments so far stay what their lines give when the cache only
      grows, and the next line's segment is appended. */
  lemma {:induction false} SegmentsForStep(lines: seq<string>, segments: seq<Segment>, narrator: Character,
                        cache: map<string, Character>, cache': map<string, Character>, segment: Segment)
    requires SegmentsFor(lines, segments, narrator, cache) && |segments| < |lines|
    requires Extends(cache, cache')
    requires SegmentFor(lines[|segments|], segment, narrator, cache')
    ensures SegmentsFor(lines, segments + [segment], narrator, cache')
  {
    forall i | 0 <= i < |segments| ensures SegmentFor(lines[i], segments[i], narrator, cache') {
      assert SegmentFor(lines[i], segments[i], narrator, cache);
    }
  }

  /** `cache'` keeps every entry of `cache`. */
  predicate Extends<V(==)>(cache: map<string, V>, cache': map<string, V>) {
    forall k :: k in cache ==> k in cache' && cache'[k] == cache[k]
  }

  /** The analysis cache after `analyze_character_name_with_ai` for `name`:
      the classifier's completed analysis is added for an uncached name when
      the reply yields one; nothing else changes. */
  function AnalysesAfter(name: string, cache: map<string, Analysis>, o: Result<ChatReply, ApiError>,
                         decode: string -> Option<Analysis>): (cache': map<string, Analysis>)
    ensures Extends(cache, cache')
    ensures cache'.Keys <= cache.Keys + {Lower(name)}
    ensures Lower(name) in cache' ==> cache'[Lower(name)] == AnalysisFor(name, cache, o, decode)
    ensures Lower(name) !in cache' ==> AnalysisFor(name, cache, o, decode) == FallbackAnalysis(name)
  {
    if Lower(name) in cache then cache
    else match ClassifierAnalysis(o, decode)
      case Some(parsed) => cache[Lower(name) := WithDefaults(parsed)]
      case None => cache
  }

  /** Every total of `l'` is at least the one in `l`. */
  predicate Grew(l: Ledger, l': Ledger) {
    l.totalCalls <= l'.totalCalls && l.totalTokens <= l'.totalTokens && l.estimatedCost <= l'.estimatedCost
  }

  /** The ledger after `analyze_character_name_with_ai` for `name`: a cached
      name costs no request; otherwise the ledger exists afterwards and
      counts one more call exactly when the request succeeded. */
  function LedgerAfter(name: string, cache: map<string, Analysis>, stats: Option<Ledger>,
                       o: Result<ChatReply, ApiError>): (stats': Option<Ledger>)
    ensures Lower(name) in cache ==> stats' == stats
    ensures Lower(name) !in cache ==>
              && stats'.Some? && Grew(stats.GetOr(EmptyLedger), stats'.value)
              && (stats'.value.totalCalls == stats.GetOr(EmptyLedger).totalCalls + 1 <==> o.Success?)
  {
    if Lower(name) in cache then stats
    else if o.Success? then
      RecordGrows(stats.GetOr(EmptyLedger), ModelFor("name_analysis"), o.value.usage);
      Some(Record(stats.GetOr(EmptyLedger), ModelFor("name_analysis"), o.value.usage))
    else Some(stats.GetOr(EmptyLedger))
  }

  /** `ch` is built from analysis `a` for `name`, with a voice of the pool
      `a` selects. */
  predicate FromAnalysis(name: string, ch: Character, a: Analysis) {
    ch == ResolvedCharacter(name, a, ch.voiceId) && ch.voiceId in Pool(SelectCategory(a))
  }

  /** `ch` is a profile resolving `name` can produce: from the analysis
      cached for the lowercased name, or from the fallback analysis. */
  predicate Resolved(name: string, ch: Character, analyses: map<string, Analysis>) {
    || FromAnalysis(name, ch, FallbackAnalysis(name))
    || (Lower(name) in analyses && FromAnalysis(name, ch, analyses[Lower(name)]))
  }

  /** The profile a newly resolved name gets is one `Resolved` admits
      against the analysis cache afterwards. */
  lemma {:induction false} ResolvedByAnalysis(name: string, cache: map<string, Analysis>, o: Result<ChatReply, ApiError>,
                                             decode: string -> Option<Analysis>, index: map<Category, nat>)
    ensures var a := AnalysisFor(name, cache, o, decode);
            Resolved(name, ResolvedCharacter(name, a, NextVoice(SelectCategory(a), index)),
                     AnalysesAfter(name, cache, o, decode))
  {
  }

  /** What resolving labels does to the session, from the caches, positions
      and ledger `vc0`, `ac0`, `idx0`, `st0` to `vc`, `ac`, `idx`, `st`:
      resolved profiles are kept and every new one is one `Resolved`
      admits; cached analyses are kept; no round-robin position goes back;
      the ledger, once there, stays, and its totals only grow; and when no
      new profile was made nothing else changed. */
  ghost predicate Progressed(vc0: map<string, Character>, ac0: map<string, Analysis>,
                             idx0: map<Category, nat>, st0: Option<Ledger>,
                             vc: map<string, Character>, ac: map<string, Analysis>,
                             idx: map<Category, nat>, st: Option<Ledger>)
  {
    && Extends(vc0, vc)
    && (forall s :: s in vc && s !in vc0 ==> Resolved(s, vc[s], ac))
    && Extends(ac0, ac)
    && (forall c :: Count(idx0, c) <= Count(idx, c))
    && (st0.Some? ==> st.Some?)
    && (st.Some? ==> Grew(st0.GetOr(EmptyLedger), st.value))
    && (vc == vc0 ==> ac == ac0 && idx == idx0 && st == st0)
  }

  /** Progress composes: two rounds of resolution are one. */
  lemma {:induction false} ProgressedTransitive(vc0: map<string, Character>, ac0: map<string, Analysis>,
                                               idx0: map<Category, nat>, st0: Option<Ledger>,
                                               vc1: map<string, Character>, ac1: map<string, Analysis>,
                                               idx1: map<Category, nat>, st1: Option<Ledger>,
                                               vc2: map<string, Character>, ac2: map<string, Analysis>,
                                               idx2: map<Category, nat>, st2: Option<Ledger>)
    requires Progressed(vc0, ac0, idx0, st0, vc1, ac1, idx1, st1)
    requires Progressed(vc1, ac1, idx1, st1, vc2, ac2, idx2, st2)
    ensures Progressed(vc0, ac0, idx0, st0, vc2, ac2, idx2, st2)
  {
    forall s | s in vc2 && s !in vc0 ensures Resolved(s, vc2[s], ac2) {
      if s in vc1 {
        ResolvedKept(s, vc1[s], ac1, ac2);
      }
    }
    if vc2 == vc0 {
      assert vc1.Keys == vc0.Keys;
      assert vc1 == vc0;
    }
  }

  /** Resolving nothing new is progress. */
  lemma {:induction false} ProgressedReflexive(vc: map<string, Character>, ac: map<string, Analysis>,
                                              idx: map<Category, nat>, st: Option<Ledger>)
    ensures Progressed(vc, ac, idx, st, vc, ac, idx, st)
  {
  }

  /** Resolving a new name, as `map_character_name_to_voice` does, is
      progress. */
  lemma {:induction false} ProgressedByResolution(name: string, vc: map<string, Character>, ac: map<string, Analysis>,
                                                 idx: map<Category, nat>, st: Option<Ledger>,
                                                 o: Result<ChatReply, ApiError>, decode: string -> Option<Analysis>)
    requires name !in vc
    ensures var a := AnalysisFor(name, ac, o, decode);
            var c := SelectCategory(a);
            Progressed(vc, ac, idx, st, vc[name := ResolvedCharacter(name, a, NextVoice(c, idx))],
                       AnalysesAfter(name, ac, o, decode), Advanced(c, idx), LedgerAfter(name, ac, st, o))
  {
    ResolvedByAnalysis(name, ac, o, decode, idx);
  }

  /** A resolution stays admissible while the analysis cache only grows. */
  lemma {:induction false} ResolvedKept(name: string, ch: Character, analyses: map<string, Analysis>,
                                       analyses': map<string, Analysis>)
    requires Resolved(name, ch, analyses) && Extends(analyses, analyses')
    ensures Resolved(name, ch, analyses')
  {
  }

  /** The files of the successful requests, in segment order. */
  function GeneratedFiles(segments: seq<Segment>, calls: seq<TtsCall>, dir: string, stamps: seq<nat>): (files: seq<string>)
    requires |calls| == |segments| == |stamps|
    ensures |files| <= |segments|
  {
    if segments == [] then []
    else
      var n := |segments| - 1;
      GeneratedFiles(segments[..n], calls[..n], dir, stamps[..n])
        + (if TtsSucceeds(calls[n]) then [AudioFileName(dir, segments[n].character.name, stamps[n])] else [])
  }

  /** The progress of `generate_full_story_audio` after `k` of the
      `original` segments: those have been through synthesis, at the clock
      readings `stamps`, and the rest are untouched; `files` holds the files
      produced so far. */
  ghost predicate Synthesized(original: seq<Segment>, calls: seq<TtsCall>, dir: string, k: nat,
                              segments: seq<Segment>, files: seq<string>, stamps: seq<nat>)
  {
    && |segments| == |original| == |calls| && |stamps| == k <= |original|
    && NonDecreasing(stamps)
    && files == GeneratedFiles(original[..k], calls[..k], dir, stamps)
    && (forall i :: 0 <= i < k ==> segments[i] == AfterSynthesis(original[i], calls[i], dir, stamps[i]))
    && (forall i :: k <= i < |segments| ==> segments[i] == original[i])
  }

  /** One more segment through synthesis, at a reading no earlier than the
      previous ones. */
  lemma {:induction false} SynthesizedStep(original: seq<Segment>, calls: seq<TtsCall>, dir: string, k: nat,
                        segments: seq<Segment>, files: seq<string>, stamps: seq<nat>,
                        stamp: nat, file: Option<string>, updated: Segment)
    requires Synthesized(original, calls, dir, k, segments, files, stamps) && k < |original|
    requires k > 0 ==> stamps[k - 1] <= stamp
    requires file.Some? <==> TtsSucceeds(calls[k])
    requires file.Some? ==> file.value == AudioFileName(dir, segments[k].character.name, stamp)
    requires updated == AfterSynthesis(segments[k], calls[k], dir, stamp)
    ensures Synthesized(original, calls, dir, k + 1, segments[k := updated],
                        files + (if file.Some? then [file.value] else []), stamps + [stamp])
  {
    assert original[..k + 1][..k] == original[..k] && calls[..k + 1][..k] == calls[..k];
    assert (stamps + [stamp])[..k] == stamps;
  }

  /** Once every segment has been through synthesis. */
  lemma {:induction false} SynthesizedAll(original: seq<Segment>, calls: seq<TtsCall>, dir: string,
                       segments: seq<Segment>, files: seq<string>, stamps: seq<nat>)
    requires Synthesized(original, calls, dir, |original|, segments, files, stamps)
    ensures files == GeneratedFiles(original, calls, dir, stamps)
    ensures forall i :: 0 <= i < |segments| ==> segments[i] == AfterSynthesis(original[i], calls[i], dir, stamps[i])
  {
    assert original[..|original|] == original && calls[..|original|] == calls;
  }

  /** A segment after its synthesis request: it gains the file on success
      and is left as it was otherwise. */
  function AfterSynthesis(seg: Segment, call: TtsCall, dir: string, stamp: nat): Segment {
    if TtsSucceeds(call) then seg.(audioFile := Some(AudioFileName(dir, seg.character.name, stamp))) else seg
  }

  /** The voice a newly resolved name gets: the next one, round robin, of
      the pool of the category its analysis selects. */
  function NextVoice(c: Category, index: map<Category, nat>): (voice: string)
    ensures voice in Pool(c)
  {
    Pool(c)[Count(index, c) % |Pool(c)|]
  }

  /** The round-robin positions after resolving a name with analysis `a`:
      its category's position advances by one. */
  function Advanced(c: Category, index: map<Category, nat>): map<Category, nat> {
    index[c := Count(index, c) + 1]
  }

  predicate NonDecreasing(s: seq<nat>) {
    forall i :: 0 < i < |s| ==> s[i - 1] <= s[i]
  }

  /** Each step up being non-decreasing, so is every pair. */
  lemma {:induction false} NonDecreasingPairs(s: seq<nat>, i: nat, j: nat)
    requires NonDecreasing(s) && i <= j < |s|
    ensures s[i] <= s[j]
    decreases j - i
  {
    if i < j {
      NonDecreasingPairs(s, i, j - 1);
    }
  }

  class StoryTeller {
    const clock: Clock
    const chatLimiter: RateLimiter
    const ttsLimiter: RateLimiter
    /** Seconds to wait after a rate-limit reply. */
    const retryDelay: real
    /** Read from the configuration but never consulted: the retry happens
        at most once whatever it says. */
    const maxRetries: nat
    var characters: map<string, Character>
    var storySegments: seq<Segment>
    var currentStory: string
    /** Resolved profiles, keyed by the exact name. */
    var nameVoiceCache: map<string, Character>
    /** Completed classifier analyses, keyed by the lowercased name. */
    var nameAnalysisCache: map<string, Analysis>
    /** The next round-robin position in each voice pool (absent means 0). */
    var voiceSelectionIndex: map<Category, nat>
    /** `api_usage_stats`, absent until the first chat request. */
    var usageStats: Option<Ledger>

    /** Both limiters keep their window bound and have recorded nothing
        later than the clock, which reads a non-negative epoch time. */
    ghost predicate LimitersValid()
      reads clock, chatLimiter, ttsLimiter
    {
      && chatLimiter != ttsLimiter
      && chatLimiter.Valid() && ttsLimiter.Valid()
      && chatLimiter.requestsPerMinute == Config.Limits.chatRpm
      && ttsLimiter.requestsPerMinute == Config.Limits.ttsRpm
      && chatLimiter.NotAfter(clock.now) && ttsLimiter.NotAfter(clock.now)
      && clock.now >= 0.0
    }

    /** The session state: the narrator is always defined, the ledger is
        consistent, every resolved profile carries the name it was resolved
        for, and every cached analysis is complete. */
    ghost predicate StateValid()
      reads this`characters, this`usageStats, this`nameVoiceCache, this`nameAnalysisCache
    {
      && retryDelay == Config.Limits.retryDelay as real
      && "narrator" in characters
      && (usageStats.Some? ==> Consistent(usageStats.value))
      && (forall n :: n in nameVoiceCache ==> nameVoiceCache[n].name == n)
      && (forall k :: k in nameAnalysisCache ==> Complete(nameAnalysisCache[k]))
    }

    ghost predicate Valid()
      reads this, clock, chatLimiter, ttsLimiter
    {
      LimitersValid() && StateValid()
    }

    constructor (clock: Clock)
      requires clock.now >= 0.0
      ensures Valid()
      ensures this.clock == clock && fresh(chatLimiter) && fresh(ttsLimiter)
      ensures chatLimiter.requestTimes == [] && ttsLimiter.requestTimes == []
      ensures maxRetries == Config.Limits.maxRetries
      ensures characters == DefaultCharacters()
      ensures storySegments == [] && currentStory == ""
      ensures nameVoiceCache == map[] && nameAnalysisCache == map[] && voiceSelectionIndex == map[]
      ensures usageStats.None?
    {
      this.clock := clock;
      chatLimiter := new RateLimiter(100);
      ttsLimiter := new RateLimiter(50);
      retryDelay := Config.Limits.retryDelay as real;
      maxRetries := Config.Limits.maxRetries;
      characters := DefaultCharacters();
      storySegments := [];
      currentStory := "";
      nameVoiceCache := map[];
      nameAnalysisCache := map[];
      voiceSelectionIndex := map[];
      usageStats := None;
    }

    /** `add_character`: stored under the lowercased name, replacing any
        character already there; the narrator entry never goes away. */
    method AddCharacter(c: Character)
      requires Valid()
      modifies this
      ensures Valid()
      ensures characters == old(characters)[Lower(c.name) := c]
      ensures "narrator" in characters
      ensures storySegments == old(storySegments) && currentStory == old(currentStory)
      ensures nameVoiceCache == old(nameVoiceCache) && nameAnalysisCache == old(nameAnalysisCache)
      ensures voiceSelectionIndex == old(voiceSelectionIndex) && usageStats == old(usageStats)
    {
      characters := characters[Lower(c.name) := c];
    }

    /** One request with the retry-once policy: wait on the limiter, post; on
        a 429 sleep `retryDelay`, wait on the limiter again and post once
        more. The reply returned is final. The retry's request is recorded
        no earlier than `retryDelay` after the call began. */
    method PostWithRetry<T>(limiter: RateLimiter, ex: Exchange<T>) returns (reply: HttpReply<T>, ghost posts: nat)
      requires Valid() && (limiter == chatLimiter || limiter == ttsLimiter)
      modifies limiter, clock
      ensures Valid()
      ensures reply == FinalReply(ex)
      ensures posts == (if RateLimited(ex.first) then 2 else 1)
      ensures clock.now >= old(clock.now)
      ensures limiter.requestTimes != [] && Last(limiter.requestTimes) >= old(clock.now)
      ensures RateLimited(ex.first) ==>
                clock.now >= Last(limiter.requestTimes) >= old(clock.now) + retryDelay
    {
      limiter.WaitIfNeeded(clock);
      reply := ex.first;
      posts := 1;
      if RateLimited(reply) {
        clock.Sleep(retryDelay);
        limiter.WaitIfNeeded(clock);
        reply := ex.retry;
        posts := 2;
      }
    }

    /** `make_api_call`: the ledger is created if absent; a request with the
        retry-once policy; a call that passes `raise_for_status` and parses is
        recorded against the model chosen for `modelType`, any other leaves
        the ledger as it was. */
    method MakeApiCall(modelType: string, ex: Exchange<ChatReply>) returns (r: Result<ChatReply, ApiError>)
      requires Valid()
      modifies this, chatLimiter, clock
      ensures Valid()
      ensures r == Outcome(FinalReply(ex))
      ensures var before := old(usageStats).GetOr(EmptyLedger);
              usageStats == Some(if r.Success? then Record(before, ModelFor(modelType), r.value.usage) else before)
      ensures clock.now >= old(clock.now)
      ensures characters == old(characters) && storySegments == old(storySegments)
      ensures currentStory == old(currentStory) && nameVoiceCache == old(nameVoiceCache)
      ensures nameAnalysisCache == old(nameAnalysisCache) && voiceSelectionIndex == old(voiceSelectionIndex)
    {
      var model := ModelFor(modelType);
      var before := usageStats.GetOr(EmptyLedger);
      EmptyLedgerConsistent();
      var reply, _ := PostWithRetry(chatLimiter, ex);
      r := Outcome(reply);
      if r.Success? {
        RecordConsistent(before, model, r.value.usage);
        usageStats := Some(Record(before, model, r.value.usage));
      } else {
        usageStats := Some(before);
      }
    }

    /** `generate_story` after the prompt is built: the story when the
        reply yields one (and it becomes the current story), nothing on any
        failure. */
    method GenerateStory(ex: Exchange<ChatReply>) returns (story: Option<string>)
      requires Valid()
      modifies this, chatLimiter, clock
      ensures Valid()
      ensures var o := Outcome(FinalReply(ex));
              && (story.Some? <==> o.Success? && DecideStory(o.value).Story?)
              && (story.Some? ==> story.value == DecideStory(o.value).text)
      ensures story.Some? ==> !IsBlank(story.value) && currentStory == story.value
      ensures story.None? ==> currentStory == old(currentStory)
      ensures var before := old(usageStats).GetOr(EmptyLedger);
              var o := Outcome(FinalReply(ex));
              usageStats == Some(if o.Success? then Record(before, StoryModel, o.value.usage) else before)
      ensures characters == old(characters) && storySegments == old(storySegments)
      ensures nameVoiceCache == old(nameVoiceCache) && nameAnalysisCache == old(nameAnalysisCache)
      ensures voiceSelectionIndex == old(voiceSelectionIndex)
    {
      var r := MakeApiCall("story_generation", ex);
      story := None;
      if r.Success? {
        var outcome := DecideStory(r.value);
        if outcome.Story? {
          currentStory := outcome.text;
          story := Some(outcome.text);
        }
      }
    }

    /** `analyze_character_name_with_ai`: a cached analysis (by lowercased
        name) is returned without a request; otherwise the classifier is
        asked, and its analysis, completed with defaults, is cached and
        returned; when it yields none the fallback is returned uncached. */
    method AnalyzeName(name: string, ex: Exchange<ChatReply>, decode: string -> Option<Analysis>) returns (a: Analysis)
      requires Valid()
      modifies this, chatLimiter, clock
      ensures Valid()
      ensures Complete(a)
      ensures a == AnalysisFor(name, old(nameAnalysisCache), Outcome(FinalReply(ex)), decode)
      ensures Lower(name) in old(nameAnalysisCache) ==>
                && nameAnalysisCache == old(nameAnalysisCache) && usageStats == old(usageStats)
                && clock.now == old(clock.now) && chatLimiter.requestTimes == old(chatLimiter.requestTimes)
      ensures Lower(name) !in old(nameAnalysisCache) ==>
                var o := Outcome(FinalReply(ex));
                && nameAnalysisCache == (if ClassifierAnalysis(o, decode).Some?
                                         then old(nameAnalysisCache)[Lower(name) := a]
                                         else old(nameAnalysisCache))
                && usageStats == Some(if o.Success? then Record(old(usageStats).GetOr(EmptyLedger), ModelFor("name_analysis"), o.value.usage)
                                      else old(usageStats).GetOr(EmptyLedger))
      ensures clock.now >= old(clock.now)
      ensures characters == old(characters) && storySegments == old(storySegments)
      ensures currentStory == old(currentStory) && nameVoiceCache == old(nameVoiceCache)
      ensures voiceSelectionIndex == old(voiceSelectionIndex)
    {
      var key := Lower(name);
      if key in nameAnalysisCache {
        return nameAnalysisCache[key];
      }
      a := ClassifyName(name, ex, decode);
    }

    /** The request half of `analyze_character_name_with_ai`, for a name
        not yet cached: the classifier's analysis completed with defaults and
        cached under the lowercased name, or the fallback, uncached. */
    method ClassifyName(name: string, ex: Exchange<ChatReply>, decode: string -> Option<Analysis>) returns (a: Analysis)
      requires Valid() && Lower(name) !in nameAnalysisCache
      modifies this, chatLimiter, clock
      ensures Valid()
      ensures Complete(a)
      ensures var o := Outcome(FinalReply(ex));
              && a == (if ClassifierAnalysis(o, decode).Some? then WithDefaults(ClassifierAnalysis(o, decode).value)
                       else FallbackAnalysis(name))
              && nameAnalysisCache == (if ClassifierAnalysis(o, decode).Some?
                                       then old(nameAnalysisCache)[Lower(name) := a]
                                       else old(nameAnalysisCache))
              && usageStats == Some(if o.Success? then Record(old(usageStats).GetOr(EmptyLedger), ModelFor("name_analysis"), o.value.usage)
                                    else old(usageStats).GetOr(EmptyLedger))
      ensures clock.now >= old(clock.now)
      ensures characters == old(characters) && storySegments == old(storySegments)
      ensures currentStory == old(currentStory) && nameVoiceCache == old(nameVoiceCache)
      ensures voiceSelectionIndex == old(voiceSelectionIndex)
    {
      var r := MakeApiCall("name_analysis", ex);
      a := KeepAnalysis(name, ClassifierAnalysis(r, decode));
    }

    /** What `analyze_character_name_with_ai` does with the classifier's
        answer: a parsed analysis is completed with defaults and cached under
        the lowercased name; without one, the fallback is returned uncached. */
    method KeepAnalysis(name: string, parsed: Option<Analysis>) returns (a: Analysis)
      requires Valid()
      modifies this
      ensures Valid()
      ensures Complete(a)
      ensures a == (if parsed.Some? then WithDefaults(parsed.value) else FallbackAnalysis(name))
      ensures nameAnalysisCache == (if parsed.Some? then old(nameAnalysisCache)[Lower(name) := a]
                                    else old(nameAnalysisCache))
      ensures usageStats == old(usageStats)
      ensures characters == old(characters) && storySegments == old(storySegments)
      ensures currentStory == old(currentStory) && nameVoiceCache == old(nameVoiceCache)
      ensures voiceSelectionIndex == old(voiceSelectionIndex)
    {
      if parsed.Some? {
        a := FillDefaults(parsed.value);
        nameAnalysisCache := nameAnalysisCache[Lower(name) := a];
      } else {
        FallbackComplete(name);
        a := FallbackAnalysis(name);
      }
    }

    /** The second half of `map_character_name_to_voice`, once the name is
        analysed: the category's round-robin position picks the voice and
        advances, and the new profile is cached under the exact name. */
    method AssignVoice(name: string, a: Analysis, c: Category, pool: seq<string>) returns (ch: Character)
      requires Valid() && |pool| > 0
      modifies this
      ensures Valid()
      ensures ch == ResolvedCharacter(name, a, pool[Count(old(voiceSelectionIndex), c) % |pool|])
      ensures voiceSelectionIndex == Advanced(c, old(voiceSelectionIndex))
      ensures nameVoiceCache == old(nameVoiceCache)[name := ch]
      ensures characters == old(characters) && storySegments == old(storySegments)
      ensures currentStory == old(currentStory) && nameAnalysisCache == old(nameAnalysisCache)
      ensures usageStats == old(usageStats)
    {
      ghost var index0 := voiceSelectionIndex;
      if c !in voiceSelectionIndex {
        voiceSelectionIndex := voiceSelectionIndex[c := 0];
      }
      var i := voiceSelectionIndex[c];
      assert i == Count(index0, c);
      var voice := pool[i % |pool|];
      voiceSelectionIndex := voiceSelectionIndex[c := i + 1];
      ch := ResolvedCharacter(name, a, voice);
      nameVoiceCache := nameVoiceCache[name := ch];
    }

    /** `map_character_name_to_voice`: a name resolved before (exactly this
        spelling) gets the identical profile back and nothing changes;
        otherwise its analysis picks a category, the category's round-robin
        position picks the voice and advances, and the new profile is
        cached under the name. */
    method MapNameToVoice(name: string, ex: Exchange<ChatReply>, decode: string -> Option<Analysis>) returns (ch: Character)
      requires Valid()
      modifies this, chatLimiter, clock
      ensures Valid()
      ensures ch.name == name
      ensures name in nameVoiceCache && nameVoiceCache[name] == ch
      ensures Extends(old(nameVoiceCache), nameVoiceCache)
      ensures name in old(nameVoiceCache) ==>
                && ch == old(nameVoiceCache)[name]
                && nameVoiceCache == old(nameVoiceCache)
                && voiceSelectionIndex == old(voiceSelectionIndex)
                && nameAnalysisCache == old(nameAnalysisCache) && usageStats == old(usageStats)
                && clock.now == old(clock.now)
      ensures name !in old(nameVoiceCache) ==>
                var a := AnalysisFor(name, old(nameAnalysisCache), Outcome(FinalReply(ex)), decode);
                var c := SelectCategory(a);
                && ch == ResolvedCharacter(name, a, NextVoice(c, old(voiceSelectionIndex)))
                && voiceSelectionIndex == Advanced(c, old(voiceSelectionIndex))
                && nameVoiceCache == old(nameVoiceCache)[name := ch]
                && nameAnalysisCache == AnalysesAfter(name, old(nameAnalysisCache), Outcome(FinalReply(ex)), decode)
                && usageStats == LedgerAfter(name, old(nameAnalysisCache), old(usageStats), Outcome(FinalReply(ex)))
      ensures Progressed(old(nameVoiceCache), old(nameAnalysisCache), old(voiceSelectionIndex), old(usageStats),
                         nameVoiceCache, nameAnalysisCache, voiceSelectionIndex, usageStats)
      ensures clock.now >= old(clock.now)
      ensures characters == old(characters) && storySegments == old(storySegments)
      ensures currentStory == old(currentStory)
    {
      if name in nameVoiceCache {
        ProgressedReflexive(nameVoiceCache, nameAnalysisCache, voiceSelectionIndex, usageStats);
        return nameVoiceCache[name];
      }
      ProgressedByResolution(name, nameVoiceCache, nameAnalysisCache, voiceSelectionIndex, usageStats,
                             Outcome(FinalReply(ex)), decode);
      var a := AnalyzeName(name, ex, decode);
      var c := SelectCategory(a);
      ch := AssignVoice(name, a, c, Pool(c));
    }

    /** `parse_story_into_segments`: one segment per content line, in order,
        narration spoken by the built-in narrator and every speaker's line by
        the profile resolved for that exact label; the result becomes the
        story's segments. Every label resolved for the first time gets a
        profile built from its analysis with a voice from the pool that
        analysis selects; the analysis cache only grows, no round-robin
        position goes back, the ledger's totals only grow, and when every
        label was resolved before nothing but the segments changes.
        `classifier` gives the classifier's replies for a label. */
    method ParseStoryIntoSegments(story: string, classifier: string -> Exchange<ChatReply>,
                                  decode: string -> Option<Analysis>) returns (segments: seq<Segment>)
      requires Valid()
      modifies this, chatLimiter, clock
      ensures Valid()
      ensures storySegments == segments
      ensures |segments| == |StoryLines(story)|
      ensures SegmentsFor(StoryLines(story), segments, characters["narrator"], nameVoiceCache)
      ensures Progressed(old(nameVoiceCache), old(nameAnalysisCache), old(voiceSelectionIndex), old(usageStats),
                         nameVoiceCache, nameAnalysisCache, voiceSelectionIndex, usageStats)
      ensures characters == old(characters) && currentStory == old(currentStory)
    {
      var lines := StoryLines(story);
      segments := [];
      for k := 0 to |lines|
        invariant Valid()
        invariant |segments| == k
        invariant SegmentsFor(lines, segments, characters["narrator"], nameVoiceCache)
        invariant Progressed(old(nameVoiceCache), old(nameAnalysisCache), old(voiceSelectionIndex), old(usageStats),
                             nameVoiceCache, nameAnalysisCache, voiceSelectionIndex, usageStats)
        invariant characters == old(characters) && currentStory == old(currentStory)
      {
        ghost var before := nameVoiceCache;
        ghost var analyses, index, stats := nameAnalysisCache, voiceSelectionIndex, usageStats;
        var segment;
        match ParseLine(lines[k]) {
          case Narration(text) =>
            segment := Segment(characters["narrator"], text, None);
          case Dialogue(speaker, text) =>
            var ch := MapNameToVoice(speaker, classifier(speaker), decode);
            ProgressedTransitive(old(nameVoiceCache), old(nameAnalysisCache), old(voiceSelectionIndex), old(usageStats),
                                 before, analyses, index, stats,
                                 nameVoiceCache, nameAnalysisCache, voiceSelectionIndex, usageStats);
            segment := Segment(ch, text, None);
        }
        SegmentsForStep(lines, segments, characters["narrator"], before, nameVoiceCache, segment);
        segments := segments + [segment];
      }
      storySegments := segments;
    }

    /** `generate_audio_for_segment`: the file name is fixed from the clock
        before the speech limiter waits; the file is produced exactly when
        the request succeeds, and only then does the segment record it. */
    method GenerateAudioForSegment(segment: Segment, outputDir: string, call: TtsCall)
      returns (file: Option<string>, updated: Segment)
      requires Valid()
      modifies ttsLimiter, clock
      ensures Valid()
      ensures file.Some? <==> TtsSucceeds(call)
      ensures file.Some? ==> file.value == AudioFileName(outputDir, segment.character.name, Stamp(old(clock.now)))
      ensures updated == AfterSynthesis(segment, call, outputDir, Stamp(old(clock.now)))
      ensures clock.now >= old(clock.now)
    {
      var stamp := Stamp(clock.now);
      var filename := AudioFileName(outputDir, segment.character.name, stamp);
      var reply, _ := PostWithRetry(ttsLimiter, call.exchange);
      var r := Outcome(reply);
      if r.Success? && r.value.audioHex.Some? && call.saved {
        file := Some(filename);
        updated := segment.(audioFile := file);
      } else {
        file := None;
        updated := segment;
      }
    }

    /** `generate_full_story_audio`: one request per segment, in order;
        segments whose request fails are skipped; the files of the others
        are returned in segment order and recorded on their segments. The
        files are named from non-decreasing clock readings. */
    method GenerateFullStoryAudio(outputDir: string, calls: seq<TtsCall>)
      returns (files: seq<string>, ghost stamps: seq<nat>)
      requires Valid() && |calls| == |storySegments|
      modifies this, ttsLimiter, clock
      ensures Valid()
      ensures |stamps| == |calls| && NonDecreasing(stamps)
      ensures forall i :: 0 <= i < |stamps| ==> stamps[i] >= Stamp(old(clock.now))
      ensures files == GeneratedFiles(old(storySegments), calls, outputDir, stamps)
      ensures |storySegments| == |old(storySegments)|
      ensures forall i :: 0 <= i < |storySegments| ==>
                storySegments[i] == AfterSynthesis(old(storySegments)[i], calls[i], outputDir, stamps[i])
      ensures characters == old(characters) && currentStory == old(currentStory)
      ensures nameVoiceCache == old(nameVoiceCache) && nameAnalysisCache == old(nameAnalysisCache)
      ensures voiceSelectionIndex == old(voiceSelectionIndex) && usageStats == old(usageStats)
    {
      var segments := storySegments;
      ghost var start := Stamp(clock.now);
      files := [];
      stamps := [];
      for k := 0 to |segments|
        modifies ttsLimiter, clock
        invariant Valid()
        invariant Synthesized(storySegments, calls, outputDir, k, segments, files, stamps)
        invariant k > 0 ==> start <= stamps[0] && stamps[k - 1] <= Stamp(clock.now)
        invariant start <= Stamp(clock.now)
      {
        ghost var now := clock.now;
        var file, updated := GenerateAudioForSegment(segments[k], outputDir, calls[k]);
        StampMonotone(now, clock.now);
        SynthesizedStep(storySegments, calls, outputDir, k, segments, files, stamps, Stamp(now), file, updated);
        segments := segments[k := updated];
        if file.Some? {
          files := files + [file.value];
        }
        stamps := stamps + [Stamp(now)];
      }
      SynthesizedAll(storySegments, calls, outputDir, segments, files, stamps);
      forall i | 0 <= i < |stamps| ensures stamps[i] >= start {
        NonDecreasingPairs(stamps, 0, i);
      }
      storySegments := segments;
    }

    /** The text `create_story_script` writes. Reading it back in text mode
        and scanning its `Audio:` lines yields the segments' audio files in
        segment order. */
    function Script(): (text: string)
      reads this
      ensures (forall i :: 0 <= i < |storySegments| ==> Scriptable(storySegments[i])) ==>
                FindAudioPaths(TextModeRead(text)) == AudioFilesOf(storySegments)
    {
      if forall i :: 0 <= i < |storySegments| ==> Scriptable(storySegments[i]) then
        ScriptRoundTrip(storySegments);
        ScriptText(storySegments)
      else
        ScriptText(storySegments)
    }
  }
}
