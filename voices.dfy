/** Post-processing of the voice catalogue returned by the voice-listing
    endpoint (get_available_voices.py): the sorted, duplicate-free list of
    voice identifiers, and keyword-based suggestions of a voice per kind of
    character. */
module VoiceCatalog {
  import opened Results
  import opened Strings

  /** One voice of the catalogue; either field may be missing. */
  datatype Voice = Voice(voiceId: Option<string>, voiceName: Option<string>)

  /** The decoded reply: voice lists keyed by category. */
  type VoicesData = map<string, seq<Voice>>

  /** The categories whose voices are collected, in the order they are read. */
  const Categories: seq<string> := ["system_voice", "voice_cloning", "voice_generation", "music_generation", "voice_slots"]

  /** `voice.get("voice_id")` is truthy. */
  predicate HasId(v: Voice) {
    v.voiceId.Some? && v.voiceId.value != []
  }

  /** The identifiers of one category's voices, in list order. */
  function CategoryIds(voices: seq<Voice>): (r: seq<string>)
    ensures forall x :: x in r <==> exists v :: v in voices && HasId(v) && v.voiceId.value == x
  {
    if voices == [] then []
    else
      var last := voices[|voices| - 1];
      var front := voices[..|voices| - 1];
      assert forall v :: v in voices <==> v in front || v == last;
      CategoryIds(front) + (if HasId(last) then [last.voiceId.value] else [])
  }

  /** The identifiers of the listed categories, in the order they are
      appended. */
  function CollectedIds(data: VoicesData, cats: seq<string>): (r: seq<string>)
    ensures forall x :: x in r <==>
              exists c :: c in cats && c in data && x in CategoryIds(data[c])
  {
    if cats == [] then []
    else
      var last := cats[|cats| - 1];
      var front := cats[..|cats| - 1];
      assert forall c :: c in cats <==> c in front || c == last;
      CollectedIds(data, front) + (if last in data then CategoryIds(data[last]) else [])
  }

  /** `x` is the identifier of some voice in one of the five categories. */
  predicate Listed(data: VoicesData, x: string) {
    exists c, v :: c in Categories && c in data && v in data[c] && HasId(v) && v.voiceId.value == x
  }

  lemma {:induction false} CollectedIdsListed(data: VoicesData, x: string)
    ensures x in CollectedIds(data, Categories) <==> Listed(data, x)
  {
    if x in CollectedIds(data, Categories) {
      var c :| c in Categories && c in data && x in CategoryIds(data[c]);
      var v :| v in data[c] && HasId(v) && v.voiceId.value == x;
    }
  }

  /** Strictly ascending in code-point order: sorted and without repeats. */
  predicate Ascending(s: seq<string>) {
    forall i, j :: 0 <= i < j < |s| ==> Less(s[i], s[j])
  }

  /** `x` added to an ascending list at its place, unless already there. */
  function Insert(s: seq<string>, x: string): (r: seq<string>)
    requires Ascending(s)
    ensures Ascending(r)
    ensures forall y :: y in r <==> y in s || y == x
  {
    if s == [] then [x]
    else if s[0] == x then s
    else if Less(x, s[0]) then
      assert forall j :: 0 < j < |s| ==> Less(s[0], s[j]);
      forall j | 0 < j < |s| ensures Less(x, s[j]) {
        LessTransitive(x, s[0], s[j]);
      }
      [x] + s
    else
      LessTotal(x, s[0]);
      var rest := Insert(s[1..], x);
      assert forall y :: y in s <==> y == s[0] || y in s[1..];
      forall j | 0 <= j < |rest| ensures Less(s[0], rest[j]) {
        assert rest[j] in rest;
        if rest[j] != x {
          assert rest[j] in s[1..];
          var k :| 0 <= k < |s[1..]| && s[1..][k] == rest[j];
          assert Less(s[0], s[k + 1]);
        }
      }
      [s[0]] + rest
  }

  /** `sorted(set(ids))`. */
  function SortedSet(ids: seq<string>): (r: seq<string>)
    ensures Ascending(r)
    ensures forall x :: x in r <==> x in ids
  {
    if ids == [] then []
    else
      assert forall x :: x in ids <==> x in ids[..|ids| - 1] || x == ids[|ids| - 1];
      Insert(SortedSet(ids[..|ids| - 1]), ids[|ids| - 1])
  }

  /** There is only one strictly ascending list of a given set of strings,
      so the result is exactly Python's `sorted(set(...))`. */
  lemma {:induction false} AscendingUnique(a: seq<string>, b: seq<string>)
    requires Ascending(a) && Ascending(b)
    requires forall x :: x in a <==> x in b
    ensures a == b
    decreases |a|
  {
    assert a == [] <==> b == [] by {
      if a != [] {
        assert a[0] in b;
      }
      if b != [] {
        assert b[0] in a;
      }
    }
    if a != [] {
      assert a[0] in b && b[0] in a;
      if a[0] != b[0] {
        var i :| 0 <= i < |a| && a[i] == b[0];
        var j :| 0 <= j < |b| && b[j] == a[0];
        assert Less(a[0], b[0]) by {
          assert i != 0;
        }
        assert Less(b[0], a[0]) by {
          assert j != 0;
        }
        LessAsymmetric(a[0], b[0]);
      }
      forall x ensures x in a[1..] <==> x in b[1..] {
        if x in a[1..] {
          var i :| 0 <= i < |a[1..]| && a[1..][i] == x;
          assert Less(a[0], a[i + 1]);
          LessIrreflexive(x);
          assert x in b;
          var j :| 0 <= j < |b| && b[j] == x;
          assert j != 0;
          assert b[1..][j - 1] == x;
        }
        if x in b[1..] {
          var j :| 0 <= j < |b[1..]| && b[1..][j] == x;
          assert Less(b[0], b[j + 1]);
          LessIrreflexive(x);
          assert x in a;
          var i :| 0 <= i < |a| && a[i] == x;
          assert i != 0;
          assert a[1..][i - 1] == x;
        }
      }
      AscendingUnique(a[1..], b[1..]);
    }
  }

  /** `extract_voice_ids`: the identifiers of every voice in the five
      categories, duplicates removed, in ascending order. */
  method ExtractVoiceIds(data: VoicesData) returns (r: seq<string>)
    ensures r == SortedSet(CollectedIds(data, Categories))
    ensures Ascending(r)
    ensures forall x :: x in r <==> Listed(data, x)
  {
    var ids: seq<string> := [];
    for n := 0 to |Categories|
      invariant ids == CollectedIds(data, Categories[..n])
    {
      var category := Categories[n];
      assert Categories[..n + 1][..n] == Categories[..n];
      if category in data && data[category] != [] {
        var voices := data[category];
        for m := 0 to |voices|
          invariant ids == CollectedIds(data, Categories[..n]) + CategoryIds(voices[..m])
        {
          assert voices[..m + 1][..m] == voices[..m];
          if voices[m].voiceId.Some? && voices[m].voiceId.value != [] {
            ids := ids + [voices[m].voiceId.value];
          }
        }
        assert voices[..|voices|] == voices;
      }
    }
    assert Categories[..|Categories|] == Categories;
    r := SortedSet(ids);
    forall x ensures x in r <==> Listed(data, x) {
      CollectedIdsListed(data, x);
    }
  }

  /** The kinds of character a voice is suggested for. */
  const SuggestionKeys: set<string> := {"female", "male", "narrator", "villain"}

  const FemaleWords: seq<string> := ["female", "woman", "girl", "lady"]
  const MaleWords: seq<string> := ["male", "man", "boy", "guy"]
  const NarratorWords: seq<string> := ["narrator", "wise", "story"]
  const VillainWords: seq<string> := ["villain", "evil", "dark", "grinch"]

  /** The lower-cased identifier and name the keywords are matched against;
      a missing field reads as the empty string. */
  function LowId(v: Voice): string {
    Lower(v.voiceId.GetOr(""))
  }

  function LowName(v: Voice): string {
    Lower(v.voiceName.GetOr(""))
  }

  /** Some keyword occurs in the voice's identifier or name. */
  predicate Mentions(v: Voice, words: seq<string>) {
    exists w :: w in words && (Contains(LowId(v), w) || Contains(LowName(v), w))
  }

  /** Whether the voice is suggested for `kind`; a voice whose identifier or
      name mentions "narrator" is never suggested as female. */
  predicate Fits(v: Voice, kind: string) {
    if kind == "female" then
      Mentions(v, FemaleWords) && !Contains(LowId(v), "narrator") && !Contains(LowName(v), "narrator")
    else if kind == "male" then Mentions(v, MaleWords)
    else if kind == "narrator" then Mentions(v, NarratorWords)
    else if kind == "villain" then Mentions(v, VillainWords)
    else false
  }

  /** The suggestions after looking at one more voice: every kind it fits is
      (re)assigned to its identifier, as it was given. */
  function Consider(s: map<string, Option<string>>, v: Voice): (r: map<string, Option<string>>)
    ensures forall k :: k in r <==> k in s || (k in SuggestionKeys && Fits(v, k))
    ensures forall k :: k in r ==> r[k] == if k in SuggestionKeys && Fits(v, k) then v.voiceId else s[k]
  {
    Assign(Assign(Assign(Assign(s, v, "female"), v, "male"), v, "narrator"), v, "villain")
  }

  /** One kind's test: `kind` goes to the voice's identifier when the voice fits it. */
  function Assign(s: map<string, Option<string>>, v: Voice, kind: string): (r: map<string, Option<string>>)
    ensures forall k :: k in r <==> k in s || (k == kind && Fits(v, kind))
    ensures forall k :: k in r ==> r[k] == if k == kind && Fits(v, kind) then v.voiceId else s[k]
  {
    if Fits(v, kind) then s[kind := v.voiceId] else s
  }

  /** The suggestions made from `voices`, considered in order. */
  function Suggestions(voices: seq<Voice>): (r: map<string, Option<string>>)
    ensures r.Keys <= SuggestionKeys
  {
    if voices == [] then map[]
    else Consider(Suggestions(voices[..|voices| - 1]), voices[|voices| - 1])
  }

  /** A kind is suggested exactly when some voice fits it. */
  lemma {:induction false} SuggestedIffFits(voices: seq<Voice>, kind: string)
    requires kind in SuggestionKeys
    ensures kind in Suggestions(voices) <==> exists i :: 0 <= i < |voices| && Fits(voices[i], kind)
  {
    if voices != [] {
      var front := voices[..|voices| - 1];
      SuggestedIffFits(front, kind);
      assert forall i :: 0 <= i < |front| ==> front[i] == voices[i];
    }
  }

  /** The voice that fits `kind` at index `i` and no later voice does. */
  predicate LastFit(voices: seq<Voice>, kind: string, i: int) {
    && 0 <= i < |voices| && Fits(voices[i], kind)
    && forall j :: i < j < |voices| ==> !Fits(voices[j], kind)
  }

  /** A voice that does not fit `kind` leaves an earlier last fit the last. */
  lemma {:induction false} LastFitExtends(voices: seq<Voice>, kind: string, i: int)
    requires voices != [] && !Fits(voices[|voices| - 1], kind)
    requires LastFit(voices[..|voices| - 1], kind, i)
    ensures LastFit(voices, kind, i)
  {
    var front := voices[..|voices| - 1];
    forall j | i < j < |voices| ensures !Fits(voices[j], kind) {
      if j < |front| {
        assert front[j] == voices[j];
      }
    }
    assert front[i] == voices[i];
  }

  /** Later voices overwrite earlier suggestions: a suggested kind holds the
      identifier of the last voice that fits it. */
  lemma {:induction false} SuggestionsLastWins(voices: seq<Voice>, kind: string)
    requires kind in SuggestionKeys && kind in Suggestions(voices)
    ensures exists i :: LastFit(voices, kind, i) && Suggestions(voices)[kind] == voices[i].voiceId
  {
    var n := |voices| - 1;
    var front := voices[..n];
    var last := voices[n];
    if Fits(last, kind) {
      assert LastFit(voices, kind, n);
    } else {
      SuggestionsLastWins(front, kind);
      var i :| LastFit(front, kind, i) && Suggestions(front)[kind] == front[i].voiceId;
      LastFitExtends(voices, kind, i);
      assert front[i] == voices[i];
    }
  }

  /** The female suggestion never names a voice that mentions "narrator". */
  lemma {:induction false} FemaleNeverNarrator(voices: seq<Voice>)
    requires "female" in Suggestions(voices)
    ensures exists v :: && v in voices && Suggestions(voices)["female"] == v.voiceId
                        && !Contains(LowId(v), "narrator") && !Contains(LowName(v), "narrator")
  {
    SuggestionsLastWins(voices, "female");
    var i :| LastFit(voices, "female", i) && Suggestions(voices)["female"] == voices[i].voiceId;
    assert voices[i] in voices;
  }

  /** "male" occurs inside "female" and "man" inside "woman": a voice that
      mentions either of those also fits the male suggestion. */
  lemma {:induction false} FemaleWordsMentionMale(v: Voice)
    requires Mentions(v, ["female", "woman"])
    ensures Fits(v, "male")
  {
    var w :| w in ["female", "woman"] && (Contains(LowId(v), w) || Contains(LowName(v), w));
    if w == "female" {
      assert w == "fe" + "male";
      if Contains(LowId(v), w) {
        ContainsSuffixOfPattern(LowId(v), "fe", "male");
      } else {
        ContainsSuffixOfPattern(LowName(v), "fe", "male");
      }
      assert "male" in MaleWords;
    } else {
      assert w == "wo" + "man";
      if Contains(LowId(v), w) {
        ContainsSuffixOfPattern(LowId(v), "wo", "man");
      } else {
        ContainsSuffixOfPattern(LowName(v), "wo", "man");
      }
      assert "man" in MaleWords;
    }
  }

  /** So whenever some voice mentions "female" or "woman", a male voice is
      suggested too. */
  lemma {:induction false} FemaleWordsGiveMaleSuggestion(voices: seq<Voice>, i: nat)
    requires i < |voices| && Mentions(voices[i], ["female", "woman"])
    ensures "male" in Suggestions(voices)
  {
    FemaleWordsMentionMale(voices[i]);
    SuggestedIffFits(voices, "male");
  }

  /** Considering one more voice extends the suggestions of a prefix. */
  lemma {:induction false} SuggestionsStep(voices: seq<Voice>, i: nat)
    requires i < |voices|
    ensures Suggestions(voices[..i + 1]) == Consider(Suggestions(voices[..i]), voices[i])
  {
    assert voices[..i + 1][..i] == voices[..i];
  }

  /** `voices_data.get("system_voice", [])`: only the system voices are
      considered for suggestions. */
  function SystemVoices(data: VoicesData): seq<Voice> {
    if "system_voice" in data then data["system_voice"] else []
  }

  /** `suggest_voice_mapping`: the suggestions made from the system voices,
      looked at in order. */
  method SuggestVoiceMapping(data: VoicesData) returns (r: map<string, Option<string>>)
    ensures r == Suggestions(SystemVoices(data))
    ensures r.Keys <= SuggestionKeys
  {
    var suggestions: map<string, Option<string>> := map[];
    var systemVoices := if "system_voice" in data then data["system_voice"] else [];
    for i := 0 to |systemVoices|
      invariant suggestions == Suggestions(systemVoices[..i])
    {
      var voice := systemVoices[i];
      ghost var before := suggestions;
      if Fits(voice, "female") {
        suggestions := suggestions["female" := voice.voiceId];
      }
      ghost var s1 := suggestions;
      assert s1 == Assign(before, voice, "female");
      if Fits(voice, "male") {
        suggestions := suggestions["male" := voice.voiceId];
      }
      ghost var s2 := suggestions;
      assert s2 == Assign(s1, voice, "male");
      if Fits(voice, "narrator") {
        suggestions := suggestions["narrator" := voice.voiceId];
      }
      ghost var s3 := suggestions;
      assert s3 == Assign(s2, voice, "narrator");
      if Fits(voice, "villain") {
        suggestions := suggestions["villain" := voice.voiceId];
      }
      assert suggestions == Assign(s3, voice, "villain");
      SuggestionsStep(systemVoices, i);
    }
    assert systemVoices[..|systemVoices|] == systemVoices;
    r := suggestions;
  }
}
