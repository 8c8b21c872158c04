/** How the story teller reads a character name: the analysis record (from the
    remote classifier, completed with defaults, or from the pattern-based
    fallback), the voice category chosen from it, and the voice pools the
    resolver cycles through. */
module NameAnalysis {
  import opened Strings
  import opened Domain

  /** A value of the analysis JSON object: a string, a number (with the text
      Python renders for it), or any other JSON value as Python renders it. */
  datatype Field = Text(s: string) | Number(value: real, shown: string) | Other(shown: string)
  {
    /** How the value reads inside an f-string. */
    function Show(): string {
      match this
      case Text(s) => s
      case Number(_, shown) => shown
      case Other(shown) => shown
    }
  }

  /** A parsed analysis object, keyed by field name. */
  type Analysis = map<string, Field>

  /** The fields every analysis must carry, in the order they are checked. */
  const RequiredFields: seq<string> := ["gender", "age_group", "personality_trait", "voice_type", "confidence"]

  predicate Complete(a: Analysis) {
    forall i :: 0 <= i < |RequiredFields| ==> RequiredFields[i] in a
  }

  /** The value filled in for a missing field: 0.5 for `confidence`,
      "unknown" for the others. */
  function DefaultFor(field: string): Field {
    if field != "confidence" then Text("unknown") else Number(0.5, "0.5")
  }

  /** The required field names as a set. */
  function RequiredFieldSet(): set<string> {
    set i | 0 <= i < |RequiredFields| :: RequiredFields[i]
  }

  /** An analysis completed with the defaults of its missing required
      fields. */
  function WithDefaults(analysis: Analysis): Analysis {
    map k | k in analysis.Keys + RequiredFieldSet() :: if k in analysis then analysis[k] else DefaultFor(k)
  }

  /** The field check of `analyze_character_name_with_ai`: every missing
      required field gets its default, and nothing present is touched. */
  method FillDefaults(analysis: Analysis) returns (r: Analysis)
    ensures r == WithDefaults(analysis)
    ensures Complete(r)
    ensures r.Keys == analysis.Keys + set i | 0 <= i < |RequiredFields| :: RequiredFields[i]
    ensures forall k :: k in analysis ==> r[k] == analysis[k]
    ensures forall k :: k in r && k !in analysis ==> r[k] == DefaultFor(k)
    ensures Complete(analysis) ==> r == analysis
  {
    r := analysis;
    for i := 0 to |RequiredFields|
      invariant r.Keys == analysis.Keys + set j | 0 <= j < i :: RequiredFields[j]
      invariant forall k :: k in analysis ==> r[k] == analysis[k]
      invariant forall k :: k in r && k !in analysis ==> r[k] == DefaultFor(k)
    {
      var field := RequiredFields[i];
      if field !in r {
        r := r[field := DefaultFor(field)];
      }
    }
  }

  /** `analysis.get(key, "unknown")` */
  function Get(a: Analysis, key: string): Field {
    if key in a then a[key] else Text("unknown")
  }

  predicate HasVowel(s: string) {
    'a' in s || 'e' in s || 'i' in s || 'o' in s || 'u' in s
  }

  /** `s.endswith(tuple(letters))` for one-letter suffixes. */
  predicate EndsInOneOf(s: string, letters: string) {
    s != [] && s[|s| - 1] in letters
  }

  predicate ContainsAny(s: string, patterns: seq<string>) {
    exists i :: 0 <= i < |patterns| && Contains(s, patterns[i])
  }

  const VillainPatterns: seq<string> := ["shadow", "dark", "grim", "vex", "mal"]
  const HeroPatterns: seq<string> := ["light", "bright", "sun", "star"]
  const WisePatterns: seq<string> := ["wise", "sage", "elder", "merlin"]

  /** `fallback_name_analysis`: an adult of low confidence; gender guessed
      from the last letter, personality from the first matching pattern
      group (villainous, then heroic, then wise). The vowel test never
      matters for names ending in a vowel, so a name is female exactly when
      it ends in a, e or i. */
  function FallbackAnalysis(name: string): Analysis
  {
    var lower := Lower(name);
    var female := HasVowel(lower) && EndsInOneOf(lower, "aei");
    var male := !female && HasVowel(lower) && EndsInOneOf(lower, "ounr");
    var villainous := ContainsAny(lower, VillainPatterns);
    var heroic := !villainous && ContainsAny(lower, HeroPatterns);
    var wise := !villainous && !heroic && ContainsAny(lower, WisePatterns);
    map[
      "gender" := Text(if female then "female" else if male then "male" else "unknown"),
      "age_group" := Text("adult"),
      "personality_trait" := Text(if villainous then "villainous" else if heroic then "heroic"
                                  else if wise then "wise" else "neutral"),
      "voice_type" := Text(if wise then "wise" else if female then "feminine"
                           else if male then "masculine" else "neutral"),
      "confidence" := Number(0.3, "0.3")]
  }

  /** What the fallback promises: an adult of confidence 0.3 with all the
      required fields; female exactly for a name ending in a, e or i; male
      for one ending in o or u, or in n or r with a vowel somewhere; unknown
      otherwise; the first matching pattern list decides the personality
      (villainous, else heroic, else wise, else neutral); the voice type is
      "wise" exactly when the personality is, and otherwise follows the
      gender (feminine, masculine or neutral). */
  lemma {:induction false} FallbackRules(name: string)
    ensures var a := FallbackAnalysis(name);
            && a.Keys == {"gender", "age_group", "personality_trait", "voice_type", "confidence"}
            && a["age_group"] == Text("adult") && a["confidence"] == Number(0.3, "0.3")
            && (a["gender"] == Text("female") <==> EndsInOneOf(Lower(name), "aei"))
            && (a["gender"] == Text("male") <==>
                  EndsInOneOf(Lower(name), "ou") || (EndsInOneOf(Lower(name), "nr") && HasVowel(Lower(name))))
            && (a["gender"] == Text("female") || a["gender"] == Text("male") || a["gender"] == Text("unknown"))
            && (a["personality_trait"] == Text("villainous") <==> ContainsAny(Lower(name), VillainPatterns))
            && (a["personality_trait"] == Text("heroic") <==>
                  !ContainsAny(Lower(name), VillainPatterns) && ContainsAny(Lower(name), HeroPatterns))
            && (a["personality_trait"] == Text("wise") <==>
                  !ContainsAny(Lower(name), VillainPatterns) && !ContainsAny(Lower(name), HeroPatterns)
                  && ContainsAny(Lower(name), WisePatterns))
            && (a["personality_trait"] == Text("villainous") || a["personality_trait"] == Text("heroic")
                || a["personality_trait"] == Text("wise") || a["personality_trait"] == Text("neutral"))
            && (a["personality_trait"] == Text("wise") <==> a["voice_type"] == Text("wise"))
            && (a["voice_type"] == Text("feminine") <==>
                  a["personality_trait"] != Text("wise") && a["gender"] == Text("female"))
            && (a["voice_type"] == Text("masculine") <==>
                  a["personality_trait"] != Text("wise") && a["gender"] == Text("male"))
            && (a["voice_type"] == Text("neutral") <==>
                  a["personality_trait"] != Text("wise") && a["gender"] == Text("unknown"))
  {
    FallbackFields(name);
    FallbackGender(name);
    FallbackPersonality(name);
  }

  /** The fields and fixed values of `FallbackRules`. */
  lemma {:induction false} FallbackFields(name: string)
    ensures var a := FallbackAnalysis(name);
            && a.Keys == {"gender", "age_group", "personality_trait", "voice_type", "confidence"}
            && a["age_group"] == Text("adult") && a["confidence"] == Number(0.3, "0.3")
  {
  }

  /** The gender part of `FallbackRules`. */
  lemma {:induction false} FallbackGender(name: string)
    ensures var a := FallbackAnalysis(name);
            && (a["gender"] == Text("female") <==> EndsInOneOf(Lower(name), "aei"))
            && (a["gender"] == Text("male") <==>
                  EndsInOneOf(Lower(name), "ou") || (EndsInOneOf(Lower(name), "nr") && HasVowel(Lower(name))))
            && (a["gender"] == Text("female") || a["gender"] == Text("male") || a["gender"] == Text("unknown"))
  {
    var lower := Lower(name);
    assert lower != [] && lower[|lower| - 1] in "aeiou" ==> lower[|lower| - 1] in lower;
  }

  /** The personality and voice-type part of `FallbackRules`. */
  lemma {:induction false} FallbackPersonality(name: string)
    ensures var a := FallbackAnalysis(name);
            && (a["personality_trait"] == Text("villainous") <==> ContainsAny(Lower(name), VillainPatterns))
            && (a["personality_trait"] == Text("heroic") <==>
                  !ContainsAny(Lower(name), VillainPatterns) && ContainsAny(Lower(name), HeroPatterns))
            && (a["personality_trait"] == Text("wise") <==>
                  !ContainsAny(Lower(name), VillainPatterns) && !ContainsAny(Lower(name), HeroPatterns)
                  && ContainsAny(Lower(name), WisePatterns))
            && (a["personality_trait"] == Text("villainous") || a["personality_trait"] == Text("heroic")
                || a["personality_trait"] == Text("wise") || a["personality_trait"] == Text("neutral"))
            && (a["personality_trait"] == Text("wise") <==> a["voice_type"] == Text("wise"))
            && (a["voice_type"] == Text("feminine") <==>
                  a["personality_trait"] != Text("wise") && a["gender"] == Text("female"))
            && (a["voice_type"] == Text("masculine") <==>
                  a["personality_trait"] != Text("wise") && a["gender"] == Text("male"))
            && (a["voice_type"] == Text("neutral") <==>
                  a["personality_trait"] != Text("wise") && a["gender"] == Text("unknown"))
  {
  }

  /** The fallback analysis has every required field. */
  lemma {:induction false} FallbackComplete(name: string)
    ensures Complete(FallbackAnalysis(name))
  {
    FallbackRules(name);
  }

  /** No pattern is contained in `s` when each has a character `s` lacks. */
  lemma {:induction false} NotContainsAny(s: string, patterns: seq<string>, missing: string)
    requires |missing| == |patterns|
    requires forall i :: 0 <= i < |patterns| ==> missing[i] in patterns[i] && missing[i] !in s
    ensures !ContainsAny(s, patterns)
  {
    forall i | 0 <= i < |patterns| ensures !Contains(s, patterns[i]) {
      if Contains(s, patterns[i]) {
        ContainsChars(s, patterns[i], missing[i]);
      }
    }
  }

  /** "Sage" reads as a wise woman: the wise pattern sets the voice type too. */
  lemma FallbackSage()
    ensures var a := FallbackAnalysis("Sage");
            a["gender"] == Text("female") && a["personality_trait"] == Text("wise")
            && a["voice_type"] == Text("wise")
  {
    assert Lower("Sage") == "sage";
    assert Contains("sage", WisePatterns[1]);
    NotContainsAny("sage", VillainPatterns, "hdrvm");
    NotContainsAny("sage", HeroPatterns, "lbut");
  }

  /** "Shadow" matches no gender ending and reads as villainous. */
  lemma FallbackShadow()
    ensures var a := FallbackAnalysis("Shadow");
            a["gender"] == Text("unknown") && a["personality_trait"] == Text("villainous")
  {
    assert Lower("Shadow") == "shadow";
    assert Contains("shadow", VillainPatterns[0]);
  }

  /** "Kael" matches no gender ending and no personality pattern. */
  lemma FallbackKael()
    ensures var a := FallbackAnalysis("Kael");
            a["gender"] == Text("unknown") && a["personality_trait"] == Text("neutral")
            && a["voice_type"] == Text("neutral")
  {
    assert Lower("Kael") == "kael";
    NotContainsAny("kael", VillainPatterns, "sdgvm");
    NotContainsAny("kael", HeroPatterns, "gbss");
    NotContainsAny("kael", WisePatterns, "wsdm");
  }

  /** The voice pools of `map_character_name_to_voice`. */
  datatype Category = Narrator | Female | Male | Villain | Child | Elder

  /** The category for an analysis: from gender and age group (male by
      default), then overridden by a villainous or wise personality. */
  function SelectCategory(a: Analysis): Category
  {
    var gender := Get(a, "gender");
    var age := Get(a, "age_group");
    var personality := Get(a, "personality_trait");
    var base :=
      if gender == Text("female") then
        (if age == Text("child") then Child else if age == Text("elder") then Elder else Female)
      else if gender == Text("male") then
        (if age == Text("child") then Child else if age == Text("elder") then Elder else Male)
      else Male;
    if personality in {Text("villainous"), Text("sinister"), Text("evil")} then Villain
    else if personality in {Text("wise"), Text("scholarly"), Text("mentor")} then Elder
    else base
  }

  /** The category rules: never the narrator pool; villain exactly for a
      villainous, sinister or evil personality; child or female only when no
      personality override applies, child for a female or male child and
      female for a female neither child nor elder; elder for a wise,
      scholarly or mentor personality or an elder female or male; male for
      a male neither child nor elder, or for any other gender, when no
      override applies. */
  lemma {:induction false} CategoryRules(a: Analysis)
    ensures var c := SelectCategory(a);
            && c != Narrator
            && (c == Villain <==> Get(a, "personality_trait") in {Text("villainous"), Text("sinister"), Text("evil")})
            && (c == Child <==>
                  !Overridden(a) && Get(a, "gender") in {Text("female"), Text("male")} && Get(a, "age_group") == Text("child"))
            && (c == Female <==>
                  !Overridden(a) && Get(a, "gender") == Text("female")
                  && Get(a, "age_group") != Text("child") && Get(a, "age_group") != Text("elder"))
            && (c == Elder <==>
                  Get(a, "personality_trait") in {Text("wise"), Text("scholarly"), Text("mentor")}
                  || (!Overridden(a) && Get(a, "gender") in {Text("female"), Text("male")}
                      && Get(a, "age_group") == Text("elder")))
            && (c == Male <==>
                  !Overridden(a)
                  && (Get(a, "gender") !in {Text("female"), Text("male")}
                      || (Get(a, "gender") == Text("male")
                          && Get(a, "age_group") != Text("child") && Get(a, "age_group") != Text("elder"))))
            && (Get(a, "gender") !in {Text("female"), Text("male")} ==> c in {Male, Villain, Elder})
  {
  }

  /** The personality overrides the category chosen from gender and age. */
  predicate Overridden(a: Analysis) {
    Get(a, "personality_trait") in
      {Text("villainous"), Text("sinister"), Text("evil"), Text("wise"), Text("scholarly"), Text("mentor")}
  }

  /** A pattern-analysed name never gets a child voice: the fallback always
      says adult. A name ending in a, e or i gets a female voice unless its
      personality overrides it. */
  lemma {:induction false} FallbackCategory(name: string)
    ensures SelectCategory(FallbackAnalysis(name)) != Child
    ensures EndsInOneOf(Lower(name), "aei") && !Overridden(FallbackAnalysis(name)) ==>
              SelectCategory(FallbackAnalysis(name)) == Female
  {
    FallbackRules(name);
    CategoryRules(FallbackAnalysis(name));
  }

  const NarratorVoices: seq<string> :=
    ["English_expressive_narrator", "English_CaptivatingStoryteller", "English_WiseScholar"]
  const FemaleVoices: seq<string> := [
    "English_radiant_girl", "English_compelling_lady1", "English_captivating_female1",
    "English_Upbeat_Woman", "English_CalmWoman", "English_Graceful_Lady", "English_PlayfulGirl",
    "English_LovelyGirl", "English_Wiselady", "English_SentimentalLady", "English_Soft-spokenGirl"]
  const MaleVoices: seq<string> := [
    "English_magnetic_voiced_man", "English_Aussie_Bloke", "English_Trustworth_Man",
    "English_Gentle-voiced_man", "English_Diligent_Man", "English_ReservedYoungMan",
    "English_ManWithDeepVoice", "English_FriendlyPerson", "English_Debator", "English_Steadymentor",
    "English_Deep-VoicedGentleman", "English_DecentYoungMan", "English_PassionateWarrior"]
  const VillainVoices: seq<string> :=
    ["English_ManWithDeepVoice", "English_Deep-VoicedGentleman", "English_ImposingManner"]
  const ChildVoices: seq<string> :=
    ["English_radiant_girl", "English_PlayfulGirl", "English_LovelyGirl", "English_Soft-spokenGirl"]
  const ElderVoices: seq<string> :=
    ["English_WiseScholar", "English_Wiselady", "English_MaturePartner", "English_Steadymentor"]

  /** The English voices available to each category. */
  function Pool(c: Category): (voices: seq<string>)
    ensures |voices| > 0
  {
    match c
    case Narrator => NarratorVoices
    case Female => FemaleVoices
    case Male => MaleVoices
    case Villain => VillainVoices
    case Child => ChildVoices
    case Elder => ElderVoices
  }

  predicate Distinct(s: seq<string>) {
    forall i, j :: 0 <= i < j < |s| ==> s[i] != s[j]
  }

  /** No pool lists a voice twice. */
  lemma {:induction false} PoolsDistinct(c: Category)
    ensures Distinct(Pool(c))
  {
    match c
    case Narrator =>
    case Female => FemaleVoicesDistinct();
    case Male => MaleVoicesDistinct();
    case Villain =>
    case Child =>
    case Elder =>
  }

  lemma FemaleVoicesDistinct()
    ensures Distinct(FemaleVoices)
  {
  }

  lemma MaleVoicesDistinct()
    ensures Distinct(MaleVoices)
  {
  }

  /** Round-robin selection: the `n` picks following any index are pairwise
      different voices of a pool without repeats. */
  lemma {:induction false} RoundRobinDistinct(pool: seq<string>, i: nat, j: nat)
    requires Distinct(pool)
    requires i < j < i + |pool|
    ensures pool[i % |pool|] != pool[j % |pool|]
  {
    ResiduesDiffer(i, j, |pool|);
  }

  /** Fewer than `n` steps apart, two numbers leave different remainders. */
  lemma {:induction false} ResiduesDiffer(i: nat, j: nat, n: nat)
    requires 0 < n && i < j < i + n
    ensures i % n != j % n
  {
    var q := j / n - i / n;
    assert (j / n) * n - (i / n) * n == q * n;
    assert j - i == q * n + (j % n - i % n);
    if q <= -1 {
      MulMonotone(q, -1, n);
    } else if q >= 2 {
      MulMonotone(2, q, n);
    }
  }

  lemma {:induction false} MulMonotone(a: int, b: int, n: nat)
    requires a <= b
    ensures a * n <= b * n
  {
  }

  /** The profile built for a newly resolved name. */
  function ResolvedCharacter(name: string, a: Analysis, voice: string): (ch: Character)
    ensures ch.name == name && ch.voiceId == voice
    ensures ch.speed == 1.0 && ch.volume == 1.0 && ch.pitch == 0.0 && ch.emotion == "neutral"
  {
    Character(
      name,
      "AI-generated character with " + Get(a, "gender").Show() + " voice, "
        + Get(a, "age_group").Show() + " age group, "
        + Get(a, "personality_trait").Show() + " personality",
      voice, 1.0, 1.0, 0.0, "neutral")
  }
}
