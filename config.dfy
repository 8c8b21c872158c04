/** The configuration tables of the story teller (rate limits, named voices,
    character templates, story genres) and the lookups built on them:
    creating a character from a template, genre information, the story prompt
    and the three ready-made story setups. */
module Config {
  import opened Results
  import opened Strings
  import opened Domain

  /** `RATE_LIMITS`: requests per minute for chat and speech, the pause after
      a rate-limit reply, and the number of retries. */
  datatype RateLimits = RateLimits(chatRpm: nat, ttsRpm: nat, retryDelay: nat, maxRetries: nat)

  const Limits: RateLimits := RateLimits(100, 50, 60, 1)

  /** An ordered string-keyed table, standing for a Python dict with its
      insertion order. */
  type Table<V> = seq<(string, V)>

  /** The keys of a table, in table order (`list(d.keys())`). */
  function Keys<V>(t: Table<V>): (r: seq<string>)
    ensures |r| == |t|
    ensures forall i :: 0 <= i < |t| ==> r[i] == t[i].0
  {
    seq(|t|, i requires 0 <= i < |t| => t[i].0)
  }

  /** A dict has each key once. */
  predicate DistinctKeys<V>(t: Table<V>) {
    forall i, j :: 0 <= i < j < |t| ==> t[i].0 != t[j].0
  }

  /** `d.get(k)`: the value of the first entry with key `k`. */
  function Lookup<V>(t: Table<V>, k: string): (r: Option<V>)
    ensures r.None? <==> k !in Keys(t)
    ensures r.Some? ==> exists i :: 0 <= i < |t| && t[i] == (k, r.value)
  {
    LookupFrom(t, k, 0)
  }

  /** The value of the first entry with key `k` at or after entry `from`. */
  function LookupFrom<V>(t: Table<V>, k: string, from: nat): (r: Option<V>)
    requires from <= |t|
    ensures r.None? <==> forall i :: from <= i < |t| ==> t[i].0 != k
    ensures r.Some? ==> exists i :: from <= i < |t| && t[i] == (k, r.value)
    decreases |t| - from
  {
    if from == |t| then None
    else if t[from].0 == k then Some(t[from].1)
    else LookupFrom(t, k, from + 1)
  }

  /** With distinct keys, looking up the key of entry `i` finds entry `i`. */
  lemma {:induction false} LookupEntry<V>(t: Table<V>, i: nat)
    requires DistinctKeys(t) && i < |t|
    ensures Lookup(t, t[i].0) == Some(t[i].1)
  {
    assert Keys(t)[i] == t[i].0;
    var j :| 0 <= j < |t| && t[j] == (t[i].0, Lookup(t, t[i].0).value);
    assert j == i;
  }

  /** `VOICE_IDS`: descriptive voice names and the voice identifiers they
      stand for. */
  const VoiceIds: Table<string> := [
    ("wise_woman", "English_Wiselady"),
    ("young_female", "English_radiant_girl"),
    ("mature_female", "English_CalmWoman"),
    ("young_male", "English_ReservedYoungMan"),
    ("mature_male", "English_Trustworth_Man"),
    ("deep_male", "English_ManWithDeepVoice"),
    ("villain", "English_ManWithDeepVoice"),
    ("narrator", "English_expressive_narrator"),
    ("child", "English_PlayfulGirl"),
    ("elder", "English_WiseScholar")
  ]

  /** One entry of `CHARACTER_TEMPLATES`; a template may omit its emotion. */
  datatype Template = Template(
    name: string,
    description: string,
    voiceId: string,
    speed: real,
    volume: real,
    pitch: real,
    emotion: Option<string>)

  const HeroDescription: string :=
    "A courageous protagonist with a heart of gold, facing inner doubts and external challenges with determination and growth"
  const VillainDescription: string :=
    "A complex antagonist with layers of motivation, not purely evil but driven by pain, fear, or misguided beliefs"
  const FriendDescription: string :=
    "A loyal companion who provides emotional support, wisdom, and sometimes tough love when needed"
  const WizardDescription: string :=
    "A mysterious mentor figure with ancient wisdom, who guides others while carrying their own burdens and secrets"
  const NarratorDescription: string :=
    "A wise storyteller with a warm, engaging voice who brings the world to life with vivid descriptions"
  const PrincessDescription: string :=
    "A strong-willed royal with hidden depths, balancing duty with personal desires and inner strength"
  const KnightDescription: string :=
    "A honorable warrior bound by duty, struggling with the weight of responsibility and personal honor"
  const DragonDescription: string :=
    "A powerful being with ancient wisdom, often misunderstood but capable of great kindness or destruction"
  const DetectiveDescription: string :=
    "A sharp-minded investigator with a troubled past, driven by justice but haunted by personal demons"
  const ElderDescription: string :=
    "A wise figure with years of experience, offering guidance while dealing with their own mortality and regrets"
  const ChildDescription: string :=
    "An innocent soul with pure heart and boundless imagination, often seeing truth that adults miss"
  const MentorDescription: string :=
    "A guiding figure who teaches through experience, balancing tough lessons with compassion and understanding"
  const OutcastDescription: string :=
    "A misunderstood soul with hidden talents, seeking acceptance while maintaining their unique identity"
  const GuardianDescription: string :=
    "A protective figure with fierce loyalty, willing to sacrifice everything for those they love"

  const CharacterTemplates: Table<Template> := [
    ("hero", Template("Hero", HeroDescription,
      "English_magnetic_voiced_man", 1.0, 1.0, 0.0, Some("brave"))),
    ("villain", Template("Villain", VillainDescription,
      "English_ManWithDeepVoice", 0.8, 1.0, -0.3, Some("sinister"))),
    ("friend", Template("Friend", FriendDescription,
      "English_radiant_girl", 1.1, 1.0, 0.2, Some("friendly"))),
    ("wizard", Template("Wizard", WizardDescription,
      "English_WiseScholar", 0.9, 1.0, 0.0, Some("wise"))),
    ("narrator", Template("Narrator", NarratorDescription,
      "English_expressive_narrator", 1.0, 1.0, 0.0, Some("calm"))),
    ("princess", Template("Princess", PrincessDescription,
      "English_Graceful_Lady", 1.0, 1.0, 0.1, Some("noble"))),
    ("knight", Template("Knight", KnightDescription,
      "English_Trustworth_Man", 1.0, 1.0, 0.1, Some("honorable"))),
    ("dragon", Template("Dragon", DragonDescription,
      "English_ManWithDeepVoice", 0.7, 1.0, -0.4, Some("mysterious"))),
    ("detective", Template("Detective", DetectiveDescription,
      "English_Diligent_Man", 0.9, 1.0, -0.1, Some("determined"))),
    ("elder", Template("Elder", ElderDescription,
      "English_WiseScholar", 0.8, 1.0, -0.1, Some("wise"))),
    ("child", Template("Child", ChildDescription,
      "English_PlayfulGirl", 1.3, 1.0, 0.3, Some("innocent"))),
    ("mentor", Template("Mentor", MentorDescription,
      "English_WiseScholar", 0.9, 1.0, 0.0, Some("wise"))),
    ("outcast", Template("Outcast", OutcastDescription,
      "English_ReservedYoungMan", 1.0, 1.0, -0.2, Some("lonely"))),
    ("guardian", Template("Guardian", GuardianDescription,
      "English_Trustworth_Man", 1.0, 1.0, 0.0, Some("protective")))
  ]

  /** One entry of `STORY_GENRES`. */
  datatype Genre = Genre(description: string, commonCharacters: seq<string>, themes: seq<string>)

  const StoryGenres: Table<Genre> := [
    ("fantasy", Genre(
      "Magical worlds with mythical creatures and epic quests, where ordinary people discover extraordinary powers within themselves",
      ["hero", "wizard", "knight", "dragon", "princess"],
      ["discovering inner strength", "friendship and loyalty", "magical transformation",
       "epic quest", "finding one's true identity"])),
    ("adventure", Genre(
      "Exciting journeys with challenges and discoveries, where characters grow through facing their fears and overcoming obstacles",
      ["hero", "friend", "villain", "guide"],
      ["overcoming fear and doubt", "journey to unknown lands", "treasure hunting",
       "survival and resilience", "finding courage within"])),
    ("mystery", Genre(
      "Puzzling stories with clues and revelations, where characters must solve complex problems while dealing with personal demons",
      ["detective", "suspect", "witness", "victim"],
      ["solving a crime", "hidden secrets", "uncovering the truth",
       "suspense and intrigue", "justice and redemption"])),
    ("sci-fi", Genre(
      "Futuristic stories with technology and space, exploring what it means to be human in an increasingly complex world",
      ["scientist", "hero", "robot", "alien"],
      ["space exploration", "technological advancement", "alien contact",
       "time travel", "humanity and identity"])),
    ("romance", Genre(
      "Stories of love and relationships, where characters learn about themselves through connection with others",
      ["hero", "princess", "friend", "rival"],
      ["finding true love", "overcoming obstacles", "second chances",
       "destiny", "self-discovery through love"])),
    ("comedy", Genre(
      "Humorous stories with funny situations, where laughter helps characters overcome challenges and find joy",
      ["hero", "friend", "comedian", "fool"],
      ["misadventures", "funny misunderstandings", "pranks",
       "humor", "finding joy in chaos"])),
    ("fairy_tale", Genre(
      "Traditional fairy tales with magical elements, where characters learn important life lessons through magical experiences",
      ["princess", "knight", "wizard", "villain"],
      ["magical transformation", "true love", "good vs evil",
       "wishes come true", "learning life lessons"]))
  ]

  /** Every table is a proper dict: no key appears twice. */
  lemma TablesHaveDistinctKeys()
    ensures DistinctKeys(VoiceIds)
    ensures DistinctKeys(CharacterTemplates)
    ensures DistinctKeys(StoryGenres)
  {
    VoiceKeysDistinct();
    TemplateKeysDistinct();
    GenreKeysDistinct();
  }

  lemma VoiceKeysDistinct()
    ensures DistinctKeys(VoiceIds)
  {
  }

  lemma TemplateKeysDistinct()
    ensures DistinctKeys(CharacterTemplates)
  {
  }

  lemma GenreKeysDistinct()
    ensures DistinctKeys(StoryGenres)
  {
  }

  /** `create_character_from_template` over the template and voice tables:
      an unknown template name is an error; otherwise the character copies
      the template, named by the title-cased custom name when one is given
      and non-empty, with the template's voice translated through the voice
      table when it is one of its keys, and "neutral" for a missing emotion. */
  function CreateCharacterFromTemplate(templates: Table<Template>, voiceIds: Table<string>,
                                       templateName: string, customName: Option<string>): (r: Result<Character, string>)
    ensures r.Failure? <==> templateName !in Keys(templates)
    ensures r.Failure? ==> r.error == "Unknown character template: " + templateName
    ensures r.Success? ==>
              var t := Lookup(templates, templateName).value;
              && r.value.description == t.description
              && r.value.speed == t.speed && r.value.volume == t.volume && r.value.pitch == t.pitch
              && (t.voiceId !in Keys(voiceIds) ==> r.value.voiceId == t.voiceId)
              && (t.voiceId in Keys(voiceIds) ==> r.value.voiceId == Lookup(voiceIds, t.voiceId).value)
              && (t.emotion.Some? ==> r.value.emotion == t.emotion.value)
              && (t.emotion.None? ==> r.value.emotion == "neutral")
    ensures r.Success? && customName.Some? && customName.value != [] ==>
              r.value.name == Title(customName.value)
    ensures r.Success? && (customName.None? || customName.value == []) ==>
              r.value.name == Lookup(templates, templateName).value.name
  {
    match Lookup(templates, templateName)
    case None => Failure("Unknown character template: " + templateName)
    case Some(t) =>
      var name := if customName.Some? && customName.value != [] then Title(customName.value) else t.name;
      Success(Character(name, t.description, Lookup(voiceIds, t.voiceId).GetOr(t.voiceId),
                        t.speed, t.volume, t.pitch, t.emotion.GetOr("neutral")))
  }

  /** A custom name always comes out title-cased: each run of letters starts
      upper case and continues lower case, and the length is kept. */
  lemma {:induction false} CustomNameTitled(templates: Table<Template>, voiceIds: Table<string>, templateName: string, custom: string)
    requires templateName in Keys(templates) && custom != []
    ensures var r := CreateCharacterFromTemplate(templates, voiceIds, templateName, Some(custom));
            && r.Success?
            && |r.value.name| == |custom|
            && Title(r.value.name) == r.value.name
  {
    TitleIdempotent(custom);
  }

  /** `create_character_from_template("hero", "TestHero")` names the hero
      "Testhero", not "TestHero". */
  lemma TestHeroIsRenamed()
    ensures CreateCharacterFromTemplate(CharacterTemplates, VoiceIds, "hero", Some("TestHero")).value.name == "Testhero"
  {
    TitleByChars("TestHero", "Testhero");
  }

  /** No shipped template names its voice by a voice-table key (those are
      lower case, the identifiers start with "English_"), so every created
      character keeps the template's own voice identifier. */
  lemma TemplateVoicesKept()
    ensures forall i :: 0 <= i < |CharacterTemplates| ==> CharacterTemplates[i].1.voiceId !in Keys(VoiceIds)
  {
    VoiceKeysLowerCase();
    TemplateVoicesEnglish();
  }

  /** Every voice-table key starts with a lower-case letter. */
  lemma VoiceKeysLowerCase()
    ensures forall k :: k in Keys(VoiceIds) ==> k != [] && 'a' <= k[0] <= 'z'
  {
    VoiceKeyInitials();
    forall k | k in Keys(VoiceIds) ensures k != [] && 'a' <= k[0] <= 'z' {
      var i :| 0 <= i < |VoiceIds| && Keys(VoiceIds)[i] == k;
    }
  }

  /** The same, entry by entry. */
  lemma VoiceKeyInitials()
    ensures forall i :: 0 <= i < |VoiceIds| ==> VoiceIds[i].0 != [] && 'a' <= VoiceIds[i].0[0] <= 'z'
  {
  }

  /** Every template's voice identifier starts with "E". */
  lemma TemplateVoicesEnglish()
    ensures forall i :: 0 <= i < |CharacterTemplates| ==>
              CharacterTemplates[i].1.voiceId != [] && CharacterTemplates[i].1.voiceId[0] == 'E'
  {
    forall i | 0 <= i < |CharacterTemplates|
      ensures CharacterTemplates[i].1.voiceId != [] && CharacterTemplates[i].1.voiceId[0] == 'E'
    {
      var v := CharacterTemplates[i].1.voiceId;
      assert v[..8] == "English_";
    }
  }

  /** `get_available_characters`, `get_available_voices`,
      `get_available_genres`: the keys of each table. */
  function AvailableCharacters(): seq<string> {
    Keys(CharacterTemplates)
  }

  function AvailableVoices(): seq<string> {
    Keys(VoiceIds)
  }

  function AvailableGenres(): seq<string> {
    Keys(StoryGenres)
  }

  /** The template names, in table order. */
  lemma TemplateNamesInOrder()
    ensures AvailableCharacters()
            == ["hero", "villain", "friend", "wizard", "narrator", "princess", "knight",
                "dragon", "detective", "elder", "child", "mentor", "outcast", "guardian"]
  {
    var k := Keys(CharacterTemplates);
    assert k[0] == "hero" && k[1] == "villain" && k[2] == "friend" && k[3] == "wizard";
    assert k[4] == "narrator" && k[5] == "princess" && k[6] == "knight" && k[7] == "dragon";
    assert k[8] == "detective" && k[9] == "elder" && k[10] == "child" && k[11] == "mentor";
    assert k[12] == "outcast" && k[13] == "guardian";
  }

  /** The voice names, in table order. */
  lemma VoiceNamesInOrder()
    ensures AvailableVoices()
            == ["wise_woman", "young_female", "mature_female", "young_male", "mature_male",
                "deep_male", "villain", "narrator", "child", "elder"]
  {
    var k := Keys(VoiceIds);
    assert k[0] == "wise_woman" && k[1] == "young_female" && k[2] == "mature_female";
    assert k[3] == "young_male" && k[4] == "mature_male" && k[5] == "deep_male";
    assert k[6] == "villain" && k[7] == "narrator" && k[8] == "child" && k[9] == "elder";
  }

  /** The genre names, in table order. */
  lemma GenreNamesInOrder()
    ensures AvailableGenres() == ["fantasy", "adventure", "mystery", "sci-fi", "romance", "comedy", "fairy_tale"]
  {
    var k := Keys(StoryGenres);
    assert k[0] == "fantasy" && k[1] == "adventure" && k[2] == "mystery" && k[3] == "sci-fi";
    assert k[4] == "romance" && k[5] == "comedy" && k[6] == "fairy_tale";
  }

  /** `get_genre_info`: the genre's entry, or an error for an unknown genre. */
  function GenreInfo(genres: Table<Genre>, genre: string): (r: Result<Genre, string>)
    ensures r.Failure? <==> genre !in Keys(genres)
    ensures r.Failure? ==> r.error == "Unknown genre: " + genre
    ensures r.Success? ==> exists i :: 0 <= i < |genres| && genres[i] == (genre, r.value)
  {
    match Lookup(genres, genre)
    case None => Failure("Unknown genre: " + genre)
    case Some(g) => Success(g)
  }

  /** `", ".join(parts)`. */
  function CommaJoin(parts: seq<string>): string {
    if parts == [] then []
    else if |parts| == 1 then parts[0]
    else parts[0] + ", " + CommaJoin(parts[1..])
  }

  const PromptOpening: string := "Create an emotionally engaging "

  /** `create_story_prompt`, up to the list of characters: the genre and
      theme, the genre's description and the characters to include. It fails
      exactly when the genre is unknown. */
  function CreateStoryPrompt(genres: Table<Genre>, genre: string, theme: string, characters: seq<string>): (r: Result<string, string>)
    ensures r.Failure? <==> genre !in Keys(genres)
    ensures r.Failure? ==> r.error == "Unknown genre: " + genre
    ensures r.Success? ==> StartsWith(r.value, PromptOpening + genre)
    ensures r.Success? ==> Contains(r.value, GenreInfo(genres, genre).value.description)
  {
    match GenreInfo(genres, genre)
    case Failure(e) => Failure(e)
    case Success(info) =>
      var head := PromptOpening + genre + " story with the theme of \"" + theme + "\".\n\nGenre: ";
      var tail := "\n\nCharacters to include: " + CommaJoin(characters);
      var prompt := head + (info.description + tail);
      ContainsAt(head, info.description, tail);
      assert prompt[..|PromptOpening + genre|] == PromptOpening + genre;
      Success(prompt)
  }

  /** A story setup: the genre, theme, cast and length handed to story
      generation. */
  datatype StorySetup = StorySetup(genre: string, theme: string, characters: seq<Character>, length: string)

  /** The characters of a setup, built in order; the first unknown template
      aborts the whole setup as the raised `ValueError` would. */
  function Cast(templates: Table<Template>, voiceIds: Table<string>, roles: seq<(string, Option<string>)>): (r: Result<seq<Character>, string>)
    ensures r.Success? <==> forall i :: 0 <= i < |roles| ==> roles[i].0 in Keys(templates)
    ensures r.Success? ==> |r.value| == |roles|
    ensures r.Success? ==>
              forall i :: 0 <= i < |roles| ==>
                CreateCharacterFromTemplate(templates, voiceIds, roles[i].0, roles[i].1) == Success(r.value[i])
  {
    if roles == [] then Success([])
    else
      match CreateCharacterFromTemplate(templates, voiceIds, roles[0].0, roles[0].1)
      case Failure(e) => Failure(e)
      case Success(c) =>
        match Cast(templates, voiceIds, roles[1..])
        case Failure(e) =>
          assert exists i :: 0 <= i < |roles[1..]| && roles[1..][i].0 !in Keys(templates);
          Failure(e)
        case Success(cs) =>
          assert forall i :: 1 <= i < |roles| ==> roles[i] == roles[1..][i - 1];
          Success([c] + cs)
  }

  function SetupFrom(genre: string, theme: string, roles: seq<(string, Option<string>)>): Result<StorySetup, string> {
    match Cast(CharacterTemplates, VoiceIds, roles)
    case Failure(e) => Failure(e)
    case Success(cs) => Success(StorySetup(genre, theme, cs, "medium"))
  }

  const FantasyRoles: seq<(string, Option<string>)> :=
    [("hero", Some("Alex")), ("wizard", Some("Merlin")), ("princess", Some("Elena")), ("villain", Some("Dark Lord"))]
  const MysteryRoles: seq<(string, Option<string>)> :=
    [("detective", Some("Sherlock")), ("friend", Some("Watson")), ("villain", Some("Criminal")), ("narrator", None)]
  const AdventureRoles: seq<(string, Option<string>)> :=
    [("hero", Some("Explorer")), ("friend", Some("Guide")), ("elder", Some("Wise One")), ("villain", Some("Rival"))]

  /** The prompt a setup leads to. */
  function StoryPromptFor(s: StorySetup): Result<string, string> {
    CreateStoryPrompt(StoryGenres, s.genre, s.theme, Names(s.characters))
  }

  /** `create_fantasy_story_setup`. */
  function FantasySetup(): Result<StorySetup, string> {
    SetupFrom("fantasy", "friendship and courage", FantasyRoles)
  }

  /** `create_mystery_story_setup`. */
  function MysterySetup(): Result<StorySetup, string> {
    SetupFrom("mystery", "solving a puzzling crime", MysteryRoles)
  }

  /** `create_adventure_story_setup`. */
  function AdventureSetup(): Result<StorySetup, string> {
    SetupFrom("adventure", "journey to a magical land", AdventureRoles)
  }

  /** The names a cast ends up with. */
  function Names(cs: seq<Character>): (r: seq<string>)
    ensures |r| == |cs|
    ensures forall i :: 0 <= i < |cs| ==> r[i] == cs[i].name
  {
    if cs == [] then [] else [cs[0].name] + Names(cs[1..])
  }

  /** The name a role receives when it already is what title-casing gives:
      its custom name, or the template's own name when it has none. */
  predicate KeepsName(templates: Table<Template>, role: (string, Option<string>), name: string) {
    && role.0 in Keys(templates)
    && (|| (role.1 == Some(name) && name != [] && Title(name) == name)
        || (role.1.None? && Lookup(templates, role.0).value.name == name))
  }

  /** A cast whose custom names are already title-cased succeeds and keeps
      exactly those names. */
  lemma {:induction false} CastKeepsNames(templates: Table<Template>, voiceIds: Table<string>,
                       roles: seq<(string, Option<string>)>, names: seq<string>)
    requires |names| == |roles|
    requires forall i :: 0 <= i < |roles| ==> KeepsName(templates, roles[i], names[i])
    ensures Cast(templates, voiceIds, roles).Success?
    ensures Names(Cast(templates, voiceIds, roles).value) == names
  {
    var cast := Cast(templates, voiceIds, roles).value;
    forall i | 0 <= i < |roles| ensures cast[i].name == names[i] {
      assert KeepsName(templates, roles[i], names[i]);
    }
  }

  lemma FantasyRolesKeepNames()
    ensures |FantasyRoles| == 4
    ensures forall i :: 0 <= i < 4 ==> KeepsName(CharacterTemplates, FantasyRoles[i], ["Alex", "Merlin", "Elena", "Dark Lord"][i])
  {
    var roles, names := FantasyRoles, ["Alex", "Merlin", "Elena", "Dark Lord"];
    var keys := Keys(CharacterTemplates);
    forall i | 0 <= i < 4 ensures KeepsName(CharacterTemplates, roles[i], names[i]) {
      if i == 0 {
        assert keys[0] == "hero";
        TitleByChars("Alex", "Alex");
      } else if i == 1 {
        assert keys[3] == "wizard";
        TitleByChars("Merlin", "Merlin");
      } else if i == 2 {
        assert keys[5] == "princess";
        TitleByChars("Elena", "Elena");
      } else {
        assert keys[1] == "villain";
        TitleByChars("Dark Lord", "Dark Lord");
      }
    }
  }

  /** The fantasy setup succeeds, keeps its already title-cased names, and
      asks for a known genre. */
  lemma FantasySetupBuilds()
    ensures FantasySetup().Success?
    ensures Names(FantasySetup().value.characters) == ["Alex", "Merlin", "Elena", "Dark Lord"]
    ensures StoryPromptFor(FantasySetup().value).Success?
  {
    FantasyRolesKeepNames();
    CastKeepsNames(CharacterTemplates, VoiceIds, FantasyRoles, ["Alex", "Merlin", "Elena", "Dark Lord"]);
    GenreNamesInOrder();
  }

  lemma MysteryRolesKeepNames()
    ensures |MysteryRoles| == 4
    ensures forall i :: 0 <= i < 4 ==> KeepsName(CharacterTemplates, MysteryRoles[i], ["Sherlock", "Watson", "Criminal", "Narrator"][i])
  {
    var roles, names := MysteryRoles, ["Sherlock", "Watson", "Criminal", "Narrator"];
    var keys := Keys(CharacterTemplates);
    forall i | 0 <= i < 4 ensures KeepsName(CharacterTemplates, roles[i], names[i]) {
      if i == 0 {
        assert keys[8] == "detective";
        TitleByChars("Sherlock", "Sherlock");
      } else if i == 1 {
        assert keys[2] == "friend";
        TitleByChars("Watson", "Watson");
      } else if i == 2 {
        assert keys[1] == "villain";
        TitleByChars("Criminal", "Criminal");
      } else {
        assert keys[4] == "narrator";
        TemplateKeysDistinct();
        LookupEntry(CharacterTemplates, 4);
      }
    }
  }

  /** The mystery setup succeeds; its narrator keeps the template's name. */
  lemma MysterySetupBuilds()
    ensures MysterySetup().Success?
    ensures Names(MysterySetup().value.characters) == ["Sherlock", "Watson", "Criminal", "Narrator"]
    ensures StoryPromptFor(MysterySetup().value).Success?
  {
    MysteryRolesKeepNames();
    CastKeepsNames(CharacterTemplates, VoiceIds, MysteryRoles, ["Sherlock", "Watson", "Criminal", "Narrator"]);
    GenreNamesInOrder();
  }

  lemma AdventureRolesKeepNames()
    ensures |AdventureRoles| == 4
    ensures forall i :: 0 <= i < 4 ==> KeepsName(CharacterTemplates, AdventureRoles[i], ["Explorer", "Guide", "Wise One", "Rival"][i])
  {
    var roles, names := AdventureRoles, ["Explorer", "Guide", "Wise One", "Rival"];
    var keys := Keys(CharacterTemplates);
    forall i | 0 <= i < 4 ensures KeepsName(CharacterTemplates, roles[i], names[i]) {
      if i == 0 {
        assert keys[0] == "hero";
        TitleByChars("Explorer", "Explorer");
      } else if i == 1 {
        assert keys[2] == "friend";
        TitleByChars("Guide", "Guide");
      } else if i == 2 {
        assert keys[9] == "elder";
        TitleByChars("Wise One", "Wise One");
      } else {
        assert keys[1] == "villain";
        TitleByChars("Rival", "Rival");
      }
    }
  }

  /** The adventure setup succeeds with its title-cased names. */
  lemma AdventureSetupBuilds()
    ensures AdventureSetup().Success?
    ensures Names(AdventureSetup().value.characters) == ["Explorer", "Guide", "Wise One", "Rival"]
    ensures StoryPromptFor(AdventureSetup().value).Success?
  {
    AdventureRolesKeepNames();
    CastKeepsNames(CharacterTemplates, VoiceIds, AdventureRoles, ["Explorer", "Guide", "Wise One", "Rival"]);
    GenreNamesInOrder();
  }
}
