# StoryTeller — a Dafny model of the MiniMax story teller

StoryTeller asks the MiniMax chat API for a short story, splits it into lines of
narration and dialogue, gives each speaker a voice, and synthesises one MP3 file
per line through the MiniMax text-to-speech API. A script file lists the
segments with their audio files. A separate tool later reads that script back to
put the audio files in story order.

This project models that core in Dafny 4.11 and proves properties of the model.
Each module follows one part of the program:

| module | file | models |
|---|---|---|
| `RateLimiting` | `rate_limiter.dfy` | the sliding-window `RateLimiter` (a class over a `Clock`) |
| `Usage` | `usage.dfy` | model choice, the per-call cost estimate, the usage ledger and the cost breakdown |
| `StoryResponse` | `story_response.dfy` | how `generate_story` turns a chat reply into a story or an error |
| `NameAnalysis` | `name_analysis.dfy` | the classifier defaults loop, the pattern-based fallback analysis, the voice category, the voice pools and round robin |
| `SegmentParsing` | `segments.dfy` | how one story line becomes narration or a speaker with dialogue |
| `ScriptFormat` | `script.dfy` | the text of `story_script.txt`, the `Audio: audio_output/...` scan, and their round trip |
| `StoryTellerModel` | `storyteller.dfy` | the `MiniMaxStoryTeller` class: its state, API calls with the single 429 retry, story generation, name analysis and its cache, voice resolution and its cache, segment parsing, synthesis and the script |
| `Config` | `config.dfy` | the configuration tables, `create_character_from_template`, the genre lookups, `create_story_prompt` and the three example setups |
| `VoiceCatalog` | `voices.dfy` | `extract_voice_ids` and `suggest_voice_mapping` from the voice-listing tool |
| `AudioOrder` | `audio_order.dfy` | reading the script order back, and the fallback stable sort by file-name timestamp |
| `Strings`, `Results`, `Domain` | `strings.dfy`, `results.dfy`, `domain.dfy` | the Python string operations the core relies on, `Option`/`Result`, and the `Character` and `StorySegment` records |

**State.** State that the program updates in place lives in classes:
- `RateLimiter.requestTimes` is a `seq<real>`.
- `Clock.now` is the time source.
- `StoryTeller` holds the characters, the segments, the current story, both caches, the round-robin index and the usage ledger.

**Outside effects.** The network, JSON decoding and the file system enter as
parameters:
- An `Exchange` holds the reply to the first POST and to the retry.
- A `decode` function parses the classifier's JSON.
- A `TtsCall` records what the synthesis endpoint answered.
- A set of existing paths and a directory listing stand in for the file system.

## Model

| member | source | states |
|---|---|---|
| RateLimiting.Clock.constructor | main.py:74 | the clock starts at the given reading |
| RateLimiting.Clock.Sleep | main.py:87 | after sleeping `w` seconds the clock reads at least `w` later |
| RateLimiting.Prune | main.py:77 | a time survives pruning iff it was recorded and lies less than 60 s before now |
| RateLimiting.PruneAppend | main.py:77 | pruning distributes over appending one request time |
| RateLimiting.PruneShrinks | main.py:77 | pruning at a later instant never keeps more entries |
| RateLimiting.PruneDropsOld | main.py:77 | an entry 60 s old or older is always dropped, so the list shrinks |
| RateLimiting.PruneKeepsRecent | main.py:77 | when every entry is recent, pruning changes nothing |
| RateLimiting.PruneSorted | main.py:77 | pruning keeps the request times in chronological order |
| RateLimiting.Min | main.py:81 | the minimum is one of the times and no time is smaller |
| RateLimiting.WindowWait | main.py:81-84 | waiting this long ends exactly 61 s after the oldest request; when all entries are recent the wait exceeds the 1 s buffer |
| RateLimiting.RecordKeepsBound | main.py:77-91 | after pruning, waiting when the window is full, and recording, at most `requests_per_minute` requests lie in the last 60 s |
| RateLimiting.RecordKeepsSorted | main.py:91 | appending the current time keeps the times ordered |
| RateLimiting.RateLimiter.constructor | main.py:65-70 | no requests are recorded, the limit is stored, and the minimum interval is 60 / rpm |
| RateLimiting.RateLimiter.WaitIfNeeded | main.py:72-101 | the new list is the pruned old list plus exactly one time, recorded at or after the call. It equals the start time when under the limit, and is at least the full-window wait later when over it. The clock ends at least `min_interval` after the previous request. The window never holds more than rpm requests |
| Usage.ModelFor | main.py:294 | the chat model is always one of the two configured models |
| Usage.ModelForPricing | main.py:107-135 | the thinking model is chosen iff the requested model type is `story_generation`, and every chosen model has per-token pricing |
| Usage.CallCost | main.py:354-372 | the estimated cost of one call is never negative and is zero for an empty usage block |
| Usage.StoryModelCallCost | main.py:354-365 | 1000 prompt and 500 completion tokens on MiniMax-M1 cost $0.0015 |
| Usage.CallCostMonotone | main.py:354-372 | more tokens never cost less |
| Usage.Record | main.py:338-374 | one call adds one to the total and to its model's count. When the reply carries usage, its total tokens and estimated cost are added too; otherwise tokens and cost are unchanged |
| Usage.EmptyLedgerConsistent | main.py:310-316 | the initial ledger is consistent: its totals equal the sums of its per-model counters, and its cost is not negative |
| Usage.RecordConsistent | main.py:338-352 | recording a call keeps the ledger consistent. Total calls and tokens stay equal to the per-model sums, only called models have token counts, and the cost stays non-negative |
| Usage.RecordGrows | main.py:338-372 | no counter or cost of the ledger decreases and no model is forgotten |
| Usage.BreakdownFor | main.py:401-436 | token-priced models split tokens into `int(0.7·tokens)` input and the rest output, and the two parts sum to the tokens. Per-character models are priced by characters; unknown models use $0.5 per 1M. The cost is never negative |
| Usage.CostBreakdown | main.py:399-436 | the breakdown has exactly one entry per model with tokens, each as `BreakdownFor` prescribes |
| Usage.UsageStatistics | main.py:386-442 | without a ledger the report is all zeros with an empty breakdown; otherwise the ledger is reported with a breakdown over its models |
| StoryResponse.MaxFind | main.py:585-591 | Python's `max` over the labels' `find` results: it is one of those results (or −1 with no labels) and at least every one of them. It is −1 iff no label occurs, and otherwise a position where some label starts |
| StoryResponse.ReasoningStart | main.py:585-591 | the same over the five story labels in the reasoning text: the largest of their first positions, −1 iff none occurs |
| StoryResponse.LabelsTrimmed | main.py:593-595 | every label is non-empty and has no surrounding white space, so stripping keeps it |
| StoryResponse.ReasoningStartFound | main.py:583-592 | when NARRATOR: or HERO: occurs, a story start is found |
| StoryResponse.ReasoningStoryStartsWithLabel | main.py:592-596 | the extracted story is non-blank and begins with one of the labels |
| StoryResponse.ReasoningStartTakesLatestLabel | main.py:585-591 | with the hero speaking before the narrator, the extraction starts at the narrator's label: the later first position wins, not the first label of the story |
| StoryResponse.FromReasoning | main.py:583-601 | a story is recovered from the reasoning iff it mentions NARRATOR: or HERO:. The story is then exactly the reasoning from `ReasoningStart` on, stripped; it is non-blank and starts with a label |
| StoryResponse.BlankContentOutcome | main.py:573-613 | blank content yields the reasoning's story when there is one; otherwise it is a token-limit error iff the finish reason is `length`, else an empty-content error |
| StoryResponse.DecideStory | main.py:540-625 | each error arises exactly in its case (no choices, no message, no content). A returned story is never blank; it is the content when non-blank, else the story recovered from the reasoning |
| StoryResponse.BlankWithoutLabelsFails | main.py:563-613 | blank content with no labelled reasoning never gives a story |
| NameAnalysis.FillDefaults | main.py:693-704 | the result equals `WithDefaults` and has every required field. Fields already present are kept; missing ones get `unknown` or confidence 0.5; a complete analysis is unchanged |
| NameAnalysis.FallbackRules | main.py:726-765 | the fallback analysis has exactly the five fields, adult age and confidence 0.3. Gender is female iff the name ends in a, e or i, and male iff it ends in o or u, or in n or r with a vowel in it; otherwise unknown. The first matching pattern list decides the personality: villainous iff a villain pattern occurs, heroic iff no villain but a hero pattern does, wise iff neither but a wise pattern does, else neutral. The voice type is wise iff the personality is; otherwise feminine, masculine or neutral exactly as the gender is female, male or unknown |
| NameAnalysis.FallbackComplete | main.py:731-737 | the fallback analysis has every required field |
| NameAnalysis.FallbackSage | main.py:740-763 | "Sage" is female, wise, with the wise voice |
| NameAnalysis.FallbackShadow | main.py:749-753 | "Shadow" is villainous, with unknown gender |
| NameAnalysis.FallbackKael | main.py:740-746 | "Kael" is unknown in gender, neutral in personality and voice |
| NameAnalysis.CategoryRules | main.py:843-870 | the narrator pool is never chosen. Villain voices are chosen iff the personality is villainous, sinister or evil. Elder voices are chosen iff the personality is wise, scholarly or mentor, or, with no override, a female or male is elder. Without an override, a female or male child gets child voices (and only then), a female adult gets female voices (and only then), and male voices go exactly to a male adult or to any other gender |
| NameAnalysis.FallbackCategory | main.py:726-870 | a fallback analysis never selects child voices, and a name ending in a, e or i selects female voices unless a personality override applies |
| NameAnalysis.Pool | main.py:784-841 | every category has at least one voice |
| NameAnalysis.PoolsDistinct | main.py:784-841 | no pool lists a voice twice |
| NameAnalysis.FemaleVoicesDistinct | main.py:792-804 | the female pool lists eleven distinct voices |
| NameAnalysis.MaleVoicesDistinct | main.py:806-820 | the male pool lists thirteen distinct voices |
| NameAnalysis.RoundRobinDistinct | main.py:882-885 | fewer than pool-size consecutive round-robin picks from one category never repeat a voice |
| NameAnalysis.ResiduesDiffer | main.py:883 | positions fewer than the pool size apart fall on different pool entries |
| NameAnalysis.ResolvedCharacter | main.py:888-896 | a resolved character keeps the name and selected voice, with speed 1.0, volume 1.0, pitch 0.0 and a neutral emotion |
| SegmentParsing.ParseLine | main.py:924-958 | a line is narration iff it has no colon, and narration keeps the whole line. Otherwise, at the first colon, the speaker is what the label before it names (`LabelSpeaker`) and the text is the rest after it, stripped. A speaker has no colon or parenthesis, and both speaker and text are stripped |
| SegmentParsing.LabelSpeaker | main.py:928-932 | the speaker is the stripped label up to its first `(`, stripped again: the whole stripped label when it has no `(`. It holds no `(` and is stripped |
| SegmentParsing.StageDirectionDropped | main.py:924-932 | `Name (direction): text` is dialogue spoken by `Name` with text `text`: the stage direction is dropped |
| SegmentParsing.DirectionNamesSpeaker | main.py:928-932 | the label `Name (direction)` names the speaker `Name` |
| SegmentParsing.EmptyLabelSpeaks | main.py:924-929 | a line starting with a colon is still dialogue, spoken by the empty name |
| SegmentParsing.ContentLines | main.py:912-919 | the kept lines are non-empty and stripped |
| SegmentParsing.ContentLinesAppend | main.py:915-919 | filtering the lines distributes over concatenation |
| SegmentParsing.ContentLinesKeep | main.py:915-919 | lines that are already stripped and non-empty are all kept, in order |
| SegmentParsing.DialogueRoundTrip | main.py:926-932 | a `Name: text` line of the requested format parses back to exactly that speaker and text |
| SegmentParsing.FormatLines | config.py:323-334 | one formatted line per entry, in order |
| SegmentParsing.FormattedStoryParses | main.py:906-958 | a story written in the prompt's format yields one dialogue segment per line, with the original speakers and texts |
| ScriptFormat.Repeat | main.py:1136 | the rule line has the requested length and character |
| ScriptFormat.MarkerFacts | audio_creator.py:57 | the pattern is `Audio: ` followed by `audio_output/`, begins with `A` and has no newline |
| ScriptFormat.MatchedPathShape | audio_creator.py:57-58 | a match captures a path under `audio_output/` with a name after the directory, up to the end of the line |
| ScriptFormat.FoundPathsShape | audio_creator.py:57-58 | every path found starts with `audio_output/`, has at least one character after it, and holds no newline |
| ScriptFormat.FindAudioPathsLine | audio_creator.py:57-58 | scanning a text is scanning its first line and then the rest |
| ScriptFormat.NewlineSkipped | audio_creator.py:57-58 | a leading newline contributes no path |
| ScriptFormat.LineMatch | audio_creator.py:57-58 | a line beginning with the pattern yields exactly the text after `Audio: ` |
| ScriptFormat.FindAudioPathsUnlines | audio_creator.py:57-58 | scanning newline-joined lines equals scanning each line in turn |
| ScriptFormat.NoMarkerNoPaths | audio_creator.py:57-58 | a line without the pattern yields no path |
| ScriptFormat.AudioLinePath | main.py:1144-1145 | an `Audio:` line written for a file under `audio_output/` reads back as that file |
| ScriptFormat.HeadLinesFacts | main.py:1140-1143 | the segment, character, voice and text lines of a scriptable segment hold no newline, no carriage return and no audio path |
| ScriptFormat.HeadLinesAvoid | main.py:1140-1143 | the head lines avoid any non-digit character that neither the labels nor the fields hold |
| ScriptFormat.HeadLinesScan | main.py:1140-1143 | the head lines hold no audio path when no field line carries the pattern |
| ScriptFormat.SegmentLineScan | main.py:1140 | the `Segment N:` line holds no audio path |
| ScriptFormat.ScanLinesNoCapitalA | audio_creator.py:57-58 | lines without an `A` hold no audio path |
| ScriptFormat.HeaderLinesFacts | main.py:1135-1137 | the title and rule lines hold no audio path |
| ScriptFormat.TailLinesFacts | main.py:1146-1147 | the closing rule and blank line hold no audio path |
| ScriptFormat.AudioLinesFacts | main.py:1144-1145 | a segment's `Audio:` line reads back as its audio file, and is absent when it has none |
| ScriptFormat.BlockFacts | main.py:1140-1147 | one segment's block reads back as that segment's audio file list |
| ScriptFormat.BodyRoundTrip | main.py:1138-1147 | the blocks of all segments are lines without newline or carriage return, and read back as their audio files in segment order |
| ScriptFormat.ScriptRoundTrip | main.py:1134-1147 | the written script holds no carriage return, so a text-mode read leaves it unchanged, and scanning it for audio paths yields exactly the segments' audio files, in order |
| ScriptFormat.UnlinesAvoid | main.py:1134-1147 | lines that avoid a character other than the newline, written one per line, give a text that avoids it |
| ScriptFormat.LinesAvoidAppend | main.py:1134-1147 | two groups of lines that avoid a character avoid it together |
| ScriptFormat.TextModeRead | audio_creator.py:52-53 | the text-mode read never makes the text longer |
| ScriptFormat.TextModeReadNoReturn | audio_creator.py:52-53 | no carriage return survives the read |
| ScriptFormat.TextModeReadIdentity | audio_creator.py:52-53 | a text without carriage returns is read as it is |
| ScriptFormat.TextModeReadCons | audio_creator.py:52-53 | a character other than a carriage return is read as itself |
| ScriptFormat.TextModeReadReturn | audio_creator.py:52-53 | a carriage return is read as one newline, together with a newline right after it |
| ScriptFormat.TextModeReadPrefix | audio_creator.py:52-53 | text without carriage returns passes through the read unchanged, whatever follows it |
| ScriptFormat.CarriageReturnRead | audio_creator.py:52-53 | a carriage return after a line reads as one line break, together with a newline right after it |
| ScriptFormat.CarriageReturnEndsPath | audio_creator.py:52-58 | an audio path written as `file` plus a carriage return plus more reads back as `file` alone |
| Domain.AudioFilesOf | main.py:1144-1145 | the listed audio files are the non-empty ones, at most one per segment |
| StoryTellerModel.Outcome | main.py:320-336 | a call succeeds iff the final reply arrived with a non-error status and a JSON body, and then yields that body. It is a request failure iff the transport failed |
| StoryTellerModel.StampMonotone | main.py:983 | truncated timestamps never go backwards |
| StoryTellerModel.AudioFileNameStamp | main.py:984 | the timestamp read back from a generated file name is the one it was written with |
| StoryTellerModel.SegmentsForStep | main.py:939-958 | appending the next line's segment under an extended voice cache keeps segments and lines in step |
| StoryTellerModel.GeneratedFiles | main.py:1089-1101 | no more files are returned than there are segments |
| StoryTellerModel.SynthesizedStep | main.py:1091-1101 | synthesising the next segment extends the file list by its file exactly when synthesis succeeded |
| StoryTellerModel.SynthesizedAll | main.py:1089-1106 | after the loop the returned files and the updated segments are those the per-segment results prescribe |
| StoryTellerModel.NextVoice | main.py:873-884 | the selected voice belongs to the category's pool |
| StoryTellerModel.StoryTeller.constructor | main.py:136-214 | empty limiters, the four default characters, empty story, segments and caches, no ledger, and `max_retries` from the rate-limit table |
| StoryTellerModel.StoryTeller.AddCharacter | main.py:218-226 | the character is stored under its lowercased name and nothing else changes |
| StoryTellerModel.StoryTeller.PostWithRetry | main.py:320-333 | the reply is the retry's when the first was a 429, otherwise the first. Only then is a second POST made, recorded at least `retry_delay` seconds later |
| StoryTellerModel.StoryTeller.MakeApiCall | main.py:286-384 | the result is the outcome of the final reply. A successful call is entered into the ledger, which is created on first use; a failed one leaves it as it was. Characters, story and caches are unchanged |
| StoryTellerModel.StoryTeller.GenerateStory | main.py:509-636 | a story is returned iff the call succeeded and `DecideStory` finds one. It then becomes the current story; on failure the current story is kept. The ledger records the MiniMax-M1 call |
| StoryTellerModel.StoryTeller.AnalyzeName | main.py:638-724 | the analysis is complete. A cached analysis is returned with no call at all; otherwise the classifier's analysis is completed with defaults and cached, or the uncached fallback is returned |
| StoryTellerModel.StoryTeller.ClassifyName | main.py:677-724 | for an uncached name the call is made on the text model. A decoded reply is completed and cached under the lowercased name; any failure gives the fallback, uncached |
| StoryTellerModel.StoryTeller.KeepAnalysis | main.py:686-720 | a decoded analysis is completed with defaults and cached; no analysis gives the fallback, with the cache unchanged |
| StoryTellerModel.StoryTeller.AssignVoice | main.py:875-904 | the character gets the pool entry at the category's index modulo the pool size. That index advances by one and the character is cached under the exact name |
| StoryTellerModel.StoryTeller.MapNameToVoice | main.py:767-904 | a cached name returns its character with nothing else changed. Otherwise the name is analysed, its category selected and a voice taken round robin; the resulting character is cached. The analysis cache and the ledger become exactly what `analyze_character_name_with_ai` leaves (`AnalysesAfter`, `LedgerAfter`). The whole step is `Progressed`: the new profile is one `Resolved` admits |
| StoryTellerModel.StoryTeller.ParseStoryIntoSegments | main.py:906-967 | one segment per non-blank line, each narration with the narrator or dialogue with the resolved speaker. The segments are stored. The run is `Progressed`: every profile made for a new label is built from its analysis (the cached one or the fallback) with a voice from the pool that analysis selects; the voice and analysis caches keep their entries, no round-robin position goes back, and the ledger's totals only grow. When every label was resolved before, nothing but the segments changes |
| StoryTellerModel.AnalysesAfter | main.py:646-720 | analysing a name keeps every cached analysis and adds at most the lowercased name, holding then exactly the analysis returned; a name left uncached was answered by the fallback |
| StoryTellerModel.LedgerAfter | main.py:646-680 | analysing a cached name leaves the ledger as it was. Otherwise the ledger exists afterwards, its totals only grow, and it counts one more call iff the request succeeded |
| StoryTellerModel.ProgressedByResolution | main.py:767-904 | resolving a new name is progress: the profile cached for it is built from its analysis with a voice of the selected pool |
| StoryTellerModel.ProgressedTransitive | main.py:920-953 | two rounds of resolution compose into one, so a whole story's resolutions keep every cached profile and analysis |
| StoryTellerModel.ResolvedKept | main.py:767-904 | a resolved profile stays explained by the analyses as the analysis cache grows |
| StoryTellerModel.StoryTeller.GenerateAudioForSegment | main.py:969-1081 | a file is returned iff synthesis succeeded, named after the character and the call's truncated timestamp; the segment records it |
| StoryTellerModel.StoryTeller.GenerateFullStoryAudio | main.py:1083-1106 | the returned files are the successful ones in segment order. Timestamps never decrease, and each segment records its own file |
| StoryTellerModel.StoryTeller.Script | main.py:1129-1147 | when every segment is scriptable, reading the script back in text mode and scanning it yields the segments' audio files in order |
| Config.Keys | config.py:277-289 | the key list has one entry per table row, in table order |
| Config.Lookup | config.py:254 | a key is found iff it is in the table, and then the value is that row's |
| Config.LookupEntry | config.py:253 | in a table with distinct keys, looking up a row's key yields that row's value |
| Config.TablesHaveDistinctKeys | config.py:18-243 | the voice, template and genre tables have no duplicate keys |
| Config.VoiceKeysDistinct | config.py:18-32 | the voice table has no duplicate keys |
| Config.TemplateKeysDistinct | config.py:35-162 | the template table has no duplicate keys |
| Config.GenreKeysDistinct | config.py:165-243 | the genre table has no duplicate keys |
| Config.CreateCharacterFromTemplate | config.py:246-274 | an unknown template fails with its message. Otherwise the template's description, speed, volume and pitch are copied. The voice is resolved through the voice table when the template's voice is one of its keys, and kept otherwise. The emotion defaults to neutral. The name is the title-cased custom name when a non-empty one is given, else the template's |
| Config.CustomNameTitled | config.py:257-259 | a given custom name is title-cased |
| Config.TestHeroIsRenamed | config.py:257-259 | the custom name "TestHero" becomes "Testhero" |
| Config.TemplateVoicesKept | config.py:254 | no template's voice is a short key of the voice table, so each template keeps its own voice id |
| Config.VoiceKeysLowerCase | config.py:18-32 | every short voice key starts with a lower-case letter |
| Config.TemplateVoicesEnglish | config.py:35-162 | every template voice id is a full `English...` id |
| Config.TemplateNamesInOrder | config.py:277-279 | the available characters are the template names, in table order |
| Config.VoiceNamesInOrder | config.py:282-284 | the available voices are the voice keys, in table order |
| Config.GenreNamesInOrder | config.py:287-289 | the available genres are the seven genre names, in table order |
| Config.GenreInfo | config.py:292-296 | an unknown genre fails with its message; otherwise its table entry is returned |
| Config.CreateStoryPrompt | config.py:299-338 | an unknown genre fails; otherwise the prompt opens with the genre and contains its description |
| Config.Cast | config.py:344-349 | the characters are created iff every role names a template, one per role |
| Config.CastKeepsNames | config.py:344-349 | roles whose names survive title-casing produce characters with exactly those names |
| Config.FantasyRolesKeepNames | config.py:344-349 | Alex, Merlin, Elena and Dark Lord are unchanged by title-casing |
| Config.FantasySetupBuilds | config.py:342-356 | the fantasy setup builds, with characters Alex, Merlin, Elena and Dark Lord, and its genre is known, so `create_story_prompt` succeeds for it |
| Config.MysteryRolesKeepNames | config.py:361-366 | Sherlock, Watson, Criminal and the template narrator keep their names |
| Config.MysterySetupBuilds | config.py:359-373 | the mystery setup builds, with Sherlock, Watson, Criminal and Narrator, and its genre is known, so `create_story_prompt` succeeds for it |
| Config.AdventureRolesKeepNames | config.py:378-383 | Explorer, Guide, Wise One and Rival are unchanged by title-casing |
| Config.AdventureSetupBuilds | config.py:376-390 | the adventure setup builds, with Explorer, Guide, Wise One and Rival, and its genre is known, so `create_story_prompt` succeeds for it |
| VoiceCatalog.CategoryIds | get_available_voices.py:177-181 | an id is collected iff some voice in the category carries it non-empty |
| VoiceCatalog.CollectedIds | get_available_voices.py:170-181 | an id is collected iff a non-empty category among the five lists a voice with it |
| VoiceCatalog.CollectedIdsListed | get_available_voices.py:170-181 | collected ids are exactly the listed ones |
| VoiceCatalog.Insert | get_available_voices.py:183 | inserting into a strictly ascending list keeps it ascending and adds exactly the new id |
| VoiceCatalog.SortedSet | get_available_voices.py:183 | the result is strictly ascending, so it has no duplicates, and holds exactly the input's ids |
| VoiceCatalog.AscendingUnique | get_available_voices.py:183 | two strictly ascending lists with the same ids are equal |
| VoiceCatalog.ExtractVoiceIds | get_available_voices.py:166-183 | the ids are exactly the listed ones, strictly ascending |
| VoiceCatalog.Consider | get_available_voices.py:194-225 | one voice sets exactly the kinds it fits to its id, and leaves the other suggestions as they were |
| VoiceCatalog.Assign | get_available_voices.py:198-225 | one kind's rule sets that kind when the voice fits it and changes nothing else |
| VoiceCatalog.Suggestions | get_available_voices.py:188-227 | only the four kinds female, male, narrator and villain are ever suggested |
| VoiceCatalog.SuggestedIffFits | get_available_voices.py:194-225 | a kind is suggested iff some system voice fits it |
| VoiceCatalog.SuggestionsLastWins | get_available_voices.py:194-225 | a suggested kind holds the id of the last voice that fits it |
| VoiceCatalog.FemaleNeverNarrator | get_available_voices.py:198-204 | the female suggestion comes from a voice that mentions a female word and not "narrator" |
| VoiceCatalog.FemaleWordsMentionMale | get_available_voices.py:198-210 | a voice matching "female" or "woman" also matches the male keywords, as substrings |
| VoiceCatalog.FemaleWordsGiveMaleSuggestion | get_available_voices.py:206-211 | any female-worded voice produces a male suggestion |
| VoiceCatalog.SuggestVoiceMapping | get_available_voices.py:186-227 | the loop computes `Suggestions` over the system voices, so only the four kinds appear |
| AudioOrder.TrailingDigits | audio_creator.py:39 | the digit run is all digits, ends the text, and is maximal |
| AudioOrder.ExtractTimestamp | audio_creator.py:38-40 | a name that ends neither in `.mp3` nor in `.mp3` and one newline gets timestamp 0 |
| AudioOrder.TrailingDigitsAfterUnderscore | audio_creator.py:39 | the digit run after `_` is exactly the digits |
| AudioOrder.TimestampOfAudioFilename | audio_creator.py:38-40 | the timestamp of `prefix_N.mp3` is N |
| AudioOrder.TimestampOfDigits | audio_creator.py:38-40 | any name ending in `_` and a non-empty digit run, then `.mp3` (or `.mp3` and a newline), gets the value of those digits |
| AudioOrder.PositiveTimestampShape | audio_creator.py:38-40 | a positive timestamp comes only from a name ending in `_` and a non-empty digit run, then `.mp3` (or `.mp3` and a newline), and is their value; every other name gets 0 |
| AudioOrder.InsertBy | audio_creator.py:42 | insertion adds exactly one element and keeps the others |
| AudioOrder.InsertBySorted | audio_creator.py:42 | insertion into a list sorted by key keeps it sorted |
| AudioOrder.InsertByStable | audio_creator.py:42 | insertion places the new element after the others with its key |
| AudioOrder.SortBy | audio_creator.py:42 | the result is sorted by timestamp and is a permutation of the listing |
| AudioOrder.SortByStable | audio_creator.py:42 | files with equal timestamps keep their listing order |
| AudioOrder.StableSortUnique | audio_creator.py:42 | a sorted list is determined by its per-key subsequences, so any stable sort gives this result |
| AudioOrder.Existing | audio_creator.py:61-65 | exactly the matched paths that exist are kept |
| AudioOrder.ExistingAll | audio_creator.py:61-65 | when every path exists, all are kept in order |
| AudioOrder.GetOrderFromScript | audio_creator.py:45-72 | with a readable script, read in text mode, the existing matched paths are returned in script order; a missing or unreadable script gives none |
| AudioOrder.ScriptOrderRoundTrip | audio_creator.py:52-68 | reading back, in text mode, a script written by the story teller yields its segments' audio files, in segment order, when all exist |
| AudioOrder.GetAudioFilesInOrder | audio_creator.py:20-43 | a non-empty script order wins. Otherwise the listing is sorted by timestamp: sorted, a permutation, and stable among equal timestamps |
| Strings.Strip | main.py:916 | the stripped text is a contiguous part of the text with only white space cut from either end. It is empty iff the text is blank, and otherwise neither starts nor ends with white space |
| Strings.StripNoop | main.py:916 | text without surrounding white space is unchanged |
| Strings.StripIdempotent | main.py:916 | stripping twice is stripping once |
| Strings.StripTrailingSpace | main.py:932 | trailing white space after text that starts with a non-space character does not survive a strip |
| Strings.StripKeepsPrefix | main.py:593-595 | stripping keeps a prefix that has no surrounding white space |
| Strings.Lower | main.py:225 | each character is mapped to its lower-case form |
| Strings.Find | main.py:585-591 | −1 iff the pattern does not occur; otherwise the first position where it starts |
| Strings.BeforeFirst | main.py:932 | the part before the first separator, which it does not contain; the whole text when there is none |
| Strings.AfterFirst | main.py:926 | the text is the part before the first separator, the separator, then this part |
| Strings.SplitAtFirst | main.py:926 | splitting `a + sep + b` at its first separator gives back `a` and `b` when `a` has none |
| Strings.Split | main.py:912 | at least one piece, no piece contains the separator, and joining them restores the text |
| Strings.SplitJoin | main.py:912 | splitting joined separator-free pieces gives back the pieces |
| Strings.Title | config.py:259 | title-casing keeps the length |
| Strings.TitleByChars | config.py:259 | a text is the title-casing of another when they agree character by character on the title-case rule |
| Strings.TitleIdempotent | config.py:259 | title-casing twice is title-casing once |
| Strings.NatToString | main.py:984 | the decimal text of a number is non-empty and all digits |
| Strings.DigitsValueOfNatToString | main.py:984 | reading back the decimal text of a number gives that number |
| Strings.LessTransitive | get_available_voices.py:183 | the code-point order on strings is transitive |
| Strings.LessTotal | get_available_voices.py:183 | any two distinct strings are ordered one way |
| Strings.LessAsymmetric | get_available_voices.py:183 | no two strings are ordered both ways |

## Left out

- HTTP and TLS are not modelled. Each POST's reply is a parameter (`Exchange`: the first reply and the reply to the single retry).
- The WebSocket URL is not modelled, since it is never used.
- The API key and request headers are not modelled.
- JSON decoding of replies is not modelled. The classifier reply's decoding is a `decode` parameter, and a chat reply arrives as a structured `ChatReply`.
- The prompts' full text is not modelled. This covers `generate_story_prompt` and the fixed instruction text of `create_story_prompt`; only the opening, the genre description and the joined character names are kept.
- Hex decoding of the audio and the file write are not modelled. A `TtsCall` states whether audio arrived and decoded and was saved.
- `os.makedirs` for the output directory is not modelled.
- Playback is not modelled: `play_audio_file`, pydub combining and `create_story_with_pauses`.
- `print_usage_summary` is not modelled, and neither is any printing.
- The interactive storyteller, the example and demo scripts, `main()`, `cleanup.py`, `create_story_audio.py` and environment loading are not part of this model.
- Floating point is modelled with exact reals. This covers costs, the clock and the character's speed, volume and pitch.
  - `int(tokens * 0.7)` is modelled as `⌊7·tokens/10⌋`, its exact value. Binary rounding can differ from it by one token.
  - The `int(x * 100)` conversions of the voice settings are not modelled. The request body carries the character's values.
- Lower, upper and title casing is modelled for ASCII letters only. Other characters are left as they are.
- `Strip` treats the Python white-space set by code point.
- AudioOrder.ExtractTimestamp: only ASCII digits count. Python's `\d` and `int()` also accept other Unicode decimal digits, so `x_٣.mp3` gets timestamp 3 there and 0 here.
- AudioOrder.ScriptOrderRoundTrip: proved only for scriptable segments. Besides single-line fields, these have no carriage return in the character name, voice id, text or audio path. The reader opens the script in text mode, which turns each carriage return into a line break. In a path, that cuts the reference short (`CarriageReturnEndsPath`): `audio_output/Ka\rel_1.mp3` reads back as `audio_output/Ka`. In the name, voice id or text it would only split a line that holds no reference. The round trip is not proved for those cases.
- StoryTellerModel.StoryTeller.Script: states the read-back only when every segment is scriptable, with the same carriage-return exclusion as `AudioOrder.ScriptOrderRoundTrip`.
- StoryTellerModel.StoryTeller.ParseStoryIntoSegments: states the round-robin positions only as never going back, and the ledger only as growing. It does not count how many positions each category advances or how many classifier calls were made.
- Text-to-speech calls are never entered in the usage ledger, as in the code: only `make_api_call` records usage. The `speech-02-*` pricing rows therefore only reach the breakdown through a ledger that already names them.
- The classifier's replies are a function of the exact speaker name. In the program a repeated name never reaches the classifier, because of the voice cache.
- `RateLimiting.RateLimiter.constructor` requires a positive rate. The program divides by the rate, and its table only uses 50 and 100.
- `StoryTellerModel.StoryTeller.constructor` requires a non-negative clock reading. Timestamps are truncated to a natural number.
- `RateLimiting.RateLimiter.WaitIfNeeded` states the relation between the minimum interval and the rate only through the constructor; the class invariant does not repeat it.
- `max_retries` is stored but, as in the code, never consulted: a 429 is retried exactly once.
- The streaming synthesis path is not modelled. The program defines the WebSocket URL but never uses it.
- The glob listing of `*.mp3` files is a parameter. The in-place `list.sort` is modelled on a sequence as a stable insertion sort, and `StableSortUnique` shows any stable sort gives the same list.
- The file-system checks (`os.path.exists`, reading the script) are parameters: a set of existing paths and a `ScriptFile` value (missing, unreadable or text).
- Notes on behaviour the model follows as written:
  - The request time is recorded before the minimum-interval sleep.
  - The voice cache is keyed by the exact name, while the analysis cache uses the lowercased name.
  - `Narrator:` lines are resolved through the voice resolver like any other speaker.
  - A custom name such as `TestHero` is title-cased to `Testhero`.
