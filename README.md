# ttsui, modelled in Dafny

ttsui is a small desktop program: the user types text, picks a language and a
voice, presses "Synthesize" to get an MP3 from a cloud text-to-speech provider
(IBM Watson), and presses "Play" to hear it. Almost all of it is GUI and SDK
glue. This project models the four pieces of logic it contains and proves
what they promise:

- **Voice catalogue** (`Voices`, `Ordering`): the provider's flat voice listing
  grouped by language code into ordered lists of (name, description) pairs.
  The language selector shows the sorted keys; selecting a language refills the
  voice selector with that language's list.
- **Audio file name** (`AudioFile`): a timestamp, then `"__"` and the first five
  pieces of `text.split(" ")` joined by `_` (only when the first piece is
  non-empty), then `".mp3"`. Python's split is modelled exactly, empty pieces
  included.
- **Audio cache** (`Ui`): the recorded file of the current text
  (`_filename`), the Play button's enabled flag, the selected voice, an
  abstract file system (a map from path to contents) and a provider that logs
  every request. "Synthesize" is a no-op when the recorded file exists.
  Otherwise it records the new path *before* asking the provider, so a failed
  call leaves a recorded path that does not exist and the next press retries.
  Editing the text or choosing a voice forgets the recorded file and disables Play.
- **Settings check** (`Settings`, `App`): the `service_url` and `api_key` of
  the `Watson` group. Each one that is missing or empty is seeded with `""` and
  sets a fail flag. Both keys are always checked, and startup stops before the
  window is built if either failed.

Modules: `Wrappers` (Option), `Voices`, `Ordering`, `AudioFile`, `Settings`,
`Ui` (classes `WatsonTts` and `TtsWindow`), `App`. The inputs that come from outside are
parameters:
- the provider's voice listing (`listing`);
- the provider's answer to a synthesis request (`reply`: audio bytes or an
  error);
- the formatted timestamp (`now`);
- the speech directory;
- the files that already exist.

Points where the code's behaviour is easy to misread, and which the model follows:
- `words[:5]` keeps five words, so the text "Hello world this is a test" gives
  `…__Hello_world_this_is_a.mp3`. `AudioFile.HelloWorldExample` proves this name.
- A cache hit needs only that the recorded path exists (`exists()`). It does
  not check that the file is non-empty.
- The recorded path is set before the provider call, not after a successful
  synthesis.

Because names are unique only to the second, a failed call can record a path
that an earlier synthesis already wrote. The next "Synthesize" is then a cache
hit with Play still disabled. `Ui.ErrorOverExistingFile` shows this.

## Model

| member | source | states |
|---|---|---|
| `Voices.GroupByLanguage` | ttsui.py:45-51 | the grouping loop: the keys are exactly the languages that occur in the listing, and each key holds the (name, description) pairs of that language's voices in listing order |
| `Voices.VoicesInAbsent` | ttsui.py:48-49 | a language that does not occur has no entries, which is why a new key starts as an empty list |
| `Voices.VoicesInPresent` | ttsui.py:48-50 | a language that occurs has at least one entry |
| `Voices.VoicesInMembers` | ttsui.py:46-50 | a pair is in a language's list exactly when some voice of that language has that name and description |
| `Voices.CatalogueListsNonEmpty` | ttsui.py:45-51 | a catalogue's keys are the languages of the listing, and no list is empty |
| `Voices.CatalogueSize` | ttsui.py:45-51 | counting each language once, the list lengths add up to the number of voices in the listing |
| `Ordering.LessTransitive` | ttsui.py:97 | Python's string order (lexicographic by code point) is transitive |
| `Ordering.LessTotal` | ttsui.py:97 | any two different strings are ordered one way or the other |
| `Ordering.InsertSorted` | ttsui.py:97 | inserting a new string into a strictly sorted list keeps it strictly sorted |
| `Ordering.SortedKeys` | ttsui.py:97-98 | `sorted(keys)`: a strictly increasing list holding exactly the keys, one item per key |
| `Ordering.SortedUnique` | ttsui.py:97-98 | two strictly sorted lists with the same elements are equal, so the language items are determined by the catalogue keys |
| `AudioFile.Split` | ttsui.py:124 | `text.split(" ")` has at least one piece and no piece contains a space |
| `AudioFile.JoinSplit` | ttsui.py:124 | joining the pieces with single spaces gives back the text |
| `AudioFile.SplitJoin` | ttsui.py:124 | pieces without spaces, joined by single spaces, split back into the same pieces |
| `AudioFile.FirstPieceEmpty` | ttsui.py:124-125 | the first piece is empty exactly when the text is empty or starts with a space |
| `AudioFile.BeforeNthSpace` | ttsui.py:126 | the prefix of the text before its n-th space: a prefix of the text that ends at a space or at the end, holding min(number of spaces, n - 1) spaces, and shorter than the text exactly when the text has at least n spaces |
| `AudioFile.JoinTakeSplit` | ttsui.py:126 | `"_".join(words[:n])` is the text up to its n-th space with every space turned into `_` |
| `AudioFile.AudioFileName` | ttsui.py:122-128 | the name always starts with the timestamp and ends with `.mp3` |
| `AudioFile.AudioFileNameCases` | ttsui.py:122-128 | the name is `timestamp + ".mp3"` when the text is empty or starts with a space, and otherwise `timestamp + "__"` + the text up to its fifth space with `_` for spaces + `".mp3"` |
| `AudioFile.FileNameOfWords` | ttsui.py:124-128 | for a text made of space-free words, the first non-empty, the name keeps the first five words joined by `_` |
| `AudioFile.Join` | ttsui.py:126 | `sep.join(pieces)`: the empty list joins to `""` and the first piece starts the result; with `Split`, `JoinSplit` and `SplitJoin` show it is the inverse of splitting |
| `AudioFile.Take` | ttsui.py:126 | the slice `words[:n]`: a prefix of the list of length min(n, length) |
| `AudioFile.HelloWorldExample` | ttsui.py:122-128 | the six words joined by spaces are the text "Hello world this is a test", and at any timestamp that text gives the name `<timestamp>__Hello_world_this_is_a.mp3` |
| `Settings.Seeded` | ttsui.py:165-175 | after the check both keys are present; a key that was absent holds `""`, and every other entry is unchanged |
| `Settings.SettingsStore.Contains` | ttsui.py:166 | `contains` reports whether the key is stored |
| `Settings.SettingsStore.Value` | ttsui.py:166 | `value` returns the stored value, or None for an absent key |
| `Settings.SettingsStore.SetValue` | ttsui.py:167 | `setValue` stores one key and changes nothing else |
| `Settings.CheckWatsonSettings` | ttsui.py:165-175 | the fail flag is set exactly when either key is missing or empty, and the new settings are the seeded ones (both keys always checked) |
| `Settings.SeededPlaceholders` | ttsui.py:165-179 | after seeding, a key holds `""` exactly when it was missing, and the settings are complete exactly when they were before |
| `Settings.SeededIdempotent` | ttsui.py:165-175 | running the check a second time changes nothing |
| `App.Startup` | ttsui.py:161-181 | incomplete settings stop startup before any window or provider client is created; otherwise the window is built from the stored URL and key, with nothing recorded and Play disabled |
| `Ui.SpeechFile` | ttsui.py:130 | `speech_path / filename`: the speech directory, then `/`, then the file name |
| `Ui.SpeechFileInjective` | ttsui.py:130 | two file names that contain no `/` give different paths in the speech directory (pathlib's `/` and `resolve()` can merge names that contain `/`) |
| `Ui.WatsonTts.constructor` | ttsui.py:35-53 | the client's catalogue is the grouping of the listing, and it starts with no voice and no requests |
| `Ui.WatsonTts.SetVoice` | ttsui.py:55-56 | sets the selected voice and nothing else |
| `Ui.WatsonTts.Call` | ttsui.py:58-59 | one synthesis request with the selected voice is added to the log, and the provider's answer is returned |
| `Ui.TtsWindow.constructor` | ttsui.py:63-115 | the language items are the sorted catalogue keys; there is no recorded file, Play is disabled and the provider has not been asked |
| `Ui.TtsWindow.SynthesizeText` | ttsui.py:118-135 | a cache hit changes nothing and asks nothing. A miss records the new path and asks the provider exactly once, with the current text and voice. On success the file exists with the audio and Play is enabled; on error nothing is written and Play stays disabled. Play is enabled only while the recorded file exists |
| `Ui.TtsWindow.InvalidateSpeech` | ttsui.py:142-144 | the recorded file is forgotten and Play is disabled |
| `Ui.TtsWindow.EditText` | ttsui.py:84 | a text edit sets the text and invalidates the recorded file |
| `Ui.TtsWindow.SelectLanguage` | ttsui.py:146-149 | the voice selector holds exactly that language's voices, in listing order, as (description, name) items; previous items are gone |
| `Ui.TtsWindow.ItemData` | ttsui.py:152 | `voice_box.itemData(index)`: the voice name of the item at that index, and None exactly when the index is outside the selector (as for -1) |
| `Ui.TtsWindow.SelectVoice` | ttsui.py:151-153 | the synthesizer's voice becomes the chosen item's data (None outside the selector), then the recorded file is forgotten and Play disabled |
| `Ui.SynthesizeTwice` | ttsui.py:121-135 | after a successful synthesis, pressing "Synthesize" again is a cache hit, so two presses ask the provider at most once |
| `Ui.RetryAfterError` | ttsui.py:130-132 | a failed provider call on a new path leaves a recorded path that does not exist, so the next press asks again |
| `Ui.EditAfterSynthesis` | ttsui.py:142-144 | after an edit, the next "Synthesize" asks the provider with the new text |
| `Ui.ErrorOverExistingFile` | ttsui.py:121-132 | a failed call whose path already exists leaves a cache hit with Play disabled |

## Left out

- Qt widgets, layouts, window setup and signal wiring, lines 62-115. This includes Qt's re-entrant `currentIndexChanged` (`clear`/`addItem` fire `select_voice` during `select_language`) and the initial `currentTextChanged` that fills the voice selector for the first language. The model's window starts with an empty voice selector. In the program, `clear()` fires `select_voice(-1)` and the first `addItem` fires `select_voice(0)`, so every `select_language` ends with the recorded file cleared, Play disabled and the new language's first voice selected, and construction ends with the first sorted language's voices shown and its first voice set. The model's `SelectLanguage` keeps the recorded file, the Play flag and the old voice, and the model's constructor leaves the voice as None.
- The Watson SDK, IAM authentication and the network. The voice listing and each synthesis answer are parameters. `accept="audio/mp3"` and the `.content` of the response are not modelled.
- `datetime.now().strftime(...)`: the formatted timestamp is a parameter.
- `QStandardPaths`, `mkdir` and `Path.resolve`: the path of a file is the speech directory, `"/"` and the name (`SpeechFile`). pathlib collapses `//` and `resolve()` removes `..`, so names with `/` can share a path in the program but not in the model.
- Failures of `open`/`write`: writes always succeed in the model. In the program a name that contains `/` usually points into a subdirectory of the speech directory that does not exist (text such as `and/or`), and a name longer than the file system allows (a long text without spaces) cannot be created. In both cases `open` raises after the provider call, on every press, so the program asks the provider again each time, while the model writes the file and the next press is a cache hit. With `..` segments (text such as `a/../b`), `resolve()` can instead land on a path that can be created, even one outside the speech directory (`a/../../b`); the model keeps such a name under the speech directory as it stands.
- Deletions from outside the program: the model has none, while in the program a user can delete the recorded file at any time. The invariant `playEnabled ==> IsCached()` of `TtsWindow.Valid` relies on this; in the model a recorded path only goes missing after a failed provider call.
- `play_speech`, which is media playback.
- QSettings persistence, `sync()`, group prefixes and the stderr messages. The check works on the in-memory map of the `Watson` group, and `RuntimeError` is a `null` result of `App.Startup`.
- The `KeyError` of `select_language` for an unknown language. The model requires a catalogue key, because the method is only ever called with items of the language selector.
