# Audio-name cache and speech bookkeeping of a Discord voice bot

This project models two modules of a Discord bot that plays sounds, music and
synthesized speech in voice channels.

- `src/modules/cache.js`: the audio-name cache. Two ordered lists of file
  names (sounds, music) are filled by appending directory listings. A lookup
  returns the first cached name that contains the query. A renderer lists the
  names without extensions, in backticks, joined by `, `. `getAudioResource`
  picks the directory to read a file from.
- `src/modules/tts.ts`: the speech pipeline without its network and shell.
  This covers the voice-list transform, the exact-name voice lookup, and the
  name of the archived copy. It also covers the ordered effects of
  `generateSpeech` on a file store: remove `speech.*`, check the response
  status, write `speech.mpg`, `mkdir -p` the saved directory, copy there.

Files:

- `wrappers.dfy`: `Option`, standing in for `undefined`.
- `files.dfy`: an abstract file store.
  - The directories `sounds`, `music` and `saved`, with files addressed by (directory, name).
  - Pure transforms for `rm -f`, `writeFileSync`, `mkdir -p` and `cp`.
  - A class `FileStore` whose methods perform one effect each.
- `cache.dfy` (module `AudioCache`): class `Cache` with the fields
  `soundNames` and `musicNames`. `CacheFileNames` appends to them in a loop.
  Pure functions on lists give the lookup and the renderer, and lemmas state
  their properties.
- `speech.dfy` (module `Speech`):
  - the voice transform and lookup;
  - the archive name (sanitising, timestamp, truncation to 128);
  - the specification function `SpeechRun` of one `generateSpeech` call;
  - the imperative `GenerateSpeech` on a `FileStore`, proved equal to `SpeechRun`;
  - lemmas about each outcome.

Modelling choices:

- The lookup has no exact-match tier, no unique/ambiguous
  distinction, and `buildFileList` does no underscore-prefix grouping. The
  first entry that contains the query wins, even over a later entry equal to
  it.
- `if (found) return found;` tests JavaScript truthiness. An empty entry found
  by `find` is therefore reported as `undefined`. That happens only for the
  empty query when the first entry is the empty name (`ClosestEmptyQuery`).
- `AUDIO_TYPE_SOUND` comes from `src/modules/constants.js`, which is not part
  of this model. Its value `"sound"` in the constant `AudioTypeSound` is
  assumed. Only equality with it matters: that type selects the sound list
  and every other type selects the music list.
- JavaScript strings are UTF-16. The regular expression `/[^a-z0-9]/gi` has no
  `u` flag, so a character above U+FFFF counts as two code units and becomes
  `__`. `Utf16Length` measures length as JavaScript does.
- Directory listings, the provider's voice list, the synthesis response
  (status, body, bytes) and `Date.now()` are parameters.
- `writeFileSync` fails when the sounds directory is missing. That is the
  `WriteFailed` error. `cp` cannot fail after the `mkdir -p` and the write: the
  method asserts it.
- The order of external effects is returned as a sequence of `Effect` values.
  From it one can read, for example, that an unknown voice issues no synthesis
  request.

## Model

| member | source | states |
|---|---|---|
| AudioCache.Cache.constructor | src/modules/cache.js:7-8 | both name lists start empty |
| AudioCache.Cache.CacheFileNames | src/modules/cache.js:13-16 | each list becomes its old contents followed by its listing, in listing order; a second call appends the entries again |
| AudioCache.Find | src/modules/cache.js:29 | `find` returns nothing exactly when no entry contains the query; otherwise it returns the entry at the first containing position |
| AudioCache.Closest | src/modules/cache.js:29-33 | a returned name is an element of the list, contains the query, and is at the first containing position |
| AudioCache.Contains | src/modules/cache.js:29 | `includes`: a contained string is never longer than the string containing it; between strings of equal length, containment is equality |
| AudioCache.ContainsItself | src/modules/cache.js:29 | `includes` holds of a string and itself |
| AudioCache.ContainsEmpty | src/modules/cache.js:29 | every string includes the empty string |
| AudioCache.ClosestIsFirst | src/modules/cache.js:29-30 | the first containing entry, when it is non-empty, is returned whatever follows |
| AudioCache.LaterExactMatchLoses | src/modules/cache.js:29 | a later entry equal to the query is a candidate (it contains the query), yet the earlier entry that merely contains it is returned |
| AudioCache.ClosestNoneIff | src/modules/cache.js:29-33 | for a non-empty query, `undefined` is returned iff no entry contains the query |
| AudioCache.ClosestEmptyQuery | src/modules/cache.js:29-33 | the empty query returns the first entry of a list whose first entry is non-empty, and `undefined` otherwise |
| AudioCache.Cache.GetClosestFileName | src/modules/cache.js:25-34 | the sound type searches `soundNames` and any other type `musicNames`; a result is the first containing entry of that list; being a function it changes neither list |
| AudioCache.Stem | src/modules/cache.js:57 | `split('.')[0]` is a prefix of the name with no `.`; it is the whole name or stops right before the first `.` |
| AudioCache.Quoted | src/modules/cache.js:57 | one list item is the stem between two backticks, and it holds no `.` |
| AudioCache.QuotedAll | src/modules/cache.js:57 | the two `map`s keep the length and quote each name's stem at its own position |
| AudioCache.Join | src/modules/cache.js:57 | `join` of no items is `""`; otherwise the result starts with the first item and ends with the last |
| AudioCache.FileList | src/modules/cache.js:57 | the rendering is empty iff the list is empty; otherwise it starts with the first name's quoted stem and ends with the last one's |
| AudioCache.FileListBase | src/modules/cache.js:57 | an empty list renders as `""`; one name renders as its stem in backticks |
| AudioCache.FileListAppend | src/modules/cache.js:57 | rendering follows list order: two non-empty lists render as their renderings joined by `, ` |
| AudioCache.FileListSnoc | src/modules/cache.js:57 | appending a name appends `, ` and its quoted stem |
| AudioCache.JoinAppend | src/modules/cache.js:57 | `join` of two non-empty lists is their joins separated by the separator |
| AudioCache.Cache.BuildFileList | src/modules/cache.js:55-58 | the sound type renders `soundNames` and any other type `musicNames`; no list changes |
| AudioCache.Cache.AudioResourcePath | src/modules/cache.js:42-45 | the file is read from the sounds directory iff the name is in `soundNames`, else from the music directory, even when the name is in neither list |
| Speech.Kept | src/modules/tts.ts:30 | the `filter`: a record is kept iff its category is not `premade` |
| Speech.Contribution | src/modules/tts.ts:30-32 | a premade record contributes nothing; another record contributes exactly `{name, id: voice_id}` |
| Speech.Voices | src/modules/tts.ts:29-32 | the voice list is never longer than the provider's list |
| Speech.VoicesAppend | src/modules/tts.ts:29-32 | the transform works record by record and keeps the input order |
| Speech.VoicesMember | src/modules/tts.ts:29-32 | `{name, id}` is listed iff some non-premade record has that name and `voice_id` |
| Speech.VoicesNoPremade | src/modules/tts.ts:29-32 | with no premade record, every record appears at its own position as `{name, id: voice_id}` |
| Speech.FindVoice | src/modules/tts.ts:46 | nothing is found iff no voice has exactly that name; otherwise the first voice with that name is returned |
| Speech.RequestUsesFirstVoice | src/modules/tts.ts:46 | the voice at the first position with the requested name is the one found |
| Speech.IsSlotFile | src/modules/tts.ts:49 | the glob `${FILE_NO_EXT}.*` matches the files of the sounds directory whose names start with `speech.` |
| Speech.SlotFiles | src/modules/tts.ts:49 | the files removed are exactly the existing slot files, `speech.mpg` among them when present |
| Speech.ArchivePath | src/modules/tts.ts:78 | the saved copy lies in the saved directory, is not a slot file, and has a name of at most 132 characters ending in `.mp3` |
| Speech.SynthesisRun | src/modules/tts.ts:49-78 | once a voice is found, the first three effects are fetch, `rm -f` and the request; the run succeeds iff the status is 200 and the sounds directory exists; no slot file except `speech.mpg` remains |
| Speech.SpeechRun | src/modules/tts.ts:43-79 | every call fetches the voice list first; it fails with an unknown voice iff the lookup finds nothing, and then the store is unchanged and nothing else happens |
| Speech.UnknownVoiceFailsFirst | src/modules/tts.ts:45-49 | with no such voice the call fails with `Unknown voice name: <name>`; the store is unchanged and only the voice list was fetched |
| Speech.KnownVoiceRequests | src/modules/tts.ts:45-53 | a name carried by a non-premade record is found; the run then fetches, removes the slot files and requests speech from that voice, in that order |
| Speech.RejectedLeavesNoSlot | src/modules/tts.ts:49-69 | a status other than 200 fails with the body and writes nothing; no `speech.*` file remains and no other file or directory changes |
| Speech.SuccessfulRun | src/modules/tts.ts:71-78 | on 200 `speech.mpg` holds the response bytes, the saved directory exists, the archive file holds the same bytes, other slot files are gone, no other file changes, and the effects come in source order |
| Speech.MissingSoundsDirFailsWrite | src/modules/tts.ts:72 | without the sounds directory the write throws after the slot files were removed |
| Speech.RunKeepsValid | src/modules/tts.ts:49-78 | every run keeps each file inside an existing directory |
| Speech.GenerateSpeech | src/modules/tts.ts:43-79 | the step-by-step method yields the outcome, the new store and the effects of `SpeechRun` |
| Speech.Utf16Length | src/modules/tts.ts:77 | the JavaScript length lies between the character count and twice it, and equals the count iff no character is above U+FFFF |
| Speech.ReplaceNonAlnum | src/modules/tts.ts:77 | `replace(/[^a-z0-9]/gi, '_')` keeps the JavaScript length and leaves only ASCII letters, digits and `_` |
| Speech.ReplaceAppend | src/modules/tts.ts:77 | the replacement works piece by piece: on a concatenation it concatenates the results |
| Speech.Sanitize | src/modules/tts.ts:77 | the sanitized message has the message's UTF-16 length and holds only `[a-z0-9_]` |
| Speech.SanitizeBmp | src/modules/tts.ts:77 | for a message without astral characters, each position maps on its own: a letter becomes lower case, a digit is kept, anything else becomes `_` |
| Speech.SanitizeAppend | src/modules/tts.ts:77 | sanitising a concatenation concatenates the sanitized parts, so every message is fixed character by character |
| Speech.SanitizeOne | src/modules/tts.ts:77 | one character: an ASCII letter is lowercased, a digit kept, another character up to U+FFFF becomes `_`, and one above becomes `__` |
| Speech.LowerAscii | src/modules/tts.ts:77 | `toLowerCase` on ASCII keeps the length and lowers `A`..`Z` position by position |
| Speech.Decimal | src/modules/tts.ts:77 | the timestamp's decimal form is non-empty, all digits, and starts with `0` only for zero |
| Speech.TimeText | src/modules/tts.ts:77 | the rendered timestamp is non-empty and all digits, except a leading `-` exactly when it is negative |
| Speech.DecimalRoundTrip | src/modules/tts.ts:77 | reading the decimal form back gives the number |
| Speech.TimeRoundTrip | src/modules/tts.ts:77 | the rendered timestamp, with its sign, reads back to the timestamp |
| Speech.FullArchiveName | src/modules/tts.ts:77 | the uncut name is the sanitized message, then `-`, then the timestamp, and its length is the message's JavaScript length plus 1 plus the timestamp's |
| Speech.ArchiveName | src/modules/tts.ts:77 | the archive name is a prefix of `sanitize(message) + "-" + timestamp`, at most 128 long, and exactly `min(128, full length)` long |
| Speech.ArchiveNameAlphabet | src/modules/tts.ts:77-78 | every character of the archive name lies in `[a-z0-9_-]` |
| Speech.LongMessageDropsTimestamp | src/modules/tts.ts:77 | a message of 128 or more code units leaves only its first 128 sanitized characters and cuts the timestamp off entirely |
| Speech.ArchiveNameRoundTrip | src/modules/tts.ts:77 | when nothing is cut off, splitting the name at its first `-` gives back the sanitized message and the timestamp |
| Speech.DashIndexAfter | src/modules/tts.ts:77 | a `-` appended after dash-free text is found right after that text |
| Files.Removed | src/modules/tts.ts:49 | `rm -f` deletes exactly the named files that exist and keeps the rest |
| Files.Written | src/modules/tts.ts:72 | `writeFileSync` sets the target to the bytes and leaves every other file alone |
| Files.MadeDir | src/modules/tts.ts:76 | `mkdir -p` adds the directory and changes no file |
| Files.Copied | src/modules/tts.ts:78 | `cp` gives the target the source's bytes and leaves every other file alone |
| Files.FileStore.Remove | src/modules/tts.ts:49 | the store becomes `Removed` of its old state |
| Files.FileStore.Write | src/modules/tts.ts:72 | succeeds iff the directory exists, and the store then becomes `Written` of its old state |
| Files.FileStore.MakeDir | src/modules/tts.ts:76 | the store becomes `MadeDir` of its old state |
| Files.FileStore.Copy | src/modules/tts.ts:78 | succeeds iff the source exists and the target directory exists, and the store then becomes `Copied` of its old state |

## Left out

- The HTTP calls to the voices and text-to-speech endpoints (src/modules/tts.ts:22-27, 53-67): network I/O. Their answers are parameters, and the request shows up only as the `RequestSpeech` effect.
- The request body (src/modules/tts.ts:59-66): the model name `'eleven_multilingual_v2'` and the floats `stability` and `similarity_boost`, all passed straight to the provider. The API key and config loading are left out too.
- The shell itself: `rm -f ${FILE_NO_EXT}.*` is modelled as removing the sounds-directory files whose names start with `speech.` (`IsSlotFile`). Other glob rules, quoting and shell failures are not modelled.
- `convertSpeech` (ffmpeg), `playSpeech` (joining and playing through the voice agent) and the 5-second `setTimeout` cleanup: external tools, asynchronous calls and timers.
- Concurrent calls of `generateSpeech` racing on the speech slot: the model is one sequential call.
- `log` calls: console output.
- `fs.readdirSync`, `fs.createReadStream` and `createAudioResource` in cache.js: the listings are parameters, and of `getAudioResource` only the file path it opens is modelled.
- `Date.now()` is an integer parameter. The exponent notation that JavaScript would use only past 10^21 is not modelled.
- LowerAscii: models `toLowerCase` only on ASCII input. `ReplaceAlphabet` proves that this is all it ever receives here.
- src/commands/roll.js (randomness and floating point), src/commands/leave.js, src/modules/logger.js (wall clock and console), src/modules/client.js and scripts/deploy-slash-commands.js (Discord gateway and REST wiring): outside the modelled core.
