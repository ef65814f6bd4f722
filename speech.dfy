/**
 * The bookkeeping of src/modules/tts.ts: the voice-list transform of
 * `getVoices`, the voice lookup of `generateSpeech`, the name of the saved
 * copy, and the order of effects `generateSpeech` has on the file store.
 * The two HTTP calls are replaced by their answers, passed in as values.
 */
module Speech {
  import opened Wrappers
  import opened Files

  // ---------------------------------------------------------------------
  // Voices

  /** One entry of the provider's `voices` array. */
  datatype VoiceRecord = VoiceRecord(name: string, voiceId: string, category: string)

  /** What `getVoices` hands out: `{ name, id }`. */
  datatype Voice = Voice(name: string, id: string)

  predicate Kept(r: VoiceRecord)
  {
    r.category != "premade"
  }

  /** What one record contributes to the voice list. */
  function Contribution(r: VoiceRecord): (vs: seq<Voice>)
    ensures |vs| <= 1
    ensures vs == [] <==> r.category == "premade"
    ensures vs != [] ==> vs[0].name == r.name && vs[0].id == r.voiceId
  {
    if Kept(r) then [Voice(r.name, r.voiceId)] else []
  }

  /** `voices.filter(category !== 'premade').map(({name, voice_id}) => ({name, id: voice_id}))` */
  function Voices(records: seq<VoiceRecord>): (vs: seq<Voice>)
    ensures |vs| <= |records|
  {
    if records == [] then [] else Contribution(records[0]) + Voices(records[1..])
  }

  /** The transform works entry by entry and keeps the order of the input. */
  lemma {:induction false} VoicesAppend(a: seq<VoiceRecord>, b: seq<VoiceRecord>)
    ensures Voices(a + b) == Voices(a) + Voices(b)
  {
    if a == [] {
      assert a + b == b;
    } else {
      var ab := a + b;
      assert ab[0] == a[0];
      assert ab[1..] == a[1..] + b;
      VoicesAppend(a[1..], b);
      calc {
        Voices(ab);
        Contribution(a[0]) + Voices(a[1..] + b);
        Contribution(a[0]) + (Voices(a[1..]) + Voices(b));
        (Contribution(a[0]) + Voices(a[1..])) + Voices(b);
      }
    }
  }

  /** A voice is listed exactly when some non-premade record carries its name and id. */
  lemma {:induction false} VoicesMember(records: seq<VoiceRecord>, v: Voice)
    ensures v in Voices(records) <==>
      exists i :: 0 <= i < |records| && Kept(records[i]) && records[i].name == v.name && records[i].voiceId == v.id
  {
    if records != [] {
      VoicesMember(records[1..], v);
      if v in Voices(records[1..]) {
        var i :| 0 <= i < |records[1..]| && Kept(records[1..][i]) && records[1..][i].name == v.name && records[1..][i].voiceId == v.id;
        assert records[i + 1] == records[1..][i];
      }
      if exists i :: 0 <= i < |records| && Kept(records[i]) && records[i].name == v.name && records[i].voiceId == v.id {
        var i :| 0 <= i < |records| && Kept(records[i]) && records[i].name == v.name && records[i].voiceId == v.id;
        if i > 0 {
          assert records[1..][i - 1] == records[i];
        }
      }
    }
  }

  /** Without premade voices, every record is kept, at its own position. */
  lemma {:induction false} VoicesNoPremade(records: seq<VoiceRecord>)
    requires forall i :: 0 <= i < |records| ==> Kept(records[i])
    ensures |Voices(records)| == |records|
    ensures forall i :: 0 <= i < |records| ==> Voices(records)[i] == Voice(records[i].name, records[i].voiceId)
  {
    if records != [] {
      VoicesNoPremade(records[1..]);
    }
  }

  /** `voices.find(({ name }) => name === voiceName)`: the first voice with exactly that name. */
  function FindVoice(voices: seq<Voice>, voiceName: string): (r: Option<Voice>)
    ensures r.None? <==> forall i :: 0 <= i < |voices| ==> voices[i].name != voiceName
    ensures r.Some? ==> exists k :: 0 <= k < |voices| && voices[k] == r.value && r.value.name == voiceName &&
                                    forall j :: 0 <= j < k ==> voices[j].name != voiceName
  {
    if voices == [] then None
    else if voices[0].name == voiceName then Some(voices[0])
    else
      var r := FindVoice(voices[1..], voiceName);
      if r.Some? then
        var k :| 0 <= k < |voices[1..]| && voices[1..][k] == r.value && r.value.name == voiceName &&
                  forall j :: 0 <= j < k ==> voices[1..][j].name != voiceName;
        assert voices[k + 1] == r.value;
        assert forall j :: 0 < j < k + 1 ==> voices[j] == voices[1..][j - 1];
        r
      else
        assert forall j :: 0 < j < |voices| ==> voices[j] == voices[1..][j - 1];
        r
  }

  // ---------------------------------------------------------------------
  // The name of the saved copy

  predicate IsAsciiLetter(c: char)
  {
    'a' <= c <= 'z' || 'A' <= c <= 'Z'
  }

  predicate IsDigit(c: char)
  {
    '0' <= c <= '9'
  }

  /** JavaScript strings are UTF-16: a character above U+FFFF is two code units. */
  predicate IsAstral(c: char)
  {
    c as int > 0xFFFF
  }

  /** The JavaScript `length` of `s`. */
  function Utf16Length(s: string): (n: nat)
    ensures |s| <= n <= 2 * |s|
    ensures n == |s| <==> forall i :: 0 <= i < |s| ==> !IsAstral(s[i])
  {
    if s == [] then 0 else (if IsAstral(s[0]) then 2 else 1) + Utf16Length(s[1..])
  }

  predicate IsAscii(s: string)
  {
    forall i :: 0 <= i < |s| ==> s[i] as int < 128
  }

  /**
   * `s.replace(/[^a-z0-9]/gi, '_')`: the regular expression has no `u`
   * flag, so it replaces every UTF-16 code unit that is not an ASCII letter
   * or digit, and an astral character becomes two underscores.
   */
  function ReplaceNonAlnum(s: string): (r: string)
    ensures |r| == Utf16Length(s)
    ensures IsAscii(r)
    ensures forall i :: 0 <= i < |r| ==> IsAsciiLetter(r[i]) || IsDigit(r[i]) || r[i] == '_'
  {
    if s == [] then []
    else
      (if IsAsciiLetter(s[0]) || IsDigit(s[0]) then [s[0]] else if IsAstral(s[0]) then "__" else "_")
      + ReplaceNonAlnum(s[1..])
  }

  function LowerChar(c: char): char
  {
    if 'A' <= c <= 'Z' then (c as int + 32) as char else c
  }

  /** `toLowerCase()` on an ASCII string: only `A`..`Z` change. */
  function LowerAscii(s: string): (r: string)
    requires IsAscii(s)
    ensures |r| == |s|
    ensures forall i :: 0 <= i < |s| ==> r[i] == LowerChar(s[i])
  {
    seq(|s|, i requires 0 <= i < |s| => LowerChar(s[i]))
  }

  /** The characters that survive sanitising. */
  predicate IsStemChar(c: char)
  {
    'a' <= c <= 'z' || IsDigit(c) || c == '_'
  }

  /** `message.replace(/[^a-z0-9]/gi, '_').toLowerCase()`. */
  function Sanitize(message: string): (r: string)
    ensures |r| == Utf16Length(message)
    ensures forall i :: 0 <= i < |r| ==> IsStemChar(r[i])
  {
    LowerAscii(ReplaceNonAlnum(message))
  }

  lemma {:induction false} ReplaceAppend(a: string, b: string)
    ensures ReplaceNonAlnum(a + b) == ReplaceNonAlnum(a) + ReplaceNonAlnum(b)
  {
    if a == [] {
      assert a + b == b;
    } else {
      assert (a + b)[0] == a[0];
      assert (a + b)[1..] == a[1..] + b;
      ReplaceAppend(a[1..], b);
    }
  }

  /** Sanitising works piece by piece, so it is fixed by what it does to each character. */
  lemma SanitizeAppend(a: string, b: string)
    ensures Sanitize(a + b) == Sanitize(a) + Sanitize(b)
  {
    ReplaceAppend(a, b);
    var ra, rb := ReplaceNonAlnum(a), ReplaceNonAlnum(b);
    assert LowerAscii(ra + rb) == LowerAscii(ra) + LowerAscii(rb);
  }

  /**
   * One character: an ASCII letter is lowercased, a digit kept, any other
   * character of the Basic Multilingual Plane becomes `_`, and a character
   * above U+FFFF (two UTF-16 code units) becomes `__`.
   */
  lemma SanitizeOne(c: char)
    ensures Sanitize([c]) == if IsAstral(c) then "__" else [SanitizedChar(c)]
  {
    assert [c][1..] == [];
  }

  /** What sanitising makes of one character of the Basic Multilingual Plane. */
  function SanitizedChar(c: char): char
  {
    if IsAsciiLetter(c) then LowerChar(c) else if IsDigit(c) then c else '_'
  }

  lemma {:induction false} ReplaceBmp(s: string)
    requires forall i :: 0 <= i < |s| ==> !IsAstral(s[i])
    ensures |ReplaceNonAlnum(s)| == |s|
    ensures forall i :: 0 <= i < |s| ==>
      ReplaceNonAlnum(s)[i] == if IsAsciiLetter(s[i]) || IsDigit(s[i]) then s[i] else '_'
  {
    if s != [] {
      ReplaceBmp(s[1..]);
      assert forall i :: 0 < i < |s| ==> s[i] == s[1..][i - 1];
    }
  }

  /**
   * For a message without astral characters, sanitising works position by
   * position: letters are lowercased, digits kept, everything else is `_`.
   */
  lemma SanitizeBmp(message: string)
    requires forall i :: 0 <= i < |message| ==> !IsAstral(message[i])
    ensures |Sanitize(message)| == |message|
    ensures forall i :: 0 <= i < |message| ==> Sanitize(message)[i] == SanitizedChar(message[i])
  {
    ReplaceBmp(message);
  }

  function DigitChar(d: nat): char
    requires d < 10
  {
    ('0' as int + d) as char
  }

  /** The decimal digits of `n`, without leading zeros. */
  function Decimal(n: nat): (r: string)
    ensures |r| > 0 && forall i :: 0 <= i < |r| ==> IsDigit(r[i])
    ensures (r[0] == '0') == (n == 0)
  {
    if n < 10 then [DigitChar(n)] else Decimal(n / 10) + [DigitChar(n % 10)]
  }

  /** `${Date.now()}`: an integer number rendered in decimal, with `-` when negative. */
  function TimeText(t: int): (r: string)
    ensures |r| > 0 && (r[0] == '-' <==> t < 0)
    ensures forall i :: 0 <= i < |r| ==> IsDigit(r[i]) || (i == 0 && r[i] == '-')
  {
    if t < 0 then "-" + Decimal(-t) else Decimal(t)
  }

  /** The longest archive name: `.slice(0, 128)`. */
  const MaxArchiveName := 128

  /** The unshortened archive name `<sanitized message>-<timestamp>`. */
  function FullArchiveName(message: string, now: int): (full: string)
    ensures |full| == Utf16Length(message) + 1 + |TimeText(now)|
    ensures full[..|Sanitize(message)|] == Sanitize(message) && full[|Sanitize(message)|] == '-'
    ensures full[|Sanitize(message)| + 1..] == TimeText(now)
  {
    Sanitize(message) + "-" + TimeText(now)
  }

  /** The name, without `.mp3`, of the saved copy of a speech file. */
  function ArchiveName(message: string, now: int): (name: string)
    ensures |name| <= MaxArchiveName
    ensures name <= FullArchiveName(message, now)
    ensures |name| == if |FullArchiveName(message, now)| < MaxArchiveName then |FullArchiveName(message, now)| else MaxArchiveName
  {
    var full := FullArchiveName(message, now);
    if |full| <= MaxArchiveName then full else full[..MaxArchiveName]
  }

  predicate IsArchiveChar(c: char)
  {
    IsStemChar(c) || c == '-'
  }

  /** The archive name only holds `[a-z0-9_-]`: nothing the shell of `cp` would interpret. */
  lemma ArchiveNameAlphabet(message: string, now: int)
    ensures forall i :: 0 <= i < |ArchiveName(message, now)| ==> IsArchiveChar(ArchiveName(message, now)[i])
  {
    var s, t := Sanitize(message), TimeText(now);
    var full := s + "-" + t;
    assert forall i :: 0 <= i < |t| ==> IsArchiveChar(t[i]) by {
      if now < 0 {
        assert forall i :: 0 < i < |t| ==> t[i] == Decimal(-now)[i - 1];
      }
    }
    assert forall i :: 0 <= i < |full| ==> IsArchiveChar(full[i]) by {
      forall i | 0 <= i < |full| ensures IsArchiveChar(full[i]) {
        if i < |s| {
          assert full[i] == s[i];
        } else if i > |s| {
          assert full[i] == t[i - |s| - 1];
        }
      }
    }
  }

  /** A message of 128 or more code units leaves no room for the timestamp. */
  lemma LongMessageDropsTimestamp(message: string, now: int)
    requires Utf16Length(message) >= MaxArchiveName
    ensures ArchiveName(message, now) == Sanitize(message)[..MaxArchiveName]
  {
    var s := Sanitize(message);
    assert (s + "-" + TimeText(now))[..MaxArchiveName] == s[..MaxArchiveName];
  }

  function DigitValue(c: char): nat
    requires IsDigit(c)
  {
    c as int - '0' as int
  }

  /** The value of a string of decimal digits. */
  function DecimalValue(s: string): nat
    requires forall i :: 0 <= i < |s| ==> IsDigit(s[i])
  {
    if s == [] then 0 else 10 * DecimalValue(s[..|s| - 1]) + DigitValue(s[|s| - 1])
  }

  lemma {:induction false} DecimalRoundTrip(n: nat)
    ensures DecimalValue(Decimal(n)) == n
  {
    if n >= 10 {
      var s := Decimal(n);
      assert s[..|s| - 1] == Decimal(n / 10);
      DecimalRoundTrip(n / 10);
    }
  }

  /** Reads back the output of TimeText. */
  function ParseTime(s: string): Option<int>
  {
    if |s| > 0 && s[0] == '-' then
      var digits := s[1..];
      if forall i :: 0 <= i < |digits| ==> IsDigit(digits[i]) then Some(0 - DecimalValue(digits)) else None
    else
      if forall i :: 0 <= i < |s| ==> IsDigit(s[i]) then Some(DecimalValue(s) as int) else None
  }

  lemma TimeRoundTrip(t: int)
    ensures ParseTime(TimeText(t)) == Some(t)
  {
    var s := TimeText(t);
    if t < 0 {
      var d := Decimal(-t);
      assert s[0] == '-';
      assert s[1..] == d;
      DecimalRoundTrip(-t);
      assert ParseTime(s) == Some(0 - DecimalValue(d));
    } else {
      assert IsDigit(s[0]);
      DecimalRoundTrip(t);
    }
  }

  /** The position of the first `-` in `s`, or `|s|` when there is none. */
  function DashIndex(s: string): (k: nat)
    ensures k <= |s|
  {
    if s == [] || s[0] == '-' then 0 else 1 + DashIndex(s[1..])
  }

  lemma {:induction false} DashIndexAfter(a: string, b: string)
    requires forall i :: 0 <= i < |a| ==> a[i] != '-'
    ensures DashIndex(a + "-" + b) == |a|
  {
    if a != [] {
      assert (a + "-" + b)[1..] == a[1..] + "-" + b;
      DashIndexAfter(a[1..], b);
    }
  }

  /** Splits an archive name back into its sanitized message and its timestamp. */
  function ParseArchiveName(name: string): Option<(string, int)>
  {
    var k := DashIndex(name);
    if k == |name| then None
    else match ParseTime(name[k + 1..])
      case Some(t) => Some((name[..k], t))
      case None => None
  }

  /**
   * When nothing is cut off, the archive name determines the sanitized
   * message and the timestamp.
   */
  lemma ArchiveNameRoundTrip(message: string, now: int)
    requires |FullArchiveName(message, now)| <= MaxArchiveName
    ensures ParseArchiveName(ArchiveName(message, now)) == Some((Sanitize(message), now))
  {
    var s, t := Sanitize(message), TimeText(now);
    DashIndexAfter(s, t);
    assert (s + "-" + t)[|s| + 1..] == t;
    assert (s + "-" + t)[..|s|] == s;
    TimeRoundTrip(now);
  }

  // ---------------------------------------------------------------------
  // generateSpeech on the file store

  /** `${FILE_NO_EXT}.*` matches the sounds-directory files named `speech.<anything>`. */
  predicate IsSlotFile(p: Path)
  {
    p.dir == Sounds && "speech." <= p.name
  }

  /** `${FILE_NO_EXT}.mpg` */
  const SlotPath := Path(Sounds, "speech.mpg")

  /** `${SAVED_DIR}/${filename}.mp3` */
  function ArchivePath(message: string, now: int): (p: Path)
    ensures p.dir == Saved && !IsSlotFile(p)
    ensures 4 <= |p.name| <= MaxArchiveName + 4 && p.name[|p.name| - 4..] == ".mp3"
  {
    Path(Saved, ArchiveName(message, now) + ".mp3")
  }

  /** The files `rm -f ${FILE_NO_EXT}.*` removes. */
  function SlotFiles(fs: Fs): (doomed: set<Path>)
    ensures forall p :: p in doomed <==> p in fs.files && IsSlotFile(p)
    ensures SlotPath in fs.files ==> SlotPath in doomed
  {
    set p | p in fs.files.Keys && IsSlotFile(p)
  }

  /** The answer of the text-to-speech endpoint. */
  datatype Response = Response(status: int, body: string, audio: Bytes)

  /** The errors `generateSpeech` throws. */
  datatype SpeechError =
    | UnknownVoice(message: string)   // no voice has the requested name
    | SynthesisFailed(body: string)   // the provider did not answer 200
    | WriteFailed(path: Path)         // writeFileSync failed: the sounds directory is missing

  datatype Outcome = Done | Failed(error: SpeechError)

  /** The external effects, in the order they are issued. */
  datatype Effect =
    | FetchVoices                          // GET /v1/voices
    | RemoveSlotFiles                      // rm -f speech.*
    | RequestSpeech(voiceId: string, text: string)   // POST /v1/text-to-speech/<id>
    | WriteSlot                            // writeFileSync speech.mpg
    | MakeSavedDir                         // mkdir -p SAVED_DIR
    | CopyToArchive(target: Path)          // cp speech.mpg SAVED_DIR/<name>.mp3

  datatype Run = Run(outcome: Outcome, fs: Fs, effects: seq<Effect>)

  function UnknownVoiceMessage(voiceName: string): string
  {
    "Unknown voice name: " + voiceName
  }

  /** The effects up to and including the synthesis request. */
  function Requested(voice: Voice, message: string): seq<Effect>
  {
    [FetchVoices, RemoveSlotFiles, RequestSpeech(voice.id, message)]
  }

  /**
   * What `generateSpeech` does once the voice is found: remove the slot
   * files, request the speech, and on a 200 answer write the slot, create
   * the saved directory and copy the slot there.
   */
  function SynthesisRun(fs: Fs, voice: Voice, message: string, response: Response, now: int): (run: Run)
    ensures |run.effects| >= 3 && run.effects[..3] == Requested(voice, message)
    ensures run.outcome == Done <==> response.status == 200 && Sounds in fs.dirs
    ensures forall p :: IsSlotFile(p) && p != SlotPath ==> p !in run.fs.files
  {
    var cleared := Removed(fs, SlotFiles(fs));
    if response.status != 200 then
      Run(Failed(SynthesisFailed(response.body)), cleared, Requested(voice, message))
    else if !CanWrite(cleared, SlotPath) then
      Run(Failed(WriteFailed(SlotPath)), cleared, Requested(voice, message) + [WriteSlot])
    else
      var withDir := MadeDir(Written(cleared, SlotPath, response.audio), Saved);
      var archive := ArchivePath(message, now);
      Run(Done, Copied(withDir, SlotPath, archive),
          Requested(voice, message) + [WriteSlot, MakeSavedDir, CopyToArchive(archive)])
  }

  /**
   * What one call of `generateSpeech(voiceName, message)` does to the file
   * store, given the provider's voice list, its synthesis response and the
   * clock reading.
   */
  function SpeechRun(fs: Fs, records: seq<VoiceRecord>, voiceName: string, message: string,
                     response: Response, now: int): (run: Run)
    ensures run.effects != [] && run.effects[0] == FetchVoices
    ensures run.outcome.Failed? && run.outcome.error.UnknownVoice? <==> FindVoice(Voices(records), voiceName).None?
    ensures FindVoice(Voices(records), voiceName).None? ==> run.fs == fs && run.effects == [FetchVoices]
  {
    match FindVoice(Voices(records), voiceName)
    case None => Run(Failed(UnknownVoice(UnknownVoiceMessage(voiceName))), fs, [FetchVoices])
    case Some(voice) => SynthesisRun(fs, voice, message, response, now)
  }

  /** `generateSpeech`, one effect after the other, with its early throws. */
  method GenerateSpeech(store: FileStore, records: seq<VoiceRecord>, voiceName: string, message: string,
                        response: Response, now: int)
    returns (outcome: Outcome, effects: seq<Effect>)
    modifies store
    ensures Run(outcome, store.State(), effects) == SpeechRun(old(store.State()), records, voiceName, message, response, now)
  {
    effects := [FetchVoices];
    var found := FindVoice(Voices(records), voiceName);
    if found.None? {
      return Failed(UnknownVoice(UnknownVoiceMessage(voiceName))), effects;
    }
    var voice := found.value;
    ghost var start := store.State();
    ghost var run := SynthesisRun(start, voice, message, response, now);
    assert SpeechRun(start, records, voiceName, message, response, now) == run;

    store.Remove(SlotFiles(store.State()));
    effects := effects + [RemoveSlotFiles];

    effects := effects + [RequestSpeech(voice.id, message)];
    assert effects == Requested(voice, message);
    if response.status != 200 {
      return Failed(SynthesisFailed(response.body)), effects;
    }

    effects := effects + [WriteSlot];
    var written := store.Write(SlotPath, response.audio);
    if !written {
      return Failed(WriteFailed(SlotPath)), effects;
    }

    store.MakeDir(Saved);
    effects := effects + [MakeSavedDir];
    var archive := ArchivePath(message, now);
    var copied := store.Copy(SlotPath, archive);
    assert copied;
    effects := effects + [CopyToArchive(archive)];
    outcome := Done;
  }

  // ---------------------------------------------------------------------
  // Properties of a run

  /**
   * An unknown voice name fails before anything else: the store is
   * untouched and only the voice list was fetched.
   */
  lemma UnknownVoiceFailsFirst(fs: Fs, records: seq<VoiceRecord>, voiceName: string, message: string,
                               response: Response, now: int)
    requires forall i :: 0 <= i < |records| ==> !(Kept(records[i]) && records[i].name == voiceName)
    ensures SpeechRun(fs, records, voiceName, message, response, now) ==
            Run(Failed(UnknownVoice(UnknownVoiceMessage(voiceName))), fs, [FetchVoices])
  {
    var voices := Voices(records);
    forall k | 0 <= k < |voices| ensures voices[k].name != voiceName {
      VoicesMember(records, voices[k]);
    }
  }

  /**
   * A voice name that a non-premade record carries is found, and the run
   * then removes the slot files and requests speech from that voice's
   * first listed holder of the name.
   */
  lemma KnownVoiceRequests(fs: Fs, records: seq<VoiceRecord>, voiceName: string, message: string,
                           response: Response, now: int, i: int)
    requires 0 <= i < |records| && Kept(records[i]) && records[i].name == voiceName
    ensures FindVoice(Voices(records), voiceName).Some?
    ensures var run := SpeechRun(fs, records, voiceName, message, response, now);
      |run.effects| >= 3 && run.effects[..3] == Requested(FindVoice(Voices(records), voiceName).value, message)
  {
    VoicesMember(records, Voice(records[i].name, records[i].voiceId));
  }

  /** The request goes to the first listed voice that has exactly the requested name. */
  lemma RequestUsesFirstVoice(records: seq<VoiceRecord>, voiceName: string, k: int)
    requires 0 <= k < |Voices(records)| && Voices(records)[k].name == voiceName
    requires forall j :: 0 <= j < k ==> Voices(records)[j].name != voiceName
    ensures FindVoice(Voices(records), voiceName) == Some(Voices(records)[k])
  {
    var voices := Voices(records);
    var r := FindVoice(voices, voiceName);
    var m :| 0 <= m < |voices| && voices[m] == r.value && r.value.name == voiceName &&
             forall j :: 0 <= j < m ==> voices[j].name != voiceName;
    assert m == k;
  }

  /**
   * A response other than 200 fails with the response body; the slot
   * files were already removed, so no `speech.*` file is left, and
   * nothing else changed.
   */
  lemma RejectedLeavesNoSlot(fs: Fs, voice: Voice, message: string, response: Response, now: int)
    requires response.status != 200
    ensures var run := SynthesisRun(fs, voice, message, response, now);
      run.outcome == Failed(SynthesisFailed(response.body))
      && run.fs.dirs == fs.dirs
      && (forall p :: IsSlotFile(p) ==> p !in run.fs.files)
      && (forall p :: !IsSlotFile(p) ==> (p in run.fs.files <==> p in fs.files))
      && (forall p :: p in run.fs.files ==> run.fs.files[p] == fs.files[p])
      && run.effects == Requested(voice, message)
  {
  }

  /**
   * A 200 response (with the sounds directory present) leaves the bytes
   * in the slot file and in the saved copy, creates the saved directory,
   * removes every other slot file and changes no other file.
   */
  lemma SuccessfulRun(fs: Fs, voice: Voice, message: string, response: Response, now: int)
    requires response.status == 200
    requires Sounds in fs.dirs
    ensures var run := SynthesisRun(fs, voice, message, response, now);
      var archive := ArchivePath(message, now);
      run.outcome == Done
      && SlotPath in run.fs.files && run.fs.files[SlotPath] == response.audio
      && run.fs.dirs == fs.dirs + {Saved}
      && archive in run.fs.files && run.fs.files[archive] == response.audio
      && (forall p :: IsSlotFile(p) && p != SlotPath ==> p !in run.fs.files)
      && (forall p :: !IsSlotFile(p) && p != archive ==>
            (p in run.fs.files <==> p in fs.files) && (p in fs.files ==> run.fs.files[p] == fs.files[p]))
      && run.effects == Requested(voice, message) + [WriteSlot, MakeSavedDir, CopyToArchive(archive)]
  {
    var cleared := Removed(fs, SlotFiles(fs));
    var written := Written(cleared, SlotPath, response.audio);
    var withDir := MadeDir(written, Saved);
    var archive := ArchivePath(message, now);
    assert archive != SlotPath;
    var done := Copied(withDir, SlotPath, archive);
    assert SynthesisRun(fs, voice, message, response, now).fs == done;
  }

  /** Without the sounds directory, `writeFileSync` throws after the slot files are gone. */
  lemma MissingSoundsDirFailsWrite(fs: Fs, voice: Voice, message: string, response: Response, now: int)
    requires response.status == 200
    requires Sounds !in fs.dirs
    ensures SynthesisRun(fs, voice, message, response, now) ==
            Run(Failed(WriteFailed(SlotPath)), Removed(fs, SlotFiles(fs)), Requested(voice, message) + [WriteSlot])
  {
  }

  /** Every run keeps the store well formed: each file lives in an existing directory. */
  lemma RunKeepsValid(fs: Fs, records: seq<VoiceRecord>, voiceName: string, message: string,
                      response: Response, now: int)
    requires Valid(fs)
    ensures Valid(SpeechRun(fs, records, voiceName, message, response, now).fs)
  {
  }
}
