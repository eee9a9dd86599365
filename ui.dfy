/**
 * The speech provider client and the main window's cache logic: the recorded
 * audio file of the current text, the Play button's enabled flag, the selected
 * voice and the language and voice selectors. The provider, the clock and the
 * file system are abstract: the provider's answer and the formatted timestamp
 * come in as parameters, and the file system is a map from path to contents.
 */
module Ui {
  import opened Wrappers
  import opened Voices
  import opened Ordering
  import opened AudioFile

  newtype byte = x: int | 0 <= x < 256

  /** One synthesis request sent to the provider: the text and the voice in effect. */
  datatype Request = Request(text: string, voice: Option<string>)

  /** What the provider answers to a synthesis request. */
  datatype Reply = Audio(speech: seq<byte>) | ProviderError(message: string)

  /** How a press of "Synthesize" ends: cache hit, new file written, or the provider's error raised. */
  datatype Outcome = Cached | Synthesized | Raised(message: string)

  /** An entry of the voice selector: the text shown, and the voice name kept as item data. */
  datatype VoiceItem = VoiceItem(text: string, data: string)

  /** The absolute path of a file in the speech directory. */
  function SpeechFile(dir: string, name: string): (path: string)
    ensures |path| == |dir| + 1 + |name|
    ensures path[..|dir|] == dir && path[|dir|] == '/' && path[|dir| + 1..] == name
  {
    dir + "/" + name
  }

  /** Different names without a '/' in one directory give different paths. */
  lemma SpeechFileInjective(dir: string, a: string, b: string)
    requires '/' !in a && '/' !in b
    requires SpeechFile(dir, a) == SpeechFile(dir, b)
    ensures a == b
  {
    assert a == SpeechFile(dir, a)[|dir| + 1..];
  }

  /** The provider client: its voice catalogue, the selected voice and the requests sent so far. */
  class WatsonTts {
    const serviceUrl: string
    const apiKey: string
    /** The provider's voice listing, fetched once at construction. */
    ghost const listing: seq<Voice>
    const voicesPerLanguage: Catalogue
    var voice: Option<string>
    var requests: seq<Request>

    ghost predicate Valid()
    {
      IsCatalogueOf(voicesPerLanguage, listing)
    }

    constructor (serviceUrl: string, apiKey: string, listing: seq<Voice>)
      ensures Valid()
      ensures this.serviceUrl == serviceUrl && this.apiKey == apiKey && this.listing == listing
      ensures voice == None && requests == []
    {
      this.serviceUrl := serviceUrl;
      this.apiKey := apiKey;
      this.listing := listing;
      var catalogue := GroupByLanguage(listing);
      voicesPerLanguage := catalogue;
      voice := None;
      requests := [];
    }

    method SetVoice(v: Option<string>)
      modifies this
      ensures voice == v && requests == old(requests)
    {
      voice := v;
    }

    /** One synthesis request with the selected voice; `reply` is the provider's answer. */
    method Call(text: string, reply: Reply) returns (result: Reply)
      modifies this
      ensures result == reply
      ensures voice == old(voice) && requests == old(requests) + [Request(text, voice)]
    {
      requests := requests + [Request(text, voice)];
      result := reply;
    }
  }

  class TtsWindow {
    const synthesizer: WatsonTts
    const speechDir: string
    /** The language selector's items. */
    const languageItems: seq<string>
    /** The text area's contents. */
    var text: string
    /** The audio file recorded for the current text, if any. */
    var filename: Option<string>
    var playEnabled: bool
    /** The voice selector's items. */
    var voiceItems: seq<VoiceItem>
    /** The file system: the existing paths and their contents. */
    var files: map<string, seq<byte>>

    /** The recorded file exists, so "Synthesize" is a cache hit. */
    predicate IsCached()
      reads this
    {
      filename.Some? && filename.value in files
    }

    ghost predicate Valid()
      reads this, synthesizer
    {
      && synthesizer.Valid()
      && StrictlySorted(languageItems)
      && (forall l :: l in languageItems <==> l in synthesizer.voicesPerLanguage)
      && (playEnabled ==> IsCached())
    }

    constructor (serviceUrl: string, apiKey: string, listing: seq<Voice>, speechDir: string,
                 files: map<string, seq<byte>>)
      ensures Valid() && fresh(synthesizer)
      ensures synthesizer.serviceUrl == serviceUrl && synthesizer.apiKey == apiKey
      ensures synthesizer.listing == listing
      ensures synthesizer.voice == None && synthesizer.requests == []
      ensures this.speechDir == speechDir && this.files == files
      ensures text == "" && filename == None && !playEnabled && voiceItems == []
    {
      var tts := new WatsonTts(serviceUrl, apiKey, listing);
      synthesizer := tts;
      this.speechDir := speechDir;
      this.files := files;
      text := "";
      filename := None;
      voiceItems := [];
      var sorted := SortedKeys(tts.voicesPerLanguage.Keys);
      languageItems := sorted;
      playEnabled := false;
    }

    /**
     * "Synthesize": a cache hit does nothing; otherwise the new file name is
     * recorded, the provider is asked once with the selected voice, and on
     * success the audio is written and Play enabled.
     */
    method SynthesizeText(now: string, reply: Reply) returns (outcome: Outcome)
      requires Valid()
      modifies this, synthesizer
      ensures Valid()
      ensures text == old(text) && voiceItems == old(voiceItems)
      ensures synthesizer.voice == old(synthesizer.voice)
      ensures old(IsCached()) ==>
        && outcome == Cached
        && filename == old(filename) && files == old(files) && playEnabled == old(playEnabled)
        && synthesizer.requests == old(synthesizer.requests)
      ensures !old(IsCached()) ==>
        var path := SpeechFile(speechDir, AudioFileName(now, text));
        && filename == Some(path)
        && synthesizer.requests == old(synthesizer.requests) + [Request(text, synthesizer.voice)]
        && (reply.Audio? ==>
              outcome == Synthesized && files == old(files)[path := reply.speech] && playEnabled)
        && (reply.ProviderError? ==>
              outcome == Raised(reply.message) && files == old(files) && !playEnabled)
    {
      if filename.None? || filename.value !in files {
        var name := AudioFileName(now, text);
        var path := SpeechFile(speechDir, name);
        filename := Some(path);
        var result := synthesizer.Call(text, reply);
        match result
        case ProviderError(message) =>
          outcome := Raised(message);
        case Audio(speech) =>
          files := files[path := speech];
          playEnabled := true;
          outcome := Synthesized;
      } else {
        outcome := Cached;
      }
    }

    /** Forgets the recorded file and disables Play. */
    method InvalidateSpeech()
      requires Valid()
      modifies this
      ensures Valid()
      ensures filename == None && !playEnabled
      ensures text == old(text) && voiceItems == old(voiceItems) && files == old(files)
    {
      filename := None;
      playEnabled := false;
    }

    /** An edit of the text area: the new text, and the recorded file invalidated. */
    method EditText(newText: string)
      requires Valid()
      modifies this
      ensures Valid()
      ensures text == newText && filename == None && !playEnabled
      ensures voiceItems == old(voiceItems) && files == old(files)
    {
      text := newText;
      InvalidateSpeech();
    }

    /** Refills the voice selector with the voices of `language`, in catalogue order. */
    method SelectLanguage(language: string)
      requires Valid()
      requires language in synthesizer.voicesPerLanguage
      modifies this
      ensures Valid()
      ensures synthesizer.voicesPerLanguage[language] == VoicesIn(synthesizer.listing, language)
      ensures |voiceItems| == |synthesizer.voicesPerLanguage[language]|
      ensures forall i :: 0 <= i < |voiceItems| ==>
        voiceItems[i] == VoiceItem(synthesizer.voicesPerLanguage[language][i].description,
                                   synthesizer.voicesPerLanguage[language][i].name)
      ensures text == old(text) && filename == old(filename) && playEnabled == old(playEnabled)
      ensures files == old(files)
    {
      var entries := synthesizer.voicesPerLanguage[language];
      voiceItems := [];
      for i := 0 to |entries|
        invariant |voiceItems| == i
        invariant text == old(text) && filename == old(filename) && playEnabled == old(playEnabled)
        invariant files == old(files)
        invariant forall j :: 0 <= j < i ==> voiceItems[j] == VoiceItem(entries[j].description, entries[j].name)
      {
        voiceItems := voiceItems + [VoiceItem(entries[i].description, entries[i].name)];
      }
    }

    /** The item data at `index`, None for an index outside the selector (as for index -1). */
    function ItemData(index: int): (data: Option<string>)
      reads this
      ensures data.Some? <==> 0 <= index < |voiceItems|
      ensures data.Some? ==> data.value == voiceItems[index].data
    {
      if 0 <= index < |voiceItems| then Some(voiceItems[index].data) else None
    }

    /** A choice in the voice selector: the synthesizer takes that item's voice, and the recorded file is invalidated. */
    method SelectVoice(index: int)
      requires Valid()
      modifies this, synthesizer
      ensures Valid()
      ensures synthesizer.voice == old(ItemData(index))
      ensures synthesizer.requests == old(synthesizer.requests)
      ensures filename == None && !playEnabled
      ensures text == old(text) && voiceItems == old(voiceItems) && files == old(files)
    {
      synthesizer.SetVoice(ItemData(index));
      InvalidateSpeech();
    }
  }

  /** Two presses of "Synthesize" with no edit between them ask the provider at most once. */
  method SynthesizeTwice(w: TtsWindow, now1: string, now2: string, reply1: Reply, reply2: Reply)
    returns (first: Outcome, second: Outcome)
    requires w.Valid() && reply1.Audio?
    modifies w, w.synthesizer
    ensures w.Valid()
    ensures second == Cached && w.IsCached()
    ensures old(w.IsCached()) ==> w.synthesizer.requests == old(w.synthesizer.requests)
    ensures !old(w.IsCached()) ==> |w.synthesizer.requests| == |old(w.synthesizer.requests)| + 1 && w.playEnabled
  {
    first := w.SynthesizeText(now1, reply1);
    second := w.SynthesizeText(now2, reply2);
  }

  /** After a failed provider call to a new path, the next "Synthesize" asks the provider again. */
  method RetryAfterError(w: TtsWindow, now1: string, now2: string, message: string, reply2: Reply)
    returns (first: Outcome, second: Outcome)
    requires w.Valid() && !w.IsCached()
    requires SpeechFile(w.speechDir, AudioFileName(now1, w.text)) !in w.files
    modifies w, w.synthesizer
    ensures w.Valid()
    ensures first == Raised(message) && second != Cached
    ensures |w.synthesizer.requests| == |old(w.synthesizer.requests)| + 2
  {
    first := w.SynthesizeText(now1, ProviderError(message));
    second := w.SynthesizeText(now2, reply2);
  }

  /** An edit after a synthesis leaves no recorded file, and the next "Synthesize" asks the provider. */
  method EditAfterSynthesis(w: TtsWindow, now1: string, now2: string, speech: seq<byte>, newText: string,
                            reply2: Reply)
    returns (second: Outcome)
    requires w.Valid()
    modifies w, w.synthesizer
    ensures w.Valid()
    ensures second != Cached
    ensures |w.synthesizer.requests| > 0
    ensures w.synthesizer.requests[|w.synthesizer.requests| - 1] == Request(newText, w.synthesizer.voice)
  {
    var first := w.SynthesizeText(now1, Audio(speech));
    w.EditText(newText);
    assert !w.playEnabled && w.filename == None;
    second := w.SynthesizeText(now2, reply2);
  }

  /**
   * File names are unique only to the second: when a failed provider call records
   * a path that an earlier synthesis already wrote, the next "Synthesize" is a cache
   * hit on that older file and Play stays disabled.
   */
  method ErrorOverExistingFile(w: TtsWindow, now1: string, now2: string, message: string, reply2: Reply)
    returns (first: Outcome, second: Outcome)
    requires w.Valid() && !w.IsCached()
    requires SpeechFile(w.speechDir, AudioFileName(now1, w.text)) in w.files
    modifies w, w.synthesizer
    ensures w.Valid()
    ensures first == Raised(message) && second == Cached && !w.playEnabled
    ensures |w.synthesizer.requests| == |old(w.synthesizer.requests)| + 1
  {
    first := w.SynthesizeText(now1, ProviderError(message));
    second := w.SynthesizeText(now2, reply2);
  }
}
