/**
 * The voice catalogue of the speech provider client: the flat voice listing
 * returned by the provider, grouped by language code into ordered lists of
 * (name, description) pairs.
 */
module Voices {

  /** One entry of the provider's voice listing. */
  datatype Voice = Voice(language: string, name: string, description: string)

  /** What the catalogue keeps of a voice: the pair (name, description). */
  datatype VoiceEntry = VoiceEntry(name: string, description: string)

  /** Language code to the voices of that language. */
  type Catalogue = map<string, seq<VoiceEntry>>

  function Entry(v: Voice): VoiceEntry
  {
    VoiceEntry(v.name, v.description)
  }

  /** The language codes that occur in a listing. */
  function Languages(voices: seq<Voice>): set<string>
  {
    set i | 0 <= i < |voices| :: voices[i].language
  }

  /** Reference definition: the entries of the voices of one language, in listing order. */
  function VoicesIn(voices: seq<Voice>, language: string): seq<VoiceEntry>
  {
    if voices == [] then []
    else
      var last := voices[|voices| - 1];
      VoicesIn(voices[..|voices| - 1], language) + (if last.language == language then [Entry(last)] else [])
  }

  /** `c` is the catalogue of `voices`: one key per language, each holding exactly that language's voices in order. */
  ghost predicate IsCatalogueOf(c: Catalogue, voices: seq<Voice>)
  {
    && c.Keys == Languages(voices)
    && forall language :: language in c ==> c[language] == VoicesIn(voices, language)
  }

  /** The grouping loop of the provider client's constructor. */
  method GroupByLanguage(voices: seq<Voice>) returns (catalogue: Catalogue)
    ensures IsCatalogueOf(catalogue, voices)
  {
    catalogue := map[];
    var i := 0;
    while i < |voices|
      invariant 0 <= i <= |voices|
      invariant catalogue.Keys == Languages(voices[..i])
      invariant forall language :: language in catalogue ==> catalogue[language] == VoicesIn(voices[..i], language)
    {
      var voice := voices[i];
      var language := voice.language;
      if language !in catalogue {
        VoicesInAbsent(voices[..i], language);
        catalogue := catalogue[language := []];
      }
      catalogue := catalogue[language := catalogue[language] + [Entry(voice)]];
      assert voices[..i + 1][..i] == voices[..i];
      LanguagesSnoc(voices[..i], voice);
      assert voices[..i] + [voice] == voices[..i + 1];
      i := i + 1;
    }
    assert voices[..i] == voices;
  }

  lemma LanguagesSnoc(voices: seq<Voice>, v: Voice)
    ensures Languages(voices + [v]) == Languages(voices) + {v.language}
  {
    var s := voices + [v];
    forall l | l in Languages(s) ensures l in Languages(voices) + {v.language} {
      var i :| 0 <= i < |s| && s[i].language == l;
      if i < |voices| { assert voices[i] == s[i]; }
    }
    forall l | l in Languages(voices) ensures l in Languages(s) {
      var i :| 0 <= i < |voices| && voices[i].language == l;
      assert s[i] == voices[i];
    }
    assert s[|voices|] == v;
  }

  /** A language that does not occur has an empty list. */
  lemma {:induction false} VoicesInAbsent(voices: seq<Voice>, language: string)
    requires language !in Languages(voices)
    ensures VoicesIn(voices, language) == []
  {
    if voices != [] {
      var init := voices[..|voices| - 1];
      LanguagesSnoc(init, voices[|voices| - 1]);
      assert init + [voices[|voices| - 1]] == voices;
      VoicesInAbsent(init, language);
    }
  }

  /** A language that occurs has a non-empty list. */
  lemma {:induction false} VoicesInPresent(voices: seq<Voice>, language: string)
    requires language in Languages(voices)
    ensures |VoicesIn(voices, language)| > 0
  {
    var init := voices[..|voices| - 1];
    var last := voices[|voices| - 1];
    LanguagesSnoc(init, last);
    assert init + [last] == voices;
    if last.language != language {
      VoicesInPresent(init, language);
    }
  }

  /** The list of a language holds exactly the entries of the voices with that language. */
  lemma {:induction false} VoicesInMembers(voices: seq<Voice>, language: string, e: VoiceEntry)
    ensures e in VoicesIn(voices, language) <==>
            exists i :: 0 <= i < |voices| && voices[i].language == language && Entry(voices[i]) == e
  {
    if voices != [] {
      var init := voices[..|voices| - 1];
      VoicesInMembers(init, language, e);
      if e in VoicesIn(init, language) {
        var i :| 0 <= i < |init| && init[i].language == language && Entry(init[i]) == e;
        assert voices[i] == init[i];
      }
      if exists i :: 0 <= i < |voices| && voices[i].language == language && Entry(voices[i]) == e {
        var i :| 0 <= i < |voices| && voices[i].language == language && Entry(voices[i]) == e;
        if i < |init| { assert init[i] == voices[i]; }
      }
    }
  }

  /** The keys of a catalogue are the languages that occur, and no list is empty. */
  lemma CatalogueListsNonEmpty(c: Catalogue, voices: seq<Voice>)
    requires IsCatalogueOf(c, voices)
    ensures forall language :: language in c <==> language in Languages(voices)
    ensures forall language :: language in c ==> c[language] != []
  {
    forall language | language in c ensures c[language] != [] {
      VoicesInPresent(voices, language);
    }
  }

  predicate Distinct(s: seq<string>)
  {
    forall i, j :: 0 <= i < j < |s| ==> s[i] != s[j]
  }

  /** The sum of the list lengths of `languages` in catalogue `c`. */
  function SumLengths(c: Catalogue, languages: seq<string>): nat
    requires forall l :: l in languages ==> l in c
  {
    if languages == [] then 0 else |c[languages[0]]| + SumLengths(c, languages[1..])
  }

  /** The number of voices of the listing whose language is one of `languages`. */
  function CountIn(voices: seq<Voice>, languages: seq<string>): nat
  {
    if languages == [] then 0 else |VoicesIn(voices, languages[0])| + CountIn(voices, languages[1..])
  }

  lemma {:induction false} CountInEmpty(languages: seq<string>)
    ensures CountIn([], languages) == 0
  {
    if languages != [] { CountInEmpty(languages[1..]); }
  }

  lemma {:induction false} CountInSnoc(voices: seq<Voice>, v: Voice, languages: seq<string>)
    requires Distinct(languages)
    ensures CountIn(voices + [v], languages) == CountIn(voices, languages) + (if v.language in languages then 1 else 0)
  {
    if languages != [] {
      assert (voices + [v])[..|voices|] == voices;
      var tail := languages[1..];
      assert Distinct(tail);
      CountInSnoc(voices, v, tail);
      assert v.language in languages <==> v.language == languages[0] || v.language in tail;
      if v.language == languages[0] {
        assert v.language !in tail;
      }
    }
  }

  lemma {:induction false} CountInAll(voices: seq<Voice>, languages: seq<string>)
    requires Distinct(languages)
    requires forall l :: l in Languages(voices) ==> l in languages
    ensures CountIn(voices, languages) == |voices|
  {
    if voices == [] {
      CountInEmpty(languages);
    } else {
      var init := voices[..|voices| - 1];
      var last := voices[|voices| - 1];
      LanguagesSnoc(init, last);
      assert init + [last] == voices;
      CountInAll(init, languages);
      CountInSnoc(init, last, languages);
    }
  }

  lemma {:induction false} SumLengthsIsCount(c: Catalogue, voices: seq<Voice>, languages: seq<string>)
    requires IsCatalogueOf(c, voices)
    requires forall l :: l in languages ==> l in c
    ensures SumLengths(c, languages) == CountIn(voices, languages)
  {
    if languages != [] { SumLengthsIsCount(c, voices, languages[1..]); }
  }

  /** Taken over every language once, the list lengths of a catalogue add up to the number of voices. */
  lemma CatalogueSize(c: Catalogue, voices: seq<Voice>, languages: seq<string>)
    requires IsCatalogueOf(c, voices)
    requires Distinct(languages)
    requires forall l :: l in languages <==> l in c
    ensures SumLengths(c, languages) == |voices|
  {
    SumLengthsIsCount(c, voices, languages);
    CountInAll(voices, languages);
  }
}
