/**
 * The TranslatorPage component (communique/src/TranslatorPage.js): a
 * recorded or opened audio file is transcribed, and the transcript is
 * translated and spoken in the language picked from a fixed table.
 *
 * The React state becomes the fields of class `Page`. Each asynchronous
 * handler is split at its `await` into a Begin method and a Complete method
 * that takes the backend's outcome; the Handle methods run the two back to
 * back, as the handler does when nothing else happens in between.
 */
module TranslatorPage {
  import opened Wrappers

  /** An option of the language selector: its value and its label. */
  datatype Language = Language(code: string, name: string)

  /** The selector's options, in display order. */
  const Languages: seq<Language> := [
    Language("es", "Spanish"),
    Language("fr", "French"),
    Language("de", "German"),
    Language("ja", "Japanese"),
    Language("it", "Italian")
  ]

  /** The target language a fresh page selects. */
  const DefaultTargetLanguage := "es"

  const TranscriptionErrorMessage := "Error during transcription. Please try again."
  const TranslationErrorMessage := "Error during translation. Please try again."

  /** No two options share a value. */
  predicate DistinctCodes(table: seq<Language>)
  {
    forall i, j :: 0 <= i < j < |table| ==> table[i].code != table[j].code
  }

  /** The label the selector shows for a value: that of the first option with this value. */
  function NameOf(table: seq<Language>, code: string): (r: Option<string>)
    ensures r.Some? <==> exists i :: 0 <= i < |table| && table[i].code == code
    ensures r.Some? ==> exists i :: 0 <= i < |table| && table[i] == Language(code, r.value)
                                   && forall k :: 0 <= k < i ==> table[k].code != code
  {
    if table == [] then None
    else if table[0].code == code then Some(table[0].name)
    else
      var r := NameOf(table[1..], code);
      assert forall i :: 0 < i < |table| ==> table[i] == table[1..][i - 1];
      r
  }

  /** With distinct values, every option's value selects exactly that option's label. */
  lemma NameOfEntry(table: seq<Language>, i: nat)
    requires DistinctCodes(table) && i < |table|
    ensures NameOf(table, table[i].code) == Some(table[i].name)
  {
  }

  /** The table has five options with distinct values, and the default is the Spanish one. */
  lemma LanguageTableFacts()
    ensures |Languages| == 5
    ensures DistinctCodes(Languages)
    ensures NameOf(Languages, DefaultTargetLanguage) == Some("Spanish")
  {
  }

  /** What `translateAndGetSpeech` resolves to. */
  datatype SpeechResult = SpeechResult(translatedText: string, audioUrl: string)

  /** The arguments `handleTranslate` passes to `translateAndGetSpeech`. */
  datatype TranslationRequest = TranslationRequest(text: string, targetLanguage: string)

  class Page {
    var transcript: string
    var translatedText: string
    var audioUrl: string
    var isLoading: bool
    /** The shown error; "" shows none. */
    var error: string
    var targetLanguage: string

    /** The selected target language is one of the table's options. */
    ghost predicate Valid()
      reads this
    {
      NameOf(Languages, targetLanguage).Some?
    }

    /** The page as first rendered. */
    constructor ()
      ensures Valid()
      ensures transcript == "" && translatedText == "" && audioUrl == "" && error == ""
      ensures !isLoading && targetLanguage == DefaultTargetLanguage
    {
      transcript, translatedText, audioUrl := "", "", "";
      isLoading, error := false, "";
      targetLanguage := DefaultTargetLanguage;
      LanguageTableFacts();
    }

    /** The selector's `onChange`: the value of the chosen option becomes the target language. */
    method SelectTargetLanguage(i: nat)
      requires i < |Languages|
      modifies this`targetLanguage
      ensures Valid()
      ensures targetLanguage == Languages[i].code
    {
      targetLanguage := Languages[i].code;
      LanguageTableFacts();
      NameOfEntry(Languages, i);
    }

    /**
     * `handleTranscription`, up to its `await`: loading starts, and the error,
     * the transcript, the translation and the audio are cleared.
     */
    method BeginTranscription()
      requires Valid()
      modifies this`isLoading, this`error, this`transcript, this`translatedText, this`audioUrl
      ensures Valid()
      ensures isLoading && error == ""
      ensures transcript == "" && translatedText == "" && audioUrl == ""
    {
      isLoading := true;
      error := "";
      transcript := "";
      translatedText := "";
      audioUrl := "";
    }

    /**
     * `handleTranscription`, after its `await`: the transcript on success, the
     * transcription error otherwise; loading ends either way.
     */
    method CompleteTranscription(outcome: Outcome<string>)
      requires Valid()
      modifies this`transcript, this`error, this`isLoading
      ensures Valid()
      ensures outcome.Success? ==> transcript == outcome.value && error == old(error)
      ensures outcome.Failure? ==> transcript == old(transcript) && error == TranscriptionErrorMessage
      ensures !isLoading
    {
      if outcome.Success? {
        transcript := outcome.value;
      } else {
        error := TranscriptionErrorMessage;
      }
      isLoading := false;
    }

    /**
     * The whole `handleTranscription`: whatever was shown before is gone; a
     * success leaves the transcript and no error, a failure the error and an
     * empty transcript; loading is over.
     */
    method HandleTranscription(outcome: Outcome<string>)
      requires Valid()
      modifies this`isLoading, this`error, this`transcript, this`translatedText, this`audioUrl
      ensures Valid()
      ensures !isLoading && translatedText == "" && audioUrl == ""
      ensures outcome.Success? ==> transcript == outcome.value && error == ""
      ensures outcome.Failure? ==> transcript == "" && error == TranscriptionErrorMessage
    {
      BeginTranscription();
      CompleteTranscription(outcome);
    }

    /**
     * `handleTranslate`, up to its `await`: an empty transcript stops it with
     * nothing changed; otherwise loading starts, the error, the translation
     * and the audio are cleared, and the transcript and the selected language
     * are sent.
     */
    method BeginTranslate() returns (req: Option<TranslationRequest>)
      requires Valid()
      modifies this`isLoading, this`error, this`translatedText, this`audioUrl
      ensures Valid()
      ensures req.Some? ==> NameOf(Languages, req.value.targetLanguage).Some?
      ensures transcript == "" ==>
        req == None && isLoading == old(isLoading) && error == old(error)
        && translatedText == old(translatedText) && audioUrl == old(audioUrl)
      ensures transcript != "" ==>
        req == Some(TranslationRequest(transcript, targetLanguage))
        && isLoading && error == "" && translatedText == "" && audioUrl == ""
    {
      if transcript == "" {
        return None;
      }
      isLoading := true;
      error := "";
      translatedText := "";
      audioUrl := "";
      req := Some(TranslationRequest(transcript, targetLanguage));
    }

    /**
     * `handleTranslate`, after its `await`: the translation and the audio on
     * success, the translation error otherwise; loading ends either way.
     */
    method CompleteTranslate(outcome: Outcome<SpeechResult>)
      requires Valid()
      modifies this`translatedText, this`audioUrl, this`error, this`isLoading
      ensures Valid()
      ensures outcome.Success? ==>
        translatedText == outcome.value.translatedText && audioUrl == outcome.value.audioUrl
        && error == old(error)
      ensures outcome.Failure? ==>
        translatedText == old(translatedText) && audioUrl == old(audioUrl)
        && error == TranslationErrorMessage
      ensures !isLoading
    {
      if outcome.Success? {
        translatedText := outcome.value.translatedText;
        audioUrl := outcome.value.audioUrl;
      } else {
        error := TranslationErrorMessage;
      }
      isLoading := false;
    }

    /**
     * The whole `handleTranslate`: with an empty transcript nothing changes;
     * otherwise the transcript stays, a success shows the result and no error,
     * a failure the error with no translation or audio, and loading is over.
     */
    method HandleTranslate(outcome: Outcome<SpeechResult>) returns (req: Option<TranslationRequest>)
      requires Valid()
      modifies this`isLoading, this`error, this`translatedText, this`audioUrl
      ensures Valid()
      ensures req.Some? ==> NameOf(Languages, req.value.targetLanguage).Some?
      ensures transcript == "" ==>
        req == None && isLoading == old(isLoading) && error == old(error)
        && translatedText == old(translatedText) && audioUrl == old(audioUrl)
      ensures transcript != "" ==>
        req == Some(TranslationRequest(transcript, targetLanguage)) && !isLoading
      ensures transcript != "" && outcome.Success? ==>
        translatedText == outcome.value.translatedText && audioUrl == outcome.value.audioUrl
        && error == ""
      ensures transcript != "" && outcome.Failure? ==>
        translatedText == "" && audioUrl == "" && error == TranslationErrorMessage
    {
      req := BeginTranslate();
      if req.Some? {
        CompleteTranslate(outcome);
      }
    }
  }
}
