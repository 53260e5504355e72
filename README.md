# communique: the translator workflow in Dafny

communique is a React voice-translation client. Two components hold its logic:

- **Translator** (`communique/src/components/Translator.js`). It fills a source box by recording speech
  and uploading it to a speech-to-text endpoint. It produces a mock translation of the box. It keeps a
  most-recent-first history of translations, cut to 50 entries and persisted in local storage.
- **TranslatorPage** (`communique/src/TranslatorPage.js`). It transcribes a recorded or opened audio
  file, then translates the transcript and synthesizes speech for it. The target language comes from a
  fixed five-entry table.

The model is written as follows:

- The history update, the mock translation, the `trim` guard and the blob built from audio chunks are
  pure functions. Lemmas about them are proved (`JsString`, `History`, `Audio`, and the mock
  translation in `TranslatorComponent`).
- The two components' state becomes two classes: `TranslatorComponent.Translator` and
  `TranslatorPage.Page`. Each handler becomes a method whose `modifies` clause names exactly the fields
  the handler sets. Its `ensures` clauses state the new values.
- Each asynchronous handler is split at its first `await`. A Begin method (or `HandleTranscribe`, or
  `OnStop`) covers the part that runs at call time. A Complete method (or `OnMicrophoneAccess`, or
  `OnTranscriptionReply`) covers the continuation. The stop handler awaits twice, on `fetch`
  (Translator.js:133) and on `response.json()` (Translator.js:142). Nothing is set between the two, so
  `OnTranscriptionReply` covers both continuations. The values the handler's closure captured pass from
  the first to the second in a request datatype. Composite methods (`Translator.HandleTranslate`,
  `Page.HandleTranscription`, `Page.HandleTranslate`) run both halves back to back.
- The backend's reply, the microphone permission answer, `Date.now()` and the success of a
  local-storage write are method parameters.
- Each microphone stream has an identity, so the `finally` of the stop handler closes the stream its
  recording came from. The component tracks microphone requests still awaiting an answer and recorders
  whose stop event is still due. Two clicks made while the permission prompt is open therefore give two
  grants. The second grant replaces the first recorder in the ref, and that recorder keeps recording on
  a stream nobody closes, just as in the code.

Notes on what the code does:

- The microphone tracks are stopped only in the `finally` that follows the transcription reply, not
  when recording stops (`OnTranscriptionReply` closes the stream).
- Translator.js reports a failed transcription by writing a message into the source box. It has no
  separate error field.
- Neither component guards against a stale reply overwriting newer state.
- The transcription upload goes to `http://localhost:5001/stt`, in the form field `audio`, under the
  file name `recording.webm`.

## Model

| member | source | states |
|---|---|---|
| JsString.LeadingTrimmable | communique/src/components/Translator.js:168 | `trim` removes exactly the leading run of whitespace and line-terminator characters: every character before the count is removable, and the one at the count is kept |
| JsString.TrailingTrimmable | communique/src/components/Translator.js:168 | `trim` removes exactly the trailing run of whitespace and line-terminator characters: every character after the kept part is removable, and the last kept one is not |
| JsString.TrimStart | communique/src/components/Translator.js:168 | the result is a suffix of the input that starts with a kept character, and every removed character is whitespace or a line terminator |
| JsString.TrimEnd | communique/src/components/Translator.js:168 | the result is a prefix of the input that ends with a kept character, and every removed character is whitespace or a line terminator |
| JsString.TrimmedSlice | communique/src/components/Translator.js:168 | removing a leading and then a trailing removable run leaves a slice that neither starts nor ends with a removable character, and is empty exactly when the whole text is removable |
| JsString.Trim | communique/src/components/Translator.js:168 | `trim` is the slice of the input between a removable prefix and a removable suffix, neither starts nor ends with a removable character, and is empty exactly when every character of the input is removable |
| JsString.IsBlank | communique/src/components/Translator.js:168 | the translate guard `!sourceText.trim()` holds exactly for text made only of whitespace and line terminators, including the empty text |
| JsString.IsTrimmable | communique/src/components/Translator.js:168 | the WhiteSpace and LineTerminator code points of ECMAScript that `trim` removes |
| History.Take | communique/src/components/Translator.js:186 | `.slice(0, n)` has length min(length, n) and is the input's prefix of that length |
| History.Record | communique/src/components/Translator.js:186 | the new history has length min(old + 1, 50), the new item at the front, then the first min(old, 49) old entries in order |
| History.RecordAll | communique/src/components/Translator.js:186 | after any number of insertions the history holds at most 50 entries (any bounded start stays bounded) |
| History.RecordAllNewestFirst | communique/src/components/Translator.js:186 | a run of insertions yields the inserted items newest first, followed by the older history, cut to 50 |
| History.RecordIgnoresOverflow | communique/src/components/Translator.js:186 | entries beyond the 49th never reach the new history: truncating first changes nothing |
| History.RecordKeepsNewestFirst | communique/src/components/Translator.js:178-186 | when the new timestamp is later than the front entry's, the history stays strictly newest first (ids unique) |
| History.LoadedHistory | communique/src/components/Translator.js:76-86 | a missing or empty record sets nothing; an unparsable record yields the empty list; a saved list is restored as saved; a non-empty result always comes from a saved list |
| Audio.Concat | communique/src/components/Translator.js:124 | `new Blob(chunks)` holds no bytes for no chunks, begins with the first chunk's bytes and ends with the last chunk's |
| Audio.ConcatSplit | communique/src/components/Translator.js:118-124 | the blob of two runs of chunks is the first run's bytes followed by the second's |
| Audio.ConcatAppend | communique/src/components/Translator.js:118-124 | a chunk that arrives last ends up at the end of the blob |
| Audio.RecordingBlob | communique/src/components/Translator.js:124 | the recording blob has type `audio/webm` and holds the chunks' bytes in arrival order (characterized by `Concat`, `ConcatSplit` and `ConcatAppend`); no chunks give no bytes |
| TranslatorComponent.MockTranslation | communique/src/components/Translator.js:173 | the mock translation begins with the source text and ends with the target language and `)`; its length is the sum of both lengths plus 17 |
| TranslatorComponent.MockTranslationInjective | communique/src/components/Translator.js:173 | for a fixed target language, distinct source texts give distinct mock translations |
| TranslatorComponent.IsOk | communique/src/components/Translator.js:138 | `response.ok`: the status is in the range 200-299 |
| TranslatorComponent.TranscriptionResult | communique/src/components/Translator.js:138-147 | the box shows the returned text only for a 2xx response with a readable body; a non-2xx status, an unreadable body or a network error shows the failure message |
| TranslatorComponent.Translator.constructor | communique/src/components/Translator.js:60-72 | empty boxes, English to Spanish, not loading, not recording, empty history, no chunks and no recorder |
| TranslatorComponent.Translator.LoadStoredHistory | communique/src/components/Translator.js:76-86 | the history becomes what the stored record yields, and stays as it was when nothing is stored |
| TranslatorComponent.Translator.PersistHistory | communique/src/components/Translator.js:88-94 | a successful write stores the current history under `translationHistory`; a failed write changes nothing |
| TranslatorComponent.Translator.EditSourceText | communique/src/components/Translator.js:216 | typing replaces the source text and nothing else |
| TranslatorComponent.Translator.HandleTranscribe | communique/src/components/Translator.js:99-110 | while recording it only stops the recorder in the ref, makes its stop event due and clears `isRecording`; otherwise it only asks for the microphone |
| TranslatorComponent.Translator.OnMicrophoneAccess | communique/src/components/Translator.js:110-163 | a denial changes nothing; a grant opens a fresh stream, puts a recorder on it into the ref, empties the chunk buffer, sets `isRecording` and empties the source box, leaving any earlier stream open |
| TranslatorComponent.Translator.OnDataAvailable | communique/src/components/Translator.js:118-120 | the chunk is appended at the end of the buffer, and its bytes at the end of the future blob |
| TranslatorComponent.Translator.OnStop | communique/src/components/Translator.js:123-129 | for a recorder whose stop event is due, the upload carries the blob of the buffered chunks and that recorder's stream; loading starts and the box shows "Transcribing..." |
| TranslatorComponent.Translator.OnTranscriptionReply | communique/src/components/Translator.js:131-152 | the box shows the transcription or the failure message, loading ends on every path, and the uploaded recording's stream is closed |
| TranslatorComponent.Translator.BeginTranslate | communique/src/components/Translator.js:167-170 | blank source text changes nothing and sends nothing; otherwise loading starts and the text and both languages are captured |
| TranslatorComponent.Translator.CompleteTranslate | communique/src/components/Translator.js:172-186 | the shown translation is the mock of the captured text, loading ends, and the history is the new entry followed by the old history cut to 50 |
| TranslatorComponent.Translator.HandleTranslate | communique/src/components/Translator.js:167-188 | blank source text changes nothing; otherwise the shown translation is the mock of the current text, loading is over, and the history is the exchange of the current text, translation and languages followed by the old history cut to 50 |
| TranslatorComponent.Translator.HandleHistoryClick | communique/src/components/Translator.js:190-195 | exactly the source text, translation and both languages take the entry's values; history and flags are untouched |
| TranslatorComponent.Translator.HandleClearHistory | communique/src/components/Translator.js:197-199 | the history becomes empty and no display field changes |
| TranslatorPage.NameOf | communique/src/TranslatorPage.js:93-97 | a value has a label exactly when some option carries it, and the label comes from the first such option |
| TranslatorPage.NameOfEntry | communique/src/TranslatorPage.js:9-15 | with distinct values, every option's value selects that option's own label |
| TranslatorPage.LanguageTableFacts | communique/src/TranslatorPage.js:9-25 | the table has five options with pairwise distinct codes, and the default `es` is one of them (Spanish) |
| TranslatorPage.Page.constructor | communique/src/TranslatorPage.js:20-25 | all texts empty, no error, not loading, target language `es` |
| TranslatorPage.Page.SelectTargetLanguage | communique/src/TranslatorPage.js:88-91 | the chosen option's code becomes the target language, which stays a table code |
| TranslatorPage.Page.BeginTranscription | communique/src/TranslatorPage.js:27-33 | loading starts; error, transcript, translation and audio are cleared |
| TranslatorPage.Page.CompleteTranscription | communique/src/TranslatorPage.js:35-43 | success sets the transcript; failure sets the transcription error and leaves the transcript; loading ends either way |
| TranslatorPage.Page.HandleTranscription | communique/src/TranslatorPage.js:27-44 | afterwards loading is over and translation and audio are empty; success leaves the transcript and no error, failure the error and an empty transcript |
| TranslatorPage.Page.BeginTranslate | communique/src/TranslatorPage.js:46-52 | an empty transcript (not trimmed) changes nothing; otherwise loading starts, error, translation and audio are cleared, and the transcript and target language, a code of the table, are sent |
| TranslatorPage.Page.CompleteTranslate | communique/src/TranslatorPage.js:54-63 | success shows the returned translation and audio URL; failure sets the translation error; loading ends either way; the transcript never changes |
| TranslatorPage.Page.HandleTranslate | communique/src/TranslatorPage.js:46-64 | an empty transcript is a no-op; otherwise the transcript stays, success shows the result with no error, failure shows the error with no translation or audio, and loading is over |

## Left out

- Rendering: the JSX, the styling, and the `disabled` expressions of the buttons and the selector are not modelled.
- `communique/src/api/api.js` is not part of this model. Its functions are timed mocks, so backend
  results are parameters. It does not export `translateAndGetSpeech`, so that import in
  TranslatorPage.js does not resolve. The model takes the translation outcome as a parameter.
- Recorder.js, AudioFileOpener.js, App.js, Navigation.js and AboutPage.js are not part of this model.
  They only wrap the media-recorder hook and the file input, route between pages, or show static text.
- `getUserMedia`, `MediaRecorder`, `fetch`, `FormData`, `alert` and `console` are not modelled. The
  permission answer and the reply are parameters. The upload is a request value. Logging and the alert
  have no effect on state.
- A speech-to-text body that is valid JSON without a `text` field is not modelled. The code would then
  set the box to `undefined`. The model treats every readable body as carrying text.
- `JSON.stringify` and `JSON.parse` are not modelled. They are assumed to give the saved list back
  unchanged. A stored value that parses to something other than a list is not modelled.
- `Date.now()` is a parameter. Its monotonicity is not assumed, so `History.RecordKeepsNewestFirst`
  takes "later than the front entry" as a premise.
- React's render timing is not modelled; the only interleavings are the splits at the `await`s.
  The one-second mock delay is the split between `BeginTranslate` and `CompleteTranslate`;
  only its length is not modelled. The model adds no guard against stale replies, because the code
  has none.
- The `dataavailable` event that a recorder fires just before its stop event is an ordinary
  `OnDataAvailable` call. The model does not force it to come first.
- React runs the load and save effects on mount in a fixed order. The model leaves that order to the
  caller, so it does not capture the save effect briefly writing `[]` before the loaded history re-renders.
