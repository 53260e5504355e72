/**
 * The Translator component (communique/src/components/Translator.js): a text
 * box that can be filled by recording speech, a mock translation, and the
 * bounded history of past translations kept in local storage.
 *
 * The React state and refs become the fields of class `Translator`. Each
 * asynchronous handler is split at its first `await`: the part that runs when
 * the handler is called, and a continuation that the awaited result resumes.
 * The stop handler's second `await`, on `response.json()`, falls inside its
 * continuation, since nothing is set between the two. The
 * values the handler's closure captured travel from the first to the second
 * in a request datatype. Backend replies, the microphone permission prompt
 * and `Date.now()` are parameters.
 */
module TranslatorComponent {
  import opened Wrappers
  import opened JsString
  import opened History
  import opened Audio

  /** The text shown in the source box while the recording is transcribed. */
  const TranscribingPlaceholder := "Transcribing..."

  /** The text shown in the source box when transcription fails. */
  const TranscriptionFailedMessage := "Transcription failed. Please try again."

  /** Where the stop handler uploads the recording, and how it names the upload. */
  const SpeechToTextUrl := "http://localhost:5001/stt"
  const UploadField := "audio"
  const UploadFileName := "recording.webm"

  /** The languages a fresh component shows. */
  const InitialSourceLang := "English"
  const InitialTargetLang := "Spanish"

  /**
   * The mock translation `${text} (translated to ${targetLang})`: the source
   * text comes first and the target language sits inside the closing
   * parenthesis, so both can be read back from the result.
   */
  function MockTranslation(text: string, targetLang: string): (r: string)
    ensures |r| == |text| + |targetLang| + 17
    ensures r[..|text|] == text
    ensures r[|r| - |targetLang| - 1..|r| - 1] == targetLang
    ensures r[|r| - 1] == ')'
  {
    text + " (translated to " + targetLang + ")"
  }

  /** Different source texts never give the same mock translation. */
  lemma MockTranslationInjective(a: string, b: string, targetLang: string)
    requires MockTranslation(a, targetLang) == MockTranslation(b, targetLang)
    ensures a == b
  {
  }

  /** The speech-to-text upload the stop handler sends. */
  datatype SttRequest = SttRequest(url: string, field: string, fileName: string, blob: Blob, stream: nat)

  /**
   * How the upload ends: a response with its HTTP status and, when
   * `response.json()` succeeds, the `text` it holds; or a failed `fetch`.
   */
  datatype SttReply = Response(status: int, text: Option<string>) | NetworkError

  /** `response.ok`: a status in the range 200-299. */
  predicate IsOk(status: int)
  {
    200 <= status <= 299
  }

  /**
   * The source text a transcription reply leaves in the box: the returned text
   * for an ok response with a readable body, the failure message otherwise.
   */
  function TranscriptionResult(reply: SttReply): (r: string)
    ensures r != TranscriptionFailedMessage ==> reply.Response? && IsOk(reply.status) && reply.text == Some(r)
    ensures reply.NetworkError? || (reply.Response? && !IsOk(reply.status)) ==> r == TranscriptionFailedMessage
    ensures reply.Response? && IsOk(reply.status) && reply.text.Some? ==> r == reply.text.value
  {
    match reply
    case NetworkError => TranscriptionFailedMessage
    case Response(status, text) =>
      if !IsOk(status) then TranscriptionFailedMessage
      else if text.None? then TranscriptionFailedMessage
      else text.value
  }

  /** What `handleTranslate`'s closure captured when it was called. */
  datatype TranslateRequest = TranslateRequest(sourceText: string, sourceLang: string, targetLang: string)

  /**
   * The MediaRecorder in `mediaRecorderRef`: none yet, recording, or stopped.
   * Each recorder records from the microphone stream it names.
   */
  datatype RecorderState = NoRecorder | Recording(stream: nat) | Stopped(stream: nat)

  /** The exchange `handleTranslate` adds to the history for a request, stamped `now`. */
  function NewHistoryItem(req: TranslateRequest, now: int): Exchange
  {
    Exchange(now, req.sourceText, MockTranslation(req.sourceText, req.targetLang), req.sourceLang, req.targetLang)
  }

  class Translator {
    // React state
    var sourceText: string
    var translatedText: string
    var sourceLang: string
    var targetLang: string
    var isLoading: bool
    var isRecording: bool
    var history: seq<Exchange>

    // refs
    var chunks: seq<Chunk>
    var recorder: RecorderState

    // the browser around the component: microphone requests still awaiting an
    // answer, open microphone streams, recorders whose stop event is still to
    // come (by stream), the next stream identity, and local storage
    var micRequests: nat
    var openStreams: set<nat>
    var stopsDue: set<nat>
    var nextStream: nat
    var storage: map<string, StoredValue>

    /** Streams whose recording was stopped and uploaded for transcription. */
    ghost var uploaded: set<nat>

    /**
     * `isRecording` is true exactly while the recorder in the ref records; its
     * stream is open, not stopped and not uploaded; a recorder whose stop event
     * is due still holds its open stream and has not been uploaded; every
     * stream identity handed out is below `nextStream`.
     */
    ghost predicate Valid()
      reads this
    {
      isRecording == recorder.Recording?
      && (recorder.Recording? ==>
            recorder.stream in openStreams && recorder.stream !in stopsDue && recorder.stream !in uploaded)
      && stopsDue <= openStreams && stopsDue !! uploaded
      && (forall s :: s in openStreams ==> s < nextStream)
      && (forall s :: s in uploaded ==> s < nextStream)
    }

    /** The component as first rendered, over the local storage it finds. */
    constructor (stored: map<string, StoredValue>)
      ensures Valid()
      ensures sourceText == "" && translatedText == ""
      ensures sourceLang == InitialSourceLang && targetLang == InitialTargetLang
      ensures !isLoading && !isRecording && history == []
      ensures chunks == [] && recorder == NoRecorder
      ensures micRequests == 0 && openStreams == {} && stopsDue == {}
      ensures storage == stored
    {
      sourceText, translatedText := "", "";
      sourceLang, targetLang := InitialSourceLang, InitialTargetLang;
      isLoading, isRecording := false, false;
      history := [];
      chunks, recorder := [], NoRecorder;
      micRequests, openStreams, stopsDue, nextStream := 0, {}, {}, 0;
      storage := stored;
      uploaded := {};
    }

    /**
     * The load effect: restores the stored history, falls back to the empty
     * list when the record does not parse, and leaves the history alone when
     * there is no record.
     */
    method LoadStoredHistory()
      requires Valid()
      modifies this`history
      ensures Valid()
      ensures var stored := if StorageKey in storage then Some(storage[StorageKey]) else None;
        match LoadedHistory(stored)
        case None => history == old(history)
        case Some(h) => history == h
    {
      var stored := if StorageKey in storage then Some(storage[StorageKey]) else None;
      var loaded := LoadedHistory(stored);
      if loaded.Some? {
        history := loaded.value;
      }
    }

    /**
     * The save effect, run after every change of `history`: the record holds
     * the current history, unless the write fails, which is only logged.
     */
    method PersistHistory(writeSucceeds: bool)
      requires Valid()
      modifies this`storage
      ensures Valid()
      ensures writeSucceeds ==> storage == old(storage)[StorageKey := Serialized(history)]
      ensures !writeSucceeds ==> storage == old(storage)
    {
      if writeSucceeds {
        storage := storage[StorageKey := Serialized(history)];
      }
    }

    /** Typing in the source box. */
    method EditSourceText(text: string)
      requires Valid()
      modifies this`sourceText
      ensures Valid()
      ensures sourceText == text
    {
      sourceText := text;
    }

    /**
     * `handleTranscribe`, the microphone button, up to its `await`. While
     * recording it stops the recorder in the ref (its stop event becomes due)
     * and clears `isRecording`. Otherwise it only asks for the microphone; the
     * answer arrives later, in `OnMicrophoneAccess`.
     */
    method HandleTranscribe()
      requires Valid()
      modifies this`recorder, this`isRecording, this`stopsDue, this`micRequests
      ensures Valid()
      ensures old(isRecording) ==>
        recorder == Stopped(old(recorder.stream)) && !isRecording
        && stopsDue == old(stopsDue) + {old(recorder.stream)} && micRequests == old(micRequests)
      ensures !old(isRecording) ==>
        recorder == old(recorder) && isRecording == old(isRecording)
        && stopsDue == old(stopsDue) && micRequests == old(micRequests) + 1
    {
      if isRecording {
        stopsDue := stopsDue + {recorder.stream};
        recorder := Stopped(recorder.stream);
        isRecording := false;
        return;
      }
      micRequests := micRequests + 1;
    }

    /**
     * `handleTranscribe`, after `getUserMedia` answers. A denial changes
     * nothing (the alert is not modelled). A grant opens a new stream, puts a
     * new recorder on it into the ref, empties the chunk buffer, sets
     * `isRecording` and empties the source box; a recorder the ref held
     * before is not stopped, and its stream stays open.
     */
    method OnMicrophoneAccess(granted: bool)
      requires Valid() && micRequests > 0
      modifies this`micRequests, this`recorder, this`isRecording, this`chunks, this`sourceText,
               this`openStreams, this`nextStream
      ensures Valid()
      ensures micRequests == old(micRequests) - 1
      ensures granted ==>
        recorder == Recording(old(nextStream)) && isRecording
        && chunks == [] && sourceText == ""
        && old(nextStream) !in old(openStreams) && openStreams == old(openStreams) + {old(nextStream)}
        && nextStream == old(nextStream) + 1
      ensures !granted ==>
        recorder == old(recorder) && isRecording == old(isRecording)
        && chunks == old(chunks) && sourceText == old(sourceText)
        && openStreams == old(openStreams) && nextStream == old(nextStream)
    {
      micRequests := micRequests - 1;
      if granted {
        var stream := nextStream;
        openStreams := openStreams + {stream};
        nextStream := nextStream + 1;
        recorder := Recording(stream);
        chunks := [];
        isRecording := true;
        sourceText := "";
      }
    }

    /** `ondataavailable`: the chunk joins the buffer, and the future blob, at the end. */
    method OnDataAvailable(data: Chunk)
      requires Valid()
      modifies this`chunks
      ensures Valid()
      ensures chunks == old(chunks) + [data]
      ensures Concat(chunks) == Concat(old(chunks)) + data
    {
      chunks := chunks + [data];
      ConcatAppend(old(chunks), data);
    }

    /**
     * `onstop` of the recorder on `stream`, up to its `await`: builds the blob
     * from the buffered chunks, sets the loading flag and the placeholder
     * text, and sends the upload.
     */
    method OnStop(stream: nat) returns (req: SttRequest)
      requires Valid() && stream in stopsDue
      modifies this`isLoading, this`sourceText, this`stopsDue, this`uploaded
      ensures Valid()
      ensures req == SttRequest(SpeechToTextUrl, UploadField, UploadFileName, RecordingBlob(chunks), stream)
      ensures isLoading && sourceText == TranscribingPlaceholder
      ensures stopsDue == old(stopsDue) - {stream} && uploaded == old(uploaded) + {stream}
    {
      // the stopped recorder is not the one recording, and its stream was handed out
      assert recorder.Recording? ==> recorder.stream != stream;
      assert stream in openStreams && stream < nextStream;
      req := SttRequest(SpeechToTextUrl, UploadField, UploadFileName, RecordingBlob(chunks), stream);
      stopsDue := stopsDue - {stream};
      uploaded := uploaded + {stream};
      isLoading := true;
      sourceText := TranscribingPlaceholder;
    }

    /**
     * `onstop`, after its `await` on `fetch` and the one on `response.json()`
     * (nothing is set between the two): the source box gets the transcription
     * or the failure message, loading ends, and the `finally` stops the
     * microphone stream the upload came from.
     */
    method OnTranscriptionReply(req: SttRequest, reply: SttReply)
      requires Valid() && req.stream in uploaded
      modifies this`sourceText, this`isLoading, this`openStreams
      ensures Valid()
      ensures sourceText == TranscriptionResult(reply)
      ensures !isLoading
      ensures openStreams == old(openStreams) - {req.stream}
    {
      sourceText := TranscriptionResult(reply);
      isLoading := false;
      openStreams := openStreams - {req.stream};
    }

    /**
     * `handleTranslate`, up to its `await`: a blank source text stops it with
     * nothing changed; otherwise loading starts and the closure keeps the
     * source text and both languages.
     */
    method BeginTranslate() returns (req: Option<TranslateRequest>)
      requires Valid()
      modifies this`isLoading
      ensures Valid()
      ensures IsBlank(sourceText) ==> req == None && isLoading == old(isLoading)
      ensures !IsBlank(sourceText) ==>
        req == Some(TranslateRequest(sourceText, sourceLang, targetLang)) && isLoading
    {
      if IsBlank(sourceText) {
        return None;
      }
      isLoading := true;
      req := Some(TranslateRequest(sourceText, sourceLang, targetLang));
    }

    /**
     * `handleTranslate`, after its `await`: shows the mock translation of the
     * captured text, ends loading, and puts the exchange, stamped `now`, at the
     * front of the history, cut to 50 entries.
     */
    method CompleteTranslate(req: TranslateRequest, now: int)
      requires Valid()
      modifies this`translatedText, this`isLoading, this`history
      ensures Valid()
      ensures translatedText == MockTranslation(req.sourceText, req.targetLang)
      ensures !isLoading
      ensures history == Record(NewHistoryItem(req, now), old(history))
      ensures |history| == Min(|old(history)| + 1, MaxEntries)
      ensures history[0].translatedText == translatedText
    {
      translatedText := MockTranslation(req.sourceText, req.targetLang);
      isLoading := false;
      history := Record(NewHistoryItem(req, now), history);
    }

    /**
     * The whole `handleTranslate`, with nothing else happening during its
     * wait: a blank source text changes nothing; otherwise the shown
     * translation is the mock of the source text, loading is over, and the
     * history gains, at its front, the exchange of the source text, the
     * translation and the languages current when the button was clicked.
     */
    method HandleTranslate(now: int)
      requires Valid()
      modifies this`translatedText, this`isLoading, this`history
      ensures Valid()
      ensures IsBlank(sourceText) ==>
        translatedText == old(translatedText) && isLoading == old(isLoading) && history == old(history)
      ensures !IsBlank(sourceText) ==>
        translatedText == MockTranslation(sourceText, targetLang) && !isLoading
        && history == Record(Exchange(now, sourceText, translatedText, sourceLang, targetLang), old(history))
    {
      var req := BeginTranslate();
      if req.Some? {
        var entry := NewHistoryItem(req.value, now);
        CompleteTranslate(req.value, now);
        assert entry == Exchange(now, sourceText, translatedText, sourceLang, targetLang);
      }
    }

    /** `handleHistoryClick`: the four display fields take the entry's values. */
    method HandleHistoryClick(item: Exchange)
      requires Valid()
      modifies this`sourceText, this`translatedText, this`sourceLang, this`targetLang
      ensures Valid()
      ensures sourceText == item.sourceText && translatedText == item.translatedText
      ensures sourceLang == item.sourceLang && targetLang == item.targetLang
    {
      sourceText := item.sourceText;
      translatedText := item.translatedText;
      sourceLang := item.sourceLang;
      targetLang := item.targetLang;
    }

    /** `handleClearHistory`: the history becomes empty. */
    method HandleClearHistory()
      requires Valid()
      modifies this`history
      ensures Valid()
      ensures history == []
    {
      history := [];
    }
  }
}
