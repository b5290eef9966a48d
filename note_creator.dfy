/**
 * The note creator form: the title and content fields, the recording flag,
 * the two capability refs (microphone recorder and speech recognizer), and
 * the handlers that change them. The browser capabilities are abstracted:
 * how far `startRecording` gets is an input (`Acquisition`), and a speech
 * event is the list of results received so far.
 */
module NoteCreator {
  import opened Notes
  import opened Strings

  /**
   * What a capability ref holds: nothing yet (`null`), an object that is
   * running (a microphone stream with live tracks, a started recognizer), or
   * one that is not running (stopped, or constructed but never started).
   */
  datatype Capability = Unset | Running | Stopped

  /** How far `startRecording` gets: the step that throws, or none of them. */
  datatype Acquisition =
    | MicrophoneDenied        // `getUserMedia` rejects
    | RecorderFailed          // `new MediaRecorder(stream)` throws
    | RecognitionUnavailable  // the browser has no `SpeechRecognition` constructor
    | RecognitionStartFailed  // `recognition.start()` throws
    | Acquired                // every step succeeds

  /** One speech recognition result: its alternatives, best first. */
  type SpeechResult = seq<string>

  /** Every result carries at least one alternative, as the speech engine guarantees. */
  predicate WellFormed(results: seq<SpeechResult>) {
    forall i :: 0 <= i < |results| ==> |results[i]| > 0
  }

  /** `result => result[0].transcript` over every result. */
  function BestAlternatives(results: seq<SpeechResult>): seq<string>
    requires WellFormed(results)
  {
    seq(|results|, i requires 0 <= i < |results| => results[i][0])
  }

  /** The transcript a speech event yields: the best alternatives joined by single spaces. */
  function Transcript(results: seq<SpeechResult>): string
    requires WellFormed(results)
  {
    JoinSpace(BestAlternatives(results))
  }

  /**
   * As results accumulate, the transcript grows by a space and the new best
   * alternative: the latest event's transcript always covers everything heard.
   */
  lemma TranscriptExtends(results: seq<SpeechResult>, next: SpeechResult)
    requires WellFormed(results) && results != [] && next != []
    ensures WellFormed(results + [next])
    ensures Transcript(results + [next]) == Transcript(results) + " " + next[0]
  {
    assert BestAlternatives(results + [next]) == BestAlternatives(results) + [next[0]];
    JoinSpaceSnoc(BestAlternatives(results), next[0]);
  }

  /** The transcript of a single result is its best alternative. */
  lemma TranscriptSingle(result: SpeechResult)
    requires result != []
    ensures WellFormed([result]) && Transcript([result]) == result[0]
  {
    assert BestAlternatives([result]) == [result[0]];
  }

  class Creator {
    var title: string
    var content: string
    var isRecording: bool
    /** `mediaRecorderRef.current` and the microphone stream it wraps. */
    var recorder: Capability
    /** `recognitionRef.current`. */
    var recognition: Capability

    /**
     * While the form shows "Stop Recording", both refs hold an object. The
     * recognizer may have ended on its own (no `onend` or `onerror` handler
     * resets the flag), so it need not be running.
     */
    ghost predicate Valid()
      reads this
    {
      isRecording ==> recorder != Unset && recognition != Unset
    }

    /** A freshly mounted form: empty fields, not recording, both refs `null`. */
    constructor ()
      ensures Valid()
      ensures title == "" && content == "" && !isRecording
      ensures recorder == Unset && recognition == Unset
    {
      title, content, isRecording := "", "", false;
      recorder, recognition := Unset, Unset;
    }

    /** The title input's `onChange`. */
    method EditTitle(value: string)
      requires Valid()
      modifies this
      ensures Valid()
      ensures title == value
      ensures content == old(content) && isRecording == old(isRecording)
      ensures recorder == old(recorder) && recognition == old(recognition)
    {
      title := value;
    }

    /** The content text area's `onChange`. */
    method EditContent(value: string)
      requires Valid()
      modifies this
      ensures Valid()
      ensures content == value
      ensures title == old(title) && isRecording == old(isRecording)
      ensures recorder == old(recorder) && recognition == old(recognition)
    {
      content := value;
    }

    /**
     * `startRecording`. The recording flag is set only when every acquisition
     * step succeeds. A step that throws ends the handler where it stands: the
     * refs assigned before it keep their new objects and the flag is untouched.
     * After `RecognitionUnavailable` or `RecognitionStartFailed` the recorder
     * ref holds a live microphone stream; after `RecorderFailed` the stream is
     * live but no ref holds it, which the model does not track.
     * Only the record button reaches it, and only while not recording.
     */
    method StartRecording(outcome: Acquisition)
      requires Valid()
      modifies this
      ensures Valid()
      ensures isRecording == (old(isRecording) || outcome == Acquired)
      ensures recorder == if outcome == MicrophoneDenied || outcome == RecorderFailed then old(recorder) else Running
      ensures recognition == match outcome
        case RecognitionStartFailed => Stopped
        case Acquired => Running
        case _ => old(recognition)
      ensures title == old(title) && content == old(content)
    {
      if outcome == MicrophoneDenied || outcome == RecorderFailed {
        return;
      }
      recorder := Running;
      if outcome == RecognitionUnavailable {
        return;
      }
      recognition := Stopped;
      if outcome == RecognitionStartFailed {
        return;
      }
      recognition := Running;
      isRecording := true;
    }

    /**
     * `stopRecording`: stops whatever the refs hold and clears the flag, from
     * any state. The refs themselves are never reset to `null`.
     */
    method StopRecording()
      modifies this
      ensures !isRecording && Valid()
      ensures recorder == if old(recorder) == Unset then Unset else Stopped
      ensures recognition == if old(recognition) == Unset then Unset else Stopped
      ensures title == old(title) && content == old(content)
    {
      if recognition != Unset {
        recognition := Stopped;
      }
      if recorder != Unset {
        recorder := Stopped;
      }
      isRecording := false;
    }

    /** The record button: stop while recording, start otherwise. */
    method ToggleRecording(outcome: Acquisition)
      requires Valid()
      modifies this
      ensures Valid()
      ensures isRecording == (!old(isRecording) && outcome == Acquired)
      ensures old(isRecording) ==> recorder == Stopped && recognition == Stopped
      ensures !old(isRecording) ==>
        recorder == if outcome == MicrophoneDenied || outcome == RecorderFailed then old(recorder) else Running
      ensures !old(isRecording) ==> recognition == match outcome
        case RecognitionStartFailed => Stopped
        case Acquired => Running
        case _ => old(recognition)
      ensures title == old(title) && content == old(content)
    {
      if isRecording {
        StopRecording();
      } else {
        StartRecording(outcome);
      }
    }

    /**
     * The recognizer's `onresult`: the content field is replaced by the
     * transcript of every result received so far, whatever it held before.
     */
    method OnResult(results: seq<SpeechResult>)
      requires WellFormed(results) && Valid()
      modifies this
      ensures Valid()
      ensures content == Transcript(results)
      ensures title == old(title) && isRecording == old(isRecording)
      ensures recorder == old(recorder) && recognition == old(recognition)
    {
      content := Transcript(results);
    }

    /**
     * The recognizer ends by itself (an error, or the engine closing a
     * continuous session). No handler for this is installed, so the ref keeps
     * the stopped object and the recording flag stays set: the form still
     * shows "Stop Recording" while nothing transcribes, and the microphone
     * stays live.
     */
    method RecognitionEnded()
      requires Valid()
      modifies this
      ensures Valid()
      ensures recognition == if old(recognition) == Unset then Unset else Stopped
      ensures isRecording == old(isRecording) && recorder == old(recorder)
      ensures title == old(title) && content == old(content)
    {
      if recognition != Unset {
        recognition := Stopped;
      }
    }

    /**
     * `handleSubmit`. A title or content that is blank after trimming emits
     * nothing and changes nothing. Otherwise it emits the untrimmed title and
     * content, typed audio exactly when recording, and clears both fields;
     * recording goes on.
     */
    method Submit() returns (emitted: Option<NoteData>)
      requires Valid()
      modifies this
      ensures Valid()
      ensures emitted.None? <==> IsBlank(old(title)) || IsBlank(old(content))
      ensures emitted.None? ==> title == old(title) && content == old(content)
      ensures emitted.Some? ==> title == "" && content == ""
      ensures emitted.Some? ==> emitted.value.title == old(title) && emitted.value.content == old(content)
      ensures emitted.Some? ==> (emitted.value.kind == Audio <==> old(isRecording))
      ensures isRecording == old(isRecording)
      ensures recorder == old(recorder) && recognition == old(recognition)
    {
      TrimEmptyIffBlank(title);
      TrimEmptyIffBlank(content);
      if Trim(title) == [] || Trim(content) == [] {
        emitted := None;
        return;
      }
      emitted := Some(NoteData(title, content, if isRecording then Audio else Text));
      title := "";
      content := "";
    }
  }

  /**
   * Dictation: two speech events, the second carrying one more result. The
   * content ends as the latest transcript, not the two transcripts appended,
   * and stopping leaves the form idle with both capabilities stopped.
   */
  method DictationReplacesContent() returns (content: string, recording: bool, microphone: Capability)
    ensures content == "hello world"
    ensures !recording && microphone == Stopped
  {
    var form := new Creator();
    form.EditContent("draft");
    form.ToggleRecording(Acquired);
    form.OnResult([["hello"]]);
    TranscriptSingle(["hello"]);
    form.OnResult([["hello"], ["world", "word"]]);
    TranscriptExtends([["hello"]], ["world", "word"]);
    assert [["hello"]] + [["world", "word"]] == [["hello"], ["world", "word"]];
    form.ToggleRecording(Acquired);
    content, recording, microphone := form.content, form.isRecording, form.recorder;
  }

  /**
   * The recognizer ends by itself during a recording: the button still reads
   * "Stop Recording" with nothing transcribing and the microphone live, until
   * the user presses it, which stops both.
   */
  method RecognitionEndsWhileRecording()
    returns (recording: bool, recognizer: Capability, microphone: Capability,
             recordingAfterPress: bool, microphoneAfterPress: Capability)
    ensures recording && recognizer == Stopped && microphone == Running
    ensures !recordingAfterPress && microphoneAfterPress == Stopped
  {
    var form := new Creator();
    form.ToggleRecording(Acquired);
    form.RecognitionEnded();
    recording, recognizer, microphone := form.isRecording, form.recognition, form.recorder;
    form.ToggleRecording(Acquired);
    recordingAfterPress, microphoneAfterPress := form.isRecording, form.recorder;
  }
}
