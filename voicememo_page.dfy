/** The basic recorder page src/app/voicememo/page.tsx: start and stop a recording, accumulate the
    recogniser's transcript, keep the stopped transcripts as an in-memory list of memos, and
    delete one by index. The microphone, the media recorder and the speech recogniser are inputs. */
module VoiceMemoPage {
  import opened Wrappers
  import opened Js

  /** `mediaRecorderRef.current`: none yet, or a recorder whose `state` is or is not `'recording'`. */
  datatype RecorderRef = NoRecorder | Recorder(recording: bool)

  /** The page's state: the three `useState` values and the two refs. */
  datatype PageState = PageState(
    isRecording: bool, memos: seq<string>, currentTranscript: string,
    recorder: RecorderRef, recognition: bool)

  const Initial: PageState := PageState(false, [], [], NoRecorder, false)

  /** What a handler did beyond the state: the alert shown, the recorder and recogniser stopped. */
  datatype Effects = Effects(alerted: bool, recorderStopped: bool, recognitionStopped: bool)

  /** `startRecording`. `micError` is what asking for the microphone threw, if anything;
      `hasSpeechApi` says whether the browser offers speech recognition. */
  function StartSpec(s: PageState, micError: Option<Thrown>, hasSpeechApi: bool): (PageState, Effects) {
    if micError.Some? then (s, Effects(true, false, false))
    else (s.(recorder := Recorder(true), recognition := s.recognition || hasSpeechApi,
             isRecording := true, currentTranscript := []), Effects(false, false, false))
  }

  /** `stopRecording`. */
  function StopSpec(s: PageState): (PageState, Effects) {
    var recorderStopped := s.recorder == Recorder(true);
    (PageState(false, StoppedMemos(s.memos, s.currentTranscript), [],
               if recorderStopped then Recorder(false) else s.recorder, s.recognition),
     Effects(false, recorderStopped, s.recognition))
  }

  /** The memo list after a stop: the trimmed transcript appended when it is not blank. */
  function StoppedMemos(memos: seq<string>, transcript: string): seq<string> {
    if Trim(transcript) != [] then memos + [Trim(transcript)] else memos
  }

  /** `prev.filter((_, i) => i !== index)`: keep every element whose position is not `index`. */
  function FilterIndex(memos: seq<string>, index: int): (r: seq<string>)
    ensures |r| <= |memos|
    decreases |memos|
  {
    if memos == [] then []
    else (if index == 0 then [] else [memos[0]]) + FilterIndex(memos[1..], index - 1)
  }

  /** Deleting removes exactly the element at the index and keeps the rest in order; an index out
      of range leaves the list as it is. */
  lemma {:induction false} FilterIndexRemovesOne(memos: seq<string>, index: int)
    ensures 0 <= index < |memos| ==> FilterIndex(memos, index) == memos[..index] + memos[index + 1..]
    ensures !(0 <= index < |memos|) ==> FilterIndex(memos, index) == memos
    decreases |memos|
  {
    if memos != [] {
      FilterIndexRemovesOne(memos[1..], index - 1);
      if index == 0 {
        assert memos[1..] == memos[..0] + memos[1..];
      } else if 0 < index < |memos| {
        assert memos[..index] == [memos[0]] + memos[1..][..index - 1];
        assert memos[index + 1..] == memos[1..][index..];
      } else {
        assert memos == [memos[0]] + memos[1..];
      }
    }
  }

  function DeleteSpec(s: PageState, index: int): PageState {
    s.(memos := FilterIndex(s.memos, index))
  }

  /** The recogniser's `results`: each result's alternatives' transcripts, best first. The Web
      Speech API gives every result at least one alternative. */
  predicate WellFormed(results: seq<seq<string>>) {
    forall i :: 0 <= i < |results| ==> |results[i]| > 0
  }

  /** The top alternatives of `results[from..]` concatenated, built from the last result back. */
  function TopTranscripts(results: seq<seq<string>>, from: nat): string
    requires WellFormed(results)
  {
    if |results| <= from then []
    else TopTranscripts(results[..|results| - 1], from) + results[|results| - 1][0]
  }

  /** Read from the front: the first result's top alternative, then those of the rest. */
  lemma {:induction false} TopTranscriptsFront(results: seq<seq<string>>, from: nat)
    requires WellFormed(results) && from < |results|
    ensures TopTranscripts(results, from) == results[from][0] + TopTranscripts(results, from + 1)
  {
    var last := |results| - 1;
    var init := results[..last];
    if from < last {
      TopTranscriptsFront(init, from);
      assert init[from] == results[from];
      var w, mid := results[last][0], TopTranscripts(init, from + 1);
      assert TopTranscripts(results, from) == TopTranscripts(init, from) + w;
      assert TopTranscripts(results, from + 1) == mid + w;
      assert (results[from][0] + mid) + w == results[from][0] + (mid + w);
    } else {
      assert TopTranscripts(results[..last], from) == [];
    }
  }

  /** A recogniser that has returned nothing since `from` leaves an empty transcript, and one that
      returns single-alternative results from `from` on reproduces exactly those. */
  lemma {:induction false} TopTranscriptsOfSingles(words: seq<string>, from: nat)
    requires from <= |words|
    ensures var results := seq(|words|, i requires 0 <= i < |words| => [words[i]]);
      WellFormed(results) && TopTranscripts(results, from) == Flatten(words[from..])
    decreases |words|
  {
    var results := seq(|words|, i requires 0 <= i < |words| => [words[i]]);
    if from < |words| {
      var last := |words| - 1;
      TopTranscriptsOfSingles(words[..last], from);
      assert results[..last] == seq(last, i requires 0 <= i < last => [words[..last][i]]);
      assert words[from..] == words[..last][from..] + [words[last]];
      FlattenAppend(words[..last][from..], words[last]);
    }
  }

  function Flatten(words: seq<string>): string {
    if words == [] then [] else words[0] + Flatten(words[1..])
  }

  lemma {:induction false} FlattenAppend(words: seq<string>, w: string)
    ensures Flatten(words + [w]) == Flatten(words) + w
  {
    if words != [] {
      assert (words + [w])[1..] == words[1..] + [w];
      FlattenAppend(words[1..], w);
    }
  }

  /** A stop adds at most one memo, the trimmed transcript and only when it is not blank, and
      always ends with recording off and the transcript cleared; the recorder is stopped only when
      it was recording. */
  lemma StopAppendsAtMostOne(s: PageState)
    ensures var (t, e) := StopSpec(s);
      !t.isRecording && t.currentTranscript == []
      && (AllWhitespace(s.currentTranscript) ==> t.memos == s.memos)
      && (!AllWhitespace(s.currentTranscript) ==> t.memos == s.memos + [Trim(s.currentTranscript)] && Trim(s.currentTranscript) != [])
      && (e.recorderStopped <==> s.recorder == Recorder(true))
      && t.recorder != Recorder(true)
  {
    TrimEmptyIff(s.currentTranscript);
  }

  /** A start that gets the microphone turns recording on with an empty transcript and keeps the
      memos; one that does not shows the alert and changes nothing. */
  lemma StartOutcome(s: PageState, micError: Option<Thrown>, hasSpeechApi: bool)
    ensures var (t, e) := StartSpec(s, micError, hasSpeechApi);
      (micError.Some? <==> e.alerted) && (micError.Some? ==> t == s)
      && (micError.None? ==> t.isRecording && t.currentTranscript == [] && t.memos == s.memos && t.recorder == Recorder(true))
  {
  }

  /** Starting and stopping with nothing recognised in between keeps the memo list. */
  lemma SilentRecordingAddsNothing(s: PageState, hasSpeechApi: bool)
    ensures StopSpec(StartSpec(s, None, hasSpeechApi).0).0.memos == s.memos
  {
  }

  /** The page component. */
  class Page {
    var isRecording: bool
    var memos: seq<string>
    var currentTranscript: string
    var recorder: RecorderRef
    var recognition: bool

    function State(): PageState
      reads this
    {
      PageState(isRecording, memos, currentTranscript, recorder, recognition)
    }

    constructor ()
      ensures State() == Initial
    {
      isRecording, memos, currentTranscript, recorder, recognition := false, [], [], NoRecorder, false;
    }

    method Start(micError: Option<Thrown>, hasSpeechApi: bool) returns (e: Effects)
      modifies this
      ensures (State(), e) == StartSpec(old(State()), micError, hasSpeechApi)
    {
      if micError.Some? {
        return Effects(true, false, false);
      }
      recorder := Recorder(true);
      if hasSpeechApi {
        recognition := true;
      }
      isRecording := true;
      currentTranscript := [];
      e := Effects(false, false, false);
    }

    method Stop() returns (e: Effects)
      modifies this
      ensures (State(), e) == StopSpec(old(State()))
    {
      // React applies the state updates of one handler together.
      ghost var target := StopSpec(State());
      var m, t := memos, currentTranscript;
      var recorderStopped := recorder == Recorder(true);
      var rec := if recorderStopped then Recorder(false) else recorder;
      var newMemos := StoppedMemos(m, t);
      e := Effects(false, recorderStopped, recognition);
      assert target == (PageState(false, newMemos, [], rec, recognition), e);
      recorder, memos, isRecording, currentTranscript := rec, newMemos, false, [];
    }

    method DeleteMemo(index: int)
      modifies this
      ensures State() == DeleteSpec(old(State()), index)
    {
      memos := FilterIndex(memos, index);
    }

    /** `recognition.onresult`: the transcript is rebuilt from `resultIndex` on. */
    method OnResult(results: seq<seq<string>>, resultIndex: nat)
      requires WellFormed(results)
      modifies this
      ensures State() == old(State()).(currentTranscript := TopTranscripts(results, resultIndex))
    {
      var transcript: string := [];
      var i := resultIndex;
      while i < |results|
        invariant resultIndex <= i || |results| <= resultIndex
        invariant transcript == TopTranscripts(results[..if i <= |results| then i else |results|], resultIndex)
      {
        assert results[..i + 1][..i] == results[..i];
        transcript := transcript + results[i][0];
        i := i + 1;
      }
      assert results[..if i <= |results| then i else |results|] == results;
      currentTranscript := transcript;
    }
  }
}
