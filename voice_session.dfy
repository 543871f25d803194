/**
 * The capture session of the newer voice assistant (`startListening` and
 * `stop`): the current recognition handle, the memo of the last command
 * dispatched, the pending debounce timeout, and what the session shows and
 * says. Browser events and timer expiries are the methods of `Session`; each
 * runs to completion, in the order the browser delivers them.
 */
module VoiceSession {
  import opened Wrappers
  import opened JsString

  /** One entry of `event.results`: its first alternative's transcript and `isFinal`. */
  datatype RecognitionResult = RecognitionResult(transcript: string, isFinal: bool)

  /** The transcripts of the results whose `isFinal` equals `final`, concatenated in order. */
  function Collect(rs: seq<RecognitionResult>, final: bool): string {
    if rs == [] then ""
    else Collect(rs[..|rs| - 1], final) + (if rs[|rs| - 1].isFinal == final then rs[|rs| - 1].transcript else "")
  }

  /** Collecting a batch in two parts collects each part in turn. */
  lemma {:induction false} CollectAppend(a: seq<RecognitionResult>, b: seq<RecognitionResult>, final: bool)
    ensures Collect(a + b, final) == Collect(a, final) + Collect(b, final)
    decreases |b|
  {
    if b == [] {
      assert a + b == a;
    } else {
      var b' := b[..|b| - 1];
      assert (a + b)[..|a + b| - 1] == a + b';
      CollectAppend(a, b', final);
    }
  }

  /** A batch whose results are all interim has no final text, and the other way round. */
  lemma {:induction false} CollectNone(rs: seq<RecognitionResult>, final: bool)
    requires forall i :: 0 <= i < |rs| ==> rs[i].isFinal != final
    ensures Collect(rs, final) == ""
  {
    if rs != [] {
      CollectNone(rs[..|rs| - 1], final);
    }
  }

  /** A single result goes to exactly one of the two texts. */
  lemma CollectOne(r: RecognitionResult)
    ensures Collect([r], r.isFinal) == r.transcript
    ensures Collect([r], !r.isFinal) == ""
  {
    assert [r][..0] == [];
  }

  /** The loop of `onresult`: the final and interim transcripts of the results
      from `resultIndex` on. */
  method CollectTranscripts(results: seq<RecognitionResult>, resultIndex: nat)
    returns (finalTranscript: string, interimTranscript: string)
    ensures resultIndex <= |results| ==>
      finalTranscript == Collect(results[resultIndex..], true)
      && interimTranscript == Collect(results[resultIndex..], false)
    ensures resultIndex > |results| ==> finalTranscript == "" && interimTranscript == ""
  {
    finalTranscript, interimTranscript := "", "";
    var i := resultIndex;
    while i < |results|
      invariant resultIndex <= |results| ==> resultIndex <= i <= |results|
      invariant resultIndex <= |results| ==> finalTranscript == Collect(results[resultIndex..i], true)
      invariant resultIndex <= |results| ==> interimTranscript == Collect(results[resultIndex..i], false)
      invariant resultIndex > |results| ==> i == resultIndex && finalTranscript == "" && interimTranscript == ""
      decreases |results| - i
    {
      assert results[resultIndex..i + 1][..i - resultIndex] == results[resultIndex..i];
      var transcript := results[i].transcript;
      if results[i].isFinal {
        finalTranscript := finalTranscript + transcript;
      } else {
        interimTranscript := interimTranscript + transcript;
      }
      i := i + 1;
    }
    assert resultIndex <= |results| ==> results[resultIndex..i] == results[resultIndex..];
  }

  /** The command a batch of results yields, if any: the trimmed final text,
      when it is not blank. */
  function CommandOf(finalTranscript: string): (c: Option<string>)
    ensures c.Some? <==> !AllSpace(finalTranscript)
    ensures c.Some? ==> c.value != "" && Trim(c.value) == c.value
  {
    BlankIffAllSpace(finalTranscript);
    TrimIdempotent(finalTranscript);
    if finalTranscript != "" && Trim(finalTranscript) != "" then Some(Trim(finalTranscript)) else None
  }

  const UnsupportedMessage := "Speech recognition is not supported in your browser."

  class Session {
    /** `recognitionRef.current`: the handle of the recognition instance, if any. */
    var current: Option<nat>
    /** The handle the next `new SpeechRecognition()` receives. */
    var nextHandle: nat
    /** The handles `stop()` was called on, in order. */
    var stopped: seq<nat>
    /** `lastProcessedCommand` */
    var memo: string
    /** `processingTimeout`: the command its callback will dispatch. */
    var pending: Option<string>
    /** The 1000 ms memo resets scheduled and not yet run. */
    var resetsPending: nat
    /** The last value passed to `setSpokenText`. */
    var spokenText: string
    /** The last value passed to `setListening`. */
    var listening: bool
    /** The commands handed to `handleCommand`, in order. */
    var dispatched: seq<string>
    /** The sentences passed to `speak` by the session itself. */
    var spoken: seq<string>

    /** The memo is clear once every scheduled reset has run; handles are
        issued in increasing order, and every issued handle but the current
        one has been stopped; a pending or dispatched command is a
        non-blank, trimmed final transcript. */
    ghost predicate Valid()
      reads this
    {
      && (resetsPending == 0 ==> memo == "")
      && (current.Some? ==> current.value < nextHandle)
      && (forall k :: 0 <= k < |stopped| ==> stopped[k] < nextHandle)
      && (forall h: nat :: h < nextHandle && current != Some(h) ==> h in stopped)
      && (pending.Some? ==> pending.value != "" && Trim(pending.value) == pending.value)
      && (forall k :: 0 <= k < |dispatched| ==> dispatched[k] != "" && Trim(dispatched[k]) == dispatched[k])
    }

    constructor()
      ensures Valid()
      ensures current == None && nextHandle == 0 && stopped == []
      ensures memo == "" && pending == None && resetsPending == 0
      ensures spokenText == "" && !listening && dispatched == [] && spoken == []
    {
      current, nextHandle, stopped := None, 0, [];
      memo, pending, resetsPending := "", None, 0;
      spokenText, listening, dispatched, spoken := "", false, [], [];
    }

    /** `start`: without speech recognition, say so and change nothing else;
        otherwise stop the current instance, if any, and store a new one. */
    method Start(supported: bool)
      requires Valid()
      modifies this
      ensures Valid()
      ensures !supported ==>
        spoken == old(spoken) + [UnsupportedMessage]
        && current == old(current) && nextHandle == old(nextHandle) && stopped == old(stopped)
      ensures supported ==>
        spoken == old(spoken)
        && current == Some(old(nextHandle)) && nextHandle == old(nextHandle) + 1
        && stopped == old(stopped) + (if old(current).Some? then [old(current).value] else [])
      ensures memo == old(memo) && pending == old(pending) && resetsPending == old(resetsPending)
      ensures spokenText == old(spokenText) && listening == old(listening) && dispatched == old(dispatched)
    {
      if !supported {
        spoken := spoken + [UnsupportedMessage];
        return;
      }
      if current.Some? {
        stopped := stopped + [current.value];
      }
      current := Some(nextHandle);
      nextHandle := nextHandle + 1;
    }

    /** `stop`: stop the current instance, if any, and forget it. */
    method Stop()
      requires Valid()
      modifies this
      ensures Valid()
      ensures current == None
      ensures stopped == old(stopped) + (if old(current).Some? then [old(current).value] else [])
      ensures nextHandle == old(nextHandle) && memo == old(memo) && pending == old(pending)
      ensures resetsPending == old(resetsPending) && spokenText == old(spokenText)
      ensures listening == old(listening) && dispatched == old(dispatched) && spoken == old(spoken)
    {
      if current.Some? {
        stopped := stopped + [current.value];
        current := None;
      }
    }

    /** `onstart` */
    method OnStart()
      requires Valid()
      modifies this
      ensures Valid()
      ensures listening && spokenText == ""
      ensures current == old(current) && nextHandle == old(nextHandle) && stopped == old(stopped)
      ensures memo == old(memo) && pending == old(pending) && resetsPending == old(resetsPending)
      ensures dispatched == old(dispatched) && spoken == old(spoken)
    {
      listening := true;
      spokenText := "";
    }

    /** `onend` */
    method OnEnd()
      requires Valid()
      modifies this
      ensures Valid()
      ensures !listening
      ensures current == old(current) && nextHandle == old(nextHandle) && stopped == old(stopped)
      ensures memo == old(memo) && pending == old(pending) && resetsPending == old(resetsPending)
      ensures spokenText == old(spokenText) && dispatched == old(dispatched) && spoken == old(spoken)
    {
      listening := false;
    }

    /** `onerror` */
    method OnError(error: string)
      requires Valid()
      modifies this
      ensures Valid()
      ensures !listening && spokenText == "Error: " + error
      ensures spoken == old(spoken) + ["Error during speech recognition: " + error]
      ensures current == old(current) && nextHandle == old(nextHandle) && stopped == old(stopped)
      ensures memo == old(memo) && pending == old(pending) && resetsPending == old(resetsPending)
      ensures dispatched == old(dispatched)
    {
      listening := false;
      spokenText := "Error: " + error;
      spoken := spoken + ["Error during speech recognition: " + error];
    }

    /** `onresult`: show the final text, or the interim text when there is no
        final one; a non-blank final text that is not the memo becomes the
        pending command, replacing any pending one. */
    method OnResult(results: seq<RecognitionResult>, resultIndex: nat)
      requires Valid()
      modifies this
      ensures Valid()
      ensures var from := if resultIndex <= |results| then results[resultIndex..] else [];
        var final := Collect(from, true);
        && spokenText == (if final != "" then final else Collect(from, false))
        && match CommandOf(final)
           case None => pending == old(pending)
           case Some(command) => pending == (if command == old(memo) then old(pending) else Some(command))
      ensures current == old(current) && nextHandle == old(nextHandle) && stopped == old(stopped)
      ensures memo == old(memo) && resetsPending == old(resetsPending)
      ensures dispatched == old(dispatched) && spoken == old(spoken)
    {
      var finalTranscript, interimTranscript := CollectTranscripts(results, resultIndex);
      spokenText := if finalTranscript != "" then finalTranscript else interimTranscript;
      var command := CommandOf(finalTranscript);
      if command.Some? {
        if command.value == memo {
          return;
        }
        pending := command;
      }
    }

    /** The 200 ms timeout fires: dispatch the pending command, remember it and
        schedule the memo reset. */
    method FireDebounce()
      requires Valid() && pending.Some?
      modifies this
      ensures Valid()
      ensures dispatched == old(dispatched) + [old(pending).value]
      ensures memo == old(pending).value && pending == None && resetsPending == old(resetsPending) + 1
      ensures spokenText == ""
      ensures current == old(current) && nextHandle == old(nextHandle) && stopped == old(stopped)
      ensures listening == old(listening) && spoken == old(spoken)
    {
      var command := pending.value;
      spokenText := "";
      dispatched := dispatched + [command];
      memo := command;
      pending := None;
      resetsPending := resetsPending + 1;
    }

    /** One of the 1000 ms timeouts fires: clear the text and the memo. */
    method FireMemoReset()
      requires Valid() && resetsPending > 0
      modifies this
      ensures Valid()
      ensures memo == "" && spokenText == "" && resetsPending == old(resetsPending) - 1
      ensures current == old(current) && nextHandle == old(nextHandle) && stopped == old(stopped)
      ensures pending == old(pending) && listening == old(listening)
      ensures dispatched == old(dispatched) && spoken == old(spoken)
    {
      memo := "";
      spokenText := "";
      resetsPending := resetsPending - 1;
    }
  }

  /** Starting twice leaves one live recognition: the first is stopped and
      the second is current. */
  method StartTwice(s: Session)
    requires s.Valid()
    modifies s
    ensures s.Valid()
    ensures s.current == Some(old(s.nextHandle) + 1)
    ensures old(s.nextHandle) in s.stopped
    ensures forall h: nat :: h < s.nextHandle && h != old(s.nextHandle) + 1 ==> h in s.stopped
  {
    s.Start(true);
    s.Start(true);
  }

  /** The same final transcript heard twice before the timeout fires, and once
      more while the memo holds it, is handed to `handleCommand` exactly once. */
  method RepeatDispatchedOnce(command: string) returns (dispatched: seq<string>, pending: Option<string>)
    requires command != "" && Trim(command) == command
    ensures dispatched == [command]
    ensures pending == None
  {
    var r := [RecognitionResult(command, true)];
    ghost var final := Collect(r[0..], true);
    assert final == command && CommandOf(final) == Some(command) by {
      assert r[0..] == r;
      CollectOne(r[0]);
      BlankIffAllSpace(command);
    }
    var s := new Session();
    s.OnResult(r, 0);
    assert s.pending == Some(command) && s.dispatched == [];
    s.OnResult(r, 0);
    assert s.pending == Some(command) && s.dispatched == [];
    s.FireDebounce();
    assert s.memo == command && s.pending == None && s.dispatched == [command];
    assert s.memo == command && CommandOf(final) == Some(command);
    s.OnResult(r, 0);
    assert s.pending == None && s.dispatched == [command];
    dispatched, pending := s.dispatched, s.pending;
  }
}
