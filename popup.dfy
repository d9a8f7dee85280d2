/**
 * The wake-word listener of popup.js. Speech results arrive as events; once
 * the transcript contains "hey kutty", detection switches on and a reset is
 * scheduled 5000 ms later; the text after the wake word, trimmed, is the
 * command handed to `handleCommand`. The start button toggles listening,
 * and the recogniser is restarted when it ends while listening.
 *
 * The speech recogniser and the page are outside the model: a result event
 * is given as the first alternative of each result, and the clock reading at
 * the event is a parameter. `setTimeout` is modelled by the deadline of the
 * pending reset, and its firing by the `OnTimeout` event.
 */
module Popup {
  import opened Wrappers
  import opened Text

  const WakeWord: string := "hey kutty"

  /** The delay of the reset after detection, in milliseconds. */
  const CommandTimeoutMs: nat := 5000

  const YouTubeUrl: string := "https://www.youtube.com"

  /** The pieces joined with no separator (`join('')`). */
  function Join(parts: seq<string>): string {
    if parts == [] then "" else Join(parts[..|parts| - 1]) + parts[|parts| - 1]
  }

  /** The transcript of an event: each result's first alternative, lower-cased, joined. */
  function Transcript(firsts: seq<string>): string {
    if firsts == [] then "" else Transcript(firsts[..|firsts| - 1]) + ToLower(firsts[|firsts| - 1])
  }

  /** Lower-casing each piece and joining is lower-casing the joined text. */
  lemma {:induction false} TranscriptIsLoweredJoin(firsts: seq<string>)
    ensures Transcript(firsts) == ToLower(Join(firsts))
  {
    if firsts != [] {
      var init := firsts[..|firsts| - 1];
      TranscriptIsLoweredJoin(init);
      ToLowerAppend(Join(init), firsts[|firsts| - 1]);
    }
  }

  /**
   * `transcript.split('hey kutty')[1].trim()`: the text between the first
   * wake word and the next one (or the end), trimmed.
   */
  function ExtractCommand(transcript: string): string
    requires Contains(transcript, WakeWord)
  {
    Trim(SecondSplitPiece(transcript, WakeWord))
  }

  /** The command occurs in the transcript, contains no wake word and has no white space at either end. */
  lemma ExtractCommandShape(transcript: string)
    requires Contains(transcript, WakeWord)
    ensures var c := ExtractCommand(transcript);
      && !Contains(c, WakeWord)
      && (c != "" ==> !IsSpace(c[0]) && !IsSpace(c[|c| - 1]))
      && Contains(transcript, c)
  {
    TrimmedSplitPiece(transcript, WakeWord);
  }

  /** `handleCommand`: the url of the tab it opens, if any. */
  function HandleCommand(command: string): (r: Option<string>)
    ensures r.Some? <==> Contains(command, "open youtube")
    ensures r.Some? ==> r.value == YouTubeUrl
  {
    if Contains(command, "open youtube") then Some(YouTubeUrl) else None
  }

  /**
   * The module-level state: `listening`, `wakeWordDetected`, and the
   * deadline of the reset `commandTimeout` will perform, if one is pending.
   */
  datatype ListenerState = ListenerState(listening: bool, wakeWordDetected: bool, pendingReset: Option<nat>)

  /** The state when the popup loads. */
  const Initial: ListenerState := ListenerState(false, false, None)

  /** Detection is never left on without a reset pending to switch it off. */
  predicate Consistent(s: ListenerState) {
    s.wakeWordDetected ==> s.pendingReset.Some?
  }

  /** The new state after a result event, and the command it handed to `handleCommand`, if any. */
  datatype ResultStep = ResultStep(state: ListenerState, command: Option<string>)

  /** `recognition.onresult` with transcript `t` at time `now`. */
  function AfterResult(s: ListenerState, t: string, now: nat): ResultStep {
    var heard := Contains(t, WakeWord);
    var arm := !s.wakeWordDetected && heard;
    var detected := s.wakeWordDetected || arm;
    var reset := if arm then Some(now + CommandTimeoutMs) else s.pendingReset;
    if detected && heard && ExtractCommand(t) != "" then
      ResultStep(ListenerState(s.listening, false, reset), Some(ExtractCommand(t)))
    else
      ResultStep(ListenerState(s.listening, detected, reset), None)
  }

  /** The reset firing at time `now`: due once its deadline has passed. */
  function AfterTimeout(s: ListenerState, now: nat): ListenerState {
    if s.pendingReset.Some? && s.pendingReset.value <= now then ListenerState(s.listening, false, None)
    else s
  }

  /** The start button. */
  function AfterToggle(s: ListenerState): ListenerState {
    if s.listening then ListenerState(false, s.wakeWordDetected, s.pendingReset)
    else ListenerState(true, false, s.pendingReset)
  }

  /**
   * A result event hands over a command exactly when the transcript holds
   * the wake word and a nonempty command after it, whatever the state
   * before: the event that switches detection on can dispatch too.
   */
  lemma DispatchIff(s: ListenerState, t: string, now: nat)
    ensures AfterResult(s, t, now).command.Some? <==> Contains(t, WakeWord) && ExtractCommand(t) != ""
    ensures AfterResult(s, t, now).command.Some? ==> AfterResult(s, t, now).command.value == ExtractCommand(t)
  {
  }

  /**
   * Detection is on after a result event exactly when it was on or the
   * wake word was heard, and no command was handed over; a dispatch always
   * switches it off.
   */
  lemma DetectionAfterResult(s: ListenerState, t: string, now: nat)
    ensures var r := AfterResult(s, t, now);
      r.state.wakeWordDetected <==> (s.wakeWordDetected || Contains(t, WakeWord)) && r.command.None?
  {
  }

  /**
   * A reset is scheduled `CommandTimeoutMs` after the event exactly when
   * detection switches on, replacing any pending one; otherwise the pending
   * reset is untouched. Listening is never changed by a result.
   */
  lemma ResetAfterResult(s: ListenerState, t: string, now: nat)
    ensures var r := AfterResult(s, t, now);
      && r.state.listening == s.listening
      && (!s.wakeWordDetected && Contains(t, WakeWord) ==> r.state.pendingReset == Some(now + CommandTimeoutMs))
      && (s.wakeWordDetected || !Contains(t, WakeWord) ==> r.state.pendingReset == s.pendingReset)
  {
  }

  /** A due reset switches detection off and dispatches nothing; nothing else changes. */
  lemma TimeoutResets(s: ListenerState, now: nat)
    requires s.pendingReset.Some? && s.pendingReset.value <= now
    ensures AfterTimeout(s, now) == ListenerState(s.listening, false, None)
  {
  }

  /** The toggle flips listening; switching on also switches detection off. */
  lemma ToggleFlips(s: ListenerState)
    ensures AfterToggle(s).listening == !s.listening
    ensures !s.listening ==> !AfterToggle(s).wakeWordDetected
    ensures AfterToggle(s).pendingReset == s.pendingReset
  {
  }

  /** Every event keeps detection covered by a pending reset. */
  lemma ConsistentPreserved(s: ListenerState, t: string, now: nat)
    requires Consistent(s)
    ensures Consistent(AfterResult(s, t, now).state)
    ensures Consistent(AfterTimeout(s, now))
    ensures Consistent(AfterToggle(s))
  {
  }

  /**
   * Detection never stays on for good: in a consistent state a detected wake
   * word has a reset pending, and that reset, once due, switches detection off.
   */
  lemma DetectionExpires(s: ListenerState)
    requires Consistent(s) && s.wakeWordDetected
    ensures s.pendingReset.Some?
    ensures !AfterTimeout(s, s.pendingReset.value).wakeWordDetected
  {
  }

  /** The listener: the popup's module-level variables and the callbacks that update them. */
  class WakeWordListener {
    var listening: bool
    var wakeWordDetected: bool
    var commandTimeout: Option<nat>

    function State(): ListenerState
      reads this
    {
      ListenerState(listening, wakeWordDetected, commandTimeout)
    }

    predicate Valid()
      reads this
    {
      Consistent(State())
    }

    constructor()
      ensures State() == Initial && Valid()
    {
      listening := false;
      wakeWordDetected := false;
      commandTimeout := None;
    }

    /** `recognition.onstart`. */
    method OnStart()
      requires Valid()
      modifies this
      ensures State() == old(State()).(listening := true) && Valid()
    {
      listening := true;
    }

    /**
     * `recognition.onresult` for an event whose results have the given first
     * alternatives, at time `now`: the command handed to `handleCommand`, if
     * any, and the url of the tab that opened.
     */
    method OnResult(firsts: seq<string>, now: nat) returns (dispatched: Option<string>, newTab: Option<string>)
      requires Valid()
      modifies this
      ensures ResultStep(State(), dispatched) == AfterResult(old(State()), Transcript(firsts), now)
      ensures newTab == if dispatched.Some? then HandleCommand(dispatched.value) else None
      ensures Valid()
    {
      var transcript := Transcript(firsts);
      var heard := Contains(transcript, WakeWord);
      if !wakeWordDetected && heard {
        wakeWordDetected := true;
        commandTimeout := Some(now + CommandTimeoutMs);
      }
      dispatched := None;
      newTab := None;
      if wakeWordDetected && heard {
        var command := ExtractCommand(transcript);
        if command != "" {
          dispatched := Some(command);
          newTab := HandleCommand(command);
          wakeWordDetected := false;
        }
      }
    }

    /** The scheduled reset firing at time `now`. */
    method OnTimeout(now: nat)
      requires Valid()
      modifies this
      ensures State() == AfterTimeout(old(State()), now) && Valid()
      ensures wakeWordDetected ==> commandTimeout.Some? && now < commandTimeout.value
    {
      if commandTimeout.Some? && commandTimeout.value <= now {
        wakeWordDetected := false;
        commandTimeout := None;
      }
    }

    /** The start button: whether it stops or starts the recogniser. */
    method Toggle() returns (start: bool)
      requires Valid()
      modifies this
      ensures State() == AfterToggle(old(State())) && Valid()
      ensures start == !old(listening)
    {
      if listening {
        listening := false;
        start := false;
      } else {
        listening := true;
        wakeWordDetected := false;
        start := true;
      }
    }

    /** `recognition.onend`: whether the recogniser is restarted. */
    method OnEnd() returns (restart: bool)
      ensures restart == listening
    {
      restart := listening;
    }
  }
}
