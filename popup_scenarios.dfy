/**
 * Concrete speech results run through the popup's wake-word listener.
 */
module PopupScenarios {
  import opened Wrappers
  import opened Text
  import opened Popup

  /**
   * A transcript that starts with the wake word and does not repeat it
   * hands over the rest of the transcript, trimmed.
   */
  lemma CommandAfterWakeWord(t: string, rest: string)
    requires t == WakeWord + rest && !Contains(rest, WakeWord)
    ensures Contains(t, WakeWord) && ExtractCommand(t) == Trim(rest)
  {
    assert t[0..9] == WakeWord;
    ContainsIff(t, WakeWord);
    assert IndexOf(t, WakeWord, 0) == Some(0);
    var piece := SecondSplitPiece(t, WakeWord);
    var p := |piece|;
    assert !OccursAt(rest, WakeWord, p);
    assert 9 + p == |t|;
    assert piece == t[9..] == rest;
  }

  /** A text without the letter "h" does not contain the wake word. */
  lemma NoWakeWordWithoutH(s: string)
    requires forall k :: 0 <= k < |s| ==> s[k] != 'h'
    ensures !Contains(s, WakeWord)
  {
    forall i | 0 <= i && i + 9 <= |s| ensures !OccursAt(s, WakeWord, i) {
      assert s[i..i + 9][0] == s[i] != WakeWord[0];
    }
    ContainsIff(s, WakeWord);
  }

  /** One space before a text without white space at either end is trimmed away. */
  lemma TrimLeadingSpace(s: string, c: string)
    requires s == " " + c && c != [] && !IsSpace(c[0]) && !IsSpace(c[|c| - 1])
    ensures Trim(s) == c
  {
    assert SkipSpaces(s, 1) == 1;
    assert TrimStart(s) == 1;
    var r := Trim(s);
    assert !IsSpace(s[|s| - 1]);
    assert r == s[1..|s|] == c;
  }

  /** "hey kutty open youtube" holds the wake word and the command "open youtube". */
  lemma HeyKuttyOpenYouTube(t: string)
    requires t == "hey kutty open youtube"
    ensures Contains(t, WakeWord) && ExtractCommand(t) == "open youtube"
  {
    var rest := t[9..];
    assert t == WakeWord + rest;
    NoWakeWordWithoutH(rest);
    TrimLeadingSpace(rest, "open youtube");
    CommandAfterWakeWord(t, rest);
  }

  /**
   * Said while listening, "hey kutty open youtube" arms detection, hands
   * over "open youtube" at once, and so switches detection off again; the
   * reset is left pending, five seconds on. The popup then opens YouTube.
   */
  lemma WakeWordAndCommandTogether(t: string, now: nat)
    requires t == "hey kutty open youtube"
    ensures AfterResult(ListenerState(true, false, None), t, now) ==
              ResultStep(ListenerState(true, false, Some(now + 5000)), Some("open youtube"))
    ensures HandleCommand("open youtube") == Some(YouTubeUrl)
  {
    HeyKuttyOpenYouTube(t);
    assert OccursAt("open youtube", "open youtube", 0);
    ContainsIff("open youtube", "open youtube");
  }

  /** A transcript without the wake word changes nothing and hands over nothing. */
  lemma NoWakeWordNoChange(s: ListenerState, t: string, now: nat)
    requires !s.wakeWordDetected && !Contains(t, WakeWord)
    ensures AfterResult(s, t, now) == ResultStep(s, None)
  {
  }

  /** Two results, "Hey Kutty " and "open YouTube", make the transcript "hey kutty open youtube". */
  lemma MixedCaseResults(firsts: seq<string>)
    requires firsts == ["Hey Kutty ", "open YouTube"]
    ensures Transcript(firsts) == "hey kutty open youtube"
  {
    var a, b := firsts[0], firsts[1];
    var init := firsts[..1];
    assert init[..0] == [] && init[0] == a;
    assert Transcript(init) == ToLower(a);
    assert Transcript(firsts) == ToLower(a) + ToLower(b);
    LowerPiece(a, "hey kutty ");
    LowerPiece(b, "open youtube");
  }

  /** `ToLower(s) == t` when the two agree letter by letter after lowering. */
  lemma LowerPiece(s: string, t: string)
    requires |s| == |t| && forall i :: 0 <= i < |s| ==> LowerChar(s[i]) == t[i]
    ensures ToLower(s) == t
  {
  }

  /**
   * A fresh listener, started, hears the two results "Hey Kutty " and
   * "open YouTube" at time 1000: it hands over "open youtube", opens
   * YouTube, has the reset pending at 6000 and restarts the recogniser
   * when it ends.
   */
  method SayHeyKuttyOpenYouTube() returns (dispatched: Option<string>, newTab: Option<string>, restart: bool)
    ensures dispatched == Some("open youtube") && newTab == Some(YouTubeUrl) && restart
  {
    var listener := new WakeWordListener();
    listener.OnStart();
    var firsts := ["Hey Kutty ", "open YouTube"];
    MixedCaseResults(firsts);
    WakeWordAndCommandTogether(Transcript(firsts), 1000);
    dispatched, newTab := listener.OnResult(firsts, 1000);
    assert listener.State() == ListenerState(true, false, Some(6000));
    restart := listener.OnEnd();
  }
}
