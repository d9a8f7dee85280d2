/**
 * The message listener of background.js: a `voice-command` message opens
 * YouTube or ChatGPT in a new tab when its command contains the matching
 * phrase, checked in that order; anything else is only logged.
 */
module Background {
  import opened Wrappers
  import opened Text

  /** A runtime message: its `type` and its `command`. */
  datatype Message = Message(kind: string, command: string)

  const VoiceCommand: string := "voice-command"
  const YouTubeUrl: string := "https://www.youtube.com"
  const ChatGptUrl: string := "https://chat.openai.com"

  /**
   * The url of the one tab the listener creates for `m`, or `None` when it
   * creates none. The tests are exact, case-sensitive substring tests.
   */
  function RouteMessage(m: Message): (r: Option<string>)
    ensures r.Some? ==> m.kind == VoiceCommand
    ensures r.Some? ==> r.value == YouTubeUrl || r.value == ChatGptUrl
    ensures r == Some(YouTubeUrl) <==> m.kind == VoiceCommand && Contains(m.command, "open youtube")
    ensures r == Some(ChatGptUrl) <==>
              m.kind == VoiceCommand && !Contains(m.command, "open youtube") && Contains(m.command, "open chatgpt")
    ensures r.None? <==>
              m.kind != VoiceCommand || (!Contains(m.command, "open youtube") && !Contains(m.command, "open chatgpt"))
  {
    if m.kind != VoiceCommand then None
    else if Contains(m.command, "open youtube") then Some(YouTubeUrl)
    else if Contains(m.command, "open chatgpt") then Some(ChatGptUrl)
    else None
  }

  /** A command naming both sites opens only YouTube. */
  lemma YouTubeFirst(command: string)
    requires Contains(command, "open youtube") && Contains(command, "open chatgpt")
    ensures RouteMessage(Message(VoiceCommand, command)) == Some(YouTubeUrl)
  {
  }

  /** The test is case-sensitive: a capitalised command opens nothing. */
  lemma CaseSensitive()
    ensures RouteMessage(Message(VoiceCommand, "Open YouTube")) == None
  {
    assert !Contains("Open YouTube", "open youtube") by {
      assert "Open YouTube"[0..12] != "open youtube" by {
        assert "Open YouTube"[0] == 'O';
      }
    }
    assert !Contains("Open YouTube", "open chatgpt") by {
      assert "Open YouTube"[0..12] != "open chatgpt" by {
        assert "Open YouTube"[5] == 'Y';
      }
    }
  }

  /** The phrase may sit anywhere in the command. */
  lemma PhraseAnywhere(before: string, after: string)
    ensures RouteMessage(Message(VoiceCommand, before + "open chatgpt" + after)).Some?
  {
    var s := before + "open chatgpt" + after;
    assert s[|before|..|before| + 12] == "open chatgpt";
    assert OccursAt(s, "open chatgpt", |before|);
    ContainsIff(s, "open chatgpt");
  }
}
