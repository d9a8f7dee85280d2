/**
 * Concrete commands run through the per-site actions with the extension's
 * own configuration table.
 */
module SiteScenarios {
  import opened Wrappers
  import opened Text
  import opened Regex
  import opened WebsiteInteractions

  /**
   * Only the exact hostnames of the table have actions: a tab on
   * "www.youtube.com" handles nothing, whatever the command.
   */
  lemma OnlyExactHostnames(domain: string, command: string)
    requires domain == "www.youtube.com"
    ensures ProcessWebsiteCommand(WebsiteConfigs, domain, command).None?
  {
    assert domain !in WebsiteConfigs;
  }

  /** A literal longer than the whole command never matches it. */
  lemma WordTooLong(p: Pattern, w: string, rest: seq<Term>, s: string)
    requires p == Pattern([Word(w) + rest]) && |w| > |s|
    ensures Exec(p, s).None?
  {
    forall j, b | 0 <= j <= |s| && 0 <= b < |p.alternatives|
      ensures MatchFrom(p.alternatives[b], s, j).None?
    {
      MatchWord(w, rest, s, j);
    }
    ExecNone(p, s);
  }

  /**
   * On YouTube, "type in search bar of youtube " in any case and then one
   * line, possibly empty, types that line into the search box.
   */
  lemma YouTubeTypesRest(domain: string, command: string)
    requires domain == "youtube.com"
    requires WordAt(command, "type in search bar of youtube ", 0)
    requires forall k :: 30 <= k < |command| ==> !IsLineTerminator(command[k])
    ensures ProcessWebsiteCommand(WebsiteConfigs, domain, command) == Some(Typed("input#search", command[30..]))
  {
    var actions := WebsiteConfigs[domain].actions;
    assert actions[0] == SiteAction("type in search bar",
      Pattern([Word("type in search bar of youtube ") + [Group(true)]]), TypeInto("input#search"));
    TypeActionMatches(actions[0].pattern, "type in search bar of youtube ", command);
    var m := Match(Some(Span(30, |command|)));
    assert Exec(actions[0].pattern, command) == Some(m);
    assert HandlerArgument(command, m) == command[30..|command|] == command[30..];
    ProcessWebsiteCommandFirstAction(WebsiteConfigs, domain, command, 0);
  }

  /** `w(.*)` where `w` begins the command and one line follows captures that line. */
  lemma TypeActionMatches(p: Pattern, w: string, s: string)
    requires p == Pattern([Word(w) + [Group(true)]]) && WordAt(s, w, 0)
    requires forall k :: |w| <= k < |s| ==> !IsLineTerminator(s[k])
    ensures Exec(p, s) == Some(Match(Some(Span(|w|, |s|))))
  {
    forall k | |w| <= k < |s| ensures Repeats(Group(true), s[k]) { }
    RunLengthToEnd(Group(true), s, |w|);
    FinalGroup(true, s, |w|);
    MatchWord(w, [Group(true)], s, 0);
    ExecAtStart(p, s);
  }

  /** "type in search bar of youtube cats" types "cats" into YouTube's search box. */
  lemma YouTubeCats(domain: string, command: string)
    requires domain == "youtube.com" && command == "type in search bar of youtube cats"
    ensures ProcessWebsiteCommand(WebsiteConfigs, domain, command) == Some(Typed("input#search", "cats"))
  {
    CatsCommand(command);
    YouTubeTypesRest(domain, command);
  }

  lemma CatsCommand(command: string)
    requires command == "type in search bar of youtube cats"
    ensures WordAt(command, "type in search bar of youtube ", 0)
    ensures forall k :: 30 <= k < |command| ==> !IsLineTerminator(command[k])
    ensures command[30..] == "cats"
  {
    forall k | 0 <= k < 30 ensures command[k] == "type in search bar of youtube "[k] { }
  }

  /** On Google, "now search" is too short for the typing action, and clicks the search button. */
  lemma GoogleNowSearchClicks(domain: string, command: string)
    requires domain == "google.com" && command == "now search"
    ensures ProcessWebsiteCommand(WebsiteConfigs, domain, command) == Some(Clicked("input[name=\"btnK\"]"))
  {
    GoogleActions(WebsiteConfigs[domain].actions);
    var actions := WebsiteConfigs[domain].actions;
    WordTooLong(actions[0].pattern, "type in search bar ", [Group(true)], command);
    NowSearchMatches(actions[1].pattern, command);
    SecondActionClicks(WebsiteConfigs, domain, command, "input[name=\"btnK\"]");
  }

  /** When only the second action fires and it clicks, the command clicks. */
  lemma SecondActionClicks(configs: map<string, SiteConfig>, domain: string, command: string, selector: string)
    requires domain in configs && |configs[domain].actions| >= 2
    requires !Fires(configs[domain].actions, 0, command) && Fires(configs[domain].actions, 1, command)
    requires configs[domain].actions[1].handler == ClickOn(selector)
    ensures ProcessWebsiteCommand(configs, domain, command) == Some(Clicked(selector))
  {
    ProcessWebsiteCommandFirstAction(configs, domain, command, 1);
  }

  lemma GoogleActions(actions: seq<SiteAction>)
    requires actions == WebsiteConfigs["google.com"].actions
    ensures |actions| == 2
    ensures actions[0].pattern == Pattern([Word("type in search bar ") + [Group(true)]])
    ensures actions[1] == SiteAction("search", Pattern([Word("now search")]), ClickOn("input[name=\"btnK\"]"))
  {
  }

  lemma NowSearchMatches(p: Pattern, s: string)
    requires p == Pattern([Word("now search")]) && s == "now search"
    ensures Exec(p, s) == Some(Match(None))
  {
    assert Word("now search") + [] == Word("now search");
    assert WordAt(s, "now search", 0);
    MatchWord("now search", [], s, 0);
    ExecAtStart(p, s);
  }
}
