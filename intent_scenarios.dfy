/**
 * Concrete commands run through the intent handler with its own tables,
 * and the general facts about the tables that decide them: what an "open"
 * command, a bare browser action, a "search for" command and a command
 * with no keyword turn into.
 */
module IntentScenarios {
  import opened Wrappers
  import opened Text
  import opened Regex
  import opened Intents

  /** No pattern of the table is more confident than 0.9. */
  lemma IntentPatternsAtMostNine()
    ensures forall k :: 0 <= k < |IntentPatterns| ==> IntentPatterns[k].confidence <= 9
  {
    assert IntentPatterns[0].confidence == 9;
    assert IntentPatterns[1].confidence == 8;
    assert IntentPatterns[2].confidence == 7;
    assert IntentPatterns[3].confidence == 7;
    assert IntentPatterns[4].confidence == 9;
    assert IntentPatterns[5].confidence == 8;
    assert IntentPatterns[6].confidence == 7;
    assert IntentPatterns[7].confidence == 9;
    assert IntentPatterns[8].confidence == 9;
    assert IntentPatterns[9].confidence == 9;
    assert IntentPatterns[10].confidence == 9;
    assert IntentPatterns[11].confidence == 9;
  }

  /** `open\s+(.+)` on "open " and one line not starting with white space captures that line. */
  lemma OpenCaptures(p: Pattern, s: string, rest: string)
    requires p == IntentPatterns[0].regex
    requires s == "open " + rest && rest != [] && !IsSpace(rest[0])
    requires forall k :: 0 <= k < |rest| ==> !IsLineTerminator(rest[k])
    ensures Exec(p, s) == Some(Match(Some(Span(5, |s|))))
  {
    assert IntentPatterns[0] == Capturing(OpenWebsiteIntent, ["open"], 9);
    assert p == Pattern([Word("open") + [Spaces, Group(false)]]);
    assert WordAt(s, "open", 0) by {
      forall k | 0 <= k < 4 ensures s[k] == "open"[k] { }
    }
    assert s[4] == ' ' && s[5] == rest[0];
    assert RunLength(Spaces, s, 4) == 1;
    forall k | 5 <= k < |s| ensures Repeats(Group(false), s[k]) {
      assert s[k] == rest[k - 5];
    }
    RunLengthToEnd(Group(false), s, 5);
    CaptureAfter("open", s, 0, 5);
    ExecAtStart(p, s);
  }

  /** `w\s+(.+)` at index `i`, where `w` occurs, then white space, then a nonempty rest of line. */
  lemma CaptureAfter(w: string, s: string, i: nat, j: nat)
    requires WordAt(s, w, i)
    requires RunLength(Spaces, s, i + |w|) >= 1 && j == i + |w| + RunLength(Spaces, s, i + |w|)
    requires RunLength(Group(false), s, j) >= 1
    ensures MatchFrom(Word(w) + [Spaces, Group(false)], s, i) ==
              Some(Match(Some(Span(j, j + RunLength(Group(false), s, j)))))
  {
    FinalCapture(s, j);
    SpacesThenCapture(s, i + |w|, MatchFrom([Group(false)], s, j));
    MatchWord(w, [Spaces, Group(false)], s, i);
  }

  lemma FinalCapture(s: string, j: nat)
    requires j <= |s| && RunLength(Group(false), s, j) >= 1
    ensures MatchFrom([Group(false)], s, j) == Some(Match(Some(Span(j, j + RunLength(Group(false), s, j)))))
  {
    FinalGroup(false, s, j);
  }

  lemma SpacesThenCapture(s: string, i: nat, m: Option<Match>)
    requires i <= |s| && RunLength(Spaces, s, i) >= 1
    requires MatchFrom([Group(false)], s, i + RunLength(Spaces, s, i)) == m && m.Some?
    ensures MatchFrom([Spaces, Group(false)], s, i) == m
  {
    var ts := [Spaces, Group(false)];
    assert ts[1..] == [Group(false)];
    SpacesStep(ts, s, i);
  }

  /**
   * Every "open " followed by one line that does not start with white space
   * is an openWebsite intent for that line, at confidence 0.9: the open
   * pattern comes first at the top confidence, so no other pattern, not
   * even a browser action, gets a say.
   */
  lemma OpenCommandIntent(command: string, rest: string)
    requires command == "open " + rest && rest != [] && !IsSpace(rest[0])
    requires forall k :: 0 <= k < |rest| ==> !IsLineTerminator(rest[k])
    ensures SoundPatterns(IntentPatterns)
    ensures Classify(IntentPatterns, command) == Some(Intent(OpenWebsiteIntent, 9, rest, None))
  {
    OpenCaptures(IntentPatterns[0].regex, command, rest);
    OpenPicked(IntentPatterns, command, 5, |command|);
    AfterPrefix("open ", rest, command);
  }

  lemma AfterPrefix(prefix: string, rest: string, s: string)
    requires s == prefix + rest
    ensures s[|prefix|..|s|] == rest
  {
  }

  /** "open new tab" opens a website called "new tab" rather than a new tab. */
  lemma OpenNewTabIntent(command: string)
    requires command == "open new tab"
    ensures SoundPatterns(IntentPatterns)
    ensures Classify(IntentPatterns, command) == Some(Intent(OpenWebsiteIntent, 9, "new tab", None))
  {
    assert command == "open " + "new tab";
    OpenCommandIntent(command, "new tab");
  }

  /** The open pattern, first in the table and at the top confidence, decides when it matches. */
  lemma OpenPicked(patterns: seq<IntentPattern>, command: string, a: nat, e: nat)
    requires patterns == IntentPatterns
    requires Exec(patterns[0].regex, command) == Some(Match(Some(Span(a, e))))
    ensures SoundPatterns(patterns) && a <= e <= |command|
    ensures Classify(patterns, command) == Some(Intent(OpenWebsiteIntent, 9, command[a..e], None))
  {
    IntentPatternsSound();
    IntentPatternsAtMostNine();
    assert patterns[0] == Capturing(OpenWebsiteIntent, ["open"], 9);
    PickedFirst(patterns, command, a, e);
  }

  lemma PickedFirst(patterns: seq<IntentPattern>, command: string, a: nat, e: nat)
    requires SoundPatterns(patterns) && |patterns| > 0 && patterns[0] == Capturing(OpenWebsiteIntent, ["open"], 9)
    requires forall j :: 0 <= j < |patterns| ==> patterns[j].confidence <= 9
    requires Exec(patterns[0].regex, command) == Some(Match(Some(Span(a, e))))
    ensures a <= e <= |command|
    ensures Classify(patterns, command) == Some(Intent(OpenWebsiteIntent, 9, command[a..e], None))
  {
    ClassifyFirstAtTop(patterns, command, 0);
  }

  /**
   * "open " followed by an alias, already in lower case and trimmed, opens
   * the first site having that alias, with score 1.
   */
  lemma OpenAliasOpensWebsite(h: IntentHandler, command: string, alias: string, k: nat)
    requires h.Valid() && h.websiteMappings == WebsiteMappings && h.intentPatterns == IntentPatterns
    requires command == "open " + alias && alias != [] && !IsSpace(alias[0]) && !IsSpace(alias[|alias| - 1])
    requires ToLower(alias) == alias && forall i :: 0 <= i < |alias| ==> !IsLineTerminator(alias[i])
    requires k < |WebsiteMappings| && alias in WebsiteMappings[k].aliases
    requires forall j :: 0 <= j < k ==> alias !in WebsiteMappings[j].aliases
    ensures h.ProcessCommand(command) == OpenWebsite(WebsiteMappings[k].url, 1.0)
  {
    OpenCommandIntent(command, alias);
    TrimUnchanged(alias);
    assert Normalize(alias) == alias;
    WebsiteMappingsWellFormed();
    LookupExactAlias(WebsiteMappings, alias, k);
  }

  /** The handler opens YouTube with score 1 for "open youtube". */
  lemma OpenYouTubeOpensYouTube(h: IntentHandler, command: string)
    requires h.Valid() && h.websiteMappings == WebsiteMappings && h.intentPatterns == IntentPatterns
    requires command == "open youtube"
    ensures h.ProcessCommand(command) == OpenWebsite("https://www.youtube.com", 1.0)
  {
    var alias := command[5..];
    YouTubeAlias(command, alias);
    OpenAliasOpensWebsite(h, command, alias, 0);
  }

  lemma YouTubeAlias(command: string, alias: string)
    requires command == "open youtube" && alias == command[5..]
    ensures command == "open " + alias && alias != [] && !IsSpace(alias[0]) && !IsSpace(alias[|alias| - 1])
    ensures ToLower(alias) == alias && forall i :: 0 <= i < |alias| ==> !IsLineTerminator(alias[i])
    ensures 0 < |WebsiteMappings| && alias in WebsiteMappings[0].aliases
    ensures WebsiteMappings[0].url == "https://www.youtube.com"
  {
    assert alias == "youtube";
    ToLowerUnchanged(alias);
  }

  /** The first letters of the keywords that begin the table's patterns. */
  const KeywordInitials: set<char> := {'o', 'g', 'n', 'v', 's', 'l', 'f', 'c', 'r', 'p'}

  /** Every alternative of every pattern of the table begins with a literal keyword initial. */
  lemma PatternsStartWithInitials()
    ensures forall k, b :: 0 <= k < |IntentPatterns| && 0 <= b < |IntentPatterns[k].regex.alternatives| ==>
              && IntentPatterns[k].regex.alternatives[b] != []
              && IntentPatterns[k].regex.alternatives[b][0].Lit?
              && IntentPatterns[k].regex.alternatives[b][0].c in KeywordInitials
  {
    CapturingStarts(OpenWebsiteIntent, ["open"], 9);
    CapturingStarts(OpenWebsiteIntent, ["go", "to"], 8);
    CapturingStarts(OpenWebsiteIntent, ["navigate", "to"], 7);
    CapturingStarts(OpenWebsiteIntent, ["visit"], 7);
    CapturingStarts(SearchIntent, ["search", "for"], 9);
    CapturingStarts(SearchIntent, ["look", "up"], 8);
    CapturingStarts(SearchIntent, ["find"], 7);
    KeywordsStart(["new", "tab"]);
    KeywordsStart(["close", "tab"]);
    KeywordsStart(["next", "tab"]);
    KeywordsStart(["previous", "tab"]);
  }

  lemma KeywordsStart(ws: seq<string>)
    requires ws != [] && ws[0] != ""
    ensures Keywords(ws) != [] && Keywords(ws)[0] == Lit(ws[0][0])
  {
  }

  lemma CapturingStarts(category: Category, ws: seq<string>, confidence: nat)
    requires ws != [] && ws[0] != ""
    ensures var alts := Capturing(category, ws, confidence).regex.alternatives;
            |alts| == 1 && alts[0] != [] && alts[0][0] == Lit(ws[0][0])
  {
    KeywordsStart(ws);
  }

  /**
   * A command in which no keyword initial occurs, in either case, matches
   * no pattern, so the handler searches for the whole command.
   */
  lemma NoKeywordSearchesCommand(h: IntentHandler, command: string)
    requires h.Valid() && h.websiteMappings == WebsiteMappings && h.intentPatterns == IntentPatterns
    requires forall i :: 0 <= i < |command| ==> LowerChar(command[i]) !in KeywordInitials
    ensures Classify(IntentPatterns, command).None?
    ensures h.ProcessCommand(command) == Search(command)
  {
    NoKeywordNoMatch(command);
    ClassifyNoneIff(IntentPatterns, command);
  }

  lemma NoKeywordNoMatch(command: string)
    requires forall i :: 0 <= i < |command| ==> LowerChar(command[i]) !in KeywordInitials
    ensures forall k :: 0 <= k < |IntentPatterns| ==> !Matches(IntentPatterns, k, command)
  {
    PatternsStartWithInitials();
    assert forall c :: c in KeywordInitials ==> LowerChar(c) == c;
    NoInitialNoMatch(IntentPatterns, KeywordInitials, command);
  }

  lemma NoInitialNoMatch(patterns: seq<IntentPattern>, initials: set<char>, command: string)
    requires forall c :: c in initials ==> LowerChar(c) == c
    requires forall k, b :: 0 <= k < |patterns| && 0 <= b < |patterns[k].regex.alternatives| ==>
               && patterns[k].regex.alternatives[b] != []
               && patterns[k].regex.alternatives[b][0].Lit?
               && patterns[k].regex.alternatives[b][0].c in initials
    requires forall i :: 0 <= i < |command| ==> LowerChar(command[i]) !in initials
    ensures forall k :: 0 <= k < |patterns| ==> !Matches(patterns, k, command)
  {
    forall k | 0 <= k < |patterns| ensures !Matches(patterns, k, command) {
      var p := patterns[k].regex;
      forall b | 0 <= b < |p.alternatives| ensures Absent(command, p.alternatives[b][0].c) {
      }
      ExecFirstLetterAbsent(p, command);
    }
  }

  /** "hmm" is no command at all: it is searched for as it is. */
  lemma HmmIsSearched(h: IntentHandler)
    requires h.Valid() && h.websiteMappings == WebsiteMappings && h.intentPatterns == IntentPatterns
    ensures h.ProcessCommand("hmm") == Search("hmm")
  {
    NoKeywordSearchesCommand(h, "hmm");
  }

  lemma KeywordsTwo(a: string, b: string)
    ensures Keywords([a, b]) == Word(a) + ([Spaces] + Word(b))
  {
    assert [a, b][1..] == [b];
  }

  lemma KeywordsTwoCapture(a: string, b: string)
    ensures Keywords([a, b]) + [Spaces, Group(false)] == Word(a) + ([Spaces] + (Word(b) + [Spaces, Group(false)]))
  {
    KeywordsTwo(a, b);
  }

  /** `a\s+b` at index `i`, where `a`, white space and `b` follow each other. */
  lemma TwoWords(a: string, b: string, s: string, i: nat)
    requires WordAt(s, a, i) && RunLength(Spaces, s, i + |a|) >= 1
    requires WordAt(s, b, i + |a| + RunLength(Spaces, s, i + |a|))
    ensures MatchFrom(Keywords([a, b]), s, i) == Some(Match(None))
  {
    KeywordsTwo(a, b);
    SpacesThenWord(b, s, i + |a|);
    MatchWord(a, [Spaces] + Word(b), s, i);
  }

  lemma SpacesThenWord(b: string, s: string, i: nat)
    requires i <= |s| && RunLength(Spaces, s, i) >= 1 && WordAt(s, b, i + RunLength(Spaces, s, i))
    ensures MatchFrom([Spaces] + Word(b), s, i) == Some(Match(None))
  {
    var tail := [Spaces] + Word(b);
    LastWord(b, s, i + RunLength(Spaces, s, i));
    assert tail[1..] == Word(b);
    SpacesStep(tail, s, i);
  }

  lemma LastWord(b: string, s: string, i: nat)
    requires i <= |s| && WordAt(s, b, i)
    ensures MatchFrom(Word(b), s, i) == Some(Match(None))
  {
    assert Word(b) + [] == Word(b);
    MatchWord(b, [], s, i);
  }

  /** `a\s+b\s+(.+)` at index `i`: two keywords, white space, then a nonempty rest of line. */
  lemma CaptureAfterTwo(a: string, b: string, s: string, i: nat, m: nat, j: nat)
    requires WordAt(s, a, i) && RunLength(Spaces, s, i + |a|) >= 1 && m == i + |a| + RunLength(Spaces, s, i + |a|)
    requires WordAt(s, b, m) && RunLength(Spaces, s, m + |b|) >= 1 && j == m + |b| + RunLength(Spaces, s, m + |b|)
    requires RunLength(Group(false), s, j) >= 1
    ensures MatchFrom(Keywords([a, b]) + [Spaces, Group(false)], s, i) ==
              Some(Match(Some(Span(j, j + RunLength(Group(false), s, j)))))
  {
    var rest := Word(b) + [Spaces, Group(false)];
    KeywordsTwoCapture(a, b);
    CaptureAfter(b, s, m, j);
    SpacesThen(rest, s, i + |a|);
    MatchWord(a, [Spaces] + rest, s, i);
  }

  lemma SpacesThen(rest: seq<Term>, s: string, i: nat)
    requires i <= |s| && RunLength(Spaces, s, i) >= 1
    requires MatchFrom(rest, s, i + RunLength(Spaces, s, i)).Some?
    ensures MatchFrom([Spaces] + rest, s, i) == MatchFrom(rest, s, i + RunLength(Spaces, s, i))
  {
    assert ([Spaces] + rest)[1..] == rest;
    SpacesStep([Spaces] + rest, s, i);
  }

  /** "new tab" is the new-tab browser action. */
  lemma NewTabIsBrowserAction(h: IntentHandler, command: string)
    requires h.Valid() && h.websiteMappings == WebsiteMappings && h.intentPatterns == IntentPatterns
    requires command == "new tab"
    ensures Classify(IntentPatterns, command) == Some(Intent(BrowserActionIntent, 9, "new tab", Some("new tab")))
    ensures h.ProcessCommand(command) == BrowserAction("new tab")
  {
    NewTabIntent(command);
  }

  lemma NewTabIntent(command: string)
    requires command == "new tab"
    ensures SoundPatterns(IntentPatterns)
    ensures Classify(IntentPatterns, command) == Some(Intent(BrowserActionIntent, 9, "new tab", Some("new tab")))
  {
    NewTabMatches(IntentPatterns[7].regex, command);
    NewTabNotOpenOrSearch(command);
    IntentPatternsSound();
    OnlyOpenAndSearchAtTop();
    assert IntentPatterns[7] == Fixed([Keywords(["new", "tab"])], "new tab");
    ClassifyFirstAtTop(IntentPatterns, command, 7);
  }

  /** Before the browser actions, only the open and search-for patterns have confidence 0.9. */
  lemma OnlyOpenAndSearchAtTop()
    ensures forall j :: 0 <= j < |IntentPatterns| ==> IntentPatterns[j].confidence <= 9
    ensures forall j :: 0 <= j < 7 && j != 0 && j != 4 ==> IntentPatterns[j].confidence < 9
  {
    IntentPatternsAtMostNine();
    assert IntentPatterns[1].confidence < 9 && IntentPatterns[2].confidence < 9 && IntentPatterns[3].confidence < 9;
    assert IntentPatterns[5].confidence < 9 && IntentPatterns[6].confidence < 9;
  }

  lemma NewTabMatches(p: Pattern, s: string)
    requires p == IntentPatterns[7].regex && s == "new tab"
    ensures Exec(p, s) == Some(Match(None))
  {
    assert IntentPatterns[7] == Fixed([Keywords(["new", "tab"])], "new tab");
    assert WordAt(s, "new", 0);
    assert RunLength(Spaces, s, 3) == 1;
    assert WordAt(s, "tab", 4);
    TwoWords("new", "tab", s, 0);
    ExecAtStart(p, s);
  }

  lemma NewTabNotOpenOrSearch(s: string)
    requires s == "new tab"
    ensures !Matches(IntentPatterns, 0, s) && !Matches(IntentPatterns, 4, s)
  {
    CapturingStarts(OpenWebsiteIntent, ["open"], 9);
    CapturingStarts(SearchIntent, ["search", "for"], 9);
    assert Absent(s, 'o') && Absent(s, 's');
    ExecFirstLetterAbsent(IntentPatterns[0].regex, s);
    ExecFirstLetterAbsent(IntentPatterns[4].regex, s);
  }

  /** `search\s+for\s+(.+)` on "search for " and one line not starting with white space captures that line. */
  lemma SearchCaptures(p: Pattern, s: string, rest: string)
    requires p == IntentPatterns[4].regex
    requires s == "search for " + rest && rest != [] && !IsSpace(rest[0])
    requires forall k :: 0 <= k < |rest| ==> !IsLineTerminator(rest[k])
    ensures Exec(p, s) == Some(Match(Some(Span(11, |s|))))
  {
    assert IntentPatterns[4] == Capturing(SearchIntent, ["search", "for"], 9);
    assert p == Pattern([Keywords(["search", "for"]) + [Spaces, Group(false)]]);
    assert WordAt(s, "search", 0) by {
      forall k | 0 <= k < 6 ensures s[k] == "search"[k] { }
    }
    assert WordAt(s, "for", 7) by {
      forall k | 0 <= k < 3 ensures s[7 + k] == "for"[k] { }
    }
    assert s[6] == ' ' && s[7] == 'f' && s[10] == ' ' && s[11] == rest[0];
    assert RunLength(Spaces, s, 6) == 1;
    assert RunLength(Spaces, s, 10) == 1;
    forall k | 11 <= k < |s| ensures Repeats(Group(false), s[k]) {
      assert s[k] == rest[k - 11];
    }
    RunLengthToEnd(Group(false), s, 11);
    CaptureAfterTwo("search", "for", s, 0, 7, 11);
    ExecAtStart(p, s);
  }

  /**
   * "search for " followed by one line that does not start with white space
   * is a search intent for that line, at confidence 0.9, unless the open
   * pattern, first at the same confidence, matches somewhere in it.
   */
  lemma SearchCommandIntent(command: string, rest: string)
    requires command == "search for " + rest && rest != [] && !IsSpace(rest[0])
    requires forall k :: 0 <= k < |rest| ==> !IsLineTerminator(rest[k])
    requires !Matches(IntentPatterns, 0, command)
    ensures SoundPatterns(IntentPatterns)
    ensures Classify(IntentPatterns, command) == Some(Intent(SearchIntent, 9, rest, None))
  {
    SearchCaptures(IntentPatterns[4].regex, command, rest);
    IntentPatternsSound();
    OnlyOpenAndSearchAtTop();
    assert IntentPatterns[4] == Capturing(SearchIntent, ["search", "for"], 9);
    ClassifyFirstAtTop(IntentPatterns, command, 4);
    AfterPrefix("search for ", rest, command);
  }

  /** "search for cats" searches for "cats". */
  lemma SearchForCats(h: IntentHandler, command: string)
    requires h.Valid() && h.websiteMappings == WebsiteMappings && h.intentPatterns == IntentPatterns
    requires command == "search for cats"
    ensures h.ProcessCommand(command) == Search("cats")
  {
    var rest := command[11..];
    CatsFacts(command, rest);
    NoOpenInSearchForCats(IntentPatterns[0].regex, command);
    SearchCommandIntent(command, rest);
  }

  lemma CatsFacts(command: string, rest: string)
    requires command == "search for cats" && rest == command[11..]
    ensures command == "search for " + rest && rest == "cats" && !IsSpace(rest[0])
    ensures forall k :: 0 <= k < |rest| ==> !IsLineTerminator(rest[k])
  {
  }

  /** "open" occurs nowhere in "search for cats": its only "o" is followed by "r". */
  lemma NoOpenInSearchForCats(p: Pattern, s: string)
    requires p == IntentPatterns[0].regex && s == "search for cats"
    ensures Exec(p, s).None?
  {
    assert IntentPatterns[0] == Capturing(OpenWebsiteIntent, ["open"], 9);
    NoWordNoMatch(p, "open", [Spaces, Group(false)], s);
  }

  lemma NoWordNoMatch(p: Pattern, w: string, rest: seq<Term>, s: string)
    requires p == Pattern([Word(w) + rest]) && w == "open" && s == "search for cats"
    ensures Exec(p, s).None?
  {
    forall j, b | 0 <= j <= |s| && 0 <= b < |p.alternatives|
      ensures MatchFrom(p.alternatives[b], s, j).None?
    {
      MatchWord(w, rest, s, j);
      NoOpenAt(s, j);
    }
    ExecNone(p, s);
  }

  lemma NoOpenAt(s: string, j: nat)
    requires s == "search for cats"
    ensures !WordAt(s, "open", j)
  {
    if j == 8 {
      assert !SameLetter(s[j + 1], "open"[1]);
    } else if j + 4 <= |s| {
      assert !SameLetter(s[j + 0], "open"[0]);
    }
  }
}
