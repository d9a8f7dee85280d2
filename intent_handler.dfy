/**
 * The intent engine of intentHandler.js: the static website and intent
 * tables, fuzzy website resolution (`findBestWebsiteMatch`),
 * confidence-ranked pattern classification (`determineIntent`) and the
 * action record built from them (`processCommand`).
 *
 * Resolution and classification are specified for any table satisfying the
 * well-formedness the real tables have, and the class `IntentHandler`
 * holds the real tables, as the code's constructor does.
 *
 * Similarity scores are exact reals rather than IEEE doubles, and pattern
 * confidences are integer tenths (9 stands for 0.9).
 */
module Intents {
  import opened Wrappers
  import opened Text
  import opened Regex
  import opened Levenshtein

  // ---------------------------------------------------------------------
  // Websites

  /** One entry of `websiteMappings`: its key, url, aliases and related terms. */
  datatype WebsiteEntry = WebsiteEntry(key: string, url: string, aliases: seq<string>, relatedTerms: seq<string>)

  /** `websiteMappings`, in its declared (and iteration) order. */
  const WebsiteMappings: seq<WebsiteEntry> := [
    WebsiteEntry("youtube", "https://www.youtube.com",
      ["yt", "youtube.com", "youtube", "you tube", "you-tube"],
      ["video", "videos", "watch", "streaming"]),
    WebsiteEntry("netflix", "https://www.netflix.com",
      ["netflix.com", "net flix", "net-flix"],
      ["movies", "shows", "streaming", "watch"]),
    WebsiteEntry("google", "https://www.google.com",
      ["google.com", "goog", "goo gle"],
      ["search", "find", "look up"]),
    WebsiteEntry("github", "https://github.com",
      ["github.com", "git hub", "git-hub"],
      ["code", "repository", "developer"]),
    WebsiteEntry("chatgpt", "https://chat.openai.com",
      ["chat.openai.com", "openai", "chat gpt", "chat-gpt"],
      ["ai", "chatbot", "assistant"])
  ]

  /** A fuzzy score must exceed this to count as a match. */
  const MatchThreshold: real := 0.6

  /** The result of `findBestWebsiteMatch`. */
  datatype WebsiteMatch = WebsiteMatch(url: string, score: real)

  /** Every entry has an alias, and no alias or related term is empty, so no similarity divides by zero. */
  predicate WellFormedEntry(e: WebsiteEntry) {
    |e.aliases| > 0 && "" !in e.aliases && "" !in e.relatedTerms
  }

  predicate WellFormedTable(table: seq<WebsiteEntry>) {
    forall k :: 0 <= k < |table| ==> WellFormedEntry(table[k])
  }

  lemma WebsiteMappingsWellFormed()
    ensures WellFormedTable(WebsiteMappings)
  {
    assert WellFormedEntry(WebsiteMappings[0]);
    assert WellFormedEntry(WebsiteMappings[1]);
    assert WellFormedEntry(WebsiteMappings[2]);
    assert WellFormedEntry(WebsiteMappings[3]);
    assert WellFormedEntry(WebsiteMappings[4]);
  }

  /** `input.toLowerCase().trim()`. */
  function Normalize(input: string): string {
    Trim(ToLower(input))
  }

  /** The similarity of `x` to each of `terms` (the `map` over aliases). */
  function Scores(x: string, terms: seq<string>): (r: seq<real>)
    requires "" !in terms
    ensures |r| == |terms|
    ensures forall i :: 0 <= i < |terms| ==> r[i] == Similarity(x, terms[i])
  {
    seq(|terms|, i requires 0 <= i < |terms| => Similarity(x, terms[i]))
  }

  /** Related terms count at half their similarity (the `map` over related terms). */
  function Halved(xs: seq<real>): (r: seq<real>)
    ensures |r| == |xs|
    ensures forall i :: 0 <= i < |xs| ==> r[i] == xs[i] * 0.5
  {
    seq(|xs|, i requires 0 <= i < |xs| => xs[i] * 0.5)
  }

  /** `Math.max(...xs)` for a nonempty list. */
  function SeqMax(xs: seq<real>): real
    requires |xs| > 0
  {
    if |xs| == 1 then xs[0]
    else
      var m := SeqMax(xs[..|xs| - 1]);
      if xs[|xs| - 1] > m then xs[|xs| - 1] else m
  }

  /** The maximum is an element that no element exceeds. */
  lemma {:induction false} SeqMaxIsMax(xs: seq<real>)
    requires |xs| > 0
    ensures forall i :: 0 <= i < |xs| ==> xs[i] <= SeqMax(xs)
    ensures exists i :: 0 <= i < |xs| && xs[i] == SeqMax(xs)
  {
    if |xs| == 1 {
      assert xs[0] == SeqMax(xs);
    } else {
      var n := |xs| - 1;
      var init := xs[..n];
      SeqMaxIsMax(init);
      var m := SeqMax(init);
      assert SeqMax(xs) == if xs[n] > m then xs[n] else m;
      forall i | 0 <= i < |xs|
        ensures xs[i] <= SeqMax(xs)
      {
        if i < n {
          assert xs[i] == init[i];
        }
      }
      if xs[n] > m {
        assert xs[n] == SeqMax(xs);
      } else {
        var i :| 0 <= i < |init| && init[i] == m;
        assert xs[i] == init[i];
        assert xs[i] == SeqMax(xs);
      }
    }
  }

  /** The alias scores (full weight) followed by the related-term scores (half weight). */
  function EntryScores(e: WebsiteEntry, x: string): (r: seq<real>)
    requires WellFormedEntry(e)
    ensures |r| == |e.aliases| + |e.relatedTerms|
  {
    Scores(x, e.aliases) + Halved(Scores(x, e.relatedTerms))
  }

  /** `maxScore` for one entry. */
  function EntryScore(e: WebsiteEntry, x: string): real
    requires WellFormedEntry(e)
  {
    SeqMax(EntryScores(e, x))
  }

  /** The score of an entry is at least every alias and weighted related-term score, and equal to one of them. */
  lemma EntryScoreIsMax(e: WebsiteEntry, x: string)
    requires WellFormedEntry(e)
    ensures forall a :: a in e.aliases ==> Similarity(x, a) <= EntryScore(e, x)
    ensures forall t :: t in e.relatedTerms ==> Similarity(x, t) * 0.5 <= EntryScore(e, x)
    ensures exists i :: 0 <= i < |EntryScores(e, x)| && EntryScores(e, x)[i] == EntryScore(e, x)
  {
    var xs := EntryScores(e, x);
    SeqMaxIsMax(xs);
    assert forall i :: 0 <= i < |e.aliases| ==> xs[i] == Similarity(x, e.aliases[i]);
    assert forall i :: 0 <= i < |e.relatedTerms| ==>
      xs[|e.aliases| + i] == Similarity(x, e.relatedTerms[i]) * 0.5;
  }

  /** The score of entry `k` of the table. */
  function ScoreOf(table: seq<WebsiteEntry>, k: nat, x: string): real
    requires WellFormedTable(table) && k < |table|
  {
    EntryScore(table[k], x)
  }

  /** The first entry, from index `k` on, that has `x` among its aliases. */
  function FirstAlias(table: seq<WebsiteEntry>, x: string, k: nat): (r: Option<nat>)
    requires k <= |table|
    decreases |table| - k
    ensures r.Some? ==> k <= r.value < |table| && x in table[r.value].aliases
    ensures r.Some? ==> forall j :: k <= j < r.value ==> x !in table[j].aliases
    ensures r.None? <==> forall j :: k <= j < |table| ==> x !in table[j].aliases
  {
    if k == |table| then None
    else if x in table[k].aliases then Some(k)
    else FirstAlias(table, x, k + 1)
  }

  /** Scoring one more term appends its score. */
  lemma ScoresSnoc(x: string, terms: seq<string>, t: string)
    requires "" !in terms && t != ""
    ensures Scores(x, terms + [t]) == Scores(x, terms) + [Similarity(x, t)]
  {
    var l := Scores(x, terms + [t]);
    var r := Scores(x, terms) + [Similarity(x, t)];
    forall i | 0 <= i < |l|
      ensures l[i] == r[i]
    {
      if i < |terms| {
        assert (terms + [t])[i] == terms[i];
      } else {
        assert (terms + [t])[i] == t;
      }
    }
  }

  /** The score of every entry, in table order. */
  function TableScores(table: seq<WebsiteEntry>, x: string): (r: seq<real>)
    requires WellFormedTable(table)
    ensures |r| == |table|
  {
    ScoresUpTo(table, x, |table|)
  }

  /** The scores of the first `n` entries. */
  function ScoresUpTo(table: seq<WebsiteEntry>, x: string, n: nat): (r: seq<real>)
    requires WellFormedTable(table) && n <= |table|
    ensures |r| == n
  {
    if n == 0 then [] else ScoresUpTo(table, x, n - 1) + [ScoreOf(table, n - 1, x)]
  }

  lemma {:induction false} ScoresUpToAt(table: seq<WebsiteEntry>, x: string, n: nat, k: nat)
    requires WellFormedTable(table) && k < n <= |table|
    ensures ScoresUpTo(table, x, n)[k] == ScoreOf(table, k, x)
  {
    if k < n - 1 {
      ScoresUpToAt(table, x, n - 1, k);
    }
  }

  /** Entry `k` of the score list is the score of entry `k` of the table. */
  lemma TableScoresAt(table: seq<WebsiteEntry>, x: string, k: nat)
    requires WellFormedTable(table) && k < |table|
    ensures TableScores(table, x)[k] == EntryScore(table[k], x)
  {
    ScoresUpToAt(table, x, |table|, k);
  }

  /**
   * Among the first `n` scores, the earliest highest one, provided it
   * exceeds the threshold (the loop's `maxScore > highestScore && maxScore > 0.6`).
   */
  function FirstBest(scores: seq<real>, n: nat): (r: Option<nat>)
    requires n <= |scores|
    ensures r.Some? ==> r.value < n && scores[r.value] > MatchThreshold
    ensures r.Some? ==> forall j :: 0 <= j < r.value ==> scores[j] < scores[r.value]
    ensures r.Some? ==> forall j :: 0 <= j < n ==> scores[j] <= scores[r.value]
    ensures r.None? <==> forall j :: 0 <= j < n ==> scores[j] <= MatchThreshold
  {
    if n == 0 then None
    else
      var b := FirstBest(scores, n - 1);
      if scores[n - 1] > MatchThreshold && (b.None? || scores[b.value] < scores[n - 1]) then Some(n - 1) else b
  }

  /**
   * The search for a normalised phrase `x`: the first entry with `x` as an
   * alias, at score 1; otherwise the earliest entry with the highest score
   * above the threshold; otherwise nothing.
   */
  function Lookup(table: seq<WebsiteEntry>, x: string): (r: Option<WebsiteMatch>)
    requires WellFormedTable(table)
    ensures r.Some? ==> MatchThreshold < r.value.score <= 1.0
    ensures r.Some? ==> exists k :: 0 <= k < |table| && table[k].url == r.value.url
  {
    match FirstAlias(table, x, 0)
    case Some(k) => Some(WebsiteMatch(table[k].url, 1.0))
    case None =>
      var scores := TableScores(table, x);
      var b := FirstBest(scores, |scores|);
      if b.Some? then
        ScoreAtMostOne(table[b.value], x);
        TableScoresAt(table, x, b.value);
        MatchAt(table, scores, b)
      else MatchAt(table, scores, b)
  }

  /** The match the loop holds when entry `b` is its best so far. */
  function MatchAt(table: seq<WebsiteEntry>, scores: seq<real>, b: Option<nat>): (r: Option<WebsiteMatch>)
    requires |scores| == |table| && (b.Some? ==> b.value < |table|)
    ensures r.Some? <==> b.Some?
    ensures r.Some? ==> r.value == WebsiteMatch(table[b.value].url, scores[b.value])
  {
    match b
    case Some(j) => Some(WebsiteMatch(table[j].url, scores[j]))
    case None => None
  }

  /** What `findBestWebsiteMatch(input)` returns: the search for the lower-cased, trimmed input. */
  function Resolve(table: seq<WebsiteEntry>, input: string): Option<WebsiteMatch>
    requires WellFormedTable(table)
  {
    Lookup(table, Normalize(input))
  }

  /** No score exceeds 1. */
  lemma ScoreAtMostOne(e: WebsiteEntry, x: string)
    requires WellFormedEntry(e)
    ensures EntryScore(e, x) <= 1.0
  {
    EntryScoreIsMax(e, x);
    var xs := EntryScores(e, x);
    var i :| 0 <= i < |xs| && xs[i] == EntryScore(e, x);
    if i < |e.aliases| {
      assert xs[i] == Similarity(x, e.aliases[i]);
    } else {
      assert xs[i] == Similarity(x, e.relatedTerms[i - |e.aliases|]) * 0.5;
    }
  }

  /** A related term scores at most one half, below the threshold, so it can never decide a match alone. */
  lemma RelatedTermBelowThreshold(x: string, t: string)
    requires t != ""
    ensures Similarity(x, t) * 0.5 < MatchThreshold
  {
  }

  /**
   * A score above the threshold is the similarity of one of the entry's
   * aliases: related terms never supply the winning score.
   */
  lemma HighScoreIsAlias(e: WebsiteEntry, x: string)
    requires WellFormedEntry(e)
    requires EntryScore(e, x) > MatchThreshold
    ensures exists a :: a in e.aliases && Similarity(x, a) == EntryScore(e, x)
  {
    EntryScoreIsMax(e, x);
    var xs := EntryScores(e, x);
    var i :| 0 <= i < |xs| && xs[i] == EntryScore(e, x);
    assert i < |e.aliases|;
    assert xs[i] == Similarity(x, e.aliases[i]);
    assert e.aliases[i] in e.aliases;
  }

  /** A phrase that is an alias resolves, with score 1, to the first entry having that alias. */
  lemma LookupExactAlias(table: seq<WebsiteEntry>, x: string, k: nat)
    requires WellFormedTable(table)
    requires k < |table| && x in table[k].aliases
    requires forall j :: 0 <= j < k ==> x !in table[j].aliases
    ensures Lookup(table, x) == Some(WebsiteMatch(table[k].url, 1.0))
  {
    var f := FirstAlias(table, x, 0);
    assert f.Some?;
    assert f.value == k;
  }

  /** Every alias similarity and halved related-term similarity of entry `k` is at most its score. */
  lemma BoundedByScore(table: seq<WebsiteEntry>, x: string, k: nat)
    requires WellFormedTable(table) && k < |table|
    ensures forall a :: a in table[k].aliases ==> Similarity(x, a) <= TableScores(table, x)[k]
    ensures forall t :: t in table[k].relatedTerms ==> Similarity(x, t) * 0.5 <= TableScores(table, x)[k]
  {
    EntryScoreIsMax(table[k], x);
    TableScoresAt(table, x, k);
  }

  /**
   * Without an exact alias, a match has the highest score of any alias and
   * of any halved related term of any entry, above the threshold, and it is
   * the earliest entry reaching that score.
   */
  lemma LookupFuzzyIsBest(table: seq<WebsiteEntry>, x: string)
    requires WellFormedTable(table)
    requires forall k :: 0 <= k < |table| ==> x !in table[k].aliases
    requires Lookup(table, x).Some?
    ensures var s := Lookup(table, x).value.score;
      && s > MatchThreshold
      && (forall k, a :: 0 <= k < |table| && a in table[k].aliases ==> Similarity(x, a) <= s)
      && (forall k, t :: 0 <= k < |table| && t in table[k].relatedTerms ==> Similarity(x, t) * 0.5 <= s)
      && exists k :: && 0 <= k < |table| && table[k].url == Lookup(table, x).value.url
                     && TableScores(table, x)[k] == s
                     && forall j :: 0 <= j < k ==> TableScores(table, x)[j] < s
  {
    assert FirstAlias(table, x, 0).None?;
    var scores := TableScores(table, x);
    var k := FirstBest(scores, |scores|).value;
    var s := Lookup(table, x).value.score;
    assert s == scores[k];
    forall j, a | 0 <= j < |table| && a in table[j].aliases
      ensures Similarity(x, a) <= s
    {
      BoundedByScore(table, x, j);
    }
    forall j, t | 0 <= j < |table| && t in table[j].relatedTerms
      ensures Similarity(x, t) * 0.5 <= s
    {
      BoundedByScore(table, x, j);
    }
  }

  /** Every match, exact or fuzzy, carries the similarity of one of its entry's aliases to the phrase. */
  lemma LookupScoreIsAliasSimilarity(table: seq<WebsiteEntry>, x: string)
    requires WellFormedTable(table)
    requires Lookup(table, x).Some?
    ensures exists k, a :: && 0 <= k < |table| && a in table[k].aliases && table[k].url == Lookup(table, x).value.url
                           && Similarity(x, a) == Lookup(table, x).value.score
  {
    match FirstAlias(table, x, 0)
    case Some(k) =>
      assert Similarity(x, x) == 1.0;
    case None =>
      var scores := TableScores(table, x);
      var k := FirstBest(scores, |scores|).value;
      TableScoresAt(table, x, k);
      HighScoreIsAlias(table[k], x);
      var a :| a in table[k].aliases && Similarity(x, a) == EntryScore(table[k], x);
      assert Similarity(x, a) == Lookup(table, x).value.score;
  }

  /**
   * Nothing resolves exactly when the phrase is no alias and every alias
   * similarity is at most the threshold; related terms play no part.
   */
  lemma LookupNoneIff(table: seq<WebsiteEntry>, x: string)
    requires WellFormedTable(table)
    ensures Lookup(table, x).None? <==>
      forall k, a :: 0 <= k < |table| && a in table[k].aliases ==> a != x && Similarity(x, a) <= MatchThreshold
  {
    if Lookup(table, x).None? {
      assert FirstAlias(table, x, 0).None?;
      assert FirstBest(TableScores(table, x), |table|).None?;
      forall k, a | 0 <= k < |table| && a in table[k].aliases
        ensures a != x && Similarity(x, a) <= MatchThreshold
      {
        BoundedByScore(table, x, k);
      }
    } else {
      LookupScoreIsAliasSimilarity(table, x);
    }
  }

  // ---------------------------------------------------------------------
  // Intents

  datatype Category = OpenWebsiteIntent | SearchIntent | BrowserActionIntent

  /** One entry of `intentPatterns`; `confidence` is in tenths and `action` is the optional fixed action. */
  datatype IntentPattern = IntentPattern(category: Category, regex: Pattern, confidence: nat, action: Option<string>)

  /** The terms of `w1\s+w2\s+...\s+wn`. */
  function Keywords(ws: seq<string>): (ts: seq<Term>)
    ensures forall k :: 0 <= k < |ts| ==> !ts[k].Group?
  {
    if ws == [] then []
    else if |ws| == 1 then Word(ws[0])
    else Word(ws[0]) + [Spaces] + Keywords(ws[1..])
  }

  /** The pattern `w1\s+...\s+wn\s+(.+)`, with no fixed action. */
  function Capturing(category: Category, ws: seq<string>, confidence: nat): (p: IntentPattern)
    ensures p.category == category && p.confidence == confidence && p.action.None?
    ensures AlwaysCaptures(p.regex) && CapturesNonEmpty(p.regex)
  {
    var ts := Keywords(ws) + [Spaces, Group(false)];
    assert ts[|ts| - 1].Group?;
    IntentPattern(category, Pattern([ts]), confidence, None)
  }

  /** A browser-action pattern without a capture group, with its fixed action. */
  function Fixed(alternatives: seq<seq<Term>>, action: string): (p: IntentPattern)
    requires forall b :: 0 <= b < |alternatives| ==> !HasGroup(alternatives[b])
    ensures p.category == BrowserActionIntent && p.confidence == 9 && p.action == Some(action)
    ensures NeverCaptures(p.regex)
  {
    IntentPattern(BrowserActionIntent, Pattern(alternatives), 9, Some(action))
  }

  /** `intentPatterns` flattened in declared order: openWebsite, then search, then browserAction. */
  const IntentPatterns: seq<IntentPattern> := [
    Capturing(OpenWebsiteIntent, ["open"], 9),
    Capturing(OpenWebsiteIntent, ["go", "to"], 8),
    Capturing(OpenWebsiteIntent, ["navigate", "to"], 7),
    Capturing(OpenWebsiteIntent, ["visit"], 7),
    Capturing(SearchIntent, ["search", "for"], 9),
    Capturing(SearchIntent, ["look", "up"], 8),
    Capturing(SearchIntent, ["find"], 7),
    Fixed([Keywords(["new", "tab"])], "new tab"),
    Fixed([Keywords(["close", "tab"])], "close tab"),
    Fixed([Word("refresh"), Word("reload")], "refresh"),
    Fixed([Keywords(["next", "tab"])], "next tab"),
    Fixed([Keywords(["previous", "tab"])], "previous tab")
  ]

  /** The five fixed browser actions. */
  const BrowserActions: set<string> := {"new tab", "close tab", "refresh", "next tab", "previous tab"}

  /**
   * What the table guarantees of each pattern: a confidence in (0, 1];
   * browser actions carry one of the five fixed actions and no capture
   * group; the other categories carry no action and always capture a
   * nonempty group 1.
   */
  predicate SoundPattern(p: IntentPattern) {
    && 0 < p.confidence <= 10
    && (p.category == BrowserActionIntent <==> p.action.Some?)
    && (p.action.Some? ==> p.action.value in BrowserActions && NeverCaptures(p.regex))
    && (p.action.None? ==> AlwaysCaptures(p.regex) && CapturesNonEmpty(p.regex))
  }

  predicate SoundPatterns(patterns: seq<IntentPattern>) {
    forall k :: 0 <= k < |patterns| ==> SoundPattern(patterns[k])
  }

  lemma IntentPatternsSound()
    ensures SoundPatterns(IntentPatterns)
  {
    assert SoundPattern(IntentPatterns[0]);
    assert SoundPattern(IntentPatterns[1]);
    assert SoundPattern(IntentPatterns[2]);
    assert SoundPattern(IntentPatterns[3]);
    assert SoundPattern(IntentPatterns[4]);
    assert SoundPattern(IntentPatterns[5]);
    assert SoundPattern(IntentPatterns[6]);
    assert SoundPattern(IntentPatterns[7]);
    assert SoundPattern(IntentPatterns[8]);
    assert SoundPattern(IntentPatterns[9]);
    assert SoundPattern(IntentPatterns[10]);
    assert SoundPattern(IntentPatterns[11]);
  }

  /** `command.match(patterns[k].regex)` succeeds. */
  predicate Matches(patterns: seq<IntentPattern>, k: nat, command: string)
    requires k < |patterns|
  {
    Exec(patterns[k].regex, command).Some?
  }

  /** The outcome of matching the command against each of the first `n` patterns. */
  function Results(patterns: seq<IntentPattern>, command: string, n: nat): (r: seq<Option<Match>>)
    requires n <= |patterns|
    ensures |r| == n
  {
    if n == 0 then [] else Results(patterns, command, n - 1) + [Exec(patterns[n - 1].regex, command)]
  }

  lemma {:induction false} ResultsAt(patterns: seq<IntentPattern>, command: string, n: nat, k: nat)
    requires k < n <= |patterns|
    ensures Results(patterns, command, n)[k] == Exec(patterns[k].regex, command)
  {
    if k < n - 1 {
      ResultsAt(patterns, command, n - 1, k);
    }
  }

  /**
   * What a match of a sound pattern guarantees: group 1 lies in the command;
   * it is present and nonempty for a pattern without a fixed action, and
   * absent for one with a fixed action.
   */
  predicate Fits(p: IntentPattern, command: string, m: Match) {
    && GroupWithin(command, 0, m)
    && (p.action.None? ==> m.group.Some? && m.group.value.start < m.group.value.end)
    && (p.action.Some? ==> m.group.None?)
  }

  lemma ExecFits(p: IntentPattern, command: string)
    requires SoundPattern(p) && Exec(p.regex, command).Some?
    ensures Fits(p, command, Exec(p.regex, command).value)
  {
  }

  /** `match[1] || pattern.action`: the capture unless it is missing or empty, else the fixed action. */
  function MatchText(p: IntentPattern, command: string, m: Match): Option<string>
    requires GroupWithin(command, 0, m)
  {
    var c := Captured(command, m);
    if c.Some? && c.value != "" then c else p.action
  }

  /** The intent record `determineIntent` builds; `text` is the code's `match` field. */
  datatype Intent = Intent(category: Category, confidence: nat, text: string, action: Option<string>)

  /**
   * The intent record of a match of pattern `p`. Its text is always
   * defined: group 1 (nonempty, in the case it has in the command) for the
   * open and search patterns, the fixed action for browser actions.
   */
  function IntentFrom(p: IntentPattern, command: string, m: Match): (r: Intent)
    requires SoundPattern(p) && Fits(p, command, m)
    ensures r.category == p.category && r.confidence == p.confidence && r.action == p.action
    ensures r.category == BrowserActionIntent ==> r.action == Some(r.text) && r.text in BrowserActions
    ensures r.category != BrowserActionIntent ==>
      && m.group.Some? && m.group.value.start < m.group.value.end <= |command|
      && r.text == command[m.group.value.start..m.group.value.end]
  {
    Intent(p.category, p.confidence, MatchText(p, command, m).value, p.action)
  }

  /** Among the first `n` results, the earliest match of the highest confidence. */
  function MostConfident(patterns: seq<IntentPattern>, results: seq<Option<Match>>, n: nat): (r: Option<nat>)
    requires |results| == |patterns| && n <= |patterns|
    ensures r.Some? ==> r.value < n && results[r.value].Some?
    ensures r.Some? ==> forall j :: 0 <= j < r.value && results[j].Some? ==>
                          patterns[j].confidence < patterns[r.value].confidence
    ensures r.Some? ==> forall j :: 0 <= j < n && results[j].Some? ==>
                          patterns[j].confidence <= patterns[r.value].confidence
    ensures r.None? <==> forall j :: 0 <= j < n ==> results[j].None?
  {
    if n == 0 then None
    else
      var b := MostConfident(patterns, results, n - 1);
      if results[n - 1].Some? && (b.None? || patterns[b.value].confidence < patterns[n - 1].confidence)
      then Some(n - 1)
      else b
  }

  /** The intent of the result at `k`, if that pattern matched. */
  function IntentOf(patterns: seq<IntentPattern>, command: string, k: Option<nat>): Option<Intent>
    requires SoundPatterns(patterns)
    requires k.Some? ==> k.value < |patterns|
  {
    match k
    case None => None
    case Some(j) =>
      match Exec(patterns[j].regex, command)
      case None => None
      case Some(m) =>
        ExecFits(patterns[j], command);
        Some(IntentFrom(patterns[j], command, m))
  }

  /** What `determineIntent(command)` returns. */
  function Classify(patterns: seq<IntentPattern>, command: string): Option<Intent>
    requires SoundPatterns(patterns)
  {
    var results := Results(patterns, command, |patterns|);
    IntentOf(patterns, command, MostConfident(patterns, results, |patterns|))
  }

  /** `determineIntent` yields nothing exactly when no pattern of any category matches. */
  lemma ClassifyNoneIff(patterns: seq<IntentPattern>, command: string)
    requires SoundPatterns(patterns)
    ensures Classify(patterns, command).None? <==> forall k :: 0 <= k < |patterns| ==> !Matches(patterns, k, command)
  {
    var results := Results(patterns, command, |patterns|);
    forall k | 0 <= k < |patterns|
      ensures results[k] == Exec(patterns[k].regex, command)
    {
      ResultsAt(patterns, command, |patterns|, k);
    }
    var b := MostConfident(patterns, results, |patterns|);
    if b.Some? {
      assert Matches(patterns, b.value, command);
    }
  }

  /**
   * Otherwise it yields the record of a matching pattern whose confidence no
   * matching pattern exceeds and that no earlier matching pattern equals.
   */
  lemma ClassifyIsFirstMaximal(patterns: seq<IntentPattern>, command: string)
    requires SoundPatterns(patterns) && Classify(patterns, command).Some?
    ensures exists k :: && 0 <= k < |patterns| && Matches(patterns, k, command)
                        && Fits(patterns[k], command, Exec(patterns[k].regex, command).value)
                        && Classify(patterns, command) ==
                             Some(IntentFrom(patterns[k], command, Exec(patterns[k].regex, command).value))
                        && (forall j :: 0 <= j < |patterns| && Matches(patterns, j, command) ==>
                              patterns[j].confidence <= patterns[k].confidence)
                        && (forall j :: 0 <= j < k && Matches(patterns, j, command) ==>
                              patterns[j].confidence < patterns[k].confidence)
  {
    var results := Results(patterns, command, |patterns|);
    forall k | 0 <= k < |patterns|
      ensures results[k] == Exec(patterns[k].regex, command)
    {
      ResultsAt(patterns, command, |patterns|, k);
    }
    var k := MostConfident(patterns, results, |patterns|).value;
    ExecFits(patterns[k], command);
  }

  /**
   * A pattern that matches, that no pattern of the table is more confident
   * than, and before which only less confident patterns match, is the one
   * picked.
   */
  lemma ClassifyFirstAtTop(patterns: seq<IntentPattern>, command: string, k: nat)
    requires SoundPatterns(patterns)
    requires k < |patterns| && Matches(patterns, k, command)
    requires forall j :: 0 <= j < |patterns| ==> patterns[j].confidence <= patterns[k].confidence
    requires forall j :: 0 <= j < k && Matches(patterns, j, command) ==> patterns[j].confidence < patterns[k].confidence
    ensures Fits(patterns[k], command, Exec(patterns[k].regex, command).value)
    ensures Classify(patterns, command) == Some(IntentFrom(patterns[k], command, Exec(patterns[k].regex, command).value))
  {
    var results := Results(patterns, command, |patterns|);
    forall j | 0 <= j < |patterns|
      ensures results[j] == Exec(patterns[j].regex, command)
    {
      ResultsAt(patterns, command, |patterns|, j);
    }
    assert results[k].Some?;
    ExecFits(patterns[k], command);
  }

  // ---------------------------------------------------------------------
  // Processing a command

  /** The action record `processCommand` returns. */
  datatype Action =
    | OpenWebsite(url: string, confidence: real)
    | Search(query: string)
    | BrowserAction(action: string)

  /** The class itself: its constructor installs the two tables and its methods only read them. */
  class IntentHandler {
    const websiteMappings: seq<WebsiteEntry>
    const intentPatterns: seq<IntentPattern>

    predicate Valid() {
      WellFormedTable(websiteMappings) && SoundPatterns(intentPatterns)
    }

    constructor()
      ensures websiteMappings == WebsiteMappings && intentPatterns == IntentPatterns
      ensures Valid()
    {
      websiteMappings := WebsiteMappings;
      intentPatterns := IntentPatterns;
      WebsiteMappingsWellFormed();
      IntentPatternsSound();
    }

    /** The `map` over terms: each term's similarity to `x`. */
    static method ScoreTerms(x: string, terms: seq<string>) returns (scores: seq<real>)
      requires "" !in terms
      ensures scores == Scores(x, terms)
    {
      scores := [];
      for i := 0 to |terms|
        invariant scores == Scores(x, terms[..i])
      {
        var s := CalculateSimilarity(x, terms[i]);
        assert terms[..i + 1] == terms[..i] + [terms[i]];
        ScoresSnoc(x, terms[..i], terms[i]);
        scores := scores + [s];
      }
      assert terms[..|terms|] == terms;
    }

    /** One iteration's `maxScore`: the maximum over the alias scores and the halved related-term scores. */
    static method ScoreEntry(x: string, website: WebsiteEntry) returns (maxScore: real)
      requires WellFormedEntry(website)
      ensures maxScore == EntryScore(website, x)
    {
      var aliasScores := ScoreTerms(x, website.aliases);
      var relatedScores := ScoreTerms(x, website.relatedTerms);
      maxScore := SeqMax(aliasScores + Halved(relatedScores));
    }

    /** `findBestWebsiteMatch`: normalise the input, then search the table for it. */
    method FindBestWebsiteMatch(input: string) returns (bestMatch: Option<WebsiteMatch>)
      requires Valid()
      ensures bestMatch == Resolve(websiteMappings, input)
    {
      var x := Normalize(input);
      bestMatch := SearchTable(x);
    }

    /** The loop of `findBestWebsiteMatch` over the entries, with its early return on an exact alias. */
    method SearchTable(x: string) returns (bestMatch: Option<WebsiteMatch>)
      requires Valid()
      ensures bestMatch == Lookup(websiteMappings, x)
    {
      var table := websiteMappings;
      bestMatch := None;
      var highestScore := 0.0;
      ghost var scores := TableScores(table, x);

      for k := 0 to |table|
        invariant forall j :: 0 <= j < k ==> x !in table[j].aliases
        invariant bestMatch == MatchAt(table, scores, FirstBest(scores, k))
        invariant highestScore == if bestMatch.Some? then bestMatch.value.score else 0.0
      {
        var website := table[k];
        if x in website.aliases {
          assert FirstAlias(table, x, 0) == Some(k);
          return Some(WebsiteMatch(website.url, 1.0));
        }
        var maxScore := ScoreEntry(x, website);
        TableScoresAt(table, x, k);
        if maxScore > highestScore && maxScore > MatchThreshold {
          highestScore := maxScore;
          bestMatch := Some(WebsiteMatch(website.url, maxScore));
        }
      }
      assert FirstAlias(table, x, 0).None?;
    }

    /** `determineIntent`: the loop over all patterns keeping the first strictly more confident match. */
    method DetermineIntent(command: string) returns (bestIntent: Option<Intent>)
      requires Valid()
      ensures bestIntent == Classify(intentPatterns, command)
    {
      var patterns := intentPatterns;
      bestIntent := None;
      var highestConfidence := 0;
      ghost var results := Results(patterns, command, |patterns|);

      for k := 0 to |patterns|
        invariant bestIntent == IntentOf(patterns, command, MostConfident(patterns, results, k))
        invariant highestConfidence == match MostConfident(patterns, results, k)
                                       case Some(j) => patterns[j].confidence
                                       case None => 0
      {
        var pattern := patterns[k];
        var m := Exec(pattern.regex, command);
        ResultsAt(patterns, command, |patterns|, k);
        if m.Some? {
          var confidence := pattern.confidence;
          if confidence > highestConfidence {
            highestConfidence := confidence;
            ExecFits(pattern, command);
            var text := MatchText(pattern, command, m.value);
            bestIntent := Some(Intent(pattern.category, confidence, text.value, pattern.action));
          }
        }
      }
    }

    /**
     * `processCommand`: always some action. No intent falls back to a search
     * for the whole command, an unresolved website to a search for the name
     * followed by " official website".
     */
    function ProcessCommand(command: string): (r: Action)
      requires Valid()
      ensures (forall k :: 0 <= k < |intentPatterns| ==> !Matches(intentPatterns, k, command)) ==> r == Search(command)
      ensures r.OpenWebsite? ==> MatchThreshold < r.confidence <= 1.0
      ensures r.OpenWebsite? ==> exists k :: 0 <= k < |websiteMappings| && websiteMappings[k].url == r.url
      ensures r.OpenWebsite? ==> exists k :: && 0 <= k < |intentPatterns| && Matches(intentPatterns, k, command)
                                             && intentPatterns[k].category == OpenWebsiteIntent
      ensures r.BrowserAction? ==> r.action in BrowserActions
    {
      ClassifyNoneIff(intentPatterns, command);
      match Classify(intentPatterns, command)
      case None => Search(command)
      case Some(intent) =>
        ClassifyIsFirstMaximal(intentPatterns, command);
        match intent.category
        case OpenWebsiteIntent =>
          (match Resolve(websiteMappings, intent.text)
           case Some(w) => OpenWebsite(w.url, w.score)
           case None => Search(intent.text + " official website"))
        case SearchIntent => Search(intent.text)
        case BrowserActionIntent => BrowserAction(intent.action.value)
    }
  }

  /**
   * What `processCommand` does with each classification: no intent searches
   * for the whole command; a search intent searches for its text; a browser
   * action performs it; an open intent opens the resolved website, or searches
   * for the name followed by " official website" when no website resolves.
   */
  lemma ProcessCommandCases(h: IntentHandler, command: string)
    requires h.Valid()
    ensures Classify(h.intentPatterns, command).None? ==> h.ProcessCommand(command) == Search(command)
    ensures forall i :: Classify(h.intentPatterns, command) == Some(i) ==>
      && (i.category == SearchIntent ==> h.ProcessCommand(command) == Search(i.text))
      && (i.category == BrowserActionIntent ==> h.ProcessCommand(command) == BrowserAction(i.text))
      && (i.category == OpenWebsiteIntent && Resolve(h.websiteMappings, i.text).Some? ==>
            h.ProcessCommand(command) ==
              OpenWebsite(Resolve(h.websiteMappings, i.text).value.url, Resolve(h.websiteMappings, i.text).value.score))
      && (i.category == OpenWebsiteIntent && Resolve(h.websiteMappings, i.text).None? ==>
            h.ProcessCommand(command) == Search(i.text + " official website"))
  {
  }
}
