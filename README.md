# HeyKutty voice-command interpreter, modelled in Dafny

HeyKutty is a browser extension that turns spoken commands into browser
actions. This project models its command-interpretation core and proves
properties of it:

- **Intent engine** (`intentHandler.js`, class `IntentHandler`):
  - a normalised Levenshtein similarity computed with a dynamic-programming
    table;
  - fuzzy resolution of a website name against a static table of aliases and
    related terms;
  - classification of a command by the most confident matching regular
    expression;
  - the action record built from the classification, which always falls back
    to a search.
- **Per-site dispatch** (`websiteInteractions.js`,
  `processWebsiteCommand`): an exact hostname lookup, then the first matching
  action pattern fires its handler with the captured text.
- **Wake-word listener** (`popup.js`): the flags `listening` and
  `wakeWordDetected` and the pending reset timeout, updated by the speech
  recogniser's callbacks and the start button.
- **Background router** (`background.js`): a `voice-command` message opens
  YouTube or ChatGPT depending on the phrase it contains.

## Files and modules

| file | module | contents |
|---|---|---|
| `wrappers.dfy` | `Wrappers` | `Option`, standing in for `null` results |
| `text.dfy` | `Text` | the JavaScript string operations used: `toLowerCase`, `trim`, `includes`/`indexOf`, `split(sep)[1]` |
| `regex.dfy` | `Regex` | a backtracking matcher for the regular-expression shapes the tables use |
| `levenshtein.dfy` | `Levenshtein` | the edit-distance recurrence, `Similarity`, and the DP method `CalculateSimilarity` |
| `intent_handler.dfy` | `Intents` | the two tables, resolution, classification and `ProcessCommand`; class `IntentHandler` |
| `website_interactions.dfy` | `WebsiteInteractions` | `websiteConfigs` and `processWebsiteCommand` |
| `popup.dfy` | `Popup` | the listener's transition functions and class `WakeWordListener` |
| `background.dfy` | `Background` | the message router |
| `intent_scenarios.dfy` | `IntentScenarios` | concrete commands run through classification and `processCommand` |
| `site_scenarios.dfy` | `SiteScenarios` | concrete commands run through `processWebsiteCommand` |
| `popup_scenarios.dfy` | `PopupScenarios` | concrete speech results run through the listener |

## Design

The model follows each file's own form:

- Loops become methods with loops, proved equal to recursive specification
  functions:
  - the DP table (`Levenshtein.CalculateSimilarity` over an `array2`);
  - the website search (`Intents.IntentHandler.SearchTable`);
  - the pattern scan (`Intents.IntentHandler.DetermineIntent`);
  - the `map` over aliases (`Intents.IntentHandler.ScoreTerms`).
- The properties are lemmas about those functions.
- The pure parts are functions: `processCommand`, `processWebsiteCommand`,
  and the background router.
- The popup's mutable module-level flags are fields of a class. Each callback
  is a method. Its new state is given by a pure transition function on a
  `ListenerState` value, and the invariant and the listener's behaviour are
  proved about those functions.

Resolution and classification are written for any table that meets the
well-formedness the real tables have:

- every entry has an alias, and no term is empty;
- every pattern has a confidence, and consistent capture and action shapes.

Lemmas prove that the literal tables meet it (`WebsiteMappingsWellFormed`,
`IntentPatternsSound`, `WebsiteConfigsWellFormed`).

Representation choices:

- Similarity scores are exact `real`s, not doubles.
- Intent confidences are integer tenths: 9 stands for 0.9.
- Object iteration order is declaration order, which is the order JavaScript
  uses for these string keys.
- The three intent categories are flattened into one sequence:
  openWebsite, then search, then browserAction.

The regular expressions are modelled for the shapes that occur:

- literal characters under the `i` flag;
- `\s+`;
- one capture group `(.+)` or `(.*)` at the end;
- a top-level `|`.

Matching follows `String.prototype.match` without the `g` flag:

- the leftmost start position wins;
- alternatives are tried left to right;
- quantifiers are greedy and backtrack;
- the capture keeps the case it has in the subject.

In `intentHandler.js` the code's `try`/`catch` can only catch a failure of
`intent.match` or of the table lookups. The model shows none of them can
happen: `IntentFrom` always has text, and `ProcessCommand` is total under
`Valid()`. So the `catch` branch and the `default:` branch of the `switch`
are unreachable and are not modelled.

On top of the general properties, three scenario modules work out what the
system does with particular commands:

- "open youtube" opens `https://www.youtube.com` with score 1.0;
- "open new tab" classifies as opening the website "new tab", because the
  `open` pattern reaches 0.9 first and the browser action only ties;
- "new tab" is the browser action;
- "search for cats" searches for "cats";
- a command with no keyword, such as "hmm", searches for itself;
- on `youtube.com`, "type in search bar of youtube cats" types "cats" into
  `input#search`;
- `www.youtube.com` is no key of the site table, so nothing is handled there;
- the speech results "Hey Kutty " and "open YouTube" make one event that
  both detects the wake word and dispatches "open youtube".

## Model

| member | source | states |
|---|---|---|
| Levenshtein.CalculateSimilarity | intentHandler.js:63-87 | the DP table's result is exactly `Similarity(str1, str2)`: one minus the edit distance over the longer length |
| Levenshtein.FillRow | intentHandler.js:72-82 | the inner loop fills row `i` with the edit distances of the prefixes from row `i - 1`, leaving every other row unchanged |
| Levenshtein.Similarity | intentHandler.js:85-86 | for strings that are not both empty the similarity lies in [0, 1] and is 1 exactly when the strings are equal |
| Levenshtein.SimilaritySymmetric | intentHandler.js:63-87 | similarity does not depend on the order of its arguments |
| Levenshtein.DistanceSymmetric | intentHandler.js:71-83 | the table's recurrence gives the same distance with the strings swapped |
| Levenshtein.DistanceAtMostLonger | intentHandler.js:68-83 | the distance never exceeds the longer prefix length, which keeps the similarity non-negative |
| Levenshtein.DistanceAtLeastLengthGap | intentHandler.js:68-83 | the distance is at least the difference of the lengths |
| Levenshtein.DistanceZeroIff | intentHandler.js:73-74 | the distance is zero exactly when the prefixes are equal |
| Levenshtein.SimilarityAtMostLengthGap | intentHandler.js:68-86 | the similarity is at most one minus the length difference over the longer length |
| Text.ToLower | intentHandler.js:95 | lower-casing keeps the length and maps each character on its own |
| Text.ToLowerAppend | popup.js:37-39 | lower-casing distributes over concatenation |
| Text.Trim | intentHandler.js:95 | `trim()` keeps the infix without leading or trailing white space; only white space is dropped; the result is empty only for all-white-space input |
| Text.TrimIdempotent | intentHandler.js:95 | trimming twice is trimming once |
| Text.IndexOf | popup.js:60 | `indexOf` returns the first occurrence at or after `from`, or none when there is no occurrence |
| Text.ContainsIff | popup.js:42 | `includes` holds exactly when the word occurs somewhere |
| Text.TrimmedInfix | popup.js:60 | a trimmed text occurs in the text it was trimmed from and contains no word that text lacks |
| Text.SecondSplitPiece | popup.js:60 | `split(sep)[1]` is the text from the end of the first separator up to a following separator or the end, and contains no separator |
| Text.SecondSplitPieceEndsAtFirst | popup.js:60 | no separator starts inside the piece, so it ends at the first separator after the first one, even when the separator overlaps itself |
| Regex.MatchFrom | intentHandler.js:36-56 | matching a sequence of terms: the capture lies in the subject; it is present when the terms contain a group, absent when they do not, and nonempty for `(.+)` |
| Regex.Backtrack | intentHandler.js:36-56 | the greedy repetition of `\s+`, `(.+)` or `(.*)` backtracking one character at a time keeps the same capture guarantees |
| Regex.Exec | intentHandler.js:129 | `command.match(regex)`: the leftmost match; group 1 is present for patterns that always capture, nonempty for `(.+)`, absent for patterns without a group |
| Regex.Captured | intentHandler.js:137 | `match[1]` is the captured slice of the subject, present exactly when the group took part |
| Intents.WebsiteMappingsWellFormed | intentHandler.js:5-31 | every entry of the literal website table has an alias and no empty term |
| Intents.Scores | intentHandler.js:104-106 | the `map` over aliases gives the similarity of the input to each alias, in order |
| Intents.Halved | intentHandler.js:107-109 | related terms count at half their similarity |
| Intents.SeqMaxIsMax | intentHandler.js:111 | `Math.max(...)` is an element of the list that no element exceeds |
| Intents.EntryScoreIsMax | intentHandler.js:104-111 | an entry's score is at least every alias similarity and every halved related-term similarity, and equals one of them |
| Intents.FirstAlias | intentHandler.js:97-101 | the early return picks the first entry, in table order, that has the input among its aliases, and none exists exactly when no entry has it |
| Intents.TableScoresAt | intentHandler.js:97-117 | the score list holds each entry's score at that entry's index |
| Intents.FirstBest | intentHandler.js:113-116 | the loop's `maxScore > highestScore && maxScore > 0.6` keeps the earliest highest score above the threshold, or nothing exactly when no score exceeds 0.6 |
| Intents.Lookup | intentHandler.js:97-119 | a resolved match has a score in (0.6, 1] and the url of a table entry |
| Intents.ScoreAtMostOne | intentHandler.js:104-111 | no entry scores above 1 |
| Intents.RelatedTermBelowThreshold | intentHandler.js:107-113 | a halved related-term score is below 0.6, so related terms alone never produce a match |
| Intents.HighScoreIsAlias | intentHandler.js:104-113 | a score above the threshold is the similarity of one of the entry's aliases |
| Intents.LookupExactAlias | intentHandler.js:95-100 | an input equal to an alias returns the url of the first entry having it, with score 1.0 |
| Intents.LookupFuzzyIsBest | intentHandler.js:104-119 | without an exact alias, a match scores above 0.6 and at least every alias and halved related-term similarity of every entry, and is the earliest entry with that score |
| Intents.LookupScoreIsAliasSimilarity | intentHandler.js:97-119 | every match's score is the similarity of the input to one of its own entry's aliases |
| Intents.LookupNoneIff | intentHandler.js:113-119 | null is returned exactly when the input is no alias and every alias similarity is at most 0.6 |
| Intents.Keywords | intentHandler.js:36-56 | the keyword part of a pattern contains no capture group |
| Intents.Capturing | intentHandler.js:36-48 | the open and search patterns always capture a nonempty group 1 and carry no action |
| Intents.Fixed | intentHandler.js:52-56 | the browser-action patterns carry their fixed action, confidence 0.9, and never capture |
| Intents.IntentPatternsSound | intentHandler.js:34-58 | every literal pattern has a confidence in (0, 1], each browser action carries one of the five fixed actions and no group, and every other pattern always captures |
| Intents.ResultsAt | intentHandler.js:127-129 | the list of match results holds each pattern's match at that pattern's index |
| Intents.ExecFits | intentHandler.js:129-137 | a match of a sound pattern has group 1 inside the command, nonempty for open and search patterns and absent for browser actions |
| Intents.IntentFrom | intentHandler.js:134-139 | the intent record's text is group 1 (nonempty, in its original case) for open and search patterns, and the fixed action for browser actions |
| Intents.MostConfident | intentHandler.js:127-142 | `confidence > highestConfidence` keeps the earliest match of the highest confidence, and nothing exactly when no pattern matched |
| Intents.ClassifyNoneIff | intentHandler.js:123-146 | `determineIntent` returns null exactly when no pattern of any category matches |
| Intents.ClassifyIsFirstMaximal | intentHandler.js:123-146 | otherwise it returns the intent of a matching pattern whose confidence no matching pattern exceeds and no earlier matching pattern reaches |
| Intents.IntentHandler.constructor | intentHandler.js:3-58 | the handler holds the literal tables, which are well-formed |
| Intents.IntentHandler.ScoreTerms | intentHandler.js:104-109 | the loop computing each term's similarity yields exactly the scores list |
| Intents.IntentHandler.ScoreEntry | intentHandler.js:104-111 | one iteration's `maxScore` equals the entry's score |
| Intents.IntentHandler.FindBestWebsiteMatch | intentHandler.js:90-120 | `findBestWebsiteMatch` returns exactly the lookup of the lower-cased, trimmed input |
| Intents.IntentHandler.SearchTable | intentHandler.js:97-119 | the loop with its early return on an alias returns exactly `Lookup` of the table |
| Intents.IntentHandler.DetermineIntent | intentHandler.js:123-146 | the loop over all patterns returns exactly the classification: the intent of the first most confident match |
| Intents.IntentHandler.ProcessCommand | intentHandler.js:149-204 | no matching pattern gives a search for the whole command; an opened website has a score in (0.6, 1], a table url and a matching open pattern; a browser action is one of the five fixed actions |
| Intents.ProcessCommandCases | intentHandler.js:149-189 | no intent gives a search for the whole command; a search intent gives a search for its text; a browser action gives that action; an open intent gives the resolved website's url and score, or a search for the name plus " official website" when none resolves |
| WebsiteInteractions.WebsiteConfigsWellFormed | websiteInteractions.js:5-60 | every handler of a site types into that site's text box or clicks that site's button |
| WebsiteInteractions.FirstFiring | websiteInteractions.js:109-115 | the loop picks the first action, in declared order, whose pattern matches, and none exactly when no pattern matches |
| WebsiteInteractions.ProcessWebsiteCommand | websiteInteractions.js:99-118 | a hostname that is not exactly a key is not handled; a command is handled exactly when some action pattern of its site matches |
| WebsiteInteractions.ProcessWebsiteCommandFirstAction | websiteInteractions.js:109-114 | a handled command fires exactly one handler, that of the first matching action, with group 1 or the empty string |
| WebsiteInteractions.ProcessWebsiteCommandSelectors | websiteInteractions.js:10-57 | typing goes to the site's own text box with the captured text; clicking goes to the site's own button |
| Popup.TranscriptIsLoweredJoin | popup.js:37-39 | the transcript is the lower-cased concatenation, with no separator, of each result's first alternative |
| Popup.ExtractCommandShape | popup.js:60 | the extracted command occurs in the transcript, contains no wake word, and has no white space at either end |
| Popup.HandleCommand | popup.js:81-90 | `handleCommand` opens the YouTube url exactly when the command contains "open youtube" |
| Popup.DispatchIff | popup.js:42-66 | a result event hands over a command exactly when the transcript holds the wake word and a nonempty command after it, whatever the prior state, so one event can both arm detection and dispatch |
| Popup.DetectionAfterResult | popup.js:42-66 | detection is on after a result exactly when it was on or the wake word was heard and nothing was dispatched; a dispatch switches it off |
| Popup.ResetAfterResult | popup.js:46-55 | a reset is scheduled 5000 ms after the event exactly when detection switches on, replacing a pending one; otherwise the pending reset and `listening` are untouched |
| Popup.TimeoutResets | popup.js:52-55 | a due reset switches detection off and changes nothing else |
| Popup.ToggleFlips | popup.js:92-101 | the button flips `listening`, and starting also switches detection off |
| Popup.ConsistentPreserved | popup.js:42-101 | every event keeps detection covered by a pending reset |
| Popup.DetectionExpires | popup.js:46-55 | while the invariant holds, a detected wake word always has a reset pending, and that reset switches detection off once due |
| Popup.WakeWordListener.constructor | popup.js:3-6 | the listener starts not listening, not detected, with no reset pending |
| Popup.WakeWordListener.OnStart | popup.js:20-24 | `onstart` sets `listening` and nothing else |
| Popup.WakeWordListener.OnResult | popup.js:36-67 | `onresult` updates the flags and the reset as `AfterResult` says, returns the dispatched command, and opens the tab `handleCommand` opens |
| Popup.WakeWordListener.OnTimeout | popup.js:52-55 | the timeout callback updates the state as `AfterTimeout` says; a detection that survives it has a reset still pending in the future |
| Popup.WakeWordListener.Toggle | popup.js:92-101 | the click handler updates the state as `AfterToggle` says and starts the recogniser exactly when it was not listening |
| Popup.WakeWordListener.OnEnd | popup.js:26-33 | `onend` restarts the recogniser exactly while listening |
| Text.ToLowerUnchanged | intentHandler.js:95 | lower-casing leaves a string unchanged exactly when it has no upper-case ASCII letter |
| Text.TrimUnchanged | intentHandler.js:95 | trimming leaves a string unchanged exactly when it is empty or neither starts nor ends with white space |
| Regex.MatchWord | intentHandler.js:36-56 | a literal word under the `i` flag matches at an index exactly when the subject has it there letter by letter up to ASCII case, and matching goes on right after it |
| Regex.ExecFromLeftmost | intentHandler.js:129 | the search from a position returns the match at the first later position where some alternative matches |
| Regex.ExecLeftmost | intentHandler.js:129 | `match` returns the match of the first matching alternative at the leftmost position where any alternative matches |
| Regex.ExecAtStart | intentHandler.js:129 | when the first alternative matches at index 0, that is the match |
| Regex.ExecNone | intentHandler.js:129 | when no alternative matches at any index, there is no match |
| Regex.ExecFirstLetterAbsent | intentHandler.js:129 | a pattern whose every alternative starts with a letter the subject lacks does not match |
| Intents.ClassifyFirstAtTop | intentHandler.js:127-146 | a matching pattern of the top confidence with no earlier match of that confidence is the one `determineIntent` returns |
| IntentScenarios.OpenCommandIntent | intentHandler.js:123-139 | "open " followed by text that starts with no white space and has no line break is an openWebsite intent of confidence 0.9 for exactly that text |
| IntentScenarios.OpenNewTabIntent | intentHandler.js:123-146 | "open new tab" is an openWebsite intent for "new tab": the tied browser action does not beat the earlier `open` pattern |
| IntentScenarios.OpenAliasOpensWebsite | intentHandler.js:149-172 | "open " followed by a lower-case alias opens the url of the first entry having that alias, with score 1.0 |
| IntentScenarios.OpenYouTubeOpensYouTube | intentHandler.js:149-172 | "open youtube" opens `https://www.youtube.com` with score 1.0 |
| IntentScenarios.NoKeywordSearchesCommand | intentHandler.js:155-160 | a command containing none of the letters that start the pattern keywords matches no pattern and is searched as it is |
| IntentScenarios.HmmIsSearched | intentHandler.js:155-160 | "hmm" is searched as it is |
| IntentScenarios.NewTabIsBrowserAction | intentHandler.js:149-189 | "new tab" is the browser action "new tab", with confidence 0.9 and no capture |
| IntentScenarios.SearchCommandIntent | intentHandler.js:123-139 | when the `open` pattern does not match, "search for " followed by text with no leading white space and no line break is a search intent of confidence 0.9 for exactly that text |
| IntentScenarios.SearchForCats | intentHandler.js:180-184 | "search for cats" searches for "cats" |
| SiteScenarios.OnlyExactHostnames | websiteInteractions.js:102-106 | the hostname `www.youtube.com` is not a key of the site table, so no command is handled there |
| SiteScenarios.YouTubeTypesRest | websiteInteractions.js:105-113 | on `youtube.com` a command starting with "type in search bar of youtube " types the rest of the command into `input#search` |
| SiteScenarios.YouTubeCats | websiteInteractions.js:10-15 | on `youtube.com`, "type in search bar of youtube cats" types "cats" into `input#search` |
| SiteScenarios.GoogleNowSearchClicks | websiteInteractions.js:45-57 | on `google.com`, "now search" skips the typing action and clicks `input[name="btnK"]` |
| PopupScenarios.CommandAfterWakeWord | popup.js:59-60 | a transcript that is the wake word followed by text holding no second wake word yields that text, trimmed, as the command |
| PopupScenarios.HeyKuttyOpenYouTube | popup.js:59-60 | "hey kutty open youtube" yields the command "open youtube" |
| PopupScenarios.WakeWordAndCommandTogether | popup.js:42-66 | from listening with nothing detected, "hey kutty open youtube" arms the 5000 ms reset, dispatches "open youtube" and switches detection off; that command opens YouTube |
| PopupScenarios.NoWakeWordNoChange | popup.js:42-66 | with nothing detected, a transcript without the wake word changes nothing and dispatches nothing |
| PopupScenarios.MixedCaseResults | popup.js:37-39 | the results "Hey Kutty " and "open YouTube" join into the transcript "hey kutty open youtube" |
| PopupScenarios.SayHeyKuttyOpenYouTube | popup.js:36-67 | a new listener, started, given those results dispatches "open youtube", opens YouTube, and restarts when the recogniser ends |
| Background.RouteMessage | background.js:1-13 | only `voice-command` messages create a tab; "open youtube" wins over "open chatgpt"; at most one tab, with one of the two urls; no tab when neither phrase occurs |
| Background.YouTubeFirst | background.js:5-8 | a command containing both phrases opens only YouTube |
| Background.CaseSensitive | background.js:5-7 | the substring test is case-sensitive: "Open YouTube" opens nothing |
| Background.PhraseAnywhere | background.js:7-8 | the phrase is found anywhere in the command |

## Left out

- `chrome.*` calls are recorded, not performed: `tabs.query`, `tabs.create`,
  `tabs.sendMessage`, `scripting.executeScript`, and `injectContentScript`
  (websiteInteractions.js:64-96). They are foreign asynchronous I/O.
  - A tab that would be created is returned as its url.
  - A handler call is returned as a `Typed`/`Clicked` event.
  - The active tab's hostname is a parameter, because parsing
    `new URL(tab.url)` is host API.
- WebsiteInteractions.ProcessWebsiteCommand: two failures are not
  modelled.
  - The site table is looked up as a plain JavaScript object
    (websiteInteractions.js:105). So an inherited key such as the hostname
    `constructor` or `__proto__` finds a truthy value that has no `actions`,
    and `Object.entries` throws a `TypeError` at line 109. The model treats
    every hostname that is not one of the three keys as not handled.
  - A handler awaits `chrome.tabs.sendMessage` (websiteInteractions.js:80-95),
    which rejects when the tab has no listener. `processWebsiteCommand` then
    rejects at line 112 instead of returning `true`. The model treats the
    handler's page interaction as always succeeding.
- `contentScript.js` is not part of this model: it is DOM manipulation only.
- The speech recogniser is outside the model. This covers its construction
  and settings, the `onerror` restart, and every write to the status text and
  the button (popup.js:8-19, 22-23, 31-32, 44, 54, 62, 69-79). A result event is given as the list of
  each result's first alternative.
- Real time is not modelled. `setTimeout`/`clearTimeout` become the deadline
  of the one pending reset (the clock reading when detection switches on,
  plus 5000 ms), and its firing becomes the `OnTimeout` event.
- `console.log`/`console.error` and the `async`/`await` sequencing are left
  out. Neither changes any value the model computes.
- IEEE floating point: scores are exact reals and confidences are integer
  tenths. The comparisons the code makes (`> 0.6`, `> highestScore`,
  `> highestConfidence`) are the same on these values.
- `toLowerCase` and the regular expressions' case folding are modelled for
  ASCII letters only.
- Strings are sequences of Unicode scalar values, not UTF-16 code units.
  They agree outside the astral planes.
- Regular expressions: only the constructs the tables use are modelled
  (literal characters, `\s+`, a final `(.+)`/`(.*)` group, a top-level `|`).
  Full ECMAScript regular-expression semantics are not.
- Levenshtein.Similarity: requires that the two strings are not both
  empty. The code divides 0 by 0 there and yields `NaN`. Every call passes a
  nonempty alias or related term as the second string.
- Intents.Lookup: exact-alias matches take the first entry having the alias,
  as the loop does. The model does not assume aliases are unique across
  entries.
- Intents.IntentHandler.ProcessCommand: the `catch` and `default:`
  branches are not modelled, because `Valid()` makes them unreachable (see
  Design).
