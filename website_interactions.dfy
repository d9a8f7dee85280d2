/**
 * `WebsiteInteractionHandler.processWebsiteCommand` (websiteInteractions.js):
 * per-site voice actions. The hostname of the active tab selects a site
 * configuration by exact key; the first of the site's action patterns that
 * matches the command fires its handler with capture group 1 (or the empty
 * string). A handler types into the site's text box or clicks its button;
 * the model records that interaction as an event instead of performing it.
 */
module WebsiteInteractions {
  import opened Wrappers
  import opened Regex

  /** The interaction one action performs with the page. */
  datatype Handler =
    | TypeInto(selector: string) // `typeInElement(selector, text)`
    | ClickOn(selector: string)  // `clickElement(selector)`

  /** One entry of a site's `actions`: its name, its pattern and its handler. */
  datatype SiteAction = SiteAction(name: string, pattern: Pattern, handler: Handler)

  /**
   * One entry of `websiteConfigs`: the selector of the text box
   * (`searchBar` / `promptBox`), of the button (`searchButton` /
   * `sendButton`), and the actions in declared (and iteration) order.
   */
  datatype SiteConfig = SiteConfig(inputSelector: string, buttonSelector: string, actions: seq<SiteAction>)

  /** An interaction sent to the page's content script. */
  datatype Event =
    | Typed(selector: string, text: string)
    | Clicked(selector: string)

  /** `websiteConfigs`, keyed by hostname. */
  const WebsiteConfigs: map<string, SiteConfig> := map[
    "youtube.com" := SiteConfig("input#search", "button#search-icon-legacy", [
      SiteAction("type in search bar", Pattern([Word("type in search bar of youtube ") + [Group(true)]]),
        TypeInto("input#search")),
      SiteAction("search", Pattern([Word("now search")]), ClickOn("button#search-icon-legacy"))
    ]),
    "chat.openai.com" := SiteConfig("textarea[data-id=\"root\"]", "button[data-testid=\"send-button\"]", [
      SiteAction("type in prompt box", Pattern([Word("type in the prompt box of chatgpt ") + [Group(true)]]),
        TypeInto("textarea[data-id=\"root\"]")),
      SiteAction("search", Pattern([Word("search about it")]), ClickOn("button[data-testid=\"send-button\"]"))
    ]),
    "google.com" := SiteConfig("input[name=\"q\"]", "input[name=\"btnK\"]", [
      SiteAction("type in search bar", Pattern([Word("type in search bar ") + [Group(true)]]),
        TypeInto("input[name=\"q\"]")),
      SiteAction("search", Pattern([Word("now search")]), ClickOn("input[name=\"btnK\"]"))
    ])
  ]

  /** Every handler of the site types into the site's text box or clicks the site's button. */
  predicate UsesOwnSelectors(c: SiteConfig) {
    forall k :: 0 <= k < |c.actions| ==>
      match c.actions[k].handler
      case TypeInto(s) => s == c.inputSelector
      case ClickOn(s) => s == c.buttonSelector
  }

  predicate WellFormedConfigs(configs: map<string, SiteConfig>) {
    forall d :: d in configs ==> UsesOwnSelectors(configs[d])
  }

  lemma WebsiteConfigsWellFormed()
    ensures WellFormedConfigs(WebsiteConfigs)
  {
    assert UsesOwnSelectors(WebsiteConfigs["youtube.com"]);
    assert UsesOwnSelectors(WebsiteConfigs["chat.openai.com"]);
    assert UsesOwnSelectors(WebsiteConfigs["google.com"]);
  }

  /** `command.match(actions[k].pattern)` succeeds. */
  predicate Fires(actions: seq<SiteAction>, k: nat, command: string)
    requires k < |actions|
  {
    Exec(actions[k].pattern, command).Some?
  }

  /** The loop over the actions from index `k` on: the first whose pattern matches. */
  function FirstFiring(actions: seq<SiteAction>, command: string, k: nat): (r: Option<nat>)
    requires k <= |actions|
    decreases |actions| - k
    ensures r.Some? ==> k <= r.value < |actions| && Fires(actions, r.value, command)
    ensures r.Some? ==> forall j :: k <= j < r.value ==> !Fires(actions, j, command)
    ensures r.None? <==> forall j :: k <= j < |actions| ==> !Fires(actions, j, command)
  {
    if k == |actions| then None
    else if Fires(actions, k, command) then Some(k)
    else FirstFiring(actions, command, k + 1)
  }

  /** What a handler does when called with `text` (the button handlers ignore it). */
  function Perform(h: Handler, text: string): Event {
    match h
    case TypeInto(s) => Typed(s, text)
    case ClickOn(s) => Clicked(s)
  }

  /** `match[1] || ''`. */
  function HandlerArgument(command: string, m: Match): string
    requires GroupWithin(command, 0, m)
  {
    Captured(command, m).GetOr("")
  }

  /**
   * `processWebsiteCommand(command)` on a tab whose hostname is `domain`:
   * `None` stands for returning `false` with no handler called, `Some(e)`
   * for returning `true` after the one handler call that performed `e`.
   */
  function ProcessWebsiteCommand(configs: map<string, SiteConfig>, domain: string, command: string): (r: Option<Event>)
    ensures domain !in configs ==> r.None?
    ensures r.Some? <==> domain in configs &&
                         exists k :: 0 <= k < |configs[domain].actions| && Fires(configs[domain].actions, k, command)
  {
    if domain !in configs then None
    else
      var actions := configs[domain].actions;
      match FirstFiring(actions, command, 0)
      case None => None
      case Some(k) =>
        var m := Exec(actions[k].pattern, command).value;
        Some(Perform(actions[k].handler, HandlerArgument(command, m)))
  }

  /**
   * A handled command fired the first action, in declared order, whose
   * pattern matches, and passed it group 1 or the empty string.
   */
  lemma ProcessWebsiteCommandFirstAction(configs: map<string, SiteConfig>, domain: string, command: string, k: nat)
    requires domain in configs
    requires k < |configs[domain].actions| && Fires(configs[domain].actions, k, command)
    requires forall j :: 0 <= j < k ==> !Fires(configs[domain].actions, j, command)
    ensures var a := configs[domain].actions[k];
            ProcessWebsiteCommand(configs, domain, command) ==
              Some(Perform(a.handler, HandlerArgument(command, Exec(a.pattern, command).value)))
  {
    var f := FirstFiring(configs[domain].actions, command, 0);
    assert f.Some?;
    assert f.value == k;
  }

  /**
   * Every interaction goes to the site's own fixed selector: typing into
   * its text box with the captured text (group 1, or empty), clicking its
   * button.
   */
  lemma ProcessWebsiteCommandSelectors(configs: map<string, SiteConfig>, domain: string, command: string)
    requires WellFormedConfigs(configs)
    requires ProcessWebsiteCommand(configs, domain, command).Some?
    ensures var e := ProcessWebsiteCommand(configs, domain, command).value;
      && (e.Typed? ==>
            && e.selector == configs[domain].inputSelector
            && exists k :: && 0 <= k < |configs[domain].actions| && Fires(configs[domain].actions, k, command)
                           && e.text == HandlerArgument(command, Exec(configs[domain].actions[k].pattern, command).value))
      && (e.Clicked? ==> e.selector == configs[domain].buttonSelector)
  {
    var actions := configs[domain].actions;
    var k := FirstFiring(actions, command, 0).value;
    assert UsesOwnSelectors(configs[domain]);
    assert match actions[k].handler
           case TypeInto(s) => s == configs[domain].inputSelector
           case ClickOn(s) => s == configs[domain].buttonSelector;
  }
}
