/** The bot (internal/bot/handler.go, update_handler.go): what a message or a button press does
    to the subscriptions and preferences, for updates handled one after another. */
module Bot {

  import opened Wrappers
  import opened Storage
  import Decimal
  import Events
  import I18n
  import Menu
  import Text

  /** `zones` tells the zones of the time zone database. */
  datatype Config = Config(
    allowedUserID: string,
    defaultLocale: string,
    defaultTimezone: string,
    bundle: I18n.Bundle,
    zones: string -> bool)

  // ---- Commands ----

  function ParseCommand(text: string): string {
    if !("/" <= text) then ""
    else
      var fields := Text.Fields(text);
      if |fields| == 0 || |fields[0]| == 0 then ""
      else
        var command := if "/" <= fields[0] then fields[0][1..] else fields[0];
        I18n.Lower(Text.Trim(command[..Text.IndexOf(command, '@')]))
  }

  function CommandArg(text: string): string {
    var fields := Text.Fields(text);
    if |fields| < 2 then "" else Text.Trim(fields[1])
  }

  function CommandOnlyArg(command: string, text: string): string {
    if command == "" then "" else CommandArg(text)
  }

  predicate CommandWord(s: string) {
    |s| > 0 && forall i :: 0 <= i < |s| ==> 'a' <= s[i] <= 'z'
  }

  lemma LowerWord(s: string)
    requires forall i :: 0 <= i < |s| ==> !('A' <= s[i] <= 'Z')
    ensures I18n.Lower(s) == s
  {
  }

  /** A command with an argument is taken apart into just these. */
  lemma CommandsParse(command: string, arg: string)
    requires CommandWord(command) && |arg| > 0 && Text.NoSpace(arg)
    ensures ParseCommand("/" + command + (" " + arg)) == command
    ensures CommandOnlyArg(command, "/" + command + (" " + arg)) == arg
  {
    var word := "/" + command;
    assert Text.NoSpace(word) && Text.NoSpace(command);
    Text.FieldsOfTwo(word, arg);
    assert word[1..] == command;
    Text.IndexOfIs(command, '@', |command|);
    assert command[..|command|] == command;
    Text.TrimNoSpace(command);
    LowerWord(command);
    Text.TrimNoSpace(arg);
  }

  // ---- Locales and time zones ----

  predicate IsCode(s: string) {
    exists i :: 0 <= i < |Menu.SUPPORTED_LOCALES| && Menu.SUPPORTED_LOCALES[i].code == s
  }

  predicate IsSupportedLocale(locale: string) {
    IsCode(I18n.NormalizeLocale(locale))
  }

  predicate IsValidTimezone(config: Config, timezone: string) {
    Text.Trim(timezone) != "" && config.zones(timezone)
  }

  function FallbackLocale(config: Config): string {
    I18n.Resolve(config.bundle, config.defaultLocale)
  }

  function InitialLocale(config: Config, languageCode: string): string {
    var locale := I18n.NormalizeLocale(languageCode);
    if IsSupportedLocale(locale) then locale else FallbackLocale(config)
  }

  // ---- Actions ----

  /** What an update asks for, once decoded and checked. */
  datatype Action =
    | NoChange
    | SubscribeEvery
    | SubscribeTo(eventType: string)
    | UnsubscribeEvery
    | UnsubscribeFrom(eventType: string)
    | SetLocale(locale: string)
    | SetTimezone(timezone: string)
    | SetShort(short: bool)

  function SubscribeAction(eventType: string): Action {
    if Events.IsSupported(eventType) then SubscribeTo(eventType) else NoChange
  }

  function LocaleAction(locale: string): Action {
    if IsSupportedLocale(I18n.NormalizeLocale(locale)) then SetLocale(I18n.NormalizeLocale(locale)) else NoChange
  }

  function TimezoneAction(config: Config, timezone: string): Action {
    if IsValidTimezone(config, timezone) then SetTimezone(timezone) else NoChange
  }

  predicate IsMenuText(text: string, values: seq<string>) {
    text in values
  }

  const SUBSCRIBE_ALL := ["➕ Subscribe all", "Subscribe all"]
  const SUBSCRIBE := ["➕ Subscribe", "Subscribe"]
  const UNSUBSCRIBE_ALL := ["➖ Unsubscribe all", "Unsubscribe all"]
  const UNSUBSCRIBE := ["➖ Unsubscribe", "Unsubscribe"]

  function PreferenceAction(config: Config, command: string, arg: string): (r: Action)
    ensures r.NoChange? || r.SetLocale? || r.SetTimezone? || r.SetShort?
  {
    if arg == "" then NoChange
    else if command == "lang" then LocaleAction(arg)
    else if command == "timezone" then TimezoneAction(config, arg)
    else if command == "short" then SetShort(arg == "on" || arg == "true" || arg == "1" || arg == "yes")
    else NoChange
  }

  /** What a text is, for the switch of HandleMessage: a command or the caption of a menu button. */
  datatype Intent = Subscribing(all: bool) | Unsubscribing(all: bool) | Preferring(command: string)

  function IntentOf(text: string): Intent {
    var command := ParseCommand(text);
    if command == "subscribe" || IsMenuText(text, SUBSCRIBE) || IsMenuText(text, SUBSCRIBE_ALL) then
      Subscribing(IsMenuText(text, SUBSCRIBE_ALL))
    else if command == "unsubscribe" || IsMenuText(text, UNSUBSCRIBE) || IsMenuText(text, UNSUBSCRIBE_ALL) then
      Unsubscribing(IsMenuText(text, UNSUBSCRIBE_ALL))
    else Preferring(command)
  }

  function ActionOfIntent(config: Config, intent: Intent, arg: string): Action {
    match intent
    case Subscribing(all) =>
      if all || arg == "all" then SubscribeEvery else if arg != "" then SubscribeAction(arg) else NoChange
    case Unsubscribing(all) =>
      if all || arg == "all" then UnsubscribeEvery else if arg != "" then UnsubscribeFrom(arg) else NoChange
    case Preferring(command) => PreferenceAction(config, command, arg)
  }

  /** The switch of HandleMessage, as far as it changes tables. */
  function ActionOfMessage(config: Config, text: string): Action {
    ActionOfIntent(config, IntentOf(text), CommandOnlyArg(ParseCommand(text), text))
  }

  /** /start is not mistaken for anything else. */
  lemma StartChangesNothing(config: Config, text: string)
    requires ParseCommand(text) == "start"
    ensures ActionOfMessage(config, text) == NoChange
  {
    assert text[0] == '/';
    assert forall s :: s in SUBSCRIBE || s in SUBSCRIBE_ALL || s in UNSUBSCRIBE || s in UNSUBSCRIBE_ALL ==> s[0] != '/';
  }

  /** handlePrefsCallback, as far as it changes tables. */
  function ActionOfChoice(config: Config, choice: Menu.Choice): Action {
    match choice
    case ChooseLanguage(code) => LocaleAction(code)
    case ChooseTimezone(timezone) => TimezoneAction(config, timezone)
    case ChooseShort(on) => SetShort(on)
    case _ => NoChange
  }

  /** HandleCallback, as far as it changes tables. */
  function ActionOfCallback(config: Config, data: string): Action {
    match Menu.DecodeCallback(data)
    case Subscribe(eventType) => SubscribeAction(eventType)
    case Unsubscribe(eventType) => UnsubscribeFrom(eventType)
    case Preference(choice) => ActionOfChoice(config, choice)
    case Ignored => NoChange
  }

  predicate IsAllowedUser(config: Config, userID: string) {
    Text.Trim(config.allowedUserID) == "" || Text.Trim(userID) == config.allowedUserID
  }

  // ---- Effects on the tables ----

  /** Handler.prefs: the stored preferences, with the configured defaults for empty fields. */
  function WithDefaults(config: Config, prefs: UserPrefs): UserPrefs {
    UserPrefs(if prefs.locale == "" then config.defaultLocale else prefs.locale,
              if prefs.timezone == "" then config.defaultTimezone else prefs.timezone,
              prefs.short)
  }

  /** The row that ensurePrefs hands to SetPrefs. */
  function Initialised(config: Config, prefs: UserPrefs, languageCode: string): UserPrefs {
    UserPrefs(if prefs.locale == "" then InitialLocale(config, languageCode) else prefs.locale,
              if prefs.timezone == "" then config.defaultTimezone else prefs.timezone,
              prefs.short)
  }

  function WithRow(prefs: map<string, UserPrefs>, userID: string, given: UserPrefs): map<string, UserPrefs> {
    prefs[userID := Merged(PrefsOf(prefs, userID), given)]
  }

  function Ensured(config: Config, prefs: map<string, UserPrefs>, userID: string, languageCode: string): map<string, UserPrefs> {
    WithRow(prefs, userID, Initialised(config, PrefsOf(prefs, userID), languageCode))
  }

  function ApplyToSubscriptions(subscriptions: set<(string, string)>, userID: string, action: Action): set<(string, string)> {
    match action
    case SubscribeEvery => subscriptions + (set e | e in Events.REGISTRY :: (Text.Trim(userID), Text.Trim(e)))
    case SubscribeTo(e) => subscriptions + {(Text.Trim(userID), Text.Trim(e))}
    case UnsubscribeEvery => set p | p in subscriptions && p.0 != userID
    case UnsubscribeFrom(e) => subscriptions - {(userID, e)}
    case _ => subscriptions
  }

  function ApplyToPrefs(config: Config, prefs: map<string, UserPrefs>, userID: string, action: Action): map<string, UserPrefs> {
    var current := WithDefaults(config, PrefsOf(prefs, userID));
    match action
    case SetLocale(locale) => WithRow(prefs, userID, current.(locale := locale))
    case SetTimezone(timezone) => WithRow(prefs, userID, current.(timezone := timezone))
    case SetShort(short) => WithRow(prefs, userID, current.(short := short))
    case _ => prefs
  }

  /** An identified user's update, after the access check. */
  function ApplyAction(config: Config, tables: Tables, userID: string, languageCode: string, action: Action): Tables {
    if !IsAllowedUser(config, userID) then tables
    else
      var prefs := Ensured(config, tables.prefs, userID, languageCode);
      Tables(ApplyToSubscriptions(tables.subscriptions, userID, action), ApplyToPrefs(config, prefs, userID, action))
  }

  /** A Telegram update: a message, perhaps without sender, or a button press; `reachable` says
      whether the message of the button is known, `answered` whether answering the press worked. */
  datatype Update =
    | Message(from: Option<int>, text: string, languageCode: string)
    | Press(sender: int, data: string, languageCode: string, reachable: bool, answered: bool)

  function UserID(update: Update): string {
    match update
    case Message(from, _, _) => if from.Some? then Decimal.Print(from.value) else ""
    case Press(sender, _, _, _, _) => Decimal.Print(sender)
  }

  /** The update gets as far as the handler's switch. */
  predicate Handled(update: Update) {
    match update
    case Message(_, text, _) => Text.Trim(text) != ""
    case Press(_, _, _, reachable, answered) => reachable && answered
  }

  function ActionOf(config: Config, update: Update): Action {
    match update
    case Message(_, text, _) => ActionOfMessage(config, Text.Trim(text))
    case Press(_, data, _, _, _) => ActionOfCallback(config, data)
  }

  /** A decoded update that reaches the handler's switch. */
  datatype Request = Request(userID: string, languageCode: string, action: Action)

  function Decode(config: Config, update: Update): Option<Request> {
    if !Handled(update) then None
    else
      var languageCode := if update.Message? && update.from.None? then "" else Text.Trim(update.languageCode);
      Some(Request(UserID(update), languageCode, ActionOf(config, update)))
  }

  function DecodeAll(config: Config, updates: seq<Update>): (r: seq<Option<Request>>)
    ensures |r| == |updates|
  {
    seq(|updates|, i requires 0 <= i < |updates| => Decode(config, updates[i]))
  }

  function ApplyRequest(config: Config, tables: Tables, request: Option<Request>): Tables {
    match request
    case None => tables
    case Some(r) => ApplyAction(config, tables, r.userID, r.languageCode, r.action)
  }

  /** The tables after a list of requests, from empty ones. */
  function TablesAfter(config: Config, requests: seq<Option<Request>>): Tables {
    if |requests| == 0 then Tables({}, map[])
    else
      var n := |requests| - 1;
      ApplyRequest(config, TablesAfter(config, requests[..n]), requests[n])
  }

  /** Initialising preferences twice is initialising them once. */
  lemma EnsureTwice(config: Config, prefs: map<string, UserPrefs>, userID: string, languageCode: string)
    ensures var once := Ensured(config, prefs, userID, languageCode);
            Ensured(config, once, userID, languageCode) == once
  {
  }

  // ---- Storage faults ----

  /** Which calls fail when preferences are read and then stored: the read, the read in SetPrefs,
      or the write. */
  datatype PrefsFaults = PrefsFaults(read: bool, reread: bool, write: bool) {
    predicate Any() {
      read || reread || write
    }
  }

  /** Which calls of the store fail while an update is handled: in ensurePrefs, in storing a changed
      preference, in inserting or deleting for one action, and which insertion of SubscribeAll. */
  datatype Faults = Faults(ensure: PrefsFaults, change: PrefsFaults, statement: bool, insertion: Option<nat>)

  const NO_FAULTS := Faults(PrefsFaults(false, false, false), PrefsFaults(false, false, false), false, None)

  /** The types that SubscribeAll gets to insert. */
  ghost function TypesInserted(faults: Faults): seq<string> {
    var types := Text.Sorted(Events.REGISTRY.Keys);
    if faults.insertion.Some? && faults.insertion.value < |types| then types[..faults.insertion.value] else types
  }

  /** What an action does to the subscriptions when some calls fail. */
  ghost function TrySubscriptions(subscriptions: set<(string, string)>, userID: string, action: Action, faults: Faults)
    : set<(string, string)>
  {
    if action.SubscribeEvery? then subscriptions + PairsOf(userID, TypesInserted(faults))
    else if faults.statement then subscriptions
    else ApplyToSubscriptions(subscriptions, userID, action)
  }

  function TryPrefs(config: Config, prefs: map<string, UserPrefs>, userID: string, action: Action, faults: PrefsFaults)
    : map<string, UserPrefs>
  {
    if faults.Any() then prefs else ApplyToPrefs(config, prefs, userID, action)
  }

  /** An identified user's update, after the access check, when some calls fail. */
  ghost function TryAction(config: Config, tables: Tables, userID: string, languageCode: string, action: Action, faults: Faults): Tables {
    if !IsAllowedUser(config, userID) || faults.ensure.Any() then tables
    else
      var prefs := Ensured(config, tables.prefs, userID, languageCode);
      Tables(TrySubscriptions(tables.subscriptions, userID, action, faults), TryPrefs(config, prefs, userID, action, faults.change))
  }

  ghost function TryRequest(config: Config, tables: Tables, request: Option<Request>, faults: Faults): Tables {
    match request
    case None => tables
    case Some(r) => TryAction(config, tables, r.userID, r.languageCode, r.action, faults)
  }

  lemma AllInserted(userID: string)
    ensures PairsOf(userID, TypesInserted(NO_FAULTS)) == set e | e in Events.REGISTRY :: (Text.Trim(userID), Text.Trim(e))
  {
    var types := Text.Sorted(Events.REGISTRY.Keys);
    assert forall e :: e in types <==> e in Text.Elements(types);
  }

  /** Without faults a request does what it asks for. */
  lemma FaultFree(config: Config, tables: Tables, request: Option<Request>)
    ensures TryRequest(config, tables, request, NO_FAULTS) == ApplyRequest(config, tables, request)
  {
    if request.Some? { AllInserted(request.value.userID); }
  }

  // ---- The handler ----

  class Handler {
    const store: Store
    const config: Config

    constructor (store: Store, config: Config)
      ensures this.store == store && this.config == config
    {
      this.store := store;
      this.config := config;
    }

    method EnsurePrefs(userID: string, languageCode: string, faults: PrefsFaults) returns (ok: bool)
      modifies store`prefs
      ensures ok == !faults.Any()
      ensures store.prefs == if ok then Ensured(config, old(store.prefs), userID, languageCode) else old(store.prefs)
    {
      var found := store.GetPrefs(userID, faults.read);
      if found.None? {
        return false;
      }
      var prefs := found.value;
      if prefs.locale == "" {
        prefs := prefs.(locale := InitialLocale(config, languageCode));
      }
      if prefs.timezone == "" {
        prefs := prefs.(timezone := config.defaultTimezone);
      }
      ok := store.SetPrefs(userID, prefs, faults.reread, faults.write);
    }

    method Prefs(userID: string, fault: bool) returns (prefs: Option<UserPrefs>)
      ensures prefs == if fault then None else Some(WithDefaults(config, PrefsOf(store.prefs, userID)))
    {
      var found := store.GetPrefs(userID, fault);
      if found.None? {
        return None;
      }
      var read := found.value;
      if read.locale == "" {
        read := read.(locale := config.defaultLocale);
      }
      if read.timezone == "" {
        read := read.(timezone := config.defaultTimezone);
      }
      prefs := Some(read);
    }

    method SubscribeToAll(userID: string, faults: Faults)
      modifies store`subscriptions
      ensures store.subscriptions == TrySubscriptions(old(store.subscriptions), userID, SubscribeEvery, faults)
    {
      var types := OrderBy(Events.REGISTRY.Keys);
      Text.AscendingUnique(types, Text.Sorted(Events.REGISTRY.Keys));
      var _, _ := store.SubscribeAll(userID, types, if faults.insertion.Some? then faults.insertion.value else |types|);
    }

    method HandleSubscribe(userID: string, arg: string, allButton: bool, faults: Faults)
      modifies store`subscriptions
      ensures store.subscriptions == TrySubscriptions(old(store.subscriptions), userID,
                ActionOfIntent(config, Subscribing(allButton), arg), faults)
    {
      if allButton || arg == "all" {
        SubscribeToAll(userID, faults);
      } else if arg != "" {
        SubscribeToEvent(userID, arg, faults);
      }
    }

    method SubscribeToEvent(userID: string, eventType: string, faults: Faults)
      modifies store`subscriptions
      ensures store.subscriptions == TrySubscriptions(old(store.subscriptions), userID, SubscribeAction(eventType), faults)
    {
      if Events.IsSupported(eventType) {
        var _ := store.Subscribe(userID, eventType, faults.statement);
      }
    }

    method UnsubscribeFromEvent(userID: string, eventType: string, faults: Faults)
      modifies store`subscriptions
      ensures store.subscriptions == TrySubscriptions(old(store.subscriptions), userID, UnsubscribeFrom(eventType), faults)
    {
      var _ := store.Unsubscribe(userID, eventType, faults.statement);
    }

    method HandleUnsubscribe(userID: string, arg: string, allButton: bool, faults: Faults)
      modifies store`subscriptions
      ensures store.subscriptions == TrySubscriptions(old(store.subscriptions), userID,
                ActionOfIntent(config, Unsubscribing(allButton), arg), faults)
    {
      if allButton || arg == "all" {
        var _ := store.UnsubscribeAll(userID, faults.statement);
      } else if arg != "" {
        UnsubscribeFromEvent(userID, arg, faults);
      }
    }

    method ChangeLocale(userID: string, locale: string, faults: PrefsFaults)
      modifies store`prefs
      ensures store.prefs == TryPrefs(config, old(store.prefs), userID, LocaleAction(locale), faults)
    {
      var found := Prefs(userID, faults.read);
      if found.None? {
        return;
      }
      var prefs := found.value.(locale := I18n.NormalizeLocale(locale));
      if IsSupportedLocale(prefs.locale) {
        var _ := store.SetPrefs(userID, prefs, faults.reread, faults.write);
      }
    }

    method ChangeTimezone(userID: string, timezone: string, faults: PrefsFaults)
      modifies store`prefs
      ensures store.prefs == TryPrefs(config, old(store.prefs), userID, TimezoneAction(config, timezone), faults)
    {
      var found := Prefs(userID, faults.read);
      if found.None? {
        return;
      }
      var prefs := found.value.(timezone := timezone);
      if IsValidTimezone(config, timezone) {
        var _ := store.SetPrefs(userID, prefs, faults.reread, faults.write);
      }
    }

    method ChangeShort(userID: string, short: bool, faults: PrefsFaults)
      modifies store`prefs
      ensures store.prefs == TryPrefs(config, old(store.prefs), userID, SetShort(short), faults)
    {
      var found := Prefs(userID, faults.read);
      if found.None? {
        return;
      }
      var _ := store.SetPrefs(userID, found.value.(short := short), faults.reread, faults.write);
    }

    /** The switch of HandleMessage, for a text whose command is not /start. */
    method HandleCommand(userID: string, text: string, faults: Faults)
      modifies store
      ensures store.subscriptions == TrySubscriptions(old(store.subscriptions), userID, ActionOfMessage(config, text), faults)
      ensures store.prefs == TryPrefs(config, old(store.prefs), userID, ActionOfMessage(config, text), faults.change)
    {
      var command := ParseCommand(text);
      HandleIntent(userID, IntentOf(text), CommandOnlyArg(command, text), faults);
    }

    method HandleIntent(userID: string, intent: Intent, arg: string, faults: Faults)
      modifies store
      ensures store.subscriptions == TrySubscriptions(old(store.subscriptions), userID, ActionOfIntent(config, intent, arg), faults)
      ensures store.prefs == TryPrefs(config, old(store.prefs), userID, ActionOfIntent(config, intent, arg), faults.change)
    {
      match intent
      case Subscribing(all) => HandleSubscribe(userID, arg, all, faults);
      case Unsubscribing(all) => HandleUnsubscribe(userID, arg, all, faults);
      case Preferring(command) => HandlePreference(userID, command, arg, faults.change);
    }

    method HandlePreference(userID: string, command: string, arg: string, faults: PrefsFaults)
      modifies store`prefs
      ensures store.prefs == TryPrefs(config, old(store.prefs), userID, PreferenceAction(config, command, arg), faults)
    {
      if command == "lang" {
        if arg != "" {
          ChangeLocale(userID, arg, faults);
        }
      } else if command == "timezone" {
        if arg != "" {
          ChangeTimezone(userID, arg, faults);
        }
      } else if command == "short" {
        if arg != "" {
          ChangeShort(userID, arg == "on" || arg == "true" || arg == "1" || arg == "yes", faults);
        }
      }
    }

    method HandleMessage(userID: string, input: string, languageCode: string, faults: Faults)
      modifies store
      ensures store.View() == TryAction(config, old(store.View()), userID, languageCode, ActionOfMessage(config, Text.Trim(input)), faults)
    {
      if !IsAllowedUser(config, userID) {
        return;
      }
      var ok := EnsurePrefs(userID, languageCode, faults.ensure);
      if !ok {
        return;
      }
      var text := Text.Trim(input);
      if ParseCommand(text) == "start" {
        EnsureTwice(config, old(store.prefs), userID, languageCode);
        StartChangesNothing(config, text);
        var _ := EnsurePrefs(userID, languageCode, faults.change);
      } else {
        HandleCommand(userID, text, faults);
      }
    }

    method HandlePrefsCallback(userID: string, choice: Menu.Choice, faults: PrefsFaults)
      modifies store`prefs
      ensures store.prefs == TryPrefs(config, old(store.prefs), userID, ActionOfChoice(config, choice), faults)
    {
      match choice
      case ChooseLanguage(code) => ChangeLocale(userID, code, faults);
      case ChooseTimezone(timezone) => ChangeTimezone(userID, timezone, faults);
      case ChooseShort(on) => ChangeShort(userID, on, faults);
      case _ =>
    }

    /** The switch of HandleCallback. */
    method HandleChoice(userID: string, data: string, faults: Faults)
      modifies store
      ensures store.subscriptions == TrySubscriptions(old(store.subscriptions), userID, ActionOfCallback(config, data), faults)
      ensures store.prefs == TryPrefs(config, old(store.prefs), userID, ActionOfCallback(config, data), faults.change)
    {
      match Menu.DecodeCallback(data)
      case Subscribe(eventType) => SubscribeToEvent(userID, eventType, faults);
      case Unsubscribe(eventType) => UnsubscribeFromEvent(userID, eventType, faults);
      case Preference(choice) => HandlePrefsCallback(userID, choice, faults.change);
      case Ignored =>
    }

    method HandleCallback(userID: string, data: string, languageCode: string, answered: bool, faults: Faults)
      modifies store
      ensures store.View() == if answered then TryAction(config, old(store.View()), userID, languageCode, ActionOfCallback(config, data), faults)
                              else old(store.View())
    {
      if !answered || !IsAllowedUser(config, userID) {
        return;
      }
      var ok := EnsurePrefs(userID, languageCode, faults.ensure);
      if ok {
        HandleChoice(userID, data, faults);
      }
    }

    method HandleUpdate(update: Update, faults: Faults)
      modifies store
      ensures store.View() == TryRequest(config, old(store.View()), Decode(config, update), faults)
    {
      match update
      case Message(from, raw, languageCode) =>
        var text := Text.Trim(raw);
        if text == "" {
          return;
        }
        var userID, language := "", "";
        if from.Some? {
          userID := Decimal.Print(from.value);
          language := Text.Trim(languageCode);
        }
        Text.TrimTrims(raw);
        Text.TrimTrims(text);
        HandleMessage(userID, text, language, faults);
      case Press(sender, data, languageCode, reachable, answered) =>
        if !reachable {
          return;
        }
        HandleCallback(Decimal.Print(sender), data, Text.Trim(languageCode), answered, faults);
    }
  }

}
