/** What the texts and buttons of the bot ask for (internal/bot/handler.go), up to the tables. */
module Commands {

  import opened Wrappers
  import opened Bot
  import Decimal
  import Events
  import I18n
  import Menu
  import Storage
  import Text

  // ---- Typed commands ----

  /** The letters of a word in small or capital letters. */
  predicate Spells(word: string, command: string) {
    && |word| == |command| > 0
    && forall i :: 0 <= i < |word| ==>
         'a' <= command[i] <= 'z' && (word[i] == command[i] || word[i] as int == command[i] as int - 32)
  }

  /** A command word in any case, perhaps with the name of the bot, and what follows after a blank. */
  predicate IsCommand(word: string, command: string, at: string, arg: string, rest: string) {
    && Spells(word, command)
    && (at == "" || (at[0] == '@' && Text.NoSpace(at)))
    && |arg| > 0 && Text.NoSpace(arg) && (rest == "" || Text.IsSpace(rest[0]))
  }

  /** The text is such a command with this argument. */
  ghost predicate Typed(text: string, command: string, arg: string) {
    exists word, at, rest {:trigger IsCommand(word, command, at, arg, rest)} ::
      IsCommand(word, command, at, arg, rest) && text == "/" + (word + at) + (" " + (arg + rest))
  }

  lemma SpelledIsLowered(word: string, command: string)
    requires Spells(word, command)
    ensures I18n.Lower(word) == command && Text.NoSpace(word) && Text.NoSpace(command)
    ensures forall i :: 0 <= i < |word| ==> word[i] != '@'
  {
  }

  lemma FirstWord(word: string, at: string, command: string)
    requires Spells(word, command) && (at == "" || (at[0] == '@' && Text.NoSpace(at)))
    ensures Text.NoSpace("/" + (word + at))
    ensures (word + at)[..Text.IndexOf(word + at, '@')] == word
  {
    SpelledIsLowered(word, command);
    Text.IndexOfIs(word + at, '@', |word|);
  }

  lemma CommandFields(first: string, arg: string, rest: string)
    requires |first| > 0 && Text.NoSpace(first) && |arg| > 0 && Text.NoSpace(arg) && (rest == "" || Text.IsSpace(rest[0]))
    ensures Text.Fields(first + (" " + (arg + rest))) == [first, arg] + Text.Fields(rest)
  {
    Text.FieldsFirst(first, " " + (arg + rest));
    Text.FieldsSkip(arg + rest);
    Text.FieldsFirst(arg, rest);
    TwoInFront(first, arg, Text.Fields(rest));
  }

  lemma TwoInFront(a: string, b: string, others: seq<string>)
    ensures [a] + ([b] + others) == [a, b] + others
  {
  }

  lemma CommandIs(word: string, command: string, at: string, arg: string, rest: string)
    requires IsCommand(word, command, at, arg, rest)
    ensures var text := "/" + (word + at) + (" " + (arg + rest)); ParseCommand(text) == command && CommandOnlyArg(command, text) == arg
  {
    var first := "/" + (word + at);
    FirstWord(word, at, command);
    CommandFields(first, arg, rest);
    assert first[1..] == word + at;
    SpelledIsLowered(word, command);
    Text.TrimNoSpace(word);
    Text.TrimNoSpace(arg);
  }

  /** A typed command is read as just that command and argument. */
  lemma TypedParses(text: string, command: string, arg: string)
    requires Typed(text, command, arg)
    ensures ParseCommand(text) == command && CommandOnlyArg(command, text) == arg && |text| > 0 && text[0] == '/' && |arg| > 0
  {
    var word, at, rest :| IsCommand(word, command, at, arg, rest) && text == "/" + (word + at) + (" " + (arg + rest));
    CommandIs(word, command, at, arg, rest);
  }

  // ---- What they ask for ----

  /** Captions do not look like commands. */
  lemma NoCaption(text: string)
    requires |text| > 0 && text[0] == '/'
    ensures text !in SUBSCRIBE && text !in SUBSCRIBE_ALL && text !in UNSUBSCRIBE && text !in UNSUBSCRIBE_ALL
  {
  }

  lemma CommandsDiffer()
    ensures "subscribe" != "unsubscribe" && "lang" != "subscribe" && "lang" != "unsubscribe"
    ensures "timezone" != "subscribe" && "timezone" != "unsubscribe" && "short" != "subscribe" && "short" != "unsubscribe"
    ensures "timezone" != "lang" && "short" != "lang" && "short" != "timezone"
  {
    assert "timezone"[0] != "subscribe"[0] && |"short"| == 5 && |"lang"| == 4 && |"timezone"| == 8;
    assert |"subscribe"| == 9 && |"unsubscribe"| == 11;
  }

  /** /subscribe asks for all types or for the one that is named, if it is registered. */
  lemma SubscribeMeans(config: Config, text: string, arg: string)
    requires Typed(text, "subscribe", arg)
    ensures ActionOfMessage(config, text)
            == if arg == "all" then SubscribeEvery else if arg in Events.REGISTRY then SubscribeTo(arg) else NoChange
  {
    TypedParses(text, "subscribe", arg);
    NoCaption(text);
    ArgIsTrimmed(text, "subscribe", arg);
  }

  lemma ArgIsTrimmed(text: string, command: string, arg: string)
    requires Typed(text, command, arg)
    ensures Text.Trim(arg) == arg && arg != "" && Text.NoSpace(arg)
  {
    Text.TrimNoSpace(arg);
  }

  /** /unsubscribe asks to give up all types or the one that is named. */
  lemma UnsubscribeMeans(config: Config, text: string, arg: string)
    requires Typed(text, "unsubscribe", arg)
    ensures ActionOfMessage(config, text) == if arg == "all" then UnsubscribeEvery else UnsubscribeFrom(arg)
  {
    TypedParses(text, "unsubscribe", arg);
    NoCaption(text);
    CommandsDiffer();
  }

  lemma PreferringIs(config: Config, text: string, command: string, arg: string)
    requires Typed(text, command, arg) && command != "subscribe" && command != "unsubscribe"
    ensures ActionOfMessage(config, text) == PreferenceAction(config, command, arg)
  {
    TypedParses(text, command, arg);
    NoCaption(text);
  }

  /** /timezone asks for a zone, if it exists. */
  lemma TimezoneMeans(config: Config, text: string, arg: string)
    requires Typed(text, "timezone", arg)
    ensures ActionOfMessage(config, text) == if config.zones(arg) then SetTimezone(arg) else NoChange
  {
    CommandsDiffer();
    PreferringIs(config, text, "timezone", arg);
    ArgIsTrimmed(text, "timezone", arg);
  }

  /** /short asks for the short mode with four words, and against it with any other. */
  lemma ShortMeans(config: Config, text: string, arg: string)
    requires Typed(text, "short", arg)
    ensures ActionOfMessage(config, text) == SetShort(arg in {"on", "true", "1", "yes"})
  {
    CommandsDiffer();
    PreferringIs(config, text, "short", arg);
    ArgIsTrimmed(text, "short", arg);
  }

  /** /lang asks for a language by the tag of one. */
  lemma LangMeans(config: Config, text: string, arg: string)
    requires Typed(text, "lang", arg)
    ensures ActionOfMessage(config, text) == LocaleAction(arg)
  {
    CommandsDiffer();
    PreferringIs(config, text, "lang", arg);
    ArgIsTrimmed(text, "lang", arg);
  }

  /** The codes that can be chosen. */
  lemma CodesAre(s: string)
    ensures IsCode(s) <==> s in {"de", "en", "es", "fr", "it", "pt", "ru", "uk"}
  {
    var codes := Menu.SUPPORTED_LOCALES;
    assert |codes| == 8;
    assert codes[0].code == "de" && codes[1].code == "en" && codes[2].code == "es" && codes[3].code == "fr";
    assert codes[4].code == "it" && codes[5].code == "pt" && codes[6].code == "ru" && codes[7].code == "uk";
  }

  /** A tag of a listed language chooses that, with or without a region and in any case, and no other
      tag chooses anything. */
  lemma LanguagesMean(tag: string, primary: string, region: string, small: string)
    requires Text.Trim(tag) == primary + region && '-' !in primary && '_' !in primary
    requires region == "" || region[0] == '-' || region[0] == '_'
    requires I18n.InSmall(primary, small) && Text.NoSpace(small)
    ensures LocaleAction(tag) == if small in {"de", "en", "es", "fr", "it", "pt", "ru", "uk"} then SetLocale(small) else NoChange
  {
    I18n.PrimarySubtag(tag, primary, region, small);
    Text.TrimNoSpace(small);
    NoSeparator(primary, small);
    I18n.PrimarySubtag(small, small, "", small);
    CodesAre(small);
  }

  lemma NoSeparator(primary: string, small: string)
    requires '-' !in primary && '_' !in primary && I18n.InSmall(primary, small)
    ensures '-' !in small && '_' !in small && I18n.InSmall(small, small) && small + "" == small
  {
    forall i | 0 <= i < |small| ensures small[i] != '-' && small[i] != '_' { assert primary[i] in primary; }
  }

  /** A user without a row gets the language of the client if it is listed, else the default one, and the
      default zone; what is stored already stays. */
  lemma FirstChoices(config: Config, prefs: map<string, Storage.UserPrefs>, u: string, tag: string, primary: string, region: string,
                     small: string)
    requires Text.Trim(tag) == primary + region && '-' !in primary && '_' !in primary
    requires region == "" || region[0] == '-' || region[0] == '_'
    requires I18n.InSmall(primary, small) && Text.NoSpace(small)
    ensures var row := Ensured(config, prefs, u, tag)[u];
            && (u !in prefs || prefs[u].locale == "" ==>
                  row.locale == if small in {"de", "en", "es", "fr", "it", "pt", "ru", "uk"} then small
                                else I18n.Resolve(config.bundle, config.defaultLocale))
            && (u !in prefs || prefs[u].timezone == "" ==> row.timezone == config.defaultTimezone)
            && row.short == (u in prefs && prefs[u].short)
            && (u in prefs && prefs[u].locale != "" ==> row.locale == prefs[u].locale)
            && (u in prefs && prefs[u].timezone != "" ==> row.timezone == prefs[u].timezone)
  {
    I18n.PrimarySubtag(tag, primary, region, small);
    Text.TrimNoSpace(small);
    NoSeparator(primary, small);
    I18n.PrimarySubtag(small, small, "", small);
    CodesAre(small);
  }

  /** The captions of the menu ask for all types, or only open a list. */
  lemma CaptionsMean(config: Config)
    ensures ActionOfMessage(config, "Subscribe all") == ActionOfMessage(config, "➕ Subscribe all") == SubscribeEvery
    ensures ActionOfMessage(config, "Unsubscribe all") == ActionOfMessage(config, "➖ Unsubscribe all") == UnsubscribeEvery
    ensures ActionOfMessage(config, "Subscribe") == ActionOfMessage(config, "➕ Subscribe") == NoChange
    ensures ActionOfMessage(config, "Unsubscribe") == ActionOfMessage(config, "➖ Unsubscribe") == NoChange
  {
    CaptionMeans(config, "Subscribe all");
    CaptionMeans(config, "➕ Subscribe all");
    CaptionMeans(config, "Unsubscribe all");
    CaptionMeans(config, "➖ Unsubscribe all");
    CaptionMeans(config, "Subscribe");
    CaptionMeans(config, "➕ Subscribe");
    CaptionMeans(config, "Unsubscribe");
    CaptionMeans(config, "➖ Unsubscribe");
    CaptionsDiffer();
  }

  lemma CaptionsDiffer()
    ensures SUBSCRIBE == ["➕ Subscribe", "Subscribe"] && UNSUBSCRIBE == ["➖ Unsubscribe", "Unsubscribe"]
    ensures SUBSCRIBE_ALL == ["➕ Subscribe all", "Subscribe all"] && UNSUBSCRIBE_ALL == ["➖ Unsubscribe all", "Unsubscribe all"]
    ensures forall s :: s in SUBSCRIBE || s in SUBSCRIBE_ALL ==> s !in UNSUBSCRIBE && s !in UNSUBSCRIBE_ALL
    ensures forall s :: s in SUBSCRIBE ==> s !in SUBSCRIBE_ALL
    ensures forall s :: s in UNSUBSCRIBE ==> s !in UNSUBSCRIBE_ALL
  {
    assert "Subscribe"[0] != "Unsubscribe"[0] && "➕"[0] != "➖"[0] && "Subscribe"[0] != "➖"[0] && "Unsubscribe"[0] != "➕"[0];
    assert "Subscribe all"[0] != "Unsubscribe all"[0] && |"Subscribe all"| != |"Subscribe"| && |"Unsubscribe all"| != |"Unsubscribe"|;
  }

  /** A text that is no command, by the lists of captions. */
  lemma CaptionMeans(config: Config, text: string)
    requires |text| > 0 && text[0] != '/'
    ensures ActionOfMessage(config, text)
            == if text in SUBSCRIBE || text in SUBSCRIBE_ALL then (if text in SUBSCRIBE_ALL then SubscribeEvery else NoChange)
               else if text in UNSUBSCRIBE_ALL then UnsubscribeEvery else NoChange
  {
    CaptionsParse(text);
  }

  lemma CaptionsParse(text: string)
    requires |text| > 0 && text[0] != '/'
    ensures ParseCommand(text) == ""
  {
  }

  /** Any other text, and any other command, changes nothing. */
  lemma OtherTextsMeanNothing(config: Config, text: string, command: string, arg: string)
    ensures text != "" && text[0] != '/' && text !in {"Subscribe all", "➕ Subscribe all", "Unsubscribe all", "➖ Unsubscribe all"} ==>
              ActionOfMessage(config, text) == NoChange
    ensures Typed(text, command, arg) && command !in {"subscribe", "unsubscribe", "lang", "timezone", "short"} ==>
              ActionOfMessage(config, text) == NoChange
  {
    if text != "" && text[0] != '/' { CaptionsParse(text); }
    if Typed(text, command, arg) && command != "subscribe" && command != "unsubscribe" {
      PreferringIs(config, text, command, arg);
    }
  }

  /** A command without an argument changes nothing. */
  lemma BareCommandsMeanNothing(config: Config, word: string, command: string, at: string)
    requires Spells(word, command) && (at == "" || (at[0] == '@' && Text.NoSpace(at)))
    ensures ActionOfMessage(config, "/" + (word + at)) == NoChange
  {
    var text := "/" + (word + at);
    FirstWord(word, at, command);
    OneField(text);
    NoCaption(text);
  }

  lemma OneField(word: string)
    requires |word| > 0 && Text.NoSpace(word)
    ensures |Text.Fields(word)| == 1
  {
    Text.FieldsFirst(word, "");
    assert word + "" == word;
  }

  /** What the buttons of the lists of types ask for. */
  lemma EventButtonsMean(config: Config, s: string)
    ensures ActionOfCallback(config, "sub:" + s) == if Text.Trim(s) in Events.REGISTRY then SubscribeTo(s) else NoChange
    ensures ActionOfCallback(config, "unsub:" + s) == UnsubscribeFrom(s)
  {
    Menu.DecodeInvertsBuild(s);
  }

  lemma ChoiceActs(config: Config, data: string, choice: Menu.Choice)
    requires Menu.DecodeCallback(data) == Menu.Preference(choice)
    ensures ActionOfCallback(config, data) == ActionOfChoice(config, choice)
  {
  }

  /** And those of the preferences. */
  lemma ChoiceButtonsMean(config: Config, s: string)
    ensures ActionOfCallback(config, "prefs:lang:" + s) == LocaleAction(s)
    ensures ActionOfCallback(config, "prefs:tz:" + s) == if !Text.AllSpace(s) && config.zones(s) then SetTimezone(s) else NoChange
  {
    Menu.ChoiceButtonsDecode(s);
    Text.TrimsToNothing(s);
    ChoiceActs(config, "prefs:lang:" + s, Menu.ChooseLanguage(s));
    ChoiceActs(config, "prefs:tz:" + s, Menu.ChooseTimezone(s));
  }

  lemma ShortButtonsMean(config: Config)
    ensures ActionOfCallback(config, "prefs:short:on") == SetShort(true) && ActionOfCallback(config, "prefs:short:off") == SetShort(false)
  {
    Menu.ShortButtonsDecode();
    ChoiceActs(config, "prefs:short:on", Menu.ChooseShort(true));
    ChoiceActs(config, "prefs:short:off", Menu.ChooseShort(false));
  }

  // ---- Up to the tables ----

  /** Everybody may use the bot unless one user is configured. */
  lemma AllowedIs(config: Config, n: int)
    ensures IsAllowedUser(config, Decimal.Print(n)) <==> Text.AllSpace(config.allowedUserID) || config.allowedUserID == Decimal.Print(n)
  {
    Decimal.PrintPlain(n);
    Text.TrimsToNothing(config.allowedUserID);
  }

  /** The tables after a message of user n, if no call of the store fails. */
  ghost function AfterMessage(config: Config, tables: Storage.Tables, n: int, text: string, languageCode: string): Storage.Tables {
    TryRequest(config, tables, Decode(config, Message(Some(n), text, languageCode)), NO_FAULTS)
  }

  lemma MessageActs(config: Config, tables: Storage.Tables, n: int, text: string, languageCode: string)
    requires Text.Trim(text) != ""
    ensures AfterMessage(config, tables, n, text, languageCode)
            == ApplyAction(config, tables, Decimal.Print(n), Text.Trim(languageCode), ActionOfMessage(config, Text.Trim(text)))
  {
    FaultFree(config, tables, Decode(config, Message(Some(n), text, languageCode)));
  }

  lemma MessageSubscribes(config: Config, tables: Storage.Tables, n: int, text: string, languageCode: string)
    requires Text.Trim(text) != ""
    ensures AfterMessage(config, tables, n, text, languageCode).subscriptions
            == if Text.AllSpace(config.allowedUserID) || config.allowedUserID == Decimal.Print(n)
               then ApplyToSubscriptions(tables.subscriptions, Decimal.Print(n), ActionOfMessage(config, Text.Trim(text)))
               else tables.subscriptions
  {
    MessageActs(config, tables, n, text, languageCode);
    AllowedIs(config, n);
  }

  lemma RegisteredIsNotAll(e: string)
    requires e in Events.REGISTRY
    ensures e != "all" && Text.Trim(e) == e
  {
    Events.RegisteredArePlain(e);
    Events.RegisteredTypes();
    assert |"all"| == 3;
    assert "all" !in Events.ALERTS && "all" !in Events.WARNINGS && "all" !in Events.INFOS;
  }

  lemma TypedIsNotBlank(text: string, command: string, arg: string)
    requires Typed(text, command, arg)
    ensures text != ""
  {
    TypedParses(text, command, arg);
  }

  /** Who types /subscribe and a registered type, in whatever case and with whatever after it, is then
      subscribed to that type, unless access is denied; nothing else about subscriptions changes. */
  lemma SubscribeStores(config: Config, tables: Storage.Tables, n: int, text: string, languageCode: string, e: string)
    requires Typed(Text.Trim(text), "subscribe", e) && e in Events.REGISTRY
    ensures AfterMessage(config, tables, n, text, languageCode).subscriptions
            == if Text.AllSpace(config.allowedUserID) || config.allowedUserID == Decimal.Print(n)
               then tables.subscriptions + {(Decimal.Print(n), e)} else tables.subscriptions
  {
    TypedIsNotBlank(Text.Trim(text), "subscribe", e);
    MessageSubscribes(config, tables, n, text, languageCode);
    SubscribeMeans(config, Text.Trim(text), e);
    RegisteredIsNotAll(e);
    Decimal.PrintPlain(n);
  }

  /** And /unsubscribe deletes just that pair. */
  lemma UnsubscribeDeletes(config: Config, tables: Storage.Tables, n: int, text: string, languageCode: string, e: string)
    requires Typed(Text.Trim(text), "unsubscribe", e) && e != "all"
    ensures AfterMessage(config, tables, n, text, languageCode).subscriptions
            == if Text.AllSpace(config.allowedUserID) || config.allowedUserID == Decimal.Print(n)
               then tables.subscriptions - {(Decimal.Print(n), e)} else tables.subscriptions
  {
    TypedIsNotBlank(Text.Trim(text), "unsubscribe", e);
    MessageSubscribes(config, tables, n, text, languageCode);
    UnsubscribeMeans(config, Text.Trim(text), e);
  }

  /** The argument all stands for every registered type, and for every pair of the user. */
  lemma AllMeansAll(config: Config, tables: Storage.Tables, n: int, text: string, languageCode: string)
    requires Text.AllSpace(config.allowedUserID) || config.allowedUserID == Decimal.Print(n)
    ensures Typed(Text.Trim(text), "subscribe", "all") || Text.Trim(text) in {"Subscribe all", "➕ Subscribe all"} ==>
              AfterMessage(config, tables, n, text, languageCode).subscriptions
              == tables.subscriptions + (set e | e in Events.REGISTRY :: (Decimal.Print(n), e))
    ensures Typed(Text.Trim(text), "unsubscribe", "all") || Text.Trim(text) in {"Unsubscribe all", "➖ Unsubscribe all"} ==>
              AfterMessage(config, tables, n, text, languageCode).subscriptions
              == set p | p in tables.subscriptions && p.0 != Decimal.Print(n)
  {
    CaptionsMean(config);
    RegisteredAreTrimmed(n);
    if Typed(Text.Trim(text), "subscribe", "all") {
      TypedIsNotBlank(Text.Trim(text), "subscribe", "all");
      SubscribeMeans(config, Text.Trim(text), "all");
    }
    if Typed(Text.Trim(text), "unsubscribe", "all") {
      TypedIsNotBlank(Text.Trim(text), "unsubscribe", "all");
      UnsubscribeMeans(config, Text.Trim(text), "all");
    }
    if Text.Trim(text) != "" { MessageSubscribes(config, tables, n, text, languageCode); }
  }

  lemma RegisteredAreTrimmed(n: int)
    ensures (set e | e in Events.REGISTRY :: (Text.Trim(Decimal.Print(n)), Text.Trim(e)))
            == (set e | e in Events.REGISTRY :: (Decimal.Print(n), e))
  {
    Decimal.PrintPlain(n);
    forall e | e in Events.REGISTRY ensures Text.Trim(e) == e { Events.RegisteredArePlain(e); }
  }

  /** The text /subscribe e is such a text. */
  lemma PlainlyTyped(command: string, arg: string)
    requires CommandWord(command) && |arg| > 0 && Text.NoSpace(arg)
    ensures var text := "/" + command + (" " + arg); Text.Trim(text) == text && Typed(text, command, arg)
  {
    var text := "/" + command + (" " + arg);
    assert text[0] == '/' && text[|text| - 1] == arg[|arg| - 1];
    Text.TrimTrims(text);
    assert IsCommand(command, command, "", arg, "");
    assert text == "/" + (command + "") + (" " + (arg + ""));
  }

  lemma MessageStores(config: Config, tables: Storage.Tables, n: int, text: string, languageCode: string)
    requires Text.AllSpace(config.allowedUserID) || config.allowedUserID == Decimal.Print(n)
    requires Text.Trim(text) != ""
    ensures var u := Decimal.Print(n);
            var ensured := Ensured(config, tables.prefs, u, Text.Trim(languageCode));
            AfterMessage(config, tables, n, text, languageCode).prefs
            == ApplyToPrefs(config, ensured, u, ActionOfMessage(config, Text.Trim(text)))
  {
    MessageActs(config, tables, n, text, languageCode);
    AllowedIs(config, n);
  }

  /** A typed choice of preferences is then in the user's row. */
  lemma LanguageStores(config: Config, tables: Storage.Tables, n: int, text: string, languageCode: string, tag: string, code: string)
    requires Text.AllSpace(config.allowedUserID) || config.allowedUserID == Decimal.Print(n)
    requires Typed(Text.Trim(text), "lang", tag) && LocaleAction(tag) == SetLocale(code) && code != ""
    ensures var u, after := Decimal.Print(n), AfterMessage(config, tables, n, text, languageCode).prefs;
            u in after && after[u].locale == code
  {
    TypedIsNotBlank(Text.Trim(text), "lang", tag);
    MessageStores(config, tables, n, text, languageCode);
    LangMeans(config, Text.Trim(text), tag);
  }

  lemma TimezoneStores(config: Config, tables: Storage.Tables, n: int, text: string, languageCode: string, zone: string)
    requires Text.AllSpace(config.allowedUserID) || config.allowedUserID == Decimal.Print(n)
    requires Typed(Text.Trim(text), "timezone", zone) && config.zones(zone)
    ensures var u, after := Decimal.Print(n), AfterMessage(config, tables, n, text, languageCode).prefs;
            u in after && after[u].timezone == zone
  {
    TypedIsNotBlank(Text.Trim(text), "timezone", zone);
    MessageStores(config, tables, n, text, languageCode);
    TimezoneMeans(config, Text.Trim(text), zone);
    ArgIsTrimmed(Text.Trim(text), "timezone", zone);
  }

  lemma ShortStores(config: Config, tables: Storage.Tables, n: int, text: string, languageCode: string, word: string)
    requires Text.AllSpace(config.allowedUserID) || config.allowedUserID == Decimal.Print(n)
    requires Typed(Text.Trim(text), "short", word)
    ensures var u, after := Decimal.Print(n), AfterMessage(config, tables, n, text, languageCode).prefs;
            u in after && after[u].short == (word in {"on", "true", "1", "yes"})
  {
    TypedIsNotBlank(Text.Trim(text), "short", word);
    MessageStores(config, tables, n, text, languageCode);
    ShortMeans(config, Text.Trim(text), word);
  }

  /** Whom the bot does not know it does nothing for, whatever they send. */
  lemma OthersChangeNothing(config: Config, tables: Storage.Tables, n: int, text: string, languageCode: string, faults: Faults)
    requires !Text.AllSpace(config.allowedUserID) && config.allowedUserID != Decimal.Print(n)
    ensures TryRequest(config, tables, Decode(config, Message(Some(n), text, languageCode)), faults) == tables
    ensures TryRequest(config, tables, Decode(config, Press(n, text, languageCode, true, true)), faults) == tables
  {
    AllowedIs(config, n);
  }

  /** A message without a sender counts as one of the user with the empty ID, and one without text not at all. */
  lemma AnonymousActs(config: Config, tables: Storage.Tables, text: string, languageCode: string)
    ensures TryRequest(config, tables, Decode(config, Message(None, text, languageCode)), NO_FAULTS)
            == if Text.AllSpace(text) then tables else ApplyAction(config, tables, "", "", ActionOfMessage(config, Text.Trim(text)))
  {
    Text.TrimsToNothing(text);
    FaultFree(config, tables, Decode(config, Message(None, text, languageCode)));
  }

  // ---- Buttons, up to the tables ----

  /** The tables after user n presses a button, if no call of the store fails. */
  ghost function AfterPress(config: Config, tables: Storage.Tables, n: int, data: string, languageCode: string): Storage.Tables {
    TryRequest(config, tables, Decode(config, Press(n, data, languageCode, true, true)), NO_FAULTS)
  }

  lemma PressActs(config: Config, tables: Storage.Tables, n: int, data: string, languageCode: string)
    ensures AfterPress(config, tables, n, data, languageCode)
            == ApplyAction(config, tables, Decimal.Print(n), Text.Trim(languageCode), ActionOfCallback(config, data))
  {
    FaultFree(config, tables, Decode(config, Press(n, data, languageCode, true, true)));
  }

  /** A button whose message is not known, or whose press cannot be answered, changes nothing. */
  lemma LostPressChangesNothing(config: Config, tables: Storage.Tables, n: int, data: string, languageCode: string, reachable: bool,
                                answered: bool, faults: Faults)
    requires !reachable || !answered
    ensures TryRequest(config, tables, Decode(config, Press(n, data, languageCode, reachable, answered)), faults) == tables
  {
  }

  /** Pressing a registered type in the list of types to subscribe to stores that pair. */
  lemma SubscribeButtonStores(config: Config, tables: Storage.Tables, n: int, languageCode: string, e: string)
    requires Text.AllSpace(config.allowedUserID) || config.allowedUserID == Decimal.Print(n)
    requires e in Events.REGISTRY
    ensures AfterPress(config, tables, n, "sub:" + e, languageCode).subscriptions == tables.subscriptions + {(Decimal.Print(n), e)}
  {
    PressActs(config, tables, n, "sub:" + e, languageCode);
    AllowedIs(config, n);
    EventButtonsMean(config, e);
    RegisteredIsNotAll(e);
    Decimal.PrintPlain(n);
  }

  /** Pressing any in the other list deletes it. */
  lemma UnsubscribeButtonDeletes(config: Config, tables: Storage.Tables, n: int, languageCode: string, e: string)
    requires Text.AllSpace(config.allowedUserID) || config.allowedUserID == Decimal.Print(n)
    ensures AfterPress(config, tables, n, "unsub:" + e, languageCode).subscriptions == tables.subscriptions - {(Decimal.Print(n), e)}
  {
    PressActs(config, tables, n, "unsub:" + e, languageCode);
    AllowedIs(config, n);
    EventButtonsMean(config, e);
  }

  lemma PressStores(config: Config, tables: Storage.Tables, n: int, data: string, languageCode: string)
    requires Text.AllSpace(config.allowedUserID) || config.allowedUserID == Decimal.Print(n)
    ensures var u := Decimal.Print(n);
            AfterPress(config, tables, n, data, languageCode).prefs
            == ApplyToPrefs(config, Ensured(config, tables.prefs, u, Text.Trim(languageCode)), u, ActionOfCallback(config, data))
  {
    PressActs(config, tables, n, data, languageCode);
    AllowedIs(config, n);
  }

  /** The buttons of the preferences store what they carry. */
  lemma LanguageButtonStores(config: Config, tables: Storage.Tables, n: int, languageCode: string, code: string)
    requires Text.AllSpace(config.allowedUserID) || config.allowedUserID == Decimal.Print(n)
    requires LocaleAction(code) == SetLocale(code) && code != ""
    ensures var u, after := Decimal.Print(n), AfterPress(config, tables, n, "prefs:lang:" + code, languageCode).prefs;
            u in after && after[u].locale == code
  {
    PressStores(config, tables, n, "prefs:lang:" + code, languageCode);
    ChoiceButtonsMean(config, code);
  }

  lemma TimezoneButtonStores(config: Config, tables: Storage.Tables, n: int, languageCode: string, zone: string)
    requires Text.AllSpace(config.allowedUserID) || config.allowedUserID == Decimal.Print(n)
    requires !Text.AllSpace(zone) && config.zones(zone)
    ensures var u, after := Decimal.Print(n), AfterPress(config, tables, n, "prefs:tz:" + zone, languageCode).prefs;
            u in after && after[u].timezone == zone
  {
    PressStores(config, tables, n, "prefs:tz:" + zone, languageCode);
    ChoiceButtonsMean(config, zone);
  }

  lemma ShortButtonsStore(config: Config, tables: Storage.Tables, n: int, languageCode: string)
    requires Text.AllSpace(config.allowedUserID) || config.allowedUserID == Decimal.Print(n)
    ensures var u := Decimal.Print(n);
            var on, off := AfterPress(config, tables, n, "prefs:short:on", languageCode).prefs,
                           AfterPress(config, tables, n, "prefs:short:off", languageCode).prefs;
            u in on && on[u].short && u in off && !off[u].short
  {
    PressStores(config, tables, n, "prefs:short:on", languageCode);
    PressStores(config, tables, n, "prefs:short:off", languageCode);
    ShortButtonsMean(config);
  }

}
