/** What holds of the stored preferences and subscriptions over whole runs of the bot. */
module Preferences {

  import opened Wrappers
  import opened Storage
  import opened Bot
  import Events
  import I18n
  import Menu
  import Text

  // ---- Normalised locales ----

  predicate NormalChar(c: char) {
    I18n.LowerChar(c) == c && c != '_' && c != '-'
  }

  lemma NormalizedChars(locale: string)
    ensures forall i :: 0 <= i < |I18n.NormalizeLocale(locale)| ==> NormalChar(I18n.NormalizeLocale(locale)[i])
  {
  }

  lemma NormalizeOfNormal(s: string)
    requires forall i :: 0 <= i < |s| ==> NormalChar(s[i])
    ensures I18n.NormalizeLocale(s) == Text.Trim(s)
  {
    var t := Text.Trim(s);
    forall i | 0 <= i < |t| ensures NormalChar(t[i]) {
      Text.TrimOnlyTakes(s, t[i]);
      var j :| 0 <= j < |s| && s[j] == t[i];
      assert NormalChar(s[j]);
    }
    assert I18n.Lower(t) == t && I18n.Dashed(t) == t;
    Text.IndexOfIs(t, '-', |t|);
    assert t[..|t|] == t;
  }

  /** Normalising twice only trims again: the cut at the dash can leave white space behind. */
  lemma NormalizeTwice(locale: string)
    ensures I18n.NormalizeLocale(I18n.NormalizeLocale(locale)) == Text.Trim(I18n.NormalizeLocale(locale))
  {
    NormalizedChars(locale);
    NormalizeOfNormal(I18n.NormalizeLocale(locale));
  }

  // ---- Language tags ----

  /** Where the first separator of a tag is. */
  function SeparatorAt(tag: string): (p: nat)
    ensures p <= |tag| && (p < |tag| ==> tag[p] == '-' || tag[p] == '_')
    ensures forall i :: 0 <= i < p ==> tag[i] != '-' && tag[i] != '_'
  {
    if |tag| == 0 || tag[0] == '-' || tag[0] == '_' then 0 else 1 + SeparatorAt(tag[1..])
  }

  /** What stands before the separator of a trimmed tag. */
  function Primary(tag: string): string {
    Text.Trim(tag)[..SeparatorAt(Text.Trim(tag))]
  }

  lemma NormalizeIsPrimary(tag: string)
    ensures I18n.NormalizeLocale(tag) == I18n.Lower(Primary(tag))
  {
    var t := Text.Trim(tag);
    var s, p := I18n.Dashed(I18n.Lower(t)), SeparatorAt(t);
    assert forall i :: 0 <= i < |t| ==> s[i] == if t[i] == '_' then '-' else I18n.LowerChar(t[i]);
    Text.IndexOfIs(s, '-', p);
    assert s[..p] == I18n.Lower(t[..p]);
  }

  lemma {:induction false} LowerTrimLeft(s: string)
    ensures Text.TrimLeft(I18n.Lower(s)) == I18n.Lower(Text.TrimLeft(s))
  {
    if |s| > 0 {
      assert I18n.Lower(s)[1..] == I18n.Lower(s[1..]);
      LowerTrimLeft(s[1..]);
    }
  }

  lemma {:induction false} LowerTrimRight(s: string)
    ensures Text.TrimRight(I18n.Lower(s)) == I18n.Lower(Text.TrimRight(s))
  {
    if |s| > 0 {
      assert I18n.Lower(s)[..|s| - 1] == I18n.Lower(s[..|s| - 1]);
      LowerTrimRight(s[..|s| - 1]);
    }
  }

  /** A supported primary subtag with white space between it and the separator. */
  predicate CutsBlank(tag: string) {
    var t := Text.Trim(tag);
    var p := SeparatorAt(t);
    0 < p < |t| && Text.IsSpace(t[p - 1]) && IsCode(I18n.Lower(Text.Trim(t[..p])))
  }

  lemma LowerTrim(s: string)
    ensures Text.Trim(I18n.Lower(s)) == I18n.Lower(Text.Trim(s))
  {
    LowerTrimLeft(s);
    LowerTrimRight(Text.TrimLeft(s));
  }

  /** A piece cut off a trimmed text is trimmed unless it ends in white space. */
  lemma TrimmedPiece(t: string, p: nat)
    requires Text.Trimmed(t) && p <= |t|
    ensures Text.Trimmed(I18n.Lower(t[..p])) <==> !(0 < p < |t| && Text.IsSpace(t[p - 1]))
  {
    var n := I18n.Lower(t[..p]);
    if p > 0 { assert n[0] == I18n.LowerChar(t[0]) && n[p - 1] == I18n.LowerChar(t[p - 1]); }
  }

  lemma CutsBlankIs(tag: string)
    ensures var n := I18n.NormalizeLocale(tag); CutsBlank(tag) <==> !Text.Trimmed(n) && IsCode(Text.Trim(n))
  {
    var t := Text.Trim(tag);
    var p := SeparatorAt(t);
    Text.TrimTrims(tag);
    NormalizeIsPrimary(tag);
    TrimmedPiece(t, p);
    LowerTrim(t[..p]);
  }

  lemma CodesAreTrimmed(code: string)
    requires IsCode(code)
    ensures Text.Trimmed(code) && |code| == 2
  {
  }

  predicate GoodLocale(config: Config, locale: string) {
    IsCode(locale) || locale == FallbackLocale(config)
  }

  predicate GoodTimezone(config: Config, timezone: string) {
    IsValidTimezone(config, timezone) || timezone == config.defaultTimezone
  }

  /** Such a tag, unless the default locale is that very text. */
  predicate Slips(config: Config, tag: string) {
    CutsBlank(tag) && I18n.Lower(Primary(tag)) != FallbackLocale(config)
  }

  lemma SlipsUnlessOddDefault(config: Config, tag: string)
    requires Text.Trimmed(FallbackLocale(config))
    ensures Slips(config, tag) <==> CutsBlank(tag)
  {
    CutsBlankIs(tag);
    NormalizeIsPrimary(tag);
  }

  /** A supported normalised tag is a code exactly if it is trimmed. */
  lemma SupportedIsCode(tag: string)
    ensures var n := I18n.NormalizeLocale(tag);
            && (IsSupportedLocale(n) <==> IsCode(Text.Trim(n)))
            && (IsSupportedLocale(n) ==> (IsCode(n) <==> !CutsBlank(tag)))
  {
    var n := I18n.NormalizeLocale(tag);
    NormalizeTwice(tag);
    CutsBlankIs(tag);
    Text.TrimTrims(n);
    if IsCode(n) { CodesAreTrimmed(n); }
  }

  /** Exactly when the first locale stored for a user is a supported code or the default: unless
      the user's tag has white space between a supported primary subtag and the separator. */
  lemma InitialLocaleExact(config: Config, tag: string)
    ensures GoodLocale(config, InitialLocale(config, tag)) <==> !Slips(config, tag)
    ensures Text.Trimmed(FallbackLocale(config)) ==>
              (GoodLocale(config, InitialLocale(config, tag)) <==> !CutsBlank(tag))
  {
    SupportedIsCode(tag);
    CutsBlankIs(tag);
    NormalizeIsPrimary(tag);
    if Text.Trimmed(FallbackLocale(config)) { SlipsUnlessOddDefault(config, tag); }
  }

  /** The same for the locale that choosing a language stores. */
  lemma ChosenLocaleExact(config: Config, code: string)
    ensures GoodAction(config, LocaleAction(code)) <==> !CutsBlank(code)
    ensures LocaleAction(code).SetLocale? ==> (GoodLocale(config, LocaleAction(code).locale) <==> !Slips(config, code))
  {
    SupportedIsCode(code);
    NormalizeTwice(code);
    NormalizeOfNormalized(code);
    CutsBlankIs(code);
    NormalizeIsPrimary(code);
  }

  /** Normalising once more than twice changes nothing. */
  lemma NormalizeOfNormalized(code: string)
    ensures I18n.NormalizeLocale(Text.Trim(I18n.NormalizeLocale(code))) == Text.Trim(I18n.NormalizeLocale(code))
  {
    var n := I18n.NormalizeLocale(code);
    NormalizeTwice(code);
    NormalizeTwice(n);
    Text.TrimTrims(n);
    Text.TrimTrims(Text.Trim(n));
  }

  /** The case exists: this tag is stored as a code with a blank after it. */
  lemma BlankBeforeDashSlipsThrough(config: Config)
    requires FallbackLocale(config) != "en "
    ensures InitialLocale(config, "en -US") == "en " && !GoodLocale(config, InitialLocale(config, "en -US"))
  {
    NormalizeBlank();
    SupportedIsCode("en -US");
    if IsCode("en ") { CodesAreTrimmed("en "); }
  }

  lemma NormalizeBlank()
    ensures I18n.NormalizeLocale("en -US") == "en " && IsCode(Text.Trim("en "))
  {
    var s := "en -US";
    Text.TrimTrims(s);
    var d := I18n.Dashed(I18n.Lower(s));
    assert d[2] == ' ' && d[3] == '-' && d[0] == 'e' && d[1] == 'n';
    Text.IndexOfIs(d, '-', 3);
    assert I18n.NormalizeLocale(s) == d[..3] == "en ";
    TrimEn();
    assert Menu.SUPPORTED_LOCALES[1].code == "en" && IsCode("en");
  }

  lemma TrimEn()
    ensures Text.Trim("en ") == "en"
  {
    assert "en "[..2] == "en";
  }

  /** And so does this button. */
  lemma BlankInButtonSlipsThrough(config: Config)
    ensures ActionOfCallback(config, Menu.PREFS_PREFIX + "lang:" + "en -US") == SetLocale("en ")
  {
    Menu.DecodeInvertsBuild("en -US");
    NormalizeBlank();
    SupportedIsCode("en -US");
    NormalizeTwice("en -US");
  }

  // ---- Rows ----

  predicate GoodPrefs(config: Config, prefs: UserPrefs) {
    && GoodLocale(config, prefs.locale) && prefs.locale != ""
    && GoodTimezone(config, prefs.timezone) && prefs.timezone != ""
  }

  predicate AllGood(config: Config, prefs: map<string, UserPrefs>) {
    forall u :: u in prefs ==> GoodPrefs(config, prefs[u])
  }

  /** An action that writes a locale or a zone writes a good one. */
  predicate GoodAction(config: Config, action: Action) {
    (action.SetLocale? ==> IsCode(action.locale)) && GoodZone(config, action)
  }

  predicate GoodZone(config: Config, action: Action) {
    action.SetTimezone? ==> IsValidTimezone(config, action.timezone)
  }

  // ---- Runs ----

  /** A request writes the locale it asks for, or that of the user's tag where there is none yet. */
  predicate RequestSlips(config: Config, prefs: map<string, UserPrefs>, r: Request) {
    && IsAllowedUser(config, r.userID)
    && if r.action.SetLocale? then !GoodLocale(config, r.action.locale)
       else PrefsOf(prefs, r.userID).locale == "" && Slips(config, r.languageCode)
  }

  lemma InitialNotEmpty(config: Config, tag: string)
    requires FallbackLocale(config) != ""
    ensures InitialLocale(config, tag) != ""
  {
    SupportedIsCode(tag);
    Text.TrimTrims("");
    if IsCode("") { CodesAreTrimmed(""); }
  }

  /** One request keeps all rows good exactly if it does not slip. */
  lemma RequestExact(config: Config, tables: Tables, r: Request)
    requires AllGood(config, tables.prefs) && FallbackLocale(config) != "" && config.defaultTimezone != ""
    requires GoodZone(config, r.action) && (r.action.SetLocale? ==> r.action.locale != "")
    ensures AllGood(config, ApplyRequest(config, tables, Some(r)).prefs) <==> !RequestSlips(config, tables.prefs, r)
  {
    if IsAllowedUser(config, r.userID) {
      var after := ApplyRequest(config, tables, Some(r)).prefs;
      assert forall u :: u in after && u != r.userID ==> u in tables.prefs && after[u] == tables.prefs[u];
      OwnRowExact(config, tables.prefs, r);
      assert r.userID in after;
    }
  }

  predicate GoodButLocale(config: Config, prefs: UserPrefs) {
    prefs.locale != "" && GoodTimezone(config, prefs.timezone) && prefs.timezone != ""
  }

  lemma EnsuredRow(config: Config, prefs: map<string, UserPrefs>, userID: string, tag: string)
    requires AllGood(config, prefs) && FallbackLocale(config) != "" && config.defaultTimezone != ""
    ensures var after := Ensured(config, prefs, userID, tag);
            && userID in after && GoodButLocale(config, after[userID])
            && (GoodLocale(config, after[userID].locale) <==> !(PrefsOf(prefs, userID).locale == "" && Slips(config, tag)))
  {
    InitialLocaleExact(config, tag);
    InitialNotEmpty(config, tag);
    assert userID in prefs ==> GoodPrefs(config, prefs[userID]);
  }

  lemma ChangedRow(config: Config, prefs: map<string, UserPrefs>, userID: string, action: Action)
    requires userID in prefs && GoodButLocale(config, prefs[userID])
    requires GoodZone(config, action) && (action.SetLocale? ==> action.locale != "")
    ensures var after := ApplyToPrefs(config, prefs, userID, action);
            userID in after && (GoodPrefs(config, after[userID]) <==>
                                  GoodLocale(config, if action.SetLocale? then action.locale else prefs[userID].locale))
  {
    if action.SetTimezone? { assert action.timezone != "" by { Text.TrimTrims(""); } }
  }

  lemma OwnRowExact(config: Config, prefs: map<string, UserPrefs>, r: Request)
    requires AllGood(config, prefs) && FallbackLocale(config) != "" && config.defaultTimezone != ""
    requires GoodZone(config, r.action) && (r.action.SetLocale? ==> r.action.locale != "")
    requires IsAllowedUser(config, r.userID)
    ensures var after := ApplyToPrefs(config, Ensured(config, prefs, r.userID, r.languageCode), r.userID, r.action);
            r.userID in after && (GoodPrefs(config, after[r.userID]) <==> !RequestSlips(config, prefs, r))
  {
    EnsuredRow(config, prefs, r.userID, r.languageCode);
    ChangedRow(config, Ensured(config, prefs, r.userID, r.languageCode), r.userID, r.action);
  }

  /** The language that an update chooses, as it is given. */
  function ChosenLanguage(update: Update): Option<string> {
    match update
    case Message(_, raw, _) =>
      var text := Text.Trim(raw);
      var arg := CommandOnlyArg(ParseCommand(text), text);
      if IntentOf(text) == Preferring("lang") && arg != "" then Some(arg) else None
    case Press(_, data, _, _, _) =>
      var callback := Menu.DecodeCallback(data);
      if callback.Preference? && callback.choice.ChooseLanguage? then Some(callback.choice.code) else None
  }

  function TagOf(update: Update): string {
    if update.Message? && update.from.None? then "" else update.languageCode
  }

  /** An update stores a locale that is neither a code nor the default: by choosing a language
      with a blank before its separator, or by being the first of a user with such a tag. */
  predicate UpdateSlips(config: Config, prefs: map<string, UserPrefs>, update: Update) {
    && Handled(update) && IsAllowedUser(config, UserID(update))
    && match ChosenLanguage(update)
       case Some(code) =>
         if LocaleAction(code).SetLocale? then Slips(config, code)
         else PrefsOf(prefs, UserID(update)).locale == "" && Slips(config, TagOf(update))
       case None => PrefsOf(prefs, UserID(update)).locale == "" && Slips(config, TagOf(update))
  }

  /** The action of an update that chooses a language, and that of any other one. */
  lemma ActionOfChosen(config: Config, update: Update)
    ensures match ChosenLanguage(update)
            case Some(code) => ActionOf(config, update) == LocaleAction(code)
            case None => !ActionOf(config, update).SetLocale?
  {
    match update
    case Message(_, raw, _) => IntentChoice(config, IntentOf(Text.Trim(raw)), CommandOnlyArg(ParseCommand(Text.Trim(raw)), Text.Trim(raw)));
    case Press(_, data, _, _, _) =>
  }

  lemma IntentChoice(config: Config, intent: Intent, arg: string)
    ensures if intent == Preferring("lang") && arg != "" then ActionOfIntent(config, intent, arg) == LocaleAction(arg)
            else !ActionOfIntent(config, intent, arg).SetLocale?
  {
  }

  lemma ActionZone(config: Config, update: Update)
    ensures GoodZone(config, ActionOf(config, update))
  {
    match update
    case Message(_, raw, _) => IntentZone(config, IntentOf(Text.Trim(raw)), CommandOnlyArg(ParseCommand(Text.Trim(raw)), Text.Trim(raw)));
    case Press(_, data, _, _, _) =>
  }

  lemma IntentZone(config: Config, intent: Intent, arg: string)
    ensures GoodZone(config, ActionOfIntent(config, intent, arg))
  {
  }

  lemma SlipsTrimmed(config: Config, tag: string)
    ensures Slips(config, Text.Trim(tag)) <==> Slips(config, tag)
  {
    Text.TrimTrims(tag);
    Text.TrimTrims(Text.Trim(tag));
  }

  lemma ChosenNotEmpty(code: string)
    ensures LocaleAction(code).SetLocale? ==> LocaleAction(code).locale != ""
  {
    SupportedIsCode(code);
    NormalizeTwice(code);
    Text.TrimTrims("");
    if IsCode("") { CodesAreTrimmed(""); }
    NormalizeOfNormalized(code);
  }

  lemma DecodedSlips(config: Config, prefs: map<string, UserPrefs>, update: Update)
    requires Handled(update)
    ensures RequestSlips(config, prefs, Decode(config, update).value) <==> UpdateSlips(config, prefs, update)
  {
    ActionOfChosen(config, update);
    SlipsTrimmed(config, update.languageCode);
    if ChosenLanguage(update).Some? { ChosenLocaleExact(config, ChosenLanguage(update).value); }
  }

  /** One update keeps every stored locale a supported code or the default, and every zone valid or
      the default, exactly if it does not slip. */
  lemma UpdateExact(config: Config, tables: Tables, update: Update)
    requires AllGood(config, tables.prefs) && FallbackLocale(config) != "" && config.defaultTimezone != ""
    ensures AllGood(config, ApplyRequest(config, tables, Decode(config, update)).prefs) <==> !UpdateSlips(config, tables.prefs, update)
  {
    if Handled(update) {
      ActionZone(config, update);
      ActionOfChosen(config, update);
      if ChosenLanguage(update).Some? { ChosenNotEmpty(ChosenLanguage(update).value); }
      DecodedSlips(config, tables.prefs, update);
      RequestExact(config, tables, Decode(config, update).value);
    }
  }

  /** The rows after the first i updates. */
  function PrefsAfter(config: Config, updates: seq<Update>, i: nat): map<string, UserPrefs>
    requires i <= |updates|
  {
    TablesAfter(config, DecodeAll(config, updates[..i])).prefs
  }

  lemma OneMoreUpdate(config: Config, updates: seq<Update>, i: nat)
    requires i < |updates|
    ensures TablesAfter(config, DecodeAll(config, updates[..i + 1]))
            == ApplyRequest(config, TablesAfter(config, DecodeAll(config, updates[..i])), Decode(config, updates[i]))
  {
    assert DecodeAll(config, updates[..i + 1]) == DecodeAll(config, updates[..i]) + [Decode(config, updates[i])];
    assert DecodeAll(config, updates[..i + 1])[..i] == DecodeAll(config, updates[..i]);
  }

  ghost predicate GoodSoFar(config: Config, updates: seq<Update>, n: nat)
    requires n <= |updates|
  {
    forall i {:trigger PrefsAfter(config, updates, i)} :: 0 <= i <= n ==> AllGood(config, PrefsAfter(config, updates, i))
  }

  ghost predicate NoneSlips(config: Config, updates: seq<Update>, n: nat)
    requires n <= |updates|
  {
    forall i {:trigger PrefsAfter(config, updates, i)} :: 0 <= i < n ==> !UpdateSlips(config, PrefsAfter(config, updates, i), updates[i])
  }

  lemma SoFarSplits(config: Config, updates: seq<Update>, n: nat)
    requires n < |updates|
    ensures GoodSoFar(config, updates, n + 1) <==> GoodSoFar(config, updates, n) && AllGood(config, PrefsAfter(config, updates, n + 1))
    ensures NoneSlips(config, updates, n + 1) <==>
              NoneSlips(config, updates, n) && !UpdateSlips(config, PrefsAfter(config, updates, n), updates[n])
  {
  }

  lemma NextExact(config: Config, updates: seq<Update>, n: nat)
    requires n < |updates| && FallbackLocale(config) != "" && config.defaultTimezone != ""
    requires AllGood(config, PrefsAfter(config, updates, n))
    ensures AllGood(config, PrefsAfter(config, updates, n + 1)) <==> !UpdateSlips(config, PrefsAfter(config, updates, n), updates[n])
  {
    OneMoreUpdate(config, updates, n);
    UpdateExact(config, TablesAfter(config, DecodeAll(config, updates[..n])), updates[n]);
  }

  /** Over a whole run: all rows are good at every point if and only if none of the updates slips. */
  lemma {:induction false} StoredPrefsExact(config: Config, updates: seq<Update>, n: nat)
    requires n <= |updates| && FallbackLocale(config) != "" && config.defaultTimezone != ""
    ensures GoodSoFar(config, updates, n) <==> NoneSlips(config, updates, n)
  {
    if n == 0 {
      assert DecodeAll(config, updates[..0]) == [];
    } else {
      StoredPrefsExact(config, updates, n - 1);
      SoFarSplits(config, updates, n - 1);
      if GoodSoFar(config, updates, n - 1) {
        assert AllGood(config, PrefsAfter(config, updates, n - 1));
        NextExact(config, updates, n - 1);
      }
    }
  }

  /** Language tags, and languages chosen by a button, hold no white space inside. */
  predicate CleanUpdate(update: Update) {
    && Text.NoSpace(Text.Trim(update.languageCode))
    && (update.Press? && ChosenLanguage(update).Some? ==> Text.NoSpace(Text.Trim(ChosenLanguage(update).value)))
  }

  lemma CleanTagDoesNotSlip(config: Config, tag: string)
    requires Text.NoSpace(Text.Trim(tag))
    ensures !Slips(config, tag)
  {
  }

  lemma ArgHasNoSpace(text: string)
    ensures Text.NoSpace(Text.Trim(CommandArg(text)))
  {
    var fields := Text.Fields(text);
    if |fields| >= 2 {
      Text.FieldsHaveNoSpace(text, 1);
      Text.TrimNoSpace(fields[1]);
    }
  }

  lemma CleanUpdateDoesNotSlip(config: Config, prefs: map<string, UserPrefs>, update: Update)
    requires CleanUpdate(update)
    ensures !UpdateSlips(config, prefs, update)
  {
    CleanTagDoesNotSlip(config, update.languageCode);
    Text.TrimTrims("");
    CleanTagDoesNotSlip(config, "");
    if ChosenLanguage(update).Some? {
      if update.Message? { ArgHasNoSpace(Text.Trim(update.text)); }
      CleanTagDoesNotSlip(config, ChosenLanguage(update).value);
    }
  }

  /** So over any run with tags of the usual shape every locale the bot has stored is a supported
      code or the resolved default, and every zone valid or the configured default; no field is
      empty. */
  lemma StoredPrefsAreGood(config: Config, updates: seq<Update>)
    requires forall i :: 0 <= i < |updates| ==> CleanUpdate(updates[i])
    requires FallbackLocale(config) != "" && config.defaultTimezone != ""
    ensures AllGood(config, TablesAfter(config, DecodeAll(config, updates)).prefs)
  {
    forall i | 0 <= i < |updates| ensures !UpdateSlips(config, PrefsAfter(config, updates, i), updates[i]) {
      CleanUpdateDoesNotSlip(config, PrefsAfter(config, updates, i), updates[i]);
    }
    StoredPrefsExact(config, updates, |updates|);
    assert updates[..|updates|] == updates;
    assert AllGood(config, PrefsAfter(config, updates, |updates|));
  }

  // ---- Runs with storage faults ----

  /** An update and the calls of the store that fail while it is handled. */
  datatype Trial = Trial(update: Update, faults: Faults)

  ghost function TriedAll(config: Config, trials: seq<Trial>): Tables {
    if |trials| == 0 then Tables({}, map[])
    else
      var n := |trials| - 1;
      TryRequest(config, TriedAll(config, trials[..n]), Decode(config, trials[n].update), trials[n].faults)
  }

  /** A request that does not slip, nor would if it did nothing else, keeps all rows good at whatever
      call it breaks off. */
  lemma TryRequestGood(config: Config, tables: Tables, r: Request, faults: Faults)
    requires AllGood(config, tables.prefs) && FallbackLocale(config) != "" && config.defaultTimezone != ""
    requires GoodZone(config, r.action) && (r.action.SetLocale? ==> r.action.locale != "")
    requires !RequestSlips(config, tables.prefs, r) && !Slips(config, r.languageCode)
    ensures AllGood(config, TryRequest(config, tables, Some(r), faults).prefs)
  {
    RequestExact(config, tables, r);
    RequestExact(config, tables, Request(r.userID, r.languageCode, NoChange));
  }

  /** A clean update keeps all rows good at whatever call it breaks off. */
  lemma TryKeepsGood(config: Config, tables: Tables, update: Update, faults: Faults)
    requires AllGood(config, tables.prefs) && FallbackLocale(config) != "" && config.defaultTimezone != ""
    requires CleanUpdate(update)
    ensures AllGood(config, TryRequest(config, tables, Decode(config, update), faults).prefs)
  {
    if Handled(update) {
      CleanUpdateDoesNotSlip(config, tables.prefs, update);
      DecodedSlips(config, tables.prefs, update);
      DecodedShape(config, update);
      TryRequestGood(config, tables, Decode(config, update).value, faults);
    }
  }

  lemma DecodedShape(config: Config, update: Update)
    requires CleanUpdate(update) && Handled(update)
    ensures var r := Decode(config, update).value;
            && GoodZone(config, r.action) && (r.action.SetLocale? ==> r.action.locale != "")
            && !Slips(config, r.languageCode)
  {
    ActionZone(config, update);
    ActionOfChosen(config, update);
    if ChosenLanguage(update).Some? { ChosenNotEmpty(ChosenLanguage(update).value); }
    CleanTagDoesNotSlip(config, update.languageCode);
    SlipsTrimmed(config, update.languageCode);
    Text.TrimTrims("");
    CleanTagDoesNotSlip(config, "");
  }

  /** Over any run with tags of the usual shape, whatever calls of the store fail, every stored locale
      is a supported code or the default and every zone valid or the default. */
  lemma {:induction false} StoredPrefsSurviveFaults(config: Config, trials: seq<Trial>)
    requires forall i :: 0 <= i < |trials| ==> CleanUpdate(trials[i].update)
    requires FallbackLocale(config) != "" && config.defaultTimezone != ""
    ensures AllGood(config, TriedAll(config, trials).prefs)
  {
    if |trials| > 0 {
      var n := |trials| - 1;
      StoredPrefsSurviveFaults(config, trials[..n]);
      TryKeepsGood(config, TriedAll(config, trials[..n]), trials[n].update, trials[n].faults);
    }
  }

  // ---- Fields ----

  /** Fields of a row that hold something still hold something in another. */
  predicate KeepsFilled(before: UserPrefs, after: UserPrefs) {
    (before.locale != "" ==> after.locale != "") && (before.timezone != "" ==> after.timezone != "")
  }

  lemma StoreKeepsFilled(prefs: map<string, UserPrefs>, userID: string, given: UserPrefs, u: string)
    ensures KeepsFilled(PrefsOf(prefs, u), PrefsOf(WithRow(prefs, userID, given), u))
  {
  }

  lemma ActionKeepsFilled(config: Config, prefs: map<string, UserPrefs>, userID: string, action: Action, u: string)
    ensures KeepsFilled(PrefsOf(prefs, u), PrefsOf(ApplyToPrefs(config, prefs, userID, action), u))
  {
    var current := WithDefaults(config, PrefsOf(prefs, userID));
    match action
    case SetLocale(locale) => StoreKeepsFilled(prefs, userID, current.(locale := locale), u);
    case SetTimezone(timezone) => StoreKeepsFilled(prefs, userID, current.(timezone := timezone), u);
    case SetShort(short) => StoreKeepsFilled(prefs, userID, current.(short := short), u);
    case _ =>
  }

  /** Whatever is requested, a field that holds something never becomes empty again. */
  lemma NeverEmptyAgain(config: Config, tables: Tables, request: Option<Request>, u: string)
    ensures KeepsFilled(PrefsOf(tables.prefs, u), PrefsOf(ApplyRequest(config, tables, request).prefs, u))
  {
    if request.Some? {
      var r := request.value;
      StoreKeepsFilled(tables.prefs, r.userID, Initialised(config, PrefsOf(tables.prefs, r.userID), r.languageCode), u);
      ActionKeepsFilled(config, Ensured(config, tables.prefs, r.userID, r.languageCode), r.userID, r.action, u);
    }
  }

  /** Nor if calls of the store fail on the way. */
  lemma NeverEmptyWhateverFails(config: Config, tables: Tables, request: Option<Request>, faults: Faults, u: string)
    ensures KeepsFilled(PrefsOf(tables.prefs, u), PrefsOf(TryRequest(config, tables, request, faults).prefs, u))
  {
    if request.Some? {
      var r := request.value;
      StoreKeepsFilled(tables.prefs, r.userID, Initialised(config, PrefsOf(tables.prefs, r.userID), r.languageCode), u);
      ActionKeepsFilled(config, Ensured(config, tables.prefs, r.userID, r.languageCode), r.userID, r.action, u);
    }
  }

  /** How many of the three fields differ. */
  function Differences(a: UserPrefs, b: UserPrefs): nat {
    (if a.locale == b.locale then 0 else 1) + (if a.timezone == b.timezone then 0 else 1) + (if a.short == b.short then 0 else 1)
  }

  /** For a user already initialised an update changes at most one field of that user's row, and
      it never touches another user's. */
  lemma OneFieldOfOneUser(config: Config, tables: Tables, request: Request, u: string)
    requires PrefsOf(tables.prefs, request.userID).locale != "" && PrefsOf(tables.prefs, request.userID).timezone != ""
    ensures var before, after := PrefsOf(tables.prefs, u), PrefsOf(ApplyRequest(config, tables, Some(request)).prefs, u);
            Differences(before, after) <= (if u == request.userID then 1 else 0)
  {
  }

  /** The field that a preference action is about gets the value it asks for. */
  lemma ActionTakesEffect(config: Config, prefs: map<string, UserPrefs>, userID: string, action: Action)
    ensures var after := PrefsOf(ApplyToPrefs(config, prefs, userID, action), userID);
            && (action.SetLocale? && action.locale != "" ==> after.locale == action.locale)
            && (action.SetTimezone? && action.timezone != "" ==> after.timezone == action.timezone)
            && (action.SetShort? ==> after.short == action.short)
  {
  }

  /** Initialising never overwrites what is there, and fills what is not. */
  lemma EnsuredKeeps(config: Config, prefs: map<string, UserPrefs>, userID: string, languageCode: string)
    ensures var before, after := PrefsOf(prefs, userID), PrefsOf(Ensured(config, prefs, userID, languageCode), userID);
            && (before.locale != "" ==> after.locale == before.locale)
            && (before.locale == "" ==> after.locale == InitialLocale(config, languageCode))
            && (before.timezone != "" ==> after.timezone == before.timezone)
            && (before.timezone == "" ==> after.timezone == config.defaultTimezone)
            && after.short == before.short
  {
  }

  predicate RegisteredAction(action: Action) {
    action.SubscribeTo? ==> Events.IsSupported(action.eventType)
  }

  /** Every stored subscription is to a registered type. */
  lemma SubscriptionsAreRegistered(config: Config, updates: seq<Update>)
    ensures forall p :: p in TablesAfter(config, DecodeAll(config, updates)).subscriptions ==> p.1 in Events.REGISTRY
  {
    var requests := DecodeAll(config, updates);
    forall i | 0 <= i < |requests| && requests[i].Some? ensures RegisteredAction(requests[i].value.action) {
      DecodeRegistered(config, updates[i]);
    }
    RequestsKeepRegistered(config, requests);
  }

  lemma {:induction false} RequestsKeepRegistered(config: Config, requests: seq<Option<Request>>)
    requires forall i :: 0 <= i < |requests| && requests[i].Some? ==> RegisteredAction(requests[i].value.action)
    ensures forall p :: p in TablesAfter(config, requests).subscriptions ==> p.1 in Events.REGISTRY
  {
    if |requests| > 0 {
      var n := |requests| - 1;
      RequestsKeepRegistered(config, requests[..n]);
      if requests[n].Some? {
        assert RegisteredAction(requests[n].value.action);
        ApplyRegistered(TablesAfter(config, requests[..n]).subscriptions, requests[n].value.userID, requests[n].value.action);
      }
    }
  }

  lemma MessageRegistered(config: Config, text: string)
    ensures RegisteredAction(ActionOfMessage(config, text))
  {
  }

  lemma CallbackRegistered(config: Config, data: string)
    ensures RegisteredAction(ActionOfCallback(config, data))
  {
  }

  lemma DecodeRegistered(config: Config, update: Update)
    ensures Decode(config, update).Some? ==> RegisteredAction(Decode(config, update).value.action)
  {
    match update
    case Message(_, text, _) => MessageRegistered(config, Text.Trim(text));
    case Press(_, data, _, _, _) => CallbackRegistered(config, data);
  }

  lemma ApplyRegistered(subscriptions: set<(string, string)>, userID: string, action: Action)
    requires forall p :: p in subscriptions ==> p.1 in Events.REGISTRY
    requires RegisteredAction(action)
    ensures forall p :: p in ApplyToSubscriptions(subscriptions, userID, action) ==> p.1 in Events.REGISTRY
  {
    forall e | e in Events.REGISTRY ensures Text.Trim(e) == e { Events.RegisteredArePlain(e); }
  }

  lemma InsertedAreRegistered(userID: string, faults: Faults)
    ensures forall p :: p in PairsOf(userID, TypesInserted(faults)) ==> p.1 in Events.REGISTRY
  {
    var types := Text.Sorted(Events.REGISTRY.Keys);
    forall e | e in TypesInserted(faults) ensures e in Events.REGISTRY && Text.Trim(e) == e {
      assert e in types && e in Text.Elements(types);
      Events.RegisteredArePlain(e);
    }
  }

  lemma TryRegistered(config: Config, tables: Tables, request: Request, faults: Faults)
    requires forall p :: p in tables.subscriptions ==> p.1 in Events.REGISTRY
    requires RegisteredAction(request.action)
    ensures forall p :: p in TryRequest(config, tables, Some(request), faults).subscriptions ==> p.1 in Events.REGISTRY
  {
    InsertedAreRegistered(request.userID, faults);
    ApplyRegistered(tables.subscriptions, request.userID, request.action);
  }

  /** Every stored subscription is to a registered type whatever calls of the store fail. */
  lemma {:induction false} RegisteredWhateverFails(config: Config, trials: seq<Trial>)
    ensures forall p :: p in TriedAll(config, trials).subscriptions ==> p.1 in Events.REGISTRY
  {
    if |trials| > 0 {
      var n := |trials| - 1;
      RegisteredWhateverFails(config, trials[..n]);
      DecodeRegistered(config, trials[n].update);
      if Handled(trials[n].update) {
        TryRegistered(config, TriedAll(config, trials[..n]), Decode(config, trials[n].update).value, trials[n].faults);
      }
    }
  }

}
