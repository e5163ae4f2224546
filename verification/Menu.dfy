/** Inline keyboards (internal/bot/menu.go) and the decoding of what their buttons send back
    (HandleCallback and handlePrefsCallback in internal/bot/handler.go). */
module Menu {

  const SUBSCRIBE_PREFIX := "sub:"
  const UNSUBSCRIBE_PREFIX := "unsub:"
  const PREFS_PREFIX := "prefs:"

  datatype Button = Button(text: string, data: string, style: string)

  datatype SupportedLocale = SupportedLocale(code: string, flag: string)

  const SUPPORTED_LOCALES: seq<SupportedLocale> := [
    SupportedLocale("de", "🇩🇪"), SupportedLocale("en", "🇬🇧"), SupportedLocale("es", "🇪🇸"), SupportedLocale("fr", "🇫🇷"),
    SupportedLocale("it", "🇮🇹"), SupportedLocale("pt", "🇵🇹"), SupportedLocale("ru", "🇷🇺"), SupportedLocale("uk", "🇺🇦")]

  // ---- Building keyboards ----

  function ExitButton(): Button { Button("✖️", PREFS_PREFIX + "exit", "primary") }

  function BackButton(): Button { Button("↩️", PREFS_PREFIX + "back", "primary") }

  function Flatten(rows: seq<seq<Button>>): seq<Button> {
    if |rows| == 0 then [] else Flatten(rows[..|rows| - 1]) + rows[|rows| - 1]
  }

  /** Full rows of two, of which only the last may be short, and no empty row. */
  predicate TwoColumns(rows: seq<seq<Button>>) {
    && (forall i :: 0 <= i < |rows| ==> 1 <= |rows[i]| <= 2)
    && (forall i :: 0 <= i < |rows| - 1 ==> |rows[i]| == 2)
  }

  lemma FlattenPush(rows: seq<seq<Button>>, row: seq<Button>)
    ensures Flatten(rows + [row]) == Flatten(rows) + row
  {
    assert (rows + [row])[..|rows|] == rows;
  }

  /** One button per type, each in a row of its own, then the exit button. */
  method EventInlineKeyboard(prefix: string, eventTypes: seq<string>) returns (rows: seq<seq<Button>>)
    ensures |rows| == |eventTypes| + 1
    ensures forall i :: 0 <= i < |eventTypes| ==> rows[i] == [Button(eventTypes[i], prefix + eventTypes[i], "")]
    ensures rows[|eventTypes|] == [ExitButton()]
  {
    rows := [];
    for i := 0 to |eventTypes|
      invariant |rows| == i
      invariant forall j :: 0 <= j < i ==> rows[j] == [Button(eventTypes[j], prefix + eventTypes[j], "")]
    {
      rows := rows + [[Button(eventTypes[i], prefix + eventTypes[i], "")]];
    }
    rows := rows + [[ExitButton()]];
  }

  function LocaleButton(locale: SupportedLocale, current: string): Button {
    Button(locale.flag, PREFS_PREFIX + "lang:" + locale.code, if locale.code == current then "success" else "")
  }

  function LocaleButtons(locales: seq<SupportedLocale>, current: string): (r: seq<Button>)
    ensures |r| == |locales|
  {
    seq(|locales|, i requires 0 <= i < |locales| => LocaleButton(locales[i], current))
  }

  lemma LocaleButtonsPush(locales: seq<SupportedLocale>, i: nat, current: string)
    requires i < |locales|
    ensures LocaleButtons(locales[..i + 1], current) == LocaleButtons(locales[..i], current) + [LocaleButton(locales[i], current)]
  {
  }

  /** The rows built so far and the row being filled hold the buttons so far. */
  predicate Filling(rows: seq<seq<Button>>, row: seq<Button>, buttons: seq<Button>, last: bool) {
    && (forall i :: 0 <= i < |rows| ==> 1 <= |rows[i]| <= 2)
    && (forall i :: 0 <= i < |rows| - (if last then 1 else 0) ==> |rows[i]| == 2)
    && |row| <= 1 && (last ==> row == [])
    && Flatten(rows) + row == buttons
  }

  /** Closing a row in a two-column loop. */
  lemma FillRow(rows: seq<seq<Button>>, row: seq<Button>, buttons: seq<Button>, button: Button, last: bool)
    requires Filling(rows, row, buttons, false) && (|row| == 1 || last)
    ensures Filling(rows + [row + [button]], [], buttons + [button], last)
  {
    var closed := row + [button];
    FillSizes(rows, closed, last);
    FillText(rows, row, buttons, button);
  }

  lemma FillSizes(rows: seq<seq<Button>>, closed: seq<Button>, last: bool)
    requires (forall i :: 0 <= i < |rows| ==> |rows[i]| == 2) && 1 <= |closed| <= 2 && (|closed| == 2 || last)
    ensures forall i :: 0 <= i < |rows + [closed]| ==> 1 <= |(rows + [closed])[i]| <= 2
    ensures forall i :: 0 <= i < |rows + [closed]| - (if last then 1 else 0) ==> |(rows + [closed])[i]| == 2
  {
  }

  lemma FillText(rows: seq<seq<Button>>, row: seq<Button>, buttons: seq<Button>, button: Button)
    requires Flatten(rows) + row == buttons
    ensures Flatten(rows + [row + [button]]) + [] == buttons + [button]
  {
    FlattenPush(rows, row + [button]);
    assert Flatten(rows) + (row + [button]) == Flatten(rows) + row + [button];
  }

  /** Opening a row. */
  lemma FillPart(rows: seq<seq<Button>>, row: seq<Button>, buttons: seq<Button>, button: Button)
    requires Filling(rows, row, buttons, false) && |row| == 0
    ensures Filling(rows, row + [button], buttons + [button], false)
  {
    assert Flatten(rows) + (row + [button]) == buttons + [button];
  }

  /** One turn of a two-column loop. */
  lemma FillOne(rows: seq<seq<Button>>, row: seq<Button>, buttons: seq<Button>, button: Button, last: bool)
    requires Filling(rows, row, buttons, false)
    ensures if |row| == 1 || last then Filling(rows + [row + [button]], [], buttons + [button], last)
            else Filling(rows, row + [button], buttons + [button], false)
  {
    if |row| == 1 || last { FillRow(rows, row, buttons, button, last); } else { FillPart(rows, row, buttons, button); }
  }

  lemma FooterLast(rows: seq<seq<Button>>, footer: seq<Button>)
    ensures (rows + [footer])[..|rows|] == rows && (rows + [footer])[|rows|] == footer
  {
  }

  lemma FillEnds(rows: seq<seq<Button>>, row: seq<Button>, buttons: seq<Button>, last: bool)
    requires Filling(rows, row, buttons, last) && (last || buttons == [])
    ensures TwoColumns(rows) && Flatten(rows) == buttons
  {
    if |rows| > 0 { FlattenNotEmpty(rows); }
  }

  lemma FlattenNotEmpty(rows: seq<seq<Button>>)
    requires |rows| > 0 && |rows[|rows| - 1]| > 0
    ensures |Flatten(rows)| > 0
  {
  }

  /** In rows of two, button number i stands in row i / 2 at place i % 2. */
  lemma {:induction false} PlaceOfButton(rows: seq<seq<Button>>, i: nat)
    requires TwoColumns(rows) && i < |Flatten(rows)|
    ensures i / 2 < |rows| && i % 2 < |rows[i / 2]| && rows[i / 2][i % 2] == Flatten(rows)[i]
  {
    var n := |rows| - 1;
    FullRows(rows[..n]);
    if i < 2 * n {
      PlaceOfButton(rows[..n], i);
    } else {
      assert i / 2 == n && i % 2 == i - 2 * n;
    }
  }

  lemma {:induction false} FullRows(rows: seq<seq<Button>>)
    requires forall i :: 0 <= i < |rows| ==> |rows[i]| == 2
    ensures TwoColumns(rows) && |Flatten(rows)| == 2 * |rows|
  {
    if |rows| > 0 { FullRows(rows[..|rows| - 1]); }
  }

  lemma RowCount(rows: seq<seq<Button>>)
    requires TwoColumns(rows)
    ensures |rows| == (|Flatten(rows)| + 1) / 2
  {
    if |rows| > 0 { FullRows(rows[..|rows| - 1]); }
  }

  lemma FooterIs()
    ensures BackButton() == Button("↩️", "prefs:back", "primary") && ExitButton() == Button("✖️", "prefs:exit", "primary")
  {
    assert PREFS_PREFIX + "exit" == "prefs:exit" && PREFS_PREFIX + "back" == "prefs:back";
  }

  lemma LocaleButtonsAre(locales: seq<SupportedLocale>, current: string)
    ensures forall i :: 0 <= i < |locales| ==>
              LocaleButtons(locales, current)[i]
              == Button(locales[i].flag, "prefs:lang:" + locales[i].code, if locales[i].code == current then "success" else "")
  {
    assert PREFS_PREFIX + "lang:" == "prefs:lang:";
  }

  lemma LocalePlaces(rows: seq<seq<Button>>, last: seq<Button>, locales: seq<SupportedLocale>, current: string)
    requires TwoColumns(rows) && Flatten(rows) == LocaleButtons(locales, current)
    ensures |rows| == (|locales| + 1) / 2
    ensures var all := rows + [last];
            forall i :: 0 <= i < |locales| ==>
              i / 2 < |all| - 1 && i % 2 < |all[i / 2]| && all[i / 2][i % 2]
              == Button(locales[i].flag, "prefs:lang:" + locales[i].code, if locales[i].code == current then "success" else "")
  {
    LocaleButtonsAre(locales, current);
    RowCount(rows);
    forall i | 0 <= i < |locales|
      ensures i / 2 < |rows| && i % 2 < |rows[i / 2]| && rows[i / 2][i % 2] == LocaleButtons(locales, current)[i]
    {
      PlaceOfButton(rows, i);
    }
  }

  /** The loop over the buttons. */
  method LanguageRows(locales: seq<SupportedLocale>, current: string) returns (rows: seq<seq<Button>>)
    ensures TwoColumns(rows) && Flatten(rows) == LocaleButtons(locales, current)
  {
    rows := [];
    var row: seq<Button> := [];
    for i := 0 to |locales|
      invariant Filling(rows, row, LocaleButtons(locales[..i], current), i > 0 && i == |locales|)
    {
      var button := Button(locales[i].flag, PREFS_PREFIX + "lang:" + locales[i].code, "");
      if locales[i].code == current {
        button := button.(style := "success");
      }
      assert button == LocaleButton(locales[i], current);
      LocaleButtonsPush(locales, i, current);
      FillOne(rows, row, LocaleButtons(locales[..i], current), button, i == |locales| - 1);
      row := row + [button];
      if |row| == 2 || i == |locales| - 1 {
        rows := rows + [row];
        row := [];
      }
    }
    assert locales[..|locales|] == locales;
    FillEnds(rows, row, LocaleButtons(locales, current), |locales| > 0);
  }

  method LanguageInlineKeyboard(locales: seq<SupportedLocale>, current: string) returns (rows: seq<seq<Button>>)
    ensures |rows| > 0 && rows[|rows| - 1] == [BackButton(), ExitButton()]
    ensures TwoColumns(rows[..|rows| - 1])
    ensures Flatten(rows[..|rows| - 1]) == LocaleButtons(locales, current)
    ensures |rows| == (|locales| + 1) / 2 + 1
    ensures forall i :: 0 <= i < |locales| ==>
              i / 2 < |rows| - 1 && i % 2 < |rows[i / 2]| && rows[i / 2][i % 2]
              == Button(locales[i].flag, "prefs:lang:" + locales[i].code, if locales[i].code == current then "success" else "")
    ensures rows[|rows| - 1] == [Button("↩️", "prefs:back", "primary"), Button("✖️", "prefs:exit", "primary")]
  {
    rows := LanguageRows(locales, current);
    LocalePlaces(rows, [BackButton(), ExitButton()], locales, current);
    FooterIs();
    FooterLast(rows, [BackButton(), ExitButton()]);
    rows := rows + [[BackButton(), ExitButton()]];
  }

  function TimezoneButton(timezone: string, current: string): Button {
    Button(timezone, PREFS_PREFIX + "tz:" + timezone, if timezone == current then "success" else "")
  }

  function TimezoneButtons(timezones: seq<string>, current: string): (r: seq<Button>)
    ensures |r| == |timezones|
  {
    seq(|timezones|, i requires 0 <= i < |timezones| => TimezoneButton(timezones[i], current))
  }

  lemma TimezoneButtonsPush(timezones: seq<string>, i: nat, current: string)
    requires i < |timezones|
    ensures TimezoneButtons(timezones[..i + 1], current)
            == TimezoneButtons(timezones[..i], current) + [TimezoneButton(timezones[i], current)]
  {
  }

  lemma TimezoneButtonsAre(timezones: seq<string>, current: string)
    ensures forall i :: 0 <= i < |timezones| ==>
              TimezoneButtons(timezones, current)[i]
              == Button(timezones[i], "prefs:tz:" + timezones[i], if timezones[i] == current then "success" else "")
  {
    assert PREFS_PREFIX + "tz:" == "prefs:tz:";
  }

  lemma TimezonePlaces(rows: seq<seq<Button>>, last: seq<Button>, timezones: seq<string>, current: string)
    requires TwoColumns(rows) && Flatten(rows) == TimezoneButtons(timezones, current)
    ensures |rows| == (|timezones| + 1) / 2
    ensures var all := rows + [last];
            forall i :: 0 <= i < |timezones| ==>
              i / 2 < |all| - 1 && i % 2 < |all[i / 2]| && all[i / 2][i % 2]
              == Button(timezones[i], "prefs:tz:" + timezones[i], if timezones[i] == current then "success" else "")
  {
    TimezoneButtonsAre(timezones, current);
    RowCount(rows);
    forall i | 0 <= i < |timezones|
      ensures i / 2 < |rows| && i % 2 < |rows[i / 2]| && rows[i / 2][i % 2] == TimezoneButtons(timezones, current)[i]
    {
      PlaceOfButton(rows, i);
    }
  }

  /** The loop over the buttons. */
  method TimezoneRows(timezones: seq<string>, current: string) returns (rows: seq<seq<Button>>)
    ensures TwoColumns(rows) && Flatten(rows) == TimezoneButtons(timezones, current)
  {
    rows := [];
    var row: seq<Button> := [];
    for i := 0 to |timezones|
      invariant Filling(rows, row, TimezoneButtons(timezones[..i], current), i > 0 && i == |timezones|)
    {
      var button := Button(timezones[i], PREFS_PREFIX + "tz:" + timezones[i], "");
      if timezones[i] == current {
        button := button.(style := "success");
      }
      assert button == TimezoneButton(timezones[i], current);
      TimezoneButtonsPush(timezones, i, current);
      FillOne(rows, row, TimezoneButtons(timezones[..i], current), button, i == |timezones| - 1);
      row := row + [button];
      if |row| == 2 || i == |timezones| - 1 {
        rows := rows + [row];
        row := [];
      }
    }
    assert timezones[..|timezones|] == timezones;
    FillEnds(rows, row, TimezoneButtons(timezones, current), |timezones| > 0);
  }

  method TimezoneInlineKeyboard(timezones: seq<string>, current: string) returns (rows: seq<seq<Button>>)
    ensures |rows| > 0 && rows[|rows| - 1] == [BackButton(), ExitButton()]
    ensures TwoColumns(rows[..|rows| - 1])
    ensures Flatten(rows[..|rows| - 1]) == TimezoneButtons(timezones, current)
    ensures |rows| == (|timezones| + 1) / 2 + 1
    ensures forall i :: 0 <= i < |timezones| ==>
              i / 2 < |rows| - 1 && i % 2 < |rows[i / 2]| && rows[i / 2][i % 2]
              == Button(timezones[i], "prefs:tz:" + timezones[i], if timezones[i] == current then "success" else "")
    ensures rows[|rows| - 1] == [Button("↩️", "prefs:back", "primary"), Button("✖️", "prefs:exit", "primary")]
  {
    rows := TimezoneRows(timezones, current);
    TimezonePlaces(rows, [BackButton(), ExitButton()], timezones, current);
    FooterIs();
    FooterLast(rows, [BackButton(), ExitButton()]);
    rows := rows + [[BackButton(), ExitButton()]];
  }

  // ---- Decoding callbacks ----

  datatype Choice =
    | Exit
    | Back
    | ShowLanguages
    | ShowTimezones
    | ShowShort
    | ChooseLanguage(code: string)
    | ChooseTimezone(timezone: string)
    | ChooseShort(on: bool)
    | NoChoice

  datatype Callback = Subscribe(eventType: string) | Unsubscribe(eventType: string) | Preference(choice: Choice) | Ignored

  function After(prefix: string, s: string): string
    requires prefix <= s
  {
    s[|prefix|..]
  }

  /** The switch of handlePrefsCallback. */
  function DecodeChoice(action: string): Choice {
    if action == "exit" then Exit
    else if action == "back" then Back
    else if action == "lang" then ShowLanguages
    else if action == "timezone" then ShowTimezones
    else if action == "short" then ShowShort
    else if "lang:" <= action then ChooseLanguage(After("lang:", action))
    else if "tz:" <= action then ChooseTimezone(After("tz:", action))
    else if action == "short:on" || action == "short:off" then ChooseShort(action == "short:on")
    else NoChoice
  }

  /** The switch of HandleCallback. */
  function DecodeCallback(data: string): Callback {
    if SUBSCRIBE_PREFIX <= data then Subscribe(After(SUBSCRIBE_PREFIX, data))
    else if UNSUBSCRIBE_PREFIX <= data then Unsubscribe(After(UNSUBSCRIBE_PREFIX, data))
    else if PREFS_PREFIX <= data then Preference(DecodeChoice(After(PREFS_PREFIX, data)))
    else Ignored
  }

  /** The buttons of the preferences summary open the three lists; any other data is ignored. */
  lemma SummaryButtonsDecode()
    ensures DecodeCallback("prefs:lang") == Preference(ShowLanguages) && DecodeCallback("prefs:timezone") == Preference(ShowTimezones)
    ensures DecodeCallback("prefs:short") == Preference(ShowShort)
    ensures DecodeCallback("prefs:exit") == Preference(Exit) && DecodeCallback("prefs:back") == Preference(Back)
  {
    PreferenceDecodes("prefs:lang", "lang");
    PreferenceDecodes("prefs:timezone", "timezone");
    PreferenceDecodes("prefs:short", "short");
    PreferenceDecodes("prefs:exit", "exit");
    PreferenceDecodes("prefs:back", "back");
    ListsAreShown();
  }

  lemma ListsAreShown()
    ensures DecodeChoice("lang") == ShowLanguages && DecodeChoice("timezone") == ShowTimezones && DecodeChoice("short") == ShowShort
    ensures DecodeChoice("exit") == Exit && DecodeChoice("back") == Back
  {
  }

  /** Decoding gives back what a button was built from, whatever type, code or zone it was. */
  lemma DecodeInvertsBuild(s: string)
    ensures DecodeCallback(SUBSCRIBE_PREFIX + s) == Subscribe(s)
    ensures DecodeCallback(UNSUBSCRIBE_PREFIX + s) == Unsubscribe(s)
    ensures DecodeCallback(PREFS_PREFIX + "lang:" + s) == Preference(ChooseLanguage(s))
    ensures DecodeCallback(PREFS_PREFIX + "tz:" + s) == Preference(ChooseTimezone(s))
  {
    DecodePrefixed(s);
    var lang, tz := "lang:" + s, "tz:" + s;
    assert PREFS_PREFIX + "lang:" + s == PREFS_PREFIX + lang && PREFS_PREFIX + "tz:" + s == PREFS_PREFIX + tz;
    DecodePrefixed(lang);
    DecodePrefixed(tz);
    ChoiceInverts(s);
  }

  lemma DecodePrefixed(s: string)
    ensures DecodeCallback(SUBSCRIBE_PREFIX + s) == Subscribe(s)
    ensures DecodeCallback(UNSUBSCRIBE_PREFIX + s) == Unsubscribe(s)
    ensures DecodeCallback(PREFS_PREFIX + s) == Preference(DecodeChoice(s))
  {
    assert (UNSUBSCRIBE_PREFIX + s)[0] == 'u' && (PREFS_PREFIX + s)[0] == 'p';
  }

  lemma ChoiceInverts(s: string)
    ensures DecodeChoice("lang:" + s) == ChooseLanguage(s)
    ensures DecodeChoice("tz:" + s) == ChooseTimezone(s)
  {
    assert ("lang:" + s)[4] == ':' && |"lang:" + s| >= 5;
    assert ("tz:" + s)[1] == 'z';
  }

  lemma {:induction false} FlattenMember(rows: seq<seq<Button>>, i: nat, j: nat)
    requires i < |rows| && j < |rows[i]|
    ensures rows[i][j] in Flatten(rows)
  {
    if i < |rows| - 1 { FlattenMember(rows[..|rows| - 1], i, j); }
  }

  /** Pressing any button of the language keyboard chooses the code of a listed locale. */
  lemma LanguageButtonsDecode(rows: seq<seq<Button>>, locales: seq<SupportedLocale>, current: string, i: nat, j: nat)
    requires Flatten(rows) == LocaleButtons(locales, current) && i < |rows| && j < |rows[i]|
    ensures exists n :: 0 <= n < |locales| && rows[i][j] == LocaleButton(locales[n], current)
                        && DecodeCallback(rows[i][j].data) == Preference(ChooseLanguage(locales[n].code))
  {
    FlattenMember(rows, i, j);
    var n :| 0 <= n < |locales| && LocaleButtons(locales, current)[n] == rows[i][j];
    DecodeInvertsBuild(locales[n].code);
    assert rows[i][j] == LocaleButton(locales[n], current);
  }

  lemma ShortDecodes()
    ensures DecodeChoice("short:on") == ChooseShort(true) && DecodeChoice("short:off") == ChooseShort(false)
  {
    assert "short:on"[0] == 's' && "short:off"[0] == 's';
    assert |"short:on"| == 8 && |"short:off"| == 9;
  }

  lemma PreferenceDecodes(data: string, action: string)
    requires data == "prefs:" + action
    ensures DecodeCallback(data) == Preference(DecodeChoice(action))
  {
    DecodePrefixed(action);
  }

  lemma ChoiceButtonsDecode(s: string)
    ensures DecodeCallback("prefs:lang:" + s) == Preference(ChooseLanguage(s))
    ensures DecodeCallback("prefs:tz:" + s) == Preference(ChooseTimezone(s))
  {
    ChoiceInverts(s);
    assert "prefs:lang:" + s == "prefs:" + ("lang:" + s) && "prefs:tz:" + s == "prefs:" + ("tz:" + s);
    PreferenceDecodes("prefs:lang:" + s, "lang:" + s);
    PreferenceDecodes("prefs:tz:" + s, "tz:" + s);
  }

  lemma ShortButtonsDecode()
    ensures DecodeCallback("prefs:short:on") == Preference(ChooseShort(true))
    ensures DecodeCallback("prefs:short:off") == Preference(ChooseShort(false))
  {
    ShortDecodes();
    PreferenceDecodes("prefs:short:on", "short:on");
    PreferenceDecodes("prefs:short:off", "short:off");
  }

  lemma FixedChoicesDecode()
    ensures DecodeCallback(ExitButton().data) == Preference(Exit) && DecodeCallback(BackButton().data) == Preference(Back)
    ensures DecodeCallback(PREFS_PREFIX + "short:on") == Preference(ChooseShort(true))
    ensures DecodeCallback(PREFS_PREFIX + "short:off") == Preference(ChooseShort(false))
  {
    DecodePrefixed("exit");
    DecodePrefixed("back");
    ShortDecodes();
    DecodePrefixed("short:on");
    DecodePrefixed("short:off");
  }

}
