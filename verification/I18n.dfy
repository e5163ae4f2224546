/** Translations (internal/i18n/i18n.go): locale resolution, the fallback chain, and the
    substitution of named parameters into a template. */
module I18n {

  import opened Wrappers
  import Text

  /** Catalogs by locale; Load makes sure that the default locale has one. */
  datatype Bundle = Bundle(defaultLocale: string, catalogs: map<string, map<string, string>>) {
    predicate Valid() {
      defaultLocale in catalogs
    }
  }

  function LowerChar(c: char): char {
    if 'A' <= c <= 'Z' then 'a' + (c - 'A') else c
  }

  function Lower(s: string): string {
    seq(|s|, i requires 0 <= i < |s| => LowerChar(s[i]))
  }

  function Dashed(s: string): string {
    seq(|s|, i requires 0 <= i < |s| => if s[i] == '_' then '-' else s[i])
  }

  /** The primary subtag of a language tag, in lower case. */
  function NormalizeLocale(locale: string): string {
    var s := Dashed(Lower(Text.Trim(locale)));
    s[..Text.IndexOf(s, '-')]
  }

  /** Bundle.Resolve */
  function Resolve(bundle: Bundle, locale: string): string {
    if NormalizeLocale(locale) in bundle.catalogs then NormalizeLocale(locale) else bundle.defaultLocale
  }

  /** The same letters in small. */
  predicate InSmall(s: string, small: string) {
    |s| == |small| && forall i :: 0 <= i < |s| ==> small[i] == if 'A' <= s[i] <= 'Z' then (s[i] as int + 32) as char else s[i]
  }

  /** Of a tag the part before the first separator counts, in small letters. */
  lemma PrimarySubtag(tag: string, primary: string, region: string, small: string)
    requires Text.Trim(tag) == primary + region && '-' !in primary && '_' !in primary
    requires region == "" || region[0] == '-' || region[0] == '_'
    requires InSmall(primary, small)
    ensures NormalizeLocale(tag) == small
  {
    var s := Dashed(Lower(primary + region));
    forall i | 0 <= i < |primary| ensures s[i] == small[i] && s[i] != '-' { assert primary[i] in primary; }
    assert |region| > 0 ==> s[|primary|] == '-';
    Text.IndexOfIs(s, '-', |primary|);
    assert s[..|primary|] == small;
  }

  /** A tag whose primary subtag has a catalog is resolved to that, and any other to the default. */
  lemma ResolveIs(bundle: Bundle, tag: string, primary: string, region: string, small: string)
    requires Text.Trim(tag) == primary + region && '-' !in primary && '_' !in primary
    requires region == "" || region[0] == '-' || region[0] == '_'
    requires InSmall(primary, small)
    ensures Resolve(bundle, tag) == if small in bundle.catalogs then small else bundle.defaultLocale
  {
    PrimarySubtag(tag, primary, region, small);
  }

  /** For instance. */
  lemma GermanIsFound(bundle: Bundle)
    requires "de" in bundle.catalogs
    ensures Resolve(bundle, "de") == Resolve(bundle, "DE") == Resolve(bundle, "de-AT") == Resolve(bundle, "de_AT") == "de"
  {
    Text.TrimTrims("de");
    Text.TrimTrims("DE");
    Text.TrimTrims("de-AT");
    Text.TrimTrims("de_AT");
    assert "de-AT" == "de" + "-AT" && "de_AT" == "de" + "_AT" && "de" == "de" + "" && "DE" == "DE" + "";
    ResolveIs(bundle, "de", "de", "", "de");
    ResolveIs(bundle, "DE", "DE", "", "de");
    ResolveIs(bundle, "de-AT", "de", "-AT", "de");
    ResolveIs(bundle, "de_AT", "de", "_AT", "de");
  }

  /** The template T starts from: of the resolved locale, else of the default one, else none. */
  function Template(bundle: Bundle, locale: string, key: string): (r: Option<string>)
    requires bundle.Valid()
    ensures r.None? <==> key !in bundle.catalogs[Resolve(bundle, locale)] && key !in bundle.catalogs[bundle.defaultLocale]
    ensures key in bundle.catalogs[Resolve(bundle, locale)] ==> r == Some(bundle.catalogs[Resolve(bundle, locale)][key])
    ensures key !in bundle.catalogs[Resolve(bundle, locale)] && key in bundle.catalogs[bundle.defaultLocale] ==>
              r == Some(bundle.catalogs[bundle.defaultLocale][key])
  {
    var catalog := bundle.catalogs[Resolve(bundle, locale)];
    if key in catalog then Some(catalog[key])
    else if key in bundle.catalogs[bundle.defaultLocale] then Some(bundle.catalogs[bundle.defaultLocale][key])
    else None
  }

  /** T without parameters. */
  function Plain(bundle: Bundle, locale: string, key: string): string
    requires bundle.Valid()
  {
    match Template(bundle, locale, key)
    case Some(value) => value
    case None => key
  }

  // ---- Substitution ----

  /** strings.ReplaceAll, for a pattern that is not empty. */
  function ReplaceAll(s: string, pattern: string, value: string): string
    requires |pattern| > 0
  {
    if |s| == 0 then ""
    else if pattern <= s then value + ReplaceAll(s[|pattern|..], pattern, value)
    else [s[0]] + ReplaceAll(s[1..], pattern, value)
  }

  function Placeholder(name: string): string {
    "{{" + name + "}}"
  }

  /** The loop of T, visiting the parameters in the given order. */
  function ReplaceInOrder(value: string, order: seq<string>, params: map<string, string>): string {
    if |order| == 0 then value
    else
      var n := |order| - 1;
      var before := ReplaceInOrder(value, order[..n], params);
      if order[n] in params then ReplaceAll(before, Placeholder(order[n]), params[order[n]]) else before
  }

  /** The order visits every name of the set once. */
  predicate OrderOf(order: seq<string>, names: set<string>) {
    Text.Elements(order) == names && forall i, j :: 0 <= i < j < |order| ==> order[i] != order[j]
  }

  lemma OrderExtend(order: seq<string>, names: set<string>, name: string)
    requires OrderOf(order, names) && name !in names
    ensures OrderOf(order + [name], names + {name})
  {
    assert forall i :: 0 <= i < |order| ==> order[i] in Text.Elements(order);
  }

  lemma OrderDropLast(order: seq<string>, names: set<string>)
    requires OrderOf(order, names) && |order| > 0
    ensures OrderOf(order[..|order| - 1], names - {order[|order| - 1]}) && order[|order| - 1] in names
  {
    var n := |order| - 1;
    assert order == order[..n] + [order[n]];
    assert forall i :: 0 <= i < n ==> order[..n][i] in Text.Elements(order[..n]);
    assert order[n] in Text.Elements(order);
  }

  lemma OneMore(value: string, order: seq<string>, params: map<string, string>, name: string)
    requires name in params
    ensures ReplaceInOrder(value, order + [name], params)
            == ReplaceAll(ReplaceInOrder(value, order, params), Placeholder(name), params[name])
  {
    assert (order + [name])[..|order|] == order;
  }

  /** What replacing the parameters one after another, in some order, can give. */
  ghost predicate Replaced(template: string, params: map<string, string>, value: string) {
    exists order {:trigger OrderOf(order, params.Keys)} ::
      OrderOf(order, params.Keys) && value == ReplaceInOrder(template, order, params)
  }

  lemma ReplacedNothing(template: string, value: string)
    requires Replaced(template, map[], value)
    ensures value == template
  {
    var params: map<string, string> := map[];
    var order :| OrderOf(order, params.Keys) && value == ReplaceInOrder(template, order, params);
    Text.ElementsOfNone(order);
  }

  /** The replacement loop of T; the order in which it visits the parameters is not determined. */
  method ReplaceEach(template: string, params: map<string, string>) returns (value: string)
    ensures Replaced(template, params, value)
  {
    value := template;
    ghost var order: seq<string> := [];
    var rest := params.Keys;
    while rest != {}
      invariant rest <= params.Keys
      invariant OrderOf(order, params.Keys - rest)
      invariant value == ReplaceInOrder(template, order, params)
      decreases |rest|
    {
      var name :| name in rest;
      OneMore(template, order, params, name);
      OrderExtend(order, params.Keys - rest, name);
      value := ReplaceAll(value, Placeholder(name), params[name]);
      order := order + [name];
      assert params.Keys - (rest - {name}) == params.Keys - rest + {name};
      rest := rest - {name};
    }
    assert params.Keys - rest == params.Keys;
  }

  /** Bundle.T */
  method T(bundle: Bundle, locale: string, key: string, params: map<string, string>)
    returns (value: string)
    requires bundle.Valid()
    ensures match Template(bundle, locale, key)
            case Some(template) => Replaced(template, params, value)
            case None => value == key
    ensures params == map[] ==> value == Plain(bundle, locale, key)
  {
    var catalog := bundle.catalogs[bundle.defaultLocale];
    if Resolve(bundle, locale) in bundle.catalogs {
      catalog := bundle.catalogs[Resolve(bundle, locale)];
    }
    value := key;
    ghost var template := key;
    if key in catalog {
      template := catalog[key];
      value := ReplaceEach(catalog[key], params);
      if params == map[] { ReplacedNothing(template, value); }
    } else if key in bundle.catalogs[bundle.defaultLocale] {
      template := bundle.catalogs[bundle.defaultLocale][key];
      value := ReplaceEach(bundle.catalogs[bundle.defaultLocale][key], params);
      if params == map[] { ReplacedNothing(template, value); }
    }
  }

  // ---- Templates as tokens ----

  datatype Token = Lit(text: string) | Hole(name: string)

  predicate Braceless(s: string) {
    forall i :: 0 <= i < |s| ==> s[i] != '{' && s[i] != '}'
  }

  predicate Clean(tokens: seq<Token>) {
    forall i :: 0 <= i < |tokens| ==> Braceless(if tokens[i].Lit? then tokens[i].text else tokens[i].name)
  }

  function Show(token: Token): string {
    match token
    case Lit(text) => text
    case Hole(name) => Placeholder(name)
  }

  function Render(tokens: seq<Token>): string {
    if |tokens| == 0 then "" else Show(tokens[0]) + Render(tokens[1..])
  }

  function FillToken(token: Token, params: map<string, string>): Token {
    if token.Hole? && token.name in params then Lit(params[token.name]) else token
  }

  /** Simultaneous substitution: bound holes are filled, unbound ones stay. */
  function Fill(tokens: seq<Token>, params: map<string, string>): seq<Token> {
    seq(|tokens|, i requires 0 <= i < |tokens| => FillToken(tokens[i], params))
  }

  /** Text without an opening brace is copied. */
  lemma {:induction false} ReplaceSkips(text: string, rest: string, pattern: string, value: string)
    requires |pattern| > 0 && pattern[0] == '{'
    requires forall i :: 0 <= i < |text| ==> text[i] != '{'
    ensures ReplaceAll(text + rest, pattern, value) == text + ReplaceAll(rest, pattern, value)
  {
    if |text| == 0 {
      assert text + rest == rest;
    } else {
      var s := text + rest;
      assert s[0] == text[0] && s[1..] == text[1..] + rest;
      ReplaceSkips(text[1..], rest, pattern, value);
      assert text == [text[0]] + text[1..];
    }
  }

  lemma PlaceholderPrefix(name: string, m: string, rest: string)
    requires Braceless(name) && Braceless(m)
    requires Placeholder(name) <= Placeholder(m) + rest
    ensures name == m
  {
    var s := Placeholder(m) + rest;
    Text.IndexOfIs(s, '}', 2 + |m|);
    assert s[..|Placeholder(name)|] == Placeholder(name);
    assert s[2..2 + |name|] == name;
    assert s[2 + |name|] == '}';
    Text.IndexOfIs(s, '}', 2 + |name|);
    assert s[2..2 + |m|] == m;
  }

  /** A placeholder of another name is copied. */
  lemma ReplaceSkipsHole(m: string, rest: string, name: string, value: string)
    requires Braceless(name) && Braceless(m) && name != m
    ensures ReplaceAll(Placeholder(m) + rest, Placeholder(name), value)
            == Placeholder(m) + ReplaceAll(rest, Placeholder(name), value)
  {
    var pattern, s := Placeholder(name), Placeholder(m) + rest;
    if pattern <= s { PlaceholderPrefix(name, m, rest); }
    assert s[1..][1] != '{' && pattern[1] == '{';
    assert s[1..][1..] == m + "}}" + rest;
    ReplaceSkips(m + "}}", rest, pattern, value);
    assert Placeholder(m) == [s[0]] + ([s[1]] + (m + "}}"));
  }

  lemma ReplaceToken(token: Token, rest: string, name: string, value: string)
    requires Braceless(if token.Lit? then token.text else token.name) && Braceless(name)
    ensures ReplaceAll(Show(token) + rest, Placeholder(name), value)
            == Show(FillToken(token, map[name := value])) + ReplaceAll(rest, Placeholder(name), value)
  {
    match token
    case Lit(text) => ReplaceSkips(text, rest, Placeholder(name), value);
    case Hole(m) =>
      if m == name {
        assert (Placeholder(name) + rest)[|Placeholder(name)|..] == rest;
      } else {
        ReplaceSkipsHole(m, rest, name, value);
      }
  }

  /** Replacing one placeholder fills its holes, whatever the value contains. */
  lemma {:induction false} ReplaceFills(tokens: seq<Token>, name: string, value: string)
    requires Clean(tokens) && Braceless(name)
    ensures ReplaceAll(Render(tokens), Placeholder(name), value) == Render(Fill(tokens, map[name := value]))
  {
    if |tokens| > 0 {
      var rest := tokens[1..];
      ReplaceToken(tokens[0], Render(rest), name, value);
      ReplaceFills(rest, name, value);
      assert Fill(tokens, map[name := value])[1..] == Fill(rest, map[name := value]);
    }
  }

  lemma {:induction false} ReplaceInOrderFrame(value: string, order: seq<string>, params: map<string, string>, name: string)
    requires name !in Text.Elements(order)
    ensures ReplaceInOrder(value, order, params - {name}) == ReplaceInOrder(value, order, params)
  {
    if |order| > 0 {
      var n := |order| - 1;
      assert order[n] in Text.Elements(order);
      assert order == order[..n] + [order[n]];
      ReplaceInOrderFrame(value, order[..n], params, name);
    }
  }

  // ---- Values that hold placeholders themselves ----

  /** Simultaneous substitution of values that are token lists. */
  function Splice(tokens: seq<Token>, values: map<string, seq<Token>>): seq<Token> {
    if |tokens| == 0 then []
    else SpliceToken(tokens[0], values) + Splice(tokens[1..], values)
  }

  function SpliceToken(token: Token, values: map<string, seq<Token>>): seq<Token> {
    if token.Hole? && token.name in values then values[token.name] else [token]
  }

  /** Parameters whose names have no braces and whose values are clean. */
  predicate CleanValues(values: map<string, seq<Token>>) {
    forall k :: k in values ==> Braceless(k) && Clean(values[k])
  }

  /** The parameters as T is given them. */
  function Texts(values: map<string, seq<Token>>): (r: map<string, string>)
    ensures r.Keys == values.Keys
  {
    map k | k in values :: Render(values[k])
  }

  lemma {:induction false} RenderAppend(a: seq<Token>, b: seq<Token>)
    ensures Render(a + b) == Render(a) + Render(b)
  {
    if |a| == 0 {
      assert a + b == b;
    } else {
      assert (a + b)[1..] == a[1..] + b;
      RenderAppend(a[1..], b);
    }
  }

  lemma RenderOne(token: Token)
    ensures Render([token]) == Show(token)
  {
    assert [token][1..] == [];
    assert Show(token) + "" == Show(token);
  }

  lemma {:induction false} SpliceAppend(a: seq<Token>, b: seq<Token>, values: map<string, seq<Token>>)
    ensures Splice(a + b, values) == Splice(a, values) + Splice(b, values)
  {
    if |a| == 0 {
      assert a + b == b;
    } else {
      assert (a + b)[1..] == a[1..] + b;
      SpliceAppend(a[1..], b, values);
    }
  }

  lemma {:induction false} SpliceClean(tokens: seq<Token>, values: map<string, seq<Token>>)
    requires Clean(tokens) && CleanValues(values)
    ensures Clean(Splice(tokens, values))
  {
    if |tokens| > 0 { SpliceClean(tokens[1..], values); }
  }

  /** One pass of T is a splice of one value. */
  lemma {:induction false} ReplaceSplices(tokens: seq<Token>, name: string, value: seq<Token>)
    requires Clean(tokens) && Braceless(name)
    ensures ReplaceAll(Render(tokens), Placeholder(name), Render(value)) == Render(Splice(tokens, map[name := value]))
  {
    if |tokens| > 0 {
      var one := map[name := value];
      ReplaceToken(tokens[0], Render(tokens[1..]), name, Render(value));
      ReplaceSplices(tokens[1..], name, value);
      RenderAppend(SpliceToken(tokens[0], one), Splice(tokens[1..], one));
      RenderOne(tokens[0]);
    }
  }

  /** No value holds a placeholder of another parameter, unless that one stands for itself. */
  predicate Independent(values: map<string, seq<Token>>) {
    forall k, m :: k in values && m in values && k != m && Hole(m) in values[k] ==> Render(values[m]) == Placeholder(m)
  }

  /** Splicing changes nothing where there is no hole, or where the value is the hole again. */
  lemma {:induction false} SpliceKeeps(tokens: seq<Token>, m: string, value: seq<Token>)
    requires Hole(m) in tokens ==> Render(value) == Placeholder(m)
    ensures Render(Splice(tokens, map[m := value])) == Render(tokens)
  {
    if |tokens| > 0 {
      var one := map[m := value];
      assert Hole(m) in tokens[1..] ==> Hole(m) in tokens;
      SpliceKeeps(tokens[1..], m, value);
      RenderAppend(SpliceToken(tokens[0], one), Splice(tokens[1..], one));
      RenderOne(tokens[0]);
    }
  }

  lemma LastSpliceToken(token: Token, values: map<string, seq<Token>>, m: string)
    requires Independent(values) && m in values
    ensures Render(Splice(SpliceToken(token, values - {m}), map[m := values[m]])) == Render(SpliceToken(token, values))
  {
    if token.Hole? && token.name in values && token.name != m {
      SpliceKeeps(values[token.name], m, values[m]);
    } else {
      assert [token][1..] == [];
      assert Splice([token], map[m := values[m]]) == SpliceToken(token, map[m := values[m]]);
    }
  }

  /** The last pass completes the simultaneous substitution. */
  lemma {:induction false} LastSplice(tokens: seq<Token>, values: map<string, seq<Token>>, m: string)
    requires Independent(values) && m in values
    ensures Render(Splice(Splice(tokens, values - {m}), map[m := values[m]])) == Render(Splice(tokens, values))
  {
    if |tokens| > 0 {
      var one, fewer := map[m := values[m]], values - {m};
      LastSpliceToken(tokens[0], values, m);
      LastSplice(tokens[1..], values, m);
      SpliceAppend(SpliceToken(tokens[0], fewer), Splice(tokens[1..], fewer), one);
      RenderAppend(Splice(SpliceToken(tokens[0], fewer), one), Splice(Splice(tokens[1..], fewer), one));
      RenderAppend(SpliceToken(tokens[0], values), Splice(tokens[1..], values));
    }
  }

  lemma {:induction false} SpliceNothing(tokens: seq<Token>)
    ensures Splice(tokens, map[]) == tokens
  {
    if |tokens| > 0 { SpliceNothing(tokens[1..]); }
  }

  /** With independent values one pass per parameter, in any order, is simultaneous substitution. */
  lemma {:induction false} IndependentIsSimultaneous(tokens: seq<Token>, order: seq<string>, values: map<string, seq<Token>>)
    requires Clean(tokens) && CleanValues(values) && Independent(values) && OrderOf(order, values.Keys)
    ensures ReplaceInOrder(Render(tokens), order, Texts(values)) == Render(Splice(tokens, values))
  {
    if |order| == 0 {
      assert values == map[];
      SpliceNothing(tokens);
    } else {
      var n := |order| - 1;
      var m := order[n];
      var fewer := values - {m};
      OrderDropLast(order, values.Keys);
      IndependentIsSimultaneous(tokens, order[..n], fewer);
      assert Texts(fewer) == Texts(values) - {m};
      assert m !in Text.Elements(order[..n]);
      ReplaceInOrderFrame(Render(tokens), order[..n], Texts(values), m);
      SpliceClean(tokens, fewer);
      ReplaceSplices(Splice(tokens, fewer), m, values[m]);
      LastSplice(tokens, values, m);
    }
  }

  // ---- Values that are not independent ----

  lemma SplitEqual(a: string, b: string, c: string, d: string)
    requires |a| == |c| && a + b == c + d
    ensures a == c && b == d
  {
    assert a == (a + b)[..|a|] && c == (c + d)[..|a|];
    assert b == (a + b)[|a|..] && d == (c + d)[|a|..];
  }

  lemma {:induction false} SpliceLength(tokens: seq<Token>, m: string, value: seq<Token>)
    ensures |Render(value)| >= |Placeholder(m)| ==> |Render(Splice(tokens, map[m := value]))| >= |Render(tokens)|
    ensures |Render(value)| <= |Placeholder(m)| ==> |Render(Splice(tokens, map[m := value]))| <= |Render(tokens)|
  {
    if |tokens| > 0 {
      var one := map[m := value];
      SpliceLength(tokens[1..], m, value);
      RenderAppend(SpliceToken(tokens[0], one), Splice(tokens[1..], one));
      RenderOne(tokens[0]);
    }
  }

  /** Replacing a hole by anything else changes the text. */
  lemma {:induction false} SpliceChanges(tokens: seq<Token>, m: string, value: seq<Token>)
    requires Hole(m) in tokens && Render(value) != Placeholder(m)
    ensures Render(Splice(tokens, map[m := value])) != Render(tokens)
  {
    var one := map[m := value];
    var first, rest := SpliceToken(tokens[0], one), tokens[1..];
    RenderAppend(first, Splice(rest, one));
    RenderOne(tokens[0]);
    SpliceLength(rest, m, value);
    if Render(Splice(tokens, one)) == Render(tokens) {
      if tokens[0] == Hole(m) {
        SplitEqual(Render(first), Render(Splice(rest, one)), Show(tokens[0]), Render(rest));
      } else {
        assert Hole(m) in rest;
        SpliceChanges(rest, m, value);
        SplitEqual(Render(first), Render(Splice(rest, one)), Show(tokens[0]), Render(rest));
      }
    }
  }

  lemma WholeReplaced(name: string, value: string)
    ensures ReplaceAll(Placeholder(name), Placeholder(name), value) == value
  {
    assert Placeholder(name)[|Placeholder(name)|..] == "";
  }

  /** A placeholder that no name of the order bears is left alone. */
  lemma {:induction false} OthersSkip(k: string, order: seq<string>, params: map<string, string>)
    requires Braceless(k) && k !in order && forall n :: n in params ==> Braceless(n)
    ensures ReplaceInOrder(Placeholder(k), order, params) == Placeholder(k)
  {
    if |order| > 0 {
      var n := |order| - 1;
      OthersSkip(k, order[..n], params);
      if order[n] in params {
        ReplaceSkipsHole(k, "", order[n], params[order[n]]);
        assert Placeholder(k) + "" == Placeholder(k);
      }
    }
  }

  lemma SomeOrder(names: set<string>) returns (order: seq<string>)
    ensures OrderOf(order, names)
  {
    order := Text.Sorted(names);
    forall i, j | 0 <= i < j < |order| ensures order[i] != order[j] { Text.LessAsymmetric(order[i], order[j]); }
  }

  lemma OrderTwo(rest: seq<string>, names: set<string>, k: string, m: string)
    requires k in names && m in names && k != m && OrderOf(rest, names - {k, m})
    ensures OrderOf(rest + [k] + [m], names)
  {
    OrderExtend(rest, names - {k, m}, k);
    OrderExtend(rest + [k], names - {k, m} + {k}, m);
    assert names - {k, m} + {k} + {m} == names;
  }

  /** Two parameters visited last, one after the other. */
  lemma LastTwo(values: map<string, seq<Token>>, rest: seq<string>, k: string, m: string)
    requires CleanValues(values) && k in values && m in values && k != m
    requires OrderOf(rest, values.Keys - {k, m})
    ensures OrderOf(rest + [k] + [m], values.Keys)
    ensures ReplaceInOrder(Placeholder(k), rest + [k] + [m], Texts(values)) == Render(Splice(values[k], map[m := values[m]]))
    ensures ReplaceInOrder(Placeholder(k), rest + [m] + [k], Texts(values)) == Render(values[k])
  {
    var params := Texts(values);
    assert forall i :: 0 <= i < |rest| ==> rest[i] in Text.Elements(rest);
    OrderTwo(rest, values.Keys, k, m);
    OthersSkip(k, rest, params);
    OneMore(Placeholder(k), rest, params, k);
    WholeReplaced(k, params[k]);
    OneMore(Placeholder(k), rest + [k], params, m);
    ReplaceSplices(values[k], m, values[m]);
    OthersSkip(k, rest + [m], params);
    OneMore(Placeholder(k), rest + [m], params, k);
  }

  /** Whatever order the loop of T takes, it gives the same text, on every clean template. */
  ghost predicate OrderFree(params: map<string, string>) {
    forall tokens, a, b {:trigger ReplaceInOrder(Render(tokens), a, params), ReplaceInOrder(Render(tokens), b, params)} ::
      Clean(tokens) && OrderOf(a, params.Keys) && OrderOf(b, params.Keys) ==>
        ReplaceInOrder(Render(tokens), a, params) == ReplaceInOrder(Render(tokens), b, params)
  }

  lemma NotFree(params: map<string, string>, tokens: seq<Token>, a: seq<string>, b: seq<string>)
    requires Clean(tokens) && OrderOf(a, params.Keys) && OrderOf(b, params.Keys)
    requires ReplaceInOrder(Render(tokens), a, params) != ReplaceInOrder(Render(tokens), b, params)
    ensures !OrderFree(params)
  {
  }

  lemma DependentDiffer(values: map<string, seq<Token>>, rest: seq<string>, k: string, m: string)
    requires CleanValues(values) && k in values && m in values && k != m && OrderOf(rest, values.Keys - {k, m})
    requires Hole(m) in values[k] && Render(values[m]) != Placeholder(m)
    ensures !OrderFree(Texts(values))
  {
    LastTwo(values, rest, k, m);
    assert values.Keys - {m, k} == values.Keys - {k, m};
    OrderTwo(rest, values.Keys, m, k);
    SpliceChanges(values[k], m, values[m]);
    RenderOne(Hole(k));
    NotFree(Texts(values), [Hole(k)], rest + [k] + [m], rest + [m] + [k]);
  }

  /** Exactly when the text does not depend on the order in which Go visits the parameters: when
      no value holds the placeholder of another parameter that does not stand for itself. */
  lemma OrderFreeIff(values: map<string, seq<Token>>)
    requires CleanValues(values)
    ensures OrderFree(Texts(values)) <==> Independent(values)
  {
    var params := Texts(values);
    if Independent(values) {
      forall tokens, a, b | Clean(tokens) && OrderOf(a, params.Keys) && OrderOf(b, params.Keys)
        ensures ReplaceInOrder(Render(tokens), a, params) == ReplaceInOrder(Render(tokens), b, params)
      {
        IndependentIsSimultaneous(tokens, a, values);
        IndependentIsSimultaneous(tokens, b, values);
      }
    } else {
      var k, m :| k in values && m in values && k != m && Hole(m) in values[k] && Render(values[m]) != Placeholder(m);
      var rest := SomeOrder(values.Keys - {k, m});
      DependentDiffer(values, rest, k, m);
    }
  }

  lemma OrderOfOne(order: seq<string>, name: string)
    requires OrderOf(order, {name})
    ensures order == [name]
  {
    assert name in Text.Elements(order) && name in order;
    OrderDropLast(order, {name});
    assert {name} - {order[|order| - 1]} == {};
    Text.ElementsOfNone(order[..|order| - 1]);
  }

  /** With a single parameter there is only one order, whatever template and value hold. */
  lemma OneParameter(template: string, name: string, replacement: string, value: string)
    requires Replaced(template, map[name := replacement], value)
    ensures value == ReplaceAll(template, Placeholder(name), replacement)
  {
    var params := map[name := replacement];
    var order :| OrderOf(order, params.Keys) && value == ReplaceInOrder(template, order, params);
    OrderOfOne(order, name);
    assert order[..0] == [] && order == [] + [name];
    OneMore(template, [], params, name);
  }

  /** What T returns on a clean template with independent values. */
  lemma IndependentWillDo(tokens: seq<Token>, values: map<string, seq<Token>>, value: string)
    requires Clean(tokens) && CleanValues(values) && Independent(values)
    requires Replaced(Render(tokens), Texts(values), value)
    ensures value == Render(Splice(tokens, values))
  {
    var order :| OrderOf(order, Texts(values).Keys) && value == ReplaceInOrder(Render(tokens), order, Texts(values));
    IndependentIsSimultaneous(tokens, order, values);
  }

  // ---- Values without braces ----

  /** Values without braces, as token lists. */
  function Literals(params: map<string, string>): (r: map<string, seq<Token>>)
    ensures r.Keys == params.Keys
  {
    map k | k in params :: [Lit(params[k])]
  }

  lemma {:induction false} SpliceLiterals(tokens: seq<Token>, params: map<string, string>)
    ensures Splice(tokens, Literals(params)) == Fill(tokens, params)
  {
    if |tokens| > 0 {
      SpliceLiterals(tokens[1..], params);
      assert Fill(tokens, params) == [FillToken(tokens[0], params)] + Fill(tokens[1..], params);
    }
  }

  lemma TextsOfLiterals(params: map<string, string>)
    ensures Texts(Literals(params)) == params
  {
    forall k | k in params ensures Texts(Literals(params))[k] == params[k] { RenderOne(Lit(params[k])); }
  }

  /** One pass per parameter, in any order, is simultaneous substitution, for templates, names
      and values without stray braces; unbound placeholders stay as they are. */
  lemma SequentialIsSimultaneous(tokens: seq<Token>, order: seq<string>, params: map<string, string>)
    requires Clean(tokens) && OrderOf(order, params.Keys)
    requires forall k :: k in params ==> Braceless(k) && Braceless(params[k])
    ensures ReplaceInOrder(Render(tokens), order, params) == Render(Fill(tokens, params))
  {
    TextsOfLiterals(params);
    IndependentIsSimultaneous(tokens, order, Literals(params));
    SpliceLiterals(tokens, params);
  }

  /** T on such templates, with such values: its result depends on the map only. */
  lemma AnyOrderWillDo(tokens: seq<Token>, params: map<string, string>, value: string)
    requires Clean(tokens) && forall k :: k in params ==> Braceless(k) && Braceless(params[k])
    requires Replaced(Render(tokens), params, value)
    ensures value == Render(Fill(tokens, params))
  {
    var order :| OrderOf(order, params.Keys) && value == ReplaceInOrder(Render(tokens), order, params);
    SequentialIsSimultaneous(tokens, order, params);
  }

  // ---- One value that is not under control ----

  /** T can return only one text. */
  ghost predicate Determined(template: string, params: map<string, string>) {
    forall v, w :: Replaced(template, params, v) && Replaced(template, params, w) ==> v == w
  }

  /** No placeholders at all. */
  predicate Closed(tokens: seq<Token>) {
    forall i :: 0 <= i < |tokens| ==> tokens[i].Lit?
  }

  lemma {:induction false} SpliceClosed(tokens: seq<Token>, values: map<string, seq<Token>>)
    requires Closed(tokens)
    ensures Splice(tokens, values) == tokens
  {
    if |tokens| > 0 { SpliceClosed(tokens[1..], values); }
  }

  lemma {:induction false} ClosedHasNoBrace(tokens: seq<Token>)
    requires Closed(tokens) && Clean(tokens)
    ensures Braceless(Render(tokens))
  {
    if |tokens| > 0 {
      ClosedHasNoBrace(tokens[1..]);
      assert Braceless(Show(tokens[0]));
    }
  }

  lemma {:induction false} SpliceMember(tokens: seq<Token>, values: map<string, seq<Token>>, hole: Token, inner: Token)
    requires hole in tokens && inner in SpliceToken(hole, values)
    ensures inner in Splice(tokens, values)
  {
    if hole != tokens[0] { SpliceMember(tokens[1..], values, hole, inner); }
  }

  /** Filling k and then m is filling m, then k, and then m once more, if m's value is closed. */
  lemma {:induction false} SpliceTwice(tokens: seq<Token>, k: string, vk: seq<Token>, m: string, vm: seq<Token>)
    requires k != m && Closed(vm)
    ensures var one, other := map[k := vk], map[m := vm];
            Splice(Splice(tokens, one), other) == Splice(Splice(Splice(tokens, other), one), other)
  {
    if |tokens| > 0 {
      var one, other := map[k := vk], map[m := vm];
      SpliceTwice(tokens[1..], k, vk, m, vm);
      SpliceTwiceToken(tokens[0], k, vk, m, vm);
      SpliceAppend(SpliceToken(tokens[0], one), Splice(tokens[1..], one), other);
      SpliceAppend(SpliceToken(tokens[0], other), Splice(tokens[1..], other), one);
      SpliceAppend(Splice(SpliceToken(tokens[0], other), one), Splice(Splice(tokens[1..], other), one), other);
    }
  }

  lemma SpliceSingle(token: Token, values: map<string, seq<Token>>)
    ensures Splice([token], values) == SpliceToken(token, values)
  {
    assert [token][1..] == [];
  }

  lemma SpliceTwiceToken(token: Token, k: string, vk: seq<Token>, m: string, vm: seq<Token>)
    requires k != m && Closed(vm)
    ensures var one, other := map[k := vk], map[m := vm];
            Splice(SpliceToken(token, one), other) == Splice(Splice(SpliceToken(token, other), one), other)
  {
    var one, other := map[k := vk], map[m := vm];
    SpliceSingle(token, one);
    SpliceSingle(token, other);
    SpliceClosed(vm, one);
    SpliceClosed(vm, other);
  }

  /** The texts in two orders that differ in the last two parameters only. */
  lemma LastTwoTexts(tokens: seq<Token>, rest: seq<string>, values: map<string, seq<Token>>, k: string, m: string)
    requires Clean(tokens) && CleanValues(values) && k in values && m in values && k != m
    requires OrderOf(rest, values.Keys - {k, m}) && forall j :: j in values && j != k ==> Closed(values[j])
    ensures ReplaceInOrder(Render(tokens), rest + [k] + [m], Texts(values))
            == Render(Splice(Splice(Splice(tokens, values - {k, m}), map[k := values[k]]), map[m := values[m]]))
  {
    var params, t, one := Texts(values), Splice(tokens, values - {k, m}), map[k := values[k]];
    OthersFirst(tokens, rest, values, k, m);
    SpliceClean(tokens, values - {k, m});
    SpliceClean(t, one);
    OneMore(Render(tokens), rest, params, k);
    ReplaceSplices(t, k, values[k]);
    OneMore(Render(tokens), rest + [k], params, m);
    ReplaceSplices(Splice(t, one), m, values[m]);
  }

  /** And in the other one of them. */
  lemma LastTwoSwapped(tokens: seq<Token>, rest: seq<string>, values: map<string, seq<Token>>, k: string, m: string)
    requires Clean(tokens) && CleanValues(values) && k in values && m in values && k != m
    requires OrderOf(rest, values.Keys - {k, m}) && forall j :: j in values && j != k ==> Closed(values[j])
    ensures ReplaceInOrder(Render(tokens), rest + [m] + [k], Texts(values))
            == Render(Splice(Splice(Splice(tokens, values - {k, m}), map[m := values[m]]), map[k := values[k]]))
  {
    var params, t, other := Texts(values), Splice(tokens, values - {k, m}), map[m := values[m]];
    OthersFirst(tokens, rest, values, k, m);
    SpliceClean(tokens, values - {k, m});
    SpliceClean(t, other);
    OneMore(Render(tokens), rest, params, m);
    ReplaceSplices(t, m, values[m]);
    OneMore(Render(tokens), rest + [m], params, k);
    ReplaceSplices(Splice(t, other), k, values[k]);
  }

  /** Splicing k and m in the one or the other order, when k's value mentions m. */
  lemma SwapDiffers(tokens: seq<Token>, k: string, vk: seq<Token>, m: string, vm: seq<Token>)
    requires k != m && Hole(k) in tokens && Hole(m) in vk && Closed(vm) && Clean(vm)
    ensures Render(Splice(Splice(tokens, map[k := vk]), map[m := vm])) != Render(Splice(Splice(tokens, map[m := vm]), map[k := vk]))
  {
    var one, other := map[k := vk], map[m := vm];
    SpliceTwice(tokens, k, vk, m, vm);
    SpliceMember(tokens, other, Hole(k), Hole(k));
    SpliceMember(Splice(tokens, other), one, Hole(k), Hole(m));
    ClosedHasNoBrace(vm);
    assert Placeholder(m)[0] == '{';
    SpliceChanges(Splice(Splice(tokens, other), one), m, vm);
  }

  lemma LastTwoDiffer(tokens: seq<Token>, rest: seq<string>, values: map<string, seq<Token>>, k: string, m: string)
    requires Clean(tokens) && CleanValues(values) && k in values && m in values && k != m
    requires OrderOf(rest, values.Keys - {k, m}) && forall j :: j in values && j != k ==> Closed(values[j])
    requires Hole(k) in tokens && Hole(m) in values[k]
    ensures ReplaceInOrder(Render(tokens), rest + [k] + [m], Texts(values))
         != ReplaceInOrder(Render(tokens), rest + [m] + [k], Texts(values))
  {
    LastTwoTexts(tokens, rest, values, k, m);
    LastTwoSwapped(tokens, rest, values, k, m);
    SpliceMember(tokens, values - {k, m}, Hole(k), Hole(k));
    SwapDiffers(Splice(tokens, values - {k, m}), k, values[k], m, values[m]);
  }

  lemma OthersFirst(tokens: seq<Token>, rest: seq<string>, values: map<string, seq<Token>>, k: string, m: string)
    requires Clean(tokens) && CleanValues(values) && k in values && m in values
    requires OrderOf(rest, values.Keys - {k, m}) && forall j :: j in values && j != k ==> Closed(values[j])
    ensures ReplaceInOrder(Render(tokens), rest, Texts(values)) == Render(Splice(tokens, values - {k, m}))
  {
    var fewer := values - {k, m};
    assert fewer.Keys == values.Keys - {k, m};
    IndependentIsSimultaneous(tokens, rest, fewer);
    assert Texts(fewer) == Texts(values) - {k, m};
    assert forall i :: 0 <= i < |rest| ==> rest[i] in Text.Elements(rest);
    FewerParams(Render(tokens), rest, Texts(values), {k, m});
  }

  lemma {:induction false} FewerParams(value: string, order: seq<string>, params: map<string, string>, names: set<string>)
    requires forall i :: 0 <= i < |order| ==> order[i] !in names
    ensures ReplaceInOrder(value, order, params - names) == ReplaceInOrder(value, order, params)
  {
    if |order| > 0 { FewerParams(value, order[..|order| - 1], params, names); }
  }

  lemma Undetermined(template: string, params: map<string, string>, a: seq<string>, b: seq<string>)
    requires OrderOf(a, params.Keys) && OrderOf(b, params.Keys)
    requires ReplaceInOrder(template, a, params) != ReplaceInOrder(template, b, params)
    ensures !Determined(template, params)
  {
    assert Replaced(template, params, ReplaceInOrder(template, a, params));
    assert Replaced(template, params, ReplaceInOrder(template, b, params));
  }

  lemma OneOpenValueDiffers(tokens: seq<Token>, values: map<string, seq<Token>>, k: string, m: string)
    requires Clean(tokens) && CleanValues(values) && k in values && Hole(k) in tokens
    requires forall j :: j in values && j != k ==> Closed(values[j])
    requires m in values && m != k && Hole(m) in values[k]
    ensures !Determined(Render(tokens), Texts(values))
  {
    var rest := SomeOrder(values.Keys - {k, m});
    LastTwoDiffer(tokens, rest, values, k, m);
    OrderTwo(rest, values.Keys, k, m);
    assert values.Keys - {m, k} == values.Keys - {k, m};
    OrderTwo(rest, values.Keys, m, k);
    Undetermined(Render(tokens), Texts(values), rest + [k] + [m], rest + [m] + [k]);
  }

  lemma IndependentIsDetermined(tokens: seq<Token>, values: map<string, seq<Token>>)
    requires Clean(tokens) && CleanValues(values) && Independent(values)
    ensures Determined(Render(tokens), Texts(values))
  {
    forall v, w | Replaced(Render(tokens), Texts(values), v) && Replaced(Render(tokens), Texts(values), w) ensures v == w {
      IndependentWillDo(tokens, values, v);
      IndependentWillDo(tokens, values, w);
    }
  }

  /** When one value k is beyond control and the others hold no placeholders: on any clean template
      that mentions k, T can return only one text exactly if k's value mentions no other parameter. */
  lemma OneOpenValueExact(tokens: seq<Token>, values: map<string, seq<Token>>, k: string)
    requires Clean(tokens) && CleanValues(values) && k in values && Hole(k) in tokens
    requires forall j :: j in values && j != k ==> Closed(values[j])
    ensures Determined(Render(tokens), Texts(values)) <==> forall m :: m in values && m != k ==> Hole(m) !in values[k]
  {
    if m :| m in values && m != k && Hole(m) in values[k] {
      OneOpenValueDiffers(tokens, values, k, m);
    } else {
      IndependentIsDetermined(tokens, values);
    }
  }

  /** The parameters of the preferences summary, as token lists. */
  function SummaryValues(language: string, timezone: seq<Token>, short: string): map<string, seq<Token>> {
    map["locale" := [Lit(language)], "timezone" := timezone, "short" := [Lit(short)]]
  }

  lemma SummaryTexts(language: string, timezone: seq<Token>, short: string)
    ensures Texts(SummaryValues(language, timezone, short)) == map["locale" := language, "timezone" := Render(timezone), "short" := short]
  {
    RenderOne(Lit(language));
    RenderOne(Lit(short));
  }

  lemma SummaryClean(language: string, timezone: seq<Token>, short: string)
    requires Braceless(language) && Clean(timezone) && Braceless(short)
    ensures CleanValues(SummaryValues(language, timezone, short))
    ensures forall j :: j in SummaryValues(language, timezone, short) && j != "timezone" ==>
              Closed(SummaryValues(language, timezone, short)[j])
  {
    assert Braceless("locale") && Braceless("timezone") && Braceless("short");
    assert Clean([Lit(language)]) && Clean([Lit(short)]) && Closed([Lit(language)]) && Closed([Lit(short)]);
  }

  /** The time zone is the placeholder of the short mode. */
  lemma SummaryDiffers(tokens: seq<Token>, language: string, short: string)
    requires Clean(tokens) && Hole("timezone") in tokens && Braceless(language) && Braceless(short)
    ensures !Determined(Render(tokens), Texts(SummaryValues(language, [Hole("short")], short)))
  {
    assert Braceless("short") && Clean([Hole("short")]);
    SummaryClean(language, [Hole("short")], short);
    OneOpenValueDiffers(tokens, SummaryValues(language, [Hole("short")], short), "timezone", "short");
  }

  lemma ShortZoneTexts(language: string, short: string)
    ensures Texts(SummaryValues(language, [Hole("short")], short)) == map["locale" := language, "timezone" := "{{short}}", "short" := short]
  {
    RenderOne(Hole("short"));
    assert Placeholder("short") == "{{short}}";
    SummaryTexts(language, [Hole("short")], short);
  }

  /** The case exists: nothing checks the configured time zone, which is shown, with the locale and
      the short mode, where a user has chosen none.  If it is the placeholder of the short mode,
      T can return two texts for any summary that mentions the time zone. */
  lemma BracesInValuesDependOnOrder(bundle: Bundle, locale: string, tokens: seq<Token>, language: string, short: string)
    requires bundle.Valid() && Template(bundle, locale, "prefs.summary") == Some(Render(tokens))
    requires Clean(tokens) && Hole("timezone") in tokens && Braceless(language) && Braceless(short)
    ensures !Determined(Template(bundle, locale, "prefs.summary").value,
                        map["locale" := language, "timezone" := "{{short}}", "short" := short])
  {
    ShortZoneTexts(language, short);
    SummaryDiffers(tokens, language, short);
  }

}
