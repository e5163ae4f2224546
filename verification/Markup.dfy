/** The markup of messages: escaping as html.EscapeString does it, and a strict reader that
    checks tags and entities and collects the text of code spans. */
module Markup {

  import opened Wrappers

  // ---- Escaping ----

  function EscapeChar(c: char): string {
    match c
    case '&' => "&amp;"
    case '\'' => "&#39;"
    case '<' => "&lt;"
    case '>' => "&gt;"
    case '"' => "&#34;"
    case _ => [c]
  }

  /** html.EscapeString */
  function Escape(s: string): string {
    if |s| == 0 then "" else EscapeChar(s[0]) + Escape(s[1..])
  }

  /** The five characters that are escaped, and how; others stay. */
  lemma EscapesAre(c: char)
    ensures Escape("&") == "&amp;" && Escape("<") == "&lt;" && Escape(">") == "&gt;"
    ensures Escape("\"") == "&#34;" && Escape("'") == "&#39;"
    ensures c !in "&<>\"'" ==> Escape([c]) == [c]
  {
    assert "&"[1..] == "" && "<"[1..] == "" && ">"[1..] == "" && "\""[1..] == "" && "'"[1..] == "" && [c][1..] == "";
    assert c !in "&<>\"'" ==> c != "&<>\"'"[0] && c != "&<>\"'"[1] && c != "&<>\"'"[2] && c != "&<>\"'"[3] && c != "&<>\"'"[4];
  }

  /** Character by character. */
  lemma {:induction false} EscapeAppend(a: string, b: string)
    ensures Escape(a + b) == Escape(a) + Escape(b)
  {
    if |a| == 0 {
      assert a + b == b;
    } else {
      assert (a + b)[1..] == a[1..] + b;
      EscapeAppend(a[1..], b);
    }
  }

  // ---- Reading ----

  /** Where the reader stands: in text, in an entity, in a tag, in or after a quoted attribute,
      or beyond hope. */
  datatype Mode = Text | Entity(name: string) | Tag(text: string) | Quoted(text: string) | Unquoted(text: string) | Bad

  /** The tags that are open, innermost last, and the code spans so far, entities decoded. */
  datatype Reader = Reader(mode: Mode, open: seq<string>, spans: seq<string>)

  const START := Reader(Text, [], [])

  function Decode(entity: string): Option<char> {
    if entity == "amp" then Some('&')
    else if entity == "lt" then Some('<')
    else if entity == "gt" then Some('>')
    else if entity == "#34" || entity == "quot" then Some('"')
    else if entity == "#39" then Some('\'')
    else None
  }

  predicate InCode(r: Reader) {
    |r.open| > 0 && r.open[|r.open| - 1] == "code" && |r.spans| > 0
  }

  /** Text is kept inside code spans only. */
  function Emit(r: Reader, s: string): Reader {
    if InCode(r) then r.(spans := r.spans[|r.spans| - 1 := r.spans[|r.spans| - 1] + s]) else r
  }

  function OpenTag(r: Reader, name: string): Reader {
    Reader(Text, r.open + [name], if name == "code" then r.spans + [""] else r.spans)
  }

  function CloseTag(r: Reader, name: string): Reader {
    if |r.open| > 0 && r.open[|r.open| - 1] == name then Reader(Text, r.open[..|r.open| - 1], r.spans)
    else r.(mode := Bad)
  }

  function FirstWord(s: string): string {
    if |s| == 0 || s[0] == ' ' then "" else [s[0]] + FirstWord(s[1..])
  }

  function EndTag(r: Reader, text: string): Reader {
    if |text| > 0 && text[0] == '/' then CloseTag(r, text[1..]) else OpenTag(r, FirstWord(text))
  }

  function Feed(r: Reader, c: char): Reader {
    match r.mode
    case Text =>
      if c == '<' then r.(mode := Tag(""))
      else if c == '&' then r.(mode := Entity(""))
      else if c == '>' then r.(mode := Bad)
      else Emit(r, [c])
    case Entity(name) =>
      if c != ';' then r.(mode := Entity(name + [c]))
      else (match Decode(name)
            case Some(d) => Emit(r.(mode := Text), [d])
            case None => r.(mode := Bad))
    case Tag(text) =>
      if c == '>' then EndTag(r, text)
      else if c == '"' then r.(mode := Quoted(text))
      else if c == '<' then r.(mode := Bad)
      else r.(mode := Tag(text + [c]))
    case Quoted(text) =>
      if c == '"' then r.(mode := Unquoted(text))
      else if c == '<' || c == '>' then r.(mode := Bad)
      else r
    case Unquoted(text) => if c == '>' then EndTag(r, text) else r.(mode := Bad)
    case Bad => r
  }

  function Read(r: Reader, s: string): Reader
    decreases |s|
  {
    if |s| == 0 then r else Read(Feed(r, s[0]), s[1..])
  }

  /** Every tag is closed in order, every entity known, and nothing is left open. */
  predicate WellFormed(s: string) {
    Read(START, s).mode == Text && Read(START, s).open == []
  }

  function CodeSpans(s: string): seq<string> {
    Read(START, s).spans
  }

  lemma {:induction false} ReadAppend(r: Reader, a: string, b: string)
    ensures Read(r, a + b) == Read(Read(r, a), b)
    decreases |a|
  {
    if |a| == 0 {
      assert a + b == b;
    } else {
      assert (a + b)[1..] == a[1..] + b;
      ReadAppend(Feed(r, a[0]), a[1..], b);
    }
  }

  // ---- Escaped text ----

  lemma ReadEntity(r: Reader, name: string, c: char)
    requires r.mode == Text && Decode(name) == Some(c) && ';' !in name
    ensures Read(r, "&" + name + ";") == Emit(r, [c])
  {
    var s := "&" + name + ";";
    assert s[1..] == name + ";";
    var r' := Feed(r, '&');
    ReadEntityName(r', name);
    ReadAppend(r', name, ";");
    assert Read(r'.(mode := Entity(name)), ";") == Feed(r'.(mode := Entity(name)), ';') by {
      assert ";"[1..] == "";
    }
  }

  lemma {:induction false} ReadEntityName(r: Reader, name: string)
    requires r.mode.Entity? && ';' !in name
    ensures Read(r, name) == r.(mode := Entity(r.mode.name + name))
    decreases |name|
  {
    if |name| > 0 {
      ReadEntityName(Feed(r, name[0]), name[1..]);
      assert r.mode.name + name == r.mode.name + [name[0]] + name[1..];
    } else {
      assert r.mode.name + name == r.mode.name;
    }
  }

  lemma ReadEscapedChar(r: Reader, c: char)
    requires r.mode == Text
    ensures Read(r, EscapeChar(c)) == Emit(r, [c])
  {
    match c
    case '&' => ReadEntity(r, "amp", c); assert "&" + "amp" + ";" == "&amp;";
    case '\'' => ReadEntity(r, "#39", c); assert "&" + "#39" + ";" == "&#39;";
    case '<' => ReadEntity(r, "lt", c); assert "&" + "lt" + ";" == "&lt;";
    case '>' => ReadEntity(r, "gt", c); assert "&" + "gt" + ";" == "&gt;";
    case '"' => ReadEntity(r, "#34", c); assert "&" + "#34" + ";" == "&#34;";
    case _ => assert [c][1..] == "";
  }

  lemma EmitAppend(r: Reader, a: string, b: string)
    ensures Emit(Emit(r, a), b) == Emit(r, a + b)
  {
    if InCode(r) {
      var n := |r.spans| - 1;
      assert r.spans[n] + a + b == r.spans[n] + (a + b);
    }
  }

  /** The reader gets back what was escaped, whatever it is. */
  lemma {:induction false} ReadEscaped(r: Reader, s: string)
    requires r.mode == Text
    ensures Read(r, Escape(s)) == Emit(r, s)
    decreases |s|
  {
    if |s| == 0 {
      assert InCode(r) ==> r.spans[|r.spans| - 1] + "" == r.spans[|r.spans| - 1];
    } else {
      ReadEscapedChar(r, s[0]);
      ReadAppend(r, EscapeChar(s[0]), Escape(s[1..]));
      ReadEscaped(Emit(r, [s[0]]), s[1..]);
      EmitAppend(r, [s[0]], s[1..]);
      assert s == [s[0]] + s[1..];
    }
  }

  /** Inside a quoted attribute escaped text cannot end the attribute. */
  lemma {:induction false} ReadQuotedEscaped(r: Reader, s: string)
    requires r.mode.Quoted?
    ensures Read(r, Escape(s)) == r
    decreases |s|
  {
    if |s| > 0 {
      ReadAppend(r, EscapeChar(s[0]), Escape(s[1..]));
      ReadQuoted(r, EscapeChar(s[0]));
      ReadQuotedEscaped(r, s[1..]);
    }
  }

  lemma {:induction false} ReadQuoted(r: Reader, s: string)
    requires r.mode.Quoted?
    requires forall i :: 0 <= i < |s| ==> s[i] != '"' && s[i] != '<' && s[i] != '>'
    ensures Read(r, s) == r
    decreases |s|
  {
    if |s| > 0 { ReadQuoted(r, s[1..]); }
  }

  /** Text without special characters. */
  predicate Harmless(s: string) {
    forall i :: 0 <= i < |s| ==> s[i] != '<' && s[i] != '>' && s[i] != '&'
  }

  lemma {:induction false} ReadHarmless(r: Reader, s: string)
    requires r.mode == Text && Harmless(s)
    ensures Read(r, s) == Emit(r, s)
    decreases |s|
  {
    if |s| == 0 {
      assert InCode(r) ==> r.spans[|r.spans| - 1] + "" == r.spans[|r.spans| - 1];
    } else {
      ReadHarmless(Emit(r, [s[0]]), s[1..]);
      EmitAppend(r, [s[0]], s[1..]);
      assert s == [s[0]] + s[1..];
    }
  }

  // ---- Tags ----

  predicate TagText(s: string) {
    forall i :: 0 <= i < |s| ==> s[i] != '<' && s[i] != '>' && s[i] != '"'
  }

  lemma {:induction false} ReadTagText(r: Reader, s: string)
    requires r.mode.Tag? && TagText(s)
    ensures Read(r, s) == r.(mode := Tag(r.mode.text + s))
    decreases |s|
  {
    if |s| > 0 {
      ReadTagText(Feed(r, s[0]), s[1..]);
      assert r.mode.text + s == r.mode.text + [s[0]] + s[1..];
    } else {
      assert r.mode.text + s == r.mode.text;
    }
  }

  lemma ReadTag(r: Reader, text: string)
    requires r.mode == Text && TagText(text)
    ensures Read(r, "<" + text + ">") == EndTag(r.(mode := Tag(text)), text)
  {
    var r' := Feed(r, '<');
    assert ("<" + text + ">")[1..] == text + ">";
    ReadAppend(r', text, ">");
    ReadTagText(r', text);
    assert "" + text == text && ">"[1..] == "";
  }

  predicate Name(s: string) {
    |s| > 0 && forall i :: 0 <= i < |s| ==> 'a' <= s[i] <= 'z'
  }

  lemma {:induction false} FirstWordOfName(s: string)
    requires forall i :: 0 <= i < |s| ==> 'a' <= s[i] <= 'z'
    ensures FirstWord(s) == s
  {
    if |s| > 0 { FirstWordOfName(s[1..]); }
  }

  lemma ReadOpen(r: Reader, name: string)
    requires r.mode == Text && Name(name)
    ensures Read(r, "<" + name + ">") == OpenTag(r, name)
  {
    ReadTag(r, name);
    FirstWordOfName(name);
  }

  lemma ReadClose(r: Reader, name: string)
    requires r.mode == Text && Name(name)
    ensures Read(r, "</" + name + ">") == CloseTag(r.(mode := Tag("/" + name)), name)
  {
    ReadTag(r, "/" + name);
    assert "<" + ("/" + name) + ">" == "</" + name + ">";
    assert ("/" + name)[1..] == name;
  }

  // ---- Fragments that leave nothing open ----

  /** A fragment that stands on its own, with its code spans. */
  predicate Complete(s: string, spans: seq<string>) {
    Read(START, s) == Reader(Text, [], spans)
  }

  /** A reader inside another one's tags. */
  function Nested(base: Reader, r: Reader): Reader {
    Reader(r.mode, base.open + r.open, base.spans + r.spans)
  }

  predicate SpanPerCode(r: Reader) {
    "code" in r.open ==> |r.spans| > 0
  }

  lemma EmitNested(base: Reader, r: Reader, s: string)
    requires !InCode(base) && SpanPerCode(r)
    requires |base.open| > 0 ==> base.open[|base.open| - 1] != "code"
    ensures Emit(Nested(base, r), s) == Nested(base, Emit(r, s)) && SpanPerCode(Emit(r, s))
  {
    var m := |r.open|;
    if m > 0 {
      assert Nested(base, r).open[|base.open| + m - 1] == r.open[m - 1];
    } else {
      assert Nested(base, r).open == base.open;
    }
  }

  lemma EndTagNested(base: Reader, r: Reader, text: string)
    requires SpanPerCode(r)
    ensures var r' := EndTag(r, text);
            r'.mode != Bad ==> EndTag(Nested(base, r), text) == Nested(base, r') && SpanPerCode(r')
  {
    var nested := Nested(base, r);
    var m := |r.open|;
    if m > 0 {
      assert nested.open[|nested.open| - 1] == r.open[m - 1];
      assert nested.open[..|nested.open| - 1] == base.open + r.open[..m - 1];
    }
  }

  lemma FeedNested(base: Reader, r: Reader, c: char)
    requires SpanPerCode(r) && (|base.open| > 0 ==> base.open[|base.open| - 1] != "code")
    ensures var r' := Feed(r, c);
            r'.mode != Bad ==> Feed(Nested(base, r), c) == Nested(base, r') && SpanPerCode(r')
  {
    match r.mode
    case Text => EmitNested(base, r, [c]);
    case Entity(name) =>
      var d := Decode(name);
      if d.Some? { EmitNested(base, r.(mode := Text), [d.value]); }
    case Tag(text) => EndTagNested(base, r, text);
    case Unquoted(text) => EndTagNested(base, r, text);
    case _ =>
  }

  lemma {:induction false} BadStaysBad(r: Reader, s: string)
    requires r.mode == Bad
    ensures Read(r, s).mode == Bad
    decreases |s|
  {
    if |s| > 0 { BadStaysBad(r, s[1..]); }
  }

  lemma {:induction false} ReadNested(base: Reader, r: Reader, s: string)
    requires SpanPerCode(r) && (|base.open| > 0 ==> base.open[|base.open| - 1] != "code")
    requires Read(r, s).mode != Bad
    ensures Read(Nested(base, r), s) == Nested(base, Read(r, s))
    decreases |s|
  {
    if |s| > 0 {
      if Feed(r, s[0]).mode == Bad { BadStaysBad(Feed(r, s[0]), s[1..]); }
      FeedNested(base, r, s[0]);
      ReadNested(base, Feed(r, s[0]), s[1..]);
    }
  }

  /** A complete fragment can be put anywhere but inside a code span. */
  lemma ReadComplete(r: Reader, s: string, spans: seq<string>)
    requires r.mode == Text && (|r.open| > 0 ==> r.open[|r.open| - 1] != "code")
    requires Complete(s, spans)
    ensures Read(r, s) == Reader(Text, r.open, r.spans + spans)
  {
    ReadNested(r, START, s);
    assert Nested(r, START) == r;
    assert r.open + [] == r.open;
  }

  lemma CompleteAppend(a: string, b: string, x: seq<string>, y: seq<string>)
    requires Complete(a, x) && Complete(b, y)
    ensures Complete(a + b, x + y)
  {
    ReadAppend(START, a, b);
    ReadComplete(Reader(Text, [], x), b, y);
  }

  lemma CompleteEscaped(s: string)
    ensures Complete(Escape(s), [])
  {
    ReadEscaped(START, s);
  }

  lemma CompleteHarmless(s: string)
    requires Harmless(s)
    ensures Complete(s, [])
  {
    ReadHarmless(START, s);
  }

  function Tagged(name: string, s: string): string {
    "<" + name + ">" + s + ("</" + name + ">")
  }

  /** A complete fragment in a tag other than code is complete. */
  lemma CompleteTagged(name: string, s: string, spans: seq<string>)
    requires Name(name) && name != "code" && Complete(s, spans)
    ensures Complete(Tagged(name, s), spans)
  {
    var r := OpenTag(START, name);
    ReadOpen(START, name);
    ReadAppend(START, "<" + name + ">", s);
    ReadAppend(START, "<" + name + ">" + s, "</" + name + ">");
    ReadComplete(r, s, spans);
    ReadClose(Reader(Text, [name], spans), name);
    assert [] + [name] == [name] && [name][..0] == [] && [] + spans == spans;
  }

  /** A code span around escaped text is complete, and reading it gives the text back. */
  lemma CompleteCode(s: string)
    ensures Complete(Tagged("code", Escape(s)), [s])
  {
    var r := Reader(Text, ["code"], [""]);
    ReadOpen(START, "code");
    assert OpenTag(START, "code") == r;
    ReadAppend(START, "<" + "code" + ">", Escape(s));
    ReadEscaped(r, s);
    assert [""][0 := "" + s] == [s] && "" + s == s;
    ReadAppend(START, "<" + "code" + ">" + Escape(s), "</" + "code" + ">");
    ReadClose(Reader(Text, ["code"], [s]), "code");
    assert ["code"][..0] == [];
  }

}
