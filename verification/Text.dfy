/** Strings: the parts of Go's strings package the program uses, on ASCII white space and
    letters, and the order of strings by code point. */
module Text {

  // ---- Trimming ----

  predicate IsSpace(c: char) {
    c == ' ' || ('\t' <= c && c <= '\r')
  }

  function TrimLeft(s: string): (r: string)
    ensures |r| <= |s|
  {
    if |s| > 0 && IsSpace(s[0]) then TrimLeft(s[1..]) else s
  }

  function TrimRight(s: string): (r: string)
    ensures |r| <= |s|
  {
    if |s| > 0 && IsSpace(s[|s| - 1]) then TrimRight(s[..|s| - 1]) else s
  }

  /** strings.TrimSpace */
  function Trim(s: string): string {
    TrimRight(TrimLeft(s))
  }

  predicate Trimmed(s: string) {
    |s| == 0 || (!IsSpace(s[0]) && !IsSpace(s[|s| - 1]))
  }

  lemma {:induction false} TrimRightKeepsFirst(s: string)
    ensures |TrimRight(s)| > 0 ==> |s| > 0 && TrimRight(s)[0] == s[0] && !IsSpace(TrimRight(s)[|TrimRight(s)| - 1])
  {
    if |s| > 0 && IsSpace(s[|s| - 1]) { TrimRightKeepsFirst(s[..|s| - 1]); }
  }

  lemma {:induction false} TrimLeftStops(s: string)
    ensures |TrimLeft(s)| > 0 ==> !IsSpace(TrimLeft(s)[0])
  {
    if |s| > 0 && IsSpace(s[0]) { TrimLeftStops(s[1..]); }
  }

  /** Trimming leaves no white space at either end, and leaves a string without any alone. */
  lemma TrimTrims(s: string)
    ensures Trimmed(Trim(s))
    ensures Trimmed(s) ==> Trim(s) == s
  {
    TrimLeftStops(s);
    TrimRightKeepsFirst(TrimLeft(s));
  }

  lemma {:induction false} TrimOnlyTakes(s: string, c: char)
    ensures c in Trim(s) ==> c in s
  {
    TrimLeftOnlyTakes(s, c);
    TrimRightOnlyTakes(TrimLeft(s), c);
  }

  lemma {:induction false} TrimLeftOnlyTakes(s: string, c: char)
    ensures c in TrimLeft(s) ==> c in s
  {
    if |s| > 0 && IsSpace(s[0]) { TrimLeftOnlyTakes(s[1..], c); }
  }

  lemma {:induction false} TrimRightOnlyTakes(s: string, c: char)
    ensures c in TrimRight(s) ==> c in s
  {
    if |s| > 0 && IsSpace(s[|s| - 1]) { TrimRightOnlyTakes(s[..|s| - 1], c); }
  }

  /** White space: the blank and the control characters from tab to carriage return. */
  lemma SpacesAre(c: char)
    ensures IsSpace(c) <==> c == ' ' || c == '\t' || c == '\n' || c as int == 11 || c as int == 12 || c == '\r'
  {
  }

  predicate AllSpace(s: string) {
    forall i :: 0 <= i < |s| ==> IsSpace(s[i])
  }

  lemma {:induction false} TrimLeftDrops(s: string) returns (a: string)
    ensures AllSpace(a) && s == a + TrimLeft(s)
  {
    if |s| > 0 && IsSpace(s[0]) {
      var b := TrimLeftDrops(s[1..]);
      a := [s[0]] + b;
      assert s == [s[0]] + s[1..];
    } else {
      a := "";
    }
  }

  lemma {:induction false} TrimRightDrops(s: string) returns (b: string)
    ensures AllSpace(b) && s == TrimRight(s) + b
  {
    if |s| > 0 && IsSpace(s[|s| - 1]) {
      var a := TrimRightDrops(s[..|s| - 1]);
      b := a + [s[|s| - 1]];
      assert s == s[..|s| - 1] + [s[|s| - 1]];
    } else {
      b := "";
    }
  }

  /** Trimming takes white space off the two ends and nothing else. */
  lemma TrimDrops(s: string) returns (a: string, b: string)
    ensures AllSpace(a) && AllSpace(b) && s == a + Trim(s) + b
  {
    a := TrimLeftDrops(s);
    b := TrimRightDrops(TrimLeft(s));
    assert s == a + (Trim(s) + b);
  }

  /** Blank strings, and only they, are trimmed to nothing. */
  lemma TrimsToNothing(s: string)
    ensures Trim(s) == "" <==> AllSpace(s)
  {
    var a, b := TrimDrops(s);
    TrimTrims(s);
    if |Trim(s)| > 0 { TrimOnlyTakes(s, Trim(s)[0]); }
  }

  // ---- Words ----

  predicate NoSpace(s: string) {
    forall i :: 0 <= i < |s| ==> !IsSpace(s[i])
  }

  function WordEnd(s: string): (n: nat)
    ensures n <= |s| && forall i :: 0 <= i < n ==> !IsSpace(s[i])
    ensures n < |s| ==> IsSpace(s[n])
  {
    if |s| == 0 || IsSpace(s[0]) then 0 else 1 + WordEnd(s[1..])
  }

  /** strings.Fields */
  function Fields(s: string): seq<string>
    decreases |s|
  {
    var t := TrimLeft(s);
    if t == "" then []
    else
      TrimLeftStops(s);
      [t[..WordEnd(t)]] + Fields(t[WordEnd(t)..])
  }

  lemma {:induction false} WordEndIs(s: string, n: nat)
    requires n <= |s| && (forall i :: 0 <= i < n ==> !IsSpace(s[i])) && (n < |s| ==> IsSpace(s[n]))
    ensures WordEnd(s) == n
  {
    if n > 0 {
      assert !IsSpace(s[0]);
      WordEndIs(s[1..], n - 1);
    }
  }

  lemma FieldsFirst(word: string, rest: string)
    requires |word| > 0 && NoSpace(word) && (|rest| > 0 ==> IsSpace(rest[0]))
    ensures Fields(word + rest) == [word] + Fields(rest)
  {
    var s := word + rest;
    assert forall i :: 0 <= i < |word| ==> s[i] == word[i];
    WordEndIs(s, |word|);
    assert s[..|word|] == word && s[|word|..] == rest;
  }

  lemma FieldsSkip(rest: string)
    ensures Fields(" " + rest) == Fields(rest)
  {
    assert (" " + rest)[1..] == rest;
  }

  /** A word, a space and another word are two fields. */
  lemma FieldsOfTwo(a: string, b: string)
    requires |a| > 0 && |b| > 0 && NoSpace(a) && NoSpace(b)
    ensures Fields(a + (" " + b)) == [a, b]
  {
    FieldsFirst(a, " " + b);
    FieldsSkip(b);
    FieldsFirst(b, "");
    assert b + "" == b;
  }

  lemma {:induction false} FieldsHaveNoSpace(s: string, i: nat)
    requires i < |Fields(s)|
    ensures NoSpace(Fields(s)[i]) && |Fields(s)[i]| > 0
    decreases |s|
  {
    var t := TrimLeft(s);
    TrimLeftStops(s);
    if i > 0 { FieldsHaveNoSpace(t[WordEnd(t)..], i - 1); }
  }

  lemma TrimNoSpace(s: string)
    requires NoSpace(s)
    ensures Trim(s) == s
  {
    TrimTrims(s);
  }

  // ---- Searching ----

  /** The first position of c in s, or |s|. */
  function IndexOf(s: string, c: char): (i: nat)
    ensures i <= |s|
    ensures i < |s| ==> s[i] == c
    ensures forall j :: 0 <= j < i ==> s[j] != c
  {
    if |s| == 0 || s[0] == c then 0 else 1 + IndexOf(s[1..], c)
  }

  /** IndexOf is determined by what it promises. */
  lemma IndexOfIs(s: string, c: char, i: nat)
    requires i <= |s| && (i < |s| ==> s[i] == c) && forall j :: 0 <= j < i ==> s[j] != c
    ensures IndexOf(s, c) == i
  {
  }

  // ---- The order of strings ----

  predicate Less(a: string, b: string) {
    |b| > 0 && (|a| == 0 || a[0] < b[0] || (a[0] == b[0] && Less(a[1..], b[1..])))
  }

  lemma {:induction false} LessTotal(a: string, b: string)
    ensures Less(a, b) || a == b || Less(b, a)
  {
    if |a| > 0 && |b| > 0 && a[0] == b[0] {
      LessTotal(a[1..], b[1..]);
      if a[1..] == b[1..] {
        assert a == [a[0]] + a[1..] && b == [b[0]] + b[1..];
      }
    }
  }

  lemma {:induction false} LessAsymmetric(a: string, b: string)
    requires Less(a, b)
    ensures a != b && !Less(b, a)
  {
    if |a| > 0 && a[0] == b[0] { LessAsymmetric(a[1..], b[1..]); }
  }

  lemma {:induction false} LessTransitive(a: string, b: string, c: string)
    requires Less(a, b) && Less(b, c)
    ensures Less(a, c)
  {
    if |a| > 0 && a[0] == b[0] == c[0] { LessTransitive(a[1..], b[1..], c[1..]); }
  }

  /** The first difference decides, and a proper prefix comes first. */
  lemma {:induction false} LessIs(a: string, b: string, k: nat)
    requires k <= |a| && k <= |b| && a[..k] == b[..k]
    requires k < |a| && k < |b| ==> a[k] != b[k]
    requires k == |a| || k == |b| || a[k] != b[k]
    ensures Less(a, b) <==> k < |b| && (k == |a| || a[k] < b[k])
  {
    if k > 0 {
      assert a[0] == a[..k][0] && b[0] == b[..k][0];
      assert a[1..][..k - 1] == a[..k][1..] && b[1..][..k - 1] == b[..k][1..];
      LessIs(a[1..], b[1..], k - 1);
    }
  }

  // ---- Ascending lists of strings ----

  /** Strictly ascending, so without repetition. */
  predicate Ascending(s: seq<string>) {
    forall i, j :: 0 <= i < j < |s| ==> Less(s[i], s[j])
  }

  function Elements(s: seq<string>): set<string> {
    set x | x in s
  }

  lemma ElementsOfNone(s: seq<string>)
    ensures Elements(s) == {} ==> s == []
  {
    if |s| > 0 { assert s[0] in Elements(s); }
  }

  /** There is only one strictly ascending list of a set of strings. */
  lemma {:induction false} AscendingUnique(a: seq<string>, b: seq<string>)
    requires Ascending(a) && Ascending(b) && Elements(a) == Elements(b)
    ensures a == b
  {
    if |a| == 0 {
      ElementsOfNone(b);
    } else {
      assert a[0] in Elements(b) && (|b| > 0 ==> b[0] in Elements(a));
      var i :| 0 <= i < |b| && b[i] == a[0];
      var j :| 0 <= j < |a| && a[j] == b[0];
      if i > 0 && j > 0 { LessAsymmetric(a[0], a[j]); }
      assert a[0] == b[0];
      TailElements(a);
      TailElements(b);
      AscendingUnique(a[1..], b[1..]);
      assert a == [a[0]] + a[1..] && b == [b[0]] + b[1..];
    }
  }

  lemma TailElements(a: seq<string>)
    requires Ascending(a) && |a| > 0
    ensures Ascending(a[1..]) && Elements(a[1..]) == Elements(a) - {a[0]}
  {
    assert a == [a[0]] + a[1..];
    forall x | x in a[1..] ensures x != a[0] {
      var i :| 0 <= i < |a[1..]| && a[1..][i] == x;
      LessAsymmetric(a[0], a[i + 1]);
    }
  }

  /** x put in its place in a strictly ascending list that does not have it. */
  function Insert(x: string, s: seq<string>): seq<string> {
    if |s| == 0 || Less(x, s[0]) then [x] + s else [s[0]] + Insert(x, s[1..])
  }

  lemma {:induction false} InsertElements(x: string, s: seq<string>)
    ensures Elements(Insert(x, s)) == Elements(s) + {x}
    ensures |Insert(x, s)| == |s| + 1
  {
    if |s| == 0 || Less(x, s[0]) {
    } else {
      InsertElements(x, s[1..]);
      assert s == [s[0]] + s[1..];
      assert Elements(s) == {s[0]} + Elements(s[1..]);
      assert Elements(Insert(x, s)) == {s[0]} + Elements(Insert(x, s[1..]));
    }
  }

  lemma {:induction false} InsertAscending(x: string, s: seq<string>)
    requires Ascending(s) && x !in s
    ensures Ascending(Insert(x, s))
  {
    if |s| == 0 {
    } else if Less(x, s[0]) {
      forall j | 0 < j < |s| ensures Less(x, s[j]) { LessTransitive(x, s[0], s[j]); }
    } else {
      LessTotal(x, s[0]);
      InsertAscending(x, s[1..]);
      InsertElements(x, s[1..]);
      var r := Insert(x, s[1..]);
      forall j | 0 <= j < |r| ensures Less(s[0], r[j]) {
        assert r[j] in Elements(r);
      }
    }
  }

  /** The strictly ascending list of a set of strings. */
  ghost function Sorted(s: set<string>): (r: seq<string>)
    ensures Ascending(r) && Elements(r) == s && |r| == |s|
  {
    if s == {} then []
    else
      var x :| x in s;
      var r := Sorted(s - {x});
      InsertElements(x, r);
      assert x !in r by { assert x !in Elements(r); }
      InsertAscending(x, r);
      Insert(x, r)
  }

}
