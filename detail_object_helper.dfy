/**
 * The console display of an object: the camelCase-to-words rewriting of
 * method names, the string form of field values, and the choice of the
 * methods shown as rows.
 */
module DetailObjectHelper {
  import opened Wrappers
  import opened Strings
  import opened Values

  predicate IsLowerOrDigit(c: char) { IsLower(c) || IsDigit(c) }
  predicate IsUpperOrDigit(c: char) { IsUpper(c) || IsDigit(c) }
  predicate IsAlnum(c: char) { IsLetter(c) || IsDigit(c) }

  /*
   * The tokens of humanize are the matches of
   *   ([A-Z][A-Z0-9]*(?=$|[A-Z][a-z0-9])|[A-Za-z][a-z0-9]+)
   * found by preg_match_all, scanning from the left.
   */

  /** The lookahead `(?=$|[A-Z][a-z0-9])` at position `e`. */
  predicate Boundary(s: string, e: nat)
    requires e <= |s|
  {
    e == |s| || (e + 1 < |s| && IsUpper(s[e]) && IsLowerOrDigit(s[e + 1]))
  }

  /** The end of the longest run of `[A-Z0-9]` starting at `q`. */
  function UpperRunEnd(s: string, q: nat): (e: nat)
    requires q <= |s|
    ensures q <= e <= |s| && (e < |s| ==> !IsUpperOrDigit(s[e]))
    ensures forall k | q <= k < e :: IsUpperOrDigit(s[k])
    decreases |s| - q
  {
    if q == |s| || !IsUpperOrDigit(s[q]) then q else UpperRunEnd(s, q + 1)
  }

  /** The end of the longest run of `[a-z0-9]` starting at `q`. */
  function LowerRunEnd(s: string, q: nat): (e: nat)
    requires q <= |s|
    ensures q <= e <= |s| && (e < |s| ==> !IsLowerOrDigit(s[e]))
    ensures forall k | q <= k < e :: IsLowerOrDigit(s[k])
    decreases |s| - q
  {
    if q == |s| || !IsLowerOrDigit(s[q]) then q else LowerRunEnd(s, q + 1)
  }

  /** Backtracking of the greedy `[A-Z0-9]*`: the longest end at most `e` that meets the lookahead. */
  function BacktrackEnd(s: string, p: nat, e: nat): (r: Option<nat>)
    requires p < e <= |s|
    ensures r.Some? ==> p < r.value <= e && Boundary(s, r.value)
    ensures r.Some? ==> forall k | r.value < k <= e :: !Boundary(s, k)
    decreases e
  {
    if Boundary(s, e) then Some(e) else if e == p + 1 then None else BacktrackEnd(s, p, e - 1)
  }

  /** The end of the match starting at `p`, trying the first alternative, then the second. */
  function MatchAt(s: string, p: nat): (r: Option<nat>)
    requires p < |s|
    ensures r.Some? ==> p < r.value <= |s| && IsLetter(s[p])
    ensures r.Some? ==> forall k | p <= k < r.value :: IsAlnum(s[k])
  {
    var upper := if IsUpper(s[p]) then BacktrackEnd(s, p, UpperRunEnd(s, p + 1)) else None;
    if upper.Some? then upper
    else if IsLetter(s[p]) && p + 1 < |s| && IsLowerOrDigit(s[p + 1]) then Some(LowerRunEnd(s, p + 1))
    else None
  }

  /** The spans of the matches from `p` on; a position where nothing matches is skipped. */
  function Spans(s: string, p: nat): (spans: seq<(nat, nat)>)
    requires p <= |s|
    ensures forall k | 0 <= k < |spans| :: p <= spans[k].0 < spans[k].1 <= |s|
    ensures forall k | 0 <= k < |spans| - 1 :: spans[k].1 <= spans[k + 1].0
    decreases |s| - p
  {
    if p == |s| then []
    else
      var m := MatchAt(s, p);
      if m.None? then Spans(s, p + 1)
      else
        var rest := Spans(s, m.value);
        assert forall k | 0 <= k < |rest| :: m.value <= rest[k].0;
        [(p, m.value)] + rest
  }

  /** A match: a letter, then only letters and digits. */
  predicate LetterSpan(s: string, span: (nat, nat)) {
    span.0 < span.1 <= |s| && IsLetter(s[span.0]) && forall j | span.0 <= j < span.1 :: IsAlnum(s[j])
  }

  /** Every match starts with a letter and holds only letters and digits. */
  lemma {:induction false} SpansAlnum(s: string, p: nat)
    requires p <= |s|
    ensures forall span | span in Spans(s, p) :: LetterSpan(s, span)
    decreases |s| - p
  {
    if p < |s| {
      var m := MatchAt(s, p);
      if m.None? {
        SpansSkip(s, p);
        SpansAlnum(s, p + 1);
      } else {
        SpansTake(s, p);
        SpansAlnum(s, m.value);
      }
    }
  }

  lemma SpansSkip(s: string, p: nat)
    requires p < |s| && MatchAt(s, p).None?
    ensures Spans(s, p) == Spans(s, p + 1)
  { }

  lemma SpansTake(s: string, p: nat)
    requires p < |s| && MatchAt(s, p).Some?
    ensures var e := MatchAt(s, p).value;
      p < e <= |s| && Spans(s, p) == [(p, e)] + Spans(s, e) && LetterSpan(s, (p, e))
  { }

  /** `$matches[0]` of preg_match_all. */
  function Tokens(s: string): (tokens: seq<string>)
    ensures forall k | 0 <= k < |tokens| :: tokens[k] != [] && IsLetter(tokens[k][0])
    ensures forall k | 0 <= k < |tokens| :: forall c | c in tokens[k] :: IsAlnum(c)
  {
    var spans := Spans(s, 0);
    SpansAlnum(s, 0);
    var tokens := seq(|spans|, k requires 0 <= k < |spans| => s[spans[k].0..spans[k].1]);
    assert forall k | 0 <= k < |tokens| :: tokens[k] != [] && IsLetter(tokens[k][0]) && forall c | c in tokens[k] :: IsAlnum(c) by {
      forall k | 0 <= k < |tokens| ensures tokens[k] != [] && IsLetter(tokens[k][0]) && forall c | c in tokens[k] :: IsAlnum(c) {
        assert spans[k] in spans;
        TokenOfSpan(s, spans[k]);
      }
    }
    tokens
  }

  /** The text of a match is non-empty, starts with a letter and holds only letters and digits. */
  lemma TokenOfSpan(s: string, span: (nat, nat))
    requires LetterSpan(s, span)
    ensures var t := s[span.0..span.1];
      t != [] && IsLetter(t[0]) && forall c | c in t :: IsAlnum(c)
  {
    var t := s[span.0..span.1];
    forall c | c in t ensures IsAlnum(c) {
      var i :| 0 <= i < |t| && t[i] == c;
      assert t[i] == s[span.0 + i];
    }
  }

  /** One word of the result: an all-uppercase token is lower-cased, any other has its first letter lower-cased. */
  function Word(token: string): string {
    if token == ToUpper(token) then ToLower(token) else Lcfirst(token)
  }

  /** A word starts with a lower-case letter and spells the token up to case. */
  lemma WordOfToken(token: string)
    requires token != [] && IsLetter(token[0])
    ensures var w := Word(token);
      |w| == |token| && IsLower(w[0]) && ToLower(w) == ToLower(token)
  {
    var w := Word(token);
    if token != ToUpper(token) {
      assert ToLower(w)[0] == ToLower(token)[0];
      assert ToLower(w)[1..] == ToLower(token)[1..];
    } else {
      forall i | 0 <= i < |token| ensures LowerChar(LowerChar(token[i])) == LowerChar(token[i]) { }
    }
  }

  function Words(text: string): seq<string> {
    var tokens := Tokens(text);
    seq(|tokens|, k requires 0 <= k < |tokens| => Word(tokens[k]))
  }

  /** humanize. */
  function Humanized(text: string): string {
    Ucfirst(Join(Words(text), " "))
  }

  /** humanize: the tokens are rewritten in place, then joined by spaces and the first letter upper-cased. */
  method Humanize(text: string) returns (r: string)
    ensures r == Humanized(text)
  {
    var ret := Tokens(text);
    ghost var tokens := ret;
    var i := 0;
    while i < |ret|
      invariant 0 <= i <= |ret| && |ret| == |tokens|
      invariant forall k | 0 <= k < i :: ret[k] == Word(tokens[k])
      invariant forall k | i <= k < |ret| :: ret[k] == tokens[k]
    {
      var match_ := ret[i];
      ret := ret[i := if match_ == ToUpper(match_) then ToLower(match_) else Lcfirst(match_)];
      i := i + 1;
    }
    assert ret == Words(text);
    r := Ucfirst(Join(ret, " "));
  }

  lemma {:induction false} UcfirstJoin(ws: seq<string>, sep: string)
    requires ws != [] && ws[0] != []
    ensures Ucfirst(Join(ws, sep)) == Join([Ucfirst(ws[0])] + ws[1..], sep)
  {
    var vs := [Ucfirst(ws[0])] + ws[1..];
    assert vs[0] == Ucfirst(ws[0]) && vs[1..] == ws[1..];
    if |ws| > 1 {
      var tail := Join(ws[1..], sep);
      assert Join(ws, sep) == ws[0] + sep + tail;
      assert Join(vs, sep) == Ucfirst(ws[0]) + sep + tail;
      UcfirstConcat(ws[0], sep);
      UcfirstConcat(ws[0] + sep, tail);
    }
  }

  lemma UcfirstConcat(a: string, rest: string)
    requires a != []
    ensures Ucfirst(a + rest) == Ucfirst(a) + rest
  {
    assert (a + rest)[1..] == a[1..] + rest;
  }

  /**
   * The humanized text read back word by word is the words of the tokens,
   * the first one capitalised: no word is empty or holds a space.
   */
  lemma HumanizedWords(text: string)
    requires Tokens(text) != []
    ensures var ws := Words(text);
      SplitOn(Humanized(text), " ") == [Ucfirst(ws[0])] + ws[1..] &&
      forall k | 0 <= k < |ws| :: ws[k] != [] && IsLower(ws[k][0])
  {
    var tokens := Tokens(text);
    var ws := Words(text);
    forall k | 0 <= k < |ws| ensures ws[k] != [] && IsLower(ws[k][0]) && ' ' !in ws[k] {
      WordOfToken(tokens[k]);
      assert |ws[k]| == |tokens[k]|;
      WordCharacters(tokens[k]);
    }
    UcfirstJoin(ws, " ");
    var vs := [Ucfirst(ws[0])] + ws[1..];
    forall k | 0 <= k < |vs| ensures " "[0] !in vs[k] {
      if k == 0 {
        assert vs[0][1..] == ws[0][1..];
        assert IsUpper(vs[0][0]);
      } else {
        assert vs[k] == ws[k - 1 + 1];
      }
    }
    SplitJoin(vs, " ");
  }

  /** Rewriting the case of an alphanumeric token keeps it alphanumeric. */
  lemma WordCharacters(token: string)
    requires forall c | c in token :: IsAlnum(c)
    ensures forall c | c in Word(token) :: IsAlnum(c)
  {
    var w := Word(token);
    forall i | 0 <= i < |w| ensures IsAlnum(w[i]) {
      assert IsAlnum(token[i]);
    }
  }

  /** A three-letter word followed by a capitalised three-letter word is read as two tokens. */
  lemma CamelTokens(s: string)
    requires |s| == 6 && IsLetter(s[0]) && IsLower(s[1]) && IsLower(s[2])
    requires IsUpper(s[3]) && IsLower(s[4]) && IsLower(s[5])
    ensures Spans(s, 0) == [(0, 3), (3, 6)]
  {
    assert LowerRunEnd(s, 3) == 3;
    assert LowerRunEnd(s, 2) == 3;
    assert LowerRunEnd(s, 1) == 3;
    assert UpperRunEnd(s, 1) == 1;
    assert !Boundary(s, 1);
    assert MatchAt(s, 0) == Some(3);
    assert UpperRunEnd(s, 4) == 4;
    assert !Boundary(s, 4);
    assert LowerRunEnd(s, 6) == 6;
    assert LowerRunEnd(s, 5) == 6;
    assert LowerRunEnd(s, 4) == 6;
    assert MatchAt(s, 3) == Some(6);
    assert Spans(s, 6) == [];
  }

  lemma WordsOfExample(foo: string, capitalFoo: string, bar: string)
    requires foo == "foo" && capitalFoo == "Foo" && bar == "Bar"
    ensures Word(foo) == "foo" && Word(capitalFoo) == "foo" && Word(bar) == "bar"
  {
    assert ToUpper(foo)[1] != foo[1];
    assert ToUpper(capitalFoo)[1] != capitalFoo[1];
    assert ToUpper(bar)[1] != bar[1];
    assert Lcfirst(bar) == [LowerChar('B')] + "ar";
    assert Lcfirst(capitalFoo) == [LowerChar('F')] + "oo";
  }

  lemma HumanizedCamel(s: string)
    requires |s| == 6 && IsLetter(s[0]) && IsLower(s[1]) && IsLower(s[2])
    requires IsUpper(s[3]) && IsLower(s[4]) && IsLower(s[5])
    ensures Humanized(s) == Ucfirst(Word(s[0..3]) + " " + Word(s[3..6]))
  {
    CamelTokens(s);
    assert Tokens(s) == [s[0..3], s[3..6]];
    assert Words(s) == [Word(s[0..3]), Word(s[3..6])];
    assert Join(Words(s), " ") == Word(s[0..3]) + " " + Join([Word(s[3..6])], " ");
  }

  /** The first case of the humanize data provider: "fooBar" reads "Foo bar". */
  lemma HumanizeLowerCamel(text: string)
    requires text == "fooBar"
    ensures Humanized(text) == "Foo bar"
  {
    var foo, bar := text[0..3], text[3..6];
    assert foo == "foo" && bar == "Bar";
    HumanizedCamel(text);
    WordsOfExample(foo, "Foo", bar);
    FooBar("foo" + " " + "bar");
  }

  /** The second case of the humanize data provider: "FooBar" reads "Foo bar" too. */
  lemma HumanizeUpperCamel(text: string)
    requires text == "FooBar"
    ensures Humanized(text) == "Foo bar"
  {
    var foo, bar := text[0..3], text[3..6];
    assert foo == "Foo" && bar == "Bar";
    HumanizedCamel(text);
    WordsOfExample("foo", foo, bar);
    FooBar("foo" + " " + "bar");
  }

  /** The joined words of both examples, capitalised. */
  lemma FooBar(joined: string)
    requires joined == "foo" + " " + "bar"
    ensures Ucfirst(joined) == "Foo bar"
  {
    assert joined[0] == 'f' && joined[1..] == "oo bar";
    assert UpperChar('f') == 'F';
  }

  /** What implode puts between the formatted elements of an array. */
  const ITEM_SEPARATOR: string := "\n  "
  const FORMAT_ERROR: string := "<error>format error</error>"

  /**
   * formatValue, or None where the cast to string fails (an object without
   * __toString): a date in ISO 8601, a boolean as True/False, an array
   * element by element, joined by a new line and two spaces.
   */
  function Formatted(v: Value): Option<string>
    decreases v
  {
    match v
    case Date(iso) => Some(iso)
    case Bool(b) => Some(if b then "True" else "False")
    case Arr(items) =>
      if forall k | 0 <= k < |items| :: Formatted(items[k]).Some? then
        Some(Join(seq(|items|, k requires 0 <= k < |items| => Formatted(items[k]).value), ITEM_SEPARATOR))
      else None
    case Null => Some("")
    case Int(i) => Some(IntToString(i))
    case Str(s) => Some(s)
    case Obj(_, _, asString) => asString
  }

  /** formatValue: the array case loops over the elements, formatting each one recursively. */
  method FormatValue(v: Value) returns (r: Option<string>)
    ensures r == Formatted(v)
    decreases v
  {
    match v {
      case Date(iso) => r := Some(iso);
      case Bool(b) => r := Some(if b then "True" else "False");
      case Arr(items) =>
        var parts: seq<string> := [];
        var i := 0;
        while i < |items|
          invariant 0 <= i <= |items| && |parts| == i
          invariant forall k | 0 <= k < i :: Formatted(items[k]).Some? && parts[k] == Formatted(items[k]).value
        {
          var part := FormatValue(items[i]);
          if part.None? {
            return None;
          }
          parts := parts + [part.value];
          i := i + 1;
        }
        assert parts == seq(|items|, k requires 0 <= k < |items| => Formatted(items[k]).value);
        r := Some(Join(parts, ITEM_SEPARATOR));
      case Null => r := Some("");
      case Int(i) => r := Some(IntToString(i));
      case Str(s) => r := Some(s);
      case Obj(_, _, asString) => r := asString;
    }
  }

  /**
   * An array of values that format on one line each is printed one element
   * per line, in order: reading it back line by line, minus the two-space
   * indent, gives the elements' forms.
   */
  lemma ArrayLines(items: seq<Value>)
    requires items != []
    requires forall k | 0 <= k < |items| :: Formatted(items[k]).Some? && '\n' !in Formatted(items[k]).value
    ensures Formatted(Arr(items)).Some?
    ensures SplitOn(Formatted(Arr(items)).value, ITEM_SEPARATOR) ==
      seq(|items|, k requires 0 <= k < |items| => Formatted(items[k]).value)
  {
    var parts := seq(|items|, k requires 0 <= k < |items| => Formatted(items[k]).value);
    SplitJoin(parts, ITEM_SEPARATOR);
  }

  /** An array fails to format exactly when one of its elements does. */
  lemma ArrayFailsWithElement(items: seq<Value>, k: nat)
    requires k < |items| && Formatted(items[k]).None?
    ensures Formatted(Arr(items)).None?
  {
  }

  /** The result of calling a public method of the instance: its value, or None when the call throws. */
  datatype PublicMethod = PublicMethod(name: string, parameterCount: nat, result: Option<Value>)

  /** getFieldValue: the formatted value, or the format error marker when the call or the formatting throws. */
  function FieldText(result: Option<Value>): (text: string)
    ensures result.Some? && Formatted(result.value).Some? ==> text == Formatted(result.value).value
    ensures result.None? || Formatted(result.value).None? ==> text == FORMAT_ERROR
  {
    if result.None? then FORMAT_ERROR
    else match Formatted(result.value)
      case Some(s) => s
      case None => FORMAT_ERROR
  }

  /** getFieldValue. */
  method GetFieldValue(m: PublicMethod) returns (text: string)
    ensures text == FieldText(m.result)
  {
    if m.result.None? {
      return FORMAT_ERROR;
    }
    var formatted := FormatValue(m.result.value);
    text := if formatted.Some? then formatted.value else FORMAT_ERROR;
  }

  /**
   * The method-name filter of display as written, `/^get|has|is/`: the
   * anchor binds to the first alternative only, so a name is accepted when
   * it starts with `get` or contains `has` or `is` anywhere.
   */
  predicate AccessorNameAsWritten(name: string) {
    StartsWith(name, "get") || Occurs(name, "has") || Occurs(name, "is")
  }

  /** The filter as intended: a name starting with `get`, `has` or `is`. */
  predicate AccessorName(name: string) {
    StartsWith(name, "get") || StartsWith(name, "has") || StartsWith(name, "is")
  }

  /** The written filter accepts every intended accessor, and more: `publish` is called and shown as a field. */
  lemma AccessorFilterFinding(intended: string, publish: string)
    requires publish == "publish"
    ensures AccessorName(intended) ==> AccessorNameAsWritten(intended)
    ensures AccessorNameAsWritten(publish) && !AccessorName(publish)
  {
    assert publish[..3][0] == 'p' && publish[..2][0] == 'p';
    assert !StartsWith(publish, "get") && !StartsWith(publish, "has") && !StartsWith(publish, "is");
    if StartsWith(intended, "has") {
      assert OccursAt(intended, "has", 0);
    }
    if StartsWith(intended, "is") {
      assert OccursAt(intended, "is", 0);
    }
    assert OccursAt(publish, "is", 4);
  }

  /** A method is shown when it takes no parameter and its name is an accessor's. */
  predicate Shown(m: PublicMethod) {
    m.parameterCount == 0 && AccessorName(m.name)
  }

  /** The label of a row: the humanized name, without its `get` prefix. */
  function FieldLabel(name: string): string {
    var field := if StartsWith(name, "get") then name[3..] else name;
    "<comment>" + Humanized(field) + "</comment>"
  }

  function Row(m: PublicMethod): (string, string) {
    (FieldLabel(m.name), ": " + FieldText(m.result))
  }

  /** The rows display adds, one per shown method, in declaration order. */
  function Rows(methods: seq<PublicMethod>): seq<(string, string)>
    decreases |methods|
  {
    if methods == [] then []
    else (if Shown(methods[0]) then [Row(methods[0])] else []) + Rows(methods[1..])
  }

  /** Every row is the row of a shown method, and every shown method has its row. */
  lemma {:induction false} RowsOfShownMethods(methods: seq<PublicMethod>)
    ensures forall row | row in Rows(methods) :: exists m | m in methods :: Shown(m) && row == Row(m)
    ensures forall m | m in methods && Shown(m) :: Row(m) in Rows(methods)
    decreases |methods|
  {
    if methods != [] {
      RowsOfShownMethods(methods[1..]);
      forall row | row in Rows(methods) ensures exists m | m in methods :: Shown(m) && row == Row(m) {
        if row !in Rows(methods[1..]) {
          assert methods[0] in methods;
        } else {
          var m :| m in methods[1..] && Shown(m) && row == Row(m);
          assert m in methods;
        }
      }
      forall m | m in methods && Shown(m) ensures Row(m) in Rows(methods) {
        if m != methods[0] {
          assert m in methods[1..];
        }
      }
    }
  }

  /** The table display fills; its rendering is not part of this model. */
  class Table {
    var rows: seq<(string, string)>

    constructor()
      ensures rows == []
    {
      rows := [];
    }

    method AddRow(heading: string, value: string)
      modifies this
      ensures rows == old(rows) + [(heading, value)]
    {
      rows := rows + [(heading, value)];
    }
  }

  /** display: one row per public method that is shown, in order. */
  method Display(table: Table, methods: seq<PublicMethod>)
    modifies table
    ensures table.rows == old(table.rows) + Rows(methods)
  {
    var i := 0;
    while i < |methods|
      invariant 0 <= i <= |methods|
      invariant old(table.rows) + Rows(methods) == table.rows + Rows(methods[i..])
    {
      var m := methods[i];
      assert methods[i..][0] == m && methods[i..][1..] == methods[i + 1..];
      if AccessorName(m.name) && m.parameterCount == 0 {
        var value := GetFieldValue(m);
        var field := if StartsWith(m.name, "get") then m.name[3..] else m.name;
        var words := Humanize(field);
        table.AddRow("<comment>" + words + "</comment>", ": " + value);
      }
      i := i + 1;
    }
  }
}
