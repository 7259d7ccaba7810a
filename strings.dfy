/**
 * The PHP string primitives the bundle relies on, over ASCII text:
 * str_replace with one needle, ucfirst/lcfirst, strtoupper/strtolower,
 * implode, the %s/%% subset of sprintf, and a splitter used to state
 * what implode produced.
 */
module Strings {
  import opened Wrappers

  predicate IsUpper(c: char) { 'A' <= c <= 'Z' }
  predicate IsLower(c: char) { 'a' <= c <= 'z' }
  predicate IsDigit(c: char) { '0' <= c <= '9' }
  predicate IsLetter(c: char) { IsUpper(c) || IsLower(c) }

  function UpperChar(c: char): char {
    if IsLower(c) then (c as int - 32) as char else c
  }

  function LowerChar(c: char): char {
    if IsUpper(c) then (c as int + 32) as char else c
  }

  /** strtoupper (ASCII only, as PHP 8 does). */
  function ToUpper(s: string): string {
    seq(|s|, i requires 0 <= i < |s| => UpperChar(s[i]))
  }

  /** strtolower (ASCII only, as PHP 8 does). */
  function ToLower(s: string): string {
    seq(|s|, i requires 0 <= i < |s| => LowerChar(s[i]))
  }

  /** Lower-casing forgets an earlier upper-casing: the two spellings compare equal without case. */
  lemma ToLowerOfToUpper(s: string)
    ensures ToLower(ToUpper(s)) == ToLower(s)
  {
    forall i | 0 <= i < |s| ensures LowerChar(UpperChar(s[i])) == LowerChar(s[i]) {
      var c := s[i];
      if IsLower(c) {
        assert IsUpper(UpperChar(c));
      }
    }
  }

  function Ucfirst(s: string): string {
    if s == [] then [] else [UpperChar(s[0])] + s[1..]
  }

  function Lcfirst(s: string): string {
    if s == [] then [] else [LowerChar(s[0])] + s[1..]
  }

  predicate StartsWith(s: string, prefix: string) {
    |prefix| <= |s| && s[..|prefix|] == prefix
  }

  /** `pat` occurs somewhere in `s` (PHP's strpos(s, pat) !== false). */
  predicate Occurs(s: string, pat: string) {
    exists i :: 0 <= i <= |s| && OccursAt(s, pat, i)
  }

  predicate OccursAt(s: string, pat: string, i: int) {
    0 <= i && i + |pat| <= |s| && s[i..i + |pat|] == pat
  }

  /**
   * str_replace(pat, rep, s) with a single needle: the text is scanned from
   * the left and every non-overlapping occurrence of `pat` is replaced.
   */
  function Replace(s: string, pat: string, rep: string): string
    requires pat != []
    decreases |s|
  {
    if |s| < |pat| then s
    else if s[..|pat|] == pat then rep + Replace(s[|pat|..], pat, rep)
    else [s[0]] + Replace(s[1..], pat, rep)
  }

  /** Text in which `pat` never occurs is left as it is. */
  lemma {:induction false} ReplaceWithoutOccurrence(s: string, pat: string, rep: string)
    requires pat != [] && !Occurs(s, pat)
    ensures Replace(s, pat, rep) == s
    decreases |s|
  {
    if |s| >= |pat| {
      assert s[0..0 + |pat|] == s[..|pat|];
      assert !OccursAt(s, pat, 0);
      forall i | OccursAt(s[1..], pat, i) ensures false {
        assert s[1..][i..i + |pat|] == s[i + 1..i + 1 + |pat|];
        assert OccursAt(s, pat, i + 1);
      }
      ReplaceWithoutOccurrence(s[1..], pat, rep);
    }
  }

  /** A text that starts with the pattern has it replaced there and the rest rewritten on its own. */
  lemma ReplaceAtHead(pat: string, rest: string, rep: string)
    requires pat != []
    ensures Replace(pat + rest, pat, rep) == rep + Replace(rest, pat, rep)
  {
    var s := pat + rest;
    assert s[..|pat|] == pat && s[|pat|..] == rest;
  }

  /** A character of `pat` that `s` lacks rules out every occurrence. */
  lemma AbsentCharRulesOut(s: string, pat: string, c: char)
    requires c in pat && c !in s
    ensures !Occurs(s, pat)
  {
    var k :| 0 <= k < |pat| && pat[k] == c;
    forall i | OccursAt(s, pat, i) ensures false {
    }
  }

  /**
   * Replacing in a concatenation replaces in each part when no occurrence
   * can straddle the boundary, which holds when the last character of the
   * left part does not appear in `pat`.
   */
  lemma {:induction false} ReplaceConcat(x: string, y: string, pat: string, rep: string)
    requires pat != []
    requires x != [] ==> x[|x| - 1] !in pat
    ensures Replace(x + y, pat, rep) == Replace(x, pat, rep) + Replace(y, pat, rep)
    decreases |x|
  {
    if x == [] {
      assert x + y == y;
    } else if StartsWith(x + y, pat) {
      ReplaceConcatMatch(x, y, pat, rep);
    } else {
      ReplaceConcatNoMatch(x, y, pat, rep);
    }
  }

  lemma {:induction false} ReplaceConcatMatch(x: string, y: string, pat: string, rep: string)
    requires pat != [] && x != [] && x[|x| - 1] !in pat
    requires StartsWith(x + y, pat)
    ensures Replace(x + y, pat, rep) == Replace(x, pat, rep) + Replace(y, pat, rep)
    decreases |x|, 0
  {
    var s := x + y;
    if |x| < |pat| {
      StraddleCoversLastChar(x, y, pat);
      assert false;
    }
    assert x[..|pat|] == s[..|pat|];
    var x' := x[|pat|..];
    assert s[|pat|..] == x' + y;
    assert Replace(s, pat, rep) == rep + Replace(x' + y, pat, rep);
    assert Replace(x, pat, rep) == rep + Replace(x', pat, rep);
    ReplaceConcat(x', y, pat, rep);
  }

  /** An occurrence at the start of `x + y` that runs past `x` covers the last character of `x`. */
  lemma StraddleCoversLastChar(x: string, y: string, pat: string)
    requires 0 < |x| < |pat| && StartsWith(x + y, pat)
    ensures x[|x| - 1] in pat
  {
    assert pat[|x| - 1] == (x + y)[|x| - 1];
  }

  lemma {:induction false} ReplaceConcatNoMatch(x: string, y: string, pat: string, rep: string)
    requires pat != [] && x != [] && x[|x| - 1] !in pat
    requires !StartsWith(x + y, pat)
    ensures Replace(x + y, pat, rep) == Replace(x, pat, rep) + Replace(y, pat, rep)
    decreases |x|, 0
  {
    var s := x + y;
    var x' := x[1..];
    assert s[1..] == x' + y;
    if |s| < |pat| {
      assert Replace(y, pat, rep) == y;
      assert Replace(x, pat, rep) == x;
    } else {
      assert Replace(s, pat, rep) == [x[0]] + Replace(x' + y, pat, rep);
      ReplaceConcat(x', y, pat, rep);
      if |x| >= |pat| {
        assert x[..|pat|] == s[..|pat|];
        assert Replace(x, pat, rep) == [x[0]] + Replace(x', pat, rep);
      } else {
        assert Replace(x', pat, rep) == x';
        assert Replace(x, pat, rep) == x == [x[0]] + x';
      }
    }
  }

  /** Replacing one character by another is a character-wise map. */
  lemma {:induction false} ReplaceCharIsMap(s: string, c: char, d: char)
    ensures Replace(s, [c], [d]) == seq(|s|, i requires 0 <= i < |s| => if s[i] == c then d else s[i])
    decreases |s|
  {
    if s != [] {
      ReplaceCharIsMap(s[1..], c, d);
    }
  }

  /** implode(sep, ws). */
  function Join(ws: seq<string>, sep: string): string
    decreases |ws|
  {
    if ws == [] then []
    else if |ws| == 1 then ws[0]
    else ws[0] + sep + Join(ws[1..], sep)
  }

  /** The pieces of `s` between the occurrences of `sep`, read left to right. */
  function SplitOn(s: string, sep: string): (r: seq<string>)
    requires sep != []
    ensures |r| > 0
    decreases |s|
  {
    if s == [] then [[]]
    else if StartsWith(s, sep) then [[]] + SplitOn(s[|sep|..], sep)
    else
      var rest := SplitOn(s[1..], sep);
      [[s[0]] + rest[0]] + rest[1..]
  }

  /** A word that cannot start a separator is glued to the first piece after it. */
  lemma {:induction false} SplitAfterWord(w: string, rest: string, sep: string)
    requires sep != [] && sep[0] !in w
    ensures SplitOn(w + rest, sep) == [w + SplitOn(rest, sep)[0]] + SplitOn(rest, sep)[1..]
    decreases |w|
  {
    if w == [] {
      assert w + rest == rest;
      assert w + SplitOn(rest, sep)[0] == SplitOn(rest, sep)[0];
    } else {
      assert (w + rest)[1..] == w[1..] + rest;
      assert (w + rest)[0] == w[0];
      SplitAfterWord(w[1..], rest, sep);
      assert [w[0]] + (w[1..] + SplitOn(rest, sep)[0]) == w + SplitOn(rest, sep)[0];
    }
  }

  /** Splitting what implode produced gives back the words, when no word holds the separator's first character. */
  lemma {:induction false} SplitJoin(ws: seq<string>, sep: string)
    requires sep != [] && |ws| > 0
    requires forall k :: 0 <= k < |ws| ==> sep[0] !in ws[k]
    ensures SplitOn(Join(ws, sep), sep) == ws
    decreases |ws|
  {
    if |ws| == 1 {
      SplitAfterWord(ws[0], [], sep);
      assert ws[0] + [] == ws[0];
    } else {
      var tail := Join(ws[1..], sep);
      assert Join(ws, sep) == ws[0] + (sep + tail);
      SplitAfterWord(ws[0], sep + tail, sep);
      SplitAtSeparator(sep, tail);
      SplitJoin(ws[1..], sep);
      assert ws[0] + [] == ws[0];
      assert [ws[0]] + ws[1..] == ws;
    }
  }

  /** implode of one more word adds the separator and the word. */
  lemma {:induction false} JoinAppend(ws: seq<string>, w: string, sep: string)
    requires |ws| > 0
    ensures Join(ws + [w], sep) == Join(ws, sep) + sep + w
    decreases |ws|
  {
    if |ws| > 1 {
      assert (ws + [w])[1..] == ws[1..] + [w];
      JoinAppend(ws[1..], w, sep);
    }
  }

  /** A separator at the head ends an empty first piece. */
  lemma SplitAtSeparator(sep: string, tail: string)
    requires sep != []
    ensures SplitOn(sep + tail, sep) == [[]] + SplitOn(tail, sep)
  {
    assert (sep + tail)[..|sep|] == sep;
    assert (sep + tail)[|sep|..] == tail;
  }

  /** (string) of an integer: decimal digits with a leading '-' when negative. */
  function IntToString(n: int): string
    decreases if n < 0 then 1 - n else n
  {
    if n < 0 then "-" + IntToString(-n)
    else if n < 10 then [(n + '0' as int) as char]
    else IntToString(n / 10) + [((n % 10) + '0' as int) as char]
  }

  /**
   * sprintf(template, args...) for the two conversions the bundle's templates
   * use: `%s` takes the next argument, `%%` is a literal percent sign. Too few
   * arguments, any other conversion and a trailing `%` are errors (None);
   * extra arguments are ignored.
   */
  function Format(template: string, args: seq<string>): Option<string>
    decreases |template|
  {
    if template == [] then Some([])
    else if template[0] != '%' then
      match Format(template[1..], args)
      case Some(rest) => Some([template[0]] + rest)
      case None => None
    else if |template| >= 2 && template[1] == '%' then
      match Format(template[2..], args)
      case Some(rest) => Some("%" + rest)
      case None => None
    else if |template| >= 2 && template[1] == 's' && args != [] then
      match Format(template[2..], args[1..])
      case Some(rest) => Some(args[0] + rest)
      case None => None
    else None
  }

  /** Literal text before the first conversion is copied through unchanged. */
  lemma {:induction false} FormatLiteralPrefix(text: string, rest: string, args: seq<string>)
    requires '%' !in text
    ensures Format(text + rest, args) == match Format(rest, args) { case Some(r) => Some(text + r) case None => None }
    decreases |text|
  {
    if text == [] {
      assert text + rest == rest;
      match Format(rest, args) {
        case Some(r) => assert text + r == r;
        case None =>
      }
    } else {
      assert (text + rest)[0] == text[0];
      assert (text + rest)[1..] == text[1..] + rest;
      FormatLiteralPrefix(text[1..], rest, args);
      match Format(rest, args) {
        case Some(r) => assert [text[0]] + (text[1..] + r) == text + r;
        case None =>
      }
    }
  }

  /** A template without any `%` formats to itself, whatever the arguments. */
  lemma FormatWithoutConversions(text: string, args: seq<string>)
    requires '%' !in text
    ensures Format(text, args) == Some(text)
  {
    FormatLiteralPrefix(text, [], args);
    assert text + [] == text;
  }

  /** One `%s` conversion at the head of the template consumes the first argument. */
  lemma FormatConversionHead(rest: string, x: string, more: seq<string>)
    ensures Format("%s" + rest, [x] + more) == match Format(rest, more) { case Some(r) => Some(x + r) case None => None }
  {
    var t := "%s" + rest;
    assert t[0] == '%' && t[1] == 's' && t[2..] == rest;
    assert ([x] + more)[1..] == more;
  }

  /** A template with one `%s` conversion takes the first argument. */
  lemma FormatOne(a: string, b: string, x: string, more: seq<string>)
    requires '%' !in a && '%' !in b
    ensures Format(a + "%s" + b, [x] + more) == Some(a + x + b)
  {
    FormatOneNested(a, b, x, more);
    OneConversionRegroup(a, b, x);
  }

  /** FormatOne, with the template and the text grouped from the right as Format consumes them. */
  lemma FormatOneNested(a: string, b: string, x: string, more: seq<string>)
    requires '%' !in a && '%' !in b
    ensures Format(a + ("%s" + b), [x] + more) == Some(a + (x + b))
  {
    assert Format("%s" + b, [x] + more) == Some(x + b) by {
      FormatWithoutConversions(b, more);
      FormatConversionHead(b, x, more);
    }
    FormatLiteralPrefix(a, "%s" + b, [x] + more);
  }

  lemma OneConversionRegroup(a: string, b: string, x: string)
    ensures a + ("%s" + b) == a + "%s" + b
    ensures a + (x + b) == a + x + b
  { }

  /** A template with two `%s` conversions and literal text around them takes the first two arguments in order. */
  lemma FormatTwo(a: string, b: string, c: string, x: string, y: string, more: seq<string>)
    requires '%' !in a && '%' !in b && '%' !in c
    ensures Format(a + "%s" + b + "%s" + c, [x, y] + more) == Some(a + x + b + y + c)
  {
    FormatTwoNested(a, b, c, x, y, more);
    TwoConversionsRegroup(a, b, c, x, y);
    assert [x] + ([y] + more) == [x, y] + more;
  }

  /** FormatTwo, with the template and the text grouped from the right as Format consumes them. */
  lemma FormatTwoNested(a: string, b: string, c: string, x: string, y: string, more: seq<string>)
    requires '%' !in a && '%' !in b && '%' !in c
    ensures Format(a + ("%s" + (b + "%s" + c)), [x] + ([y] + more)) == Some(a + (x + (b + y + c)))
  {
    var t := "%s" + (b + "%s" + c);
    assert Format(t, [x] + ([y] + more)) == Some(x + (b + y + c)) by {
      FormatOne(b, c, y, more);
      FormatConversionHead(b + "%s" + c, x, [y] + more);
    }
    FormatLiteralPrefix(a, t, [x] + ([y] + more));
  }

  lemma TwoConversionsRegroup(a: string, b: string, c: string, x: string, y: string)
    ensures a + ("%s" + (b + "%s" + c)) == a + "%s" + b + "%s" + c
    ensures a + (x + (b + y + c)) == a + x + b + y + c
  { }
}
