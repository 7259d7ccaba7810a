/**
 * The container treats `%name%` in a string argument as a parameter
 * reference, so the command builder stores the sprintf placeholder `%s` of
 * a description as `{s}` and the adapter's description setters turn `{s}`
 * back into `%s`.
 */
module Placeholders {
  import opened Strings

  /** The builder's rewriting, str_replace('%s', '{s}', text). */
  function Escape(text: string): string {
    Replace(text, "%s", "{s}")
  }

  /** The adapter setters' rewriting, str_replace('{s}', '%s', text). */
  function Unescape(text: string): string {
    Replace(text, "{s}", "%s")
  }

  /** The first character of an escaped text: `{` where a `%s` was replaced, the original one otherwise. */
  lemma EscapeHead(t: string)
    requires t != []
    ensures Escape(t) != []
    ensures Escape(t)[0] == if StartsWith(t, "%s") then '{' else t[0]
  {
    if StartsWith(t, "%s") {
      assert t[..2] == "%s";
    } else if |t| >= 2 {
      assert t[..2] != "%s";
    }
  }

  /** An occurrence in `s[1..]` is an occurrence in `s`. */
  lemma OccursInTail(s: string, pat: string)
    requires s != [] && Occurs(s[1..], pat)
    ensures Occurs(s, pat)
  {
    var i :| 0 <= i <= |s[1..]| && OccursAt(s[1..], pat, i);
    assert s[1..][i..i + |pat|] == s[i + 1..i + 1 + |pat|];
    assert OccursAt(s, pat, i + 1);
  }

  /**
   * Unescaping undoes escaping for every text that did not already contain
   * `{s}`: a description survives the trip through the container.
   */
  lemma {:induction false} UnescapeEscape(s: string)
    requires !Occurs(s, "{s}")
    ensures Unescape(Escape(s)) == s
    decreases |s|
  {
    if |s| < 2 {
      assert Escape(s) == s;
    } else if s[..2] == "%s" {
      var t := s[2..];
      if Occurs(t, "{s}") {
        OccursInTail(s[1..], "{s}");
        OccursInTail(s, "{s}");
      }
      UnescapeEscape(t);
      var e := Escape(t);
      assert Escape(s) == "{s}" + e;
      assert ("{s}" + e)[..3] == "{s}";
      assert ("{s}" + e)[3..] == e;
      assert Unescape("{s}" + e) == "%s" + Unescape(e);
      assert "%s" + t == s;
    } else {
      var t := s[1..];
      if Occurs(t, "{s}") {
        OccursInTail(s, "{s}");
      }
      UnescapeEscape(t);
      var e := Escape(t);
      assert Escape(s) == [s[0]] + e;
      EscapeKeepsHead(s);
      assert ([s[0]] + e)[1..] == e;
      assert Unescape([s[0]] + e) == [s[0]] + Unescape(e);
      assert [s[0]] + t == s;
    }
  }

  /**
   * When `s` does not start with `%s` and contains no `{s}`, the escaped
   * text `[s[0]] + Escape(s[1..])` does not start with `{s}`.
   */
  lemma EscapeKeepsHead(s: string)
    requires |s| >= 2 && s[..2] != "%s" && !Occurs(s, "{s}")
    ensures !StartsWith([s[0]] + Escape(s[1..]), "{s}")
  {
    var e := Escape(s[1..]);
    var u := [s[0]] + e;
    EscapeHead(s[1..]);
    if s[0] == '{' && e[0] == 's' {
      assert s[1] == 's' && !StartsWith(s[1..], "%s");
      if |s| > 2 {
        assert s[1..][..2] != "%s";
        assert e == [s[1]] + Escape(s[2..]);
        assert !OccursAt(s, "{s}", 0);
        assert s[..3] != "{s}";
        assert s[2] != '}';
        EscapeHead(s[2..]);
        assert e[1] != '}';
        assert u[2] != '}';
      } else {
        assert e == s[1..];
        assert |u| == 2;
      }
    } else {
      assert u[0] != '{' || u[1] != 's';
    }
  }

  /** Putting a character in front of a text without `%s` makes no `%s` unless it is a `%` meeting an `s`. */
  lemma PrependKeepsNoPlaceholder(c: char, e: string)
    requires !Occurs(e, "%s")
    requires c != '%' || e == [] || e[0] != 's'
    ensures !Occurs([c] + e, "%s")
  {
    var u := [c] + e;
    forall i | 0 <= i <= |u| ensures !OccursAt(u, "%s", i) {
      if i >= 1 && i + 2 <= |u| {
        assert u[i..i + 2] == e[i - 1..i - 1 + 2];
        assert !OccursAt(e, "%s", i - 1);
      } else if i == 0 && 2 <= |u| {
        assert u[0..2][0] == c && u[0..2][1] == e[0];
      }
    }
  }

  /** After escaping, no `%s` is left for the container to misread. */
  lemma {:induction false} EscapeLeavesNoPlaceholder(s: string)
    ensures !Occurs(Escape(s), "%s")
    decreases |s|
  {
    if |s| < 2 {
      assert Escape(s) == s;
      forall i | 0 <= i <= |s| ensures !OccursAt(s, "%s", i) { }
    } else if s[..2] == "%s" {
      var e := Escape(s[2..]);
      EscapeLeavesNoPlaceholder(s[2..]);
      assert Escape(s) == "{s}" + e;
      PrependKeepsNoPlaceholder('}', e);
      PrependKeepsNoPlaceholder('s', ['}'] + e);
      PrependKeepsNoPlaceholder('{', ['s'] + (['}'] + e));
      assert "{s}" + e == ['{'] + (['s'] + (['}'] + e));
    } else {
      var e := Escape(s[1..]);
      EscapeLeavesNoPlaceholder(s[1..]);
      assert Escape(s) == [s[0]] + e;
      EscapeHead(s[1..]);
      if s[0] == '%' {
        assert s[..2][1] == s[1] && s[1] != 's';
      }
      PrependKeepsNoPlaceholder(s[0], e);
    }
  }
}
