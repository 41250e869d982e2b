/**
 * HTML escaping of untrusted text (`escapeHtml`) and the raw-text document
 * renderer built on it (`renderText`), ui/app.js lines 14-24.
 */
module Html {
  import opened Wrappers

  /** The five characters the escaper's character class `[&<>"']` matches. */
  predicate IsSpecial(c: char) {
    c == '&' || c == '<' || c == '>' || c == '"' || c == '\''
  }

  /** The special characters other than `&`: none of them may survive escaping. */
  predicate IsMarkup(c: char) {
    c == '<' || c == '>' || c == '"' || c == '\''
  }

  /** The fixed replacement table. */
  function Entity(c: char): string
    requires IsSpecial(c)
  {
    if c == '&' then "&amp;"
    else if c == '<' then "&lt;"
    else if c == '>' then "&gt;"
    else if c == '"' then "&quot;"
    else "&#39;"
  }

  /** What one input character becomes in the output. */
  function EscapeChar(c: char): string {
    if IsSpecial(c) then Entity(c) else [c]
  }

  /** The global regular-expression replacement: every character is rewritten on its own, left to right. */
  function Escape(s: string): string {
    if s == [] then [] else EscapeChar(s[0]) + Escape(s[1..])
  }

  /** `escapeHtml(s)`: a missing (or empty) argument is treated as the empty string. */
  function EscapeHtml(s: Option<string>): (r: string)
    ensures s == None || s == Some("") ==> r == ""
  {
    Escape(s.GetOr(""))
  }

  predicate StartsWith(t: string, p: string) {
    |p| <= |t| && t[..|p|] == p
  }

  /** One of the five entities begins at position `i` of `t`. */
  predicate EntityAt(t: string, i: nat)
    requires i <= |t|
  {
    var u := t[i..];
    StartsWith(u, "&amp;") || StartsWith(u, "&lt;") || StartsWith(u, "&gt;")
    || StartsWith(u, "&quot;") || StartsWith(u, "&#39;")
  }

  /** Text that is safe to place inside an element or a quoted attribute. */
  predicate IsSafe(t: string) {
    (forall i :: 0 <= i < |t| ==> !IsMarkup(t[i]))
    && (forall i :: 0 <= i < |t| && t[i] == '&' ==> EntityAt(t, i))
  }

  predicate NoSpecials(s: string) {
    forall i :: 0 <= i < |s| ==> !IsSpecial(s[i])
  }

  /** The decoder of the five entities, the reference inverse of `Escape`. */
  function Unescape(t: string): string
    decreases |t|
  {
    if t == [] then []
    else if StartsWith(t, "&amp;") then "&" + Unescape(t[5..])
    else if StartsWith(t, "&lt;") then "<" + Unescape(t[4..])
    else if StartsWith(t, "&gt;") then ">" + Unescape(t[4..])
    else if StartsWith(t, "&quot;") then "\"" + Unescape(t[6..])
    else if StartsWith(t, "&#39;") then "'" + Unescape(t[5..])
    else [t[0]] + Unescape(t[1..])
  }

  /** Escaping distributes over concatenation: it is a per-character rewrite. */
  lemma {:induction false} EscapeConcat(a: string, b: string)
    ensures Escape(a + b) == Escape(a) + Escape(b)
  {
    if a == [] {
      assert a + b == b;
    } else {
      assert (a + b)[0] == a[0];
      assert (a + b)[1..] == a[1..] + b;
      EscapeConcat(a[1..], b);
    }
  }

  lemma StartsWithAppend(t: string, p: string, rest: string)
    requires StartsWith(t, p)
    ensures StartsWith(t + rest, p)
  {
    assert (t + rest)[..|p|] == t[..|p|];
  }

  lemma EntityAtAppend(t: string, i: nat, rest: string)
    requires i <= |t| && EntityAt(t, i)
    ensures EntityAt(t + rest, i)
  {
    assert (t + rest)[i..] == t[i..] + rest;
    var u := t[i..];
    if StartsWith(u, "&amp;") { StartsWithAppend(u, "&amp;", rest); }
    else if StartsWith(u, "&lt;") { StartsWithAppend(u, "&lt;", rest); }
    else if StartsWith(u, "&gt;") { StartsWithAppend(u, "&gt;", rest); }
    else if StartsWith(u, "&quot;") { StartsWithAppend(u, "&quot;", rest); }
    else { StartsWithAppend(u, "&#39;", rest); }
  }

  lemma SafeConcat(a: string, b: string)
    requires IsSafe(a) && IsSafe(b)
    ensures IsSafe(a + b)
  {
    var t := a + b;
    forall i | 0 <= i < |t| && t[i] == '&'
      ensures EntityAt(t, i)
    {
      if i < |a| {
        EntityAtAppend(a, i, b);
      } else {
        assert b[i - |a|] == '&';
        assert t[i..] == b[i - |a|..];
      }
    }
  }

  lemma EscapeCharSafe(c: char)
    ensures IsSafe(EscapeChar(c))
  {
    var e := EscapeChar(c);
    forall i | 0 <= i < |e| && e[i] == '&'
      ensures EntityAt(e, i)
    {
      assert i == 0;
      assert e[0..] == e;
    }
  }

  /**
   * The escaper's safety guarantee: no `<`, `>`, `"` or `'` is left in the
   * output, and every `&` in it opens one of the five entities.
   */
  lemma {:induction false} EscapeIsSafe(s: string)
    ensures IsSafe(Escape(s))
  {
    if s != [] {
      EscapeCharSafe(s[0]);
      EscapeIsSafe(s[1..]);
      SafeConcat(EscapeChar(s[0]), Escape(s[1..]));
    }
  }

  lemma UnescapeEscapeChar(c: char, rest: string)
    ensures Unescape(EscapeChar(c) + rest) == [c] + Unescape(rest)
  {
    var t := EscapeChar(c) + rest;
    if c == '&' {
      assert t[..5] == "&amp;" && t[5..] == rest;
    } else if c == '<' {
      assert t[..4] == "&lt;" && t[4..] == rest;
      assert t[1] == 'l';
      assert !StartsWith(t, "&amp;");
    } else if c == '>' {
      assert t[..4] == "&gt;" && t[4..] == rest;
      assert t[1] == 'g';
      assert !StartsWith(t, "&amp;") && !StartsWith(t, "&lt;");
    } else if c == '"' {
      assert t[..6] == "&quot;" && t[6..] == rest;
      assert t[1] == 'q';
      assert !StartsWith(t, "&amp;") && !StartsWith(t, "&lt;") && !StartsWith(t, "&gt;");
    } else if c == '\'' {
      assert t[..5] == "&#39;" && t[5..] == rest;
      assert t[1] == '#';
      assert !StartsWith(t, "&amp;") && !StartsWith(t, "&lt;") && !StartsWith(t, "&gt;");
      assert !StartsWith(t, "&quot;");
    } else {
      assert t[0] == c && t[1..] == rest;
      assert !StartsWith(t, "&amp;") && !StartsWith(t, "&lt;") && !StartsWith(t, "&gt;");
      assert !StartsWith(t, "&quot;") && !StartsWith(t, "&#39;");
    }
  }

  /**
   * Every character other than the five entities' sources is copied
   * unchanged and in order: decoding the escaped text gives back the input.
   */
  lemma {:induction false} EscapeRoundTrip(s: string)
    ensures Unescape(Escape(s)) == s
  {
    if s != [] {
      EscapeRoundTrip(s[1..]);
      UnescapeEscapeChar(s[0], Escape(s[1..]));
      assert [s[0]] + s[1..] == s;
    }
  }

  /** Escaping never shortens the text, and keeps its length exactly when there is nothing to replace. */
  lemma {:induction false} EscapeLength(s: string)
    ensures |Escape(s)| >= |s|
    ensures |Escape(s)| == |s| <==> NoSpecials(s)
  {
    if s != [] {
      EscapeLength(s[1..]);
      if NoSpecials(s[1..]) && !IsSpecial(s[0]) {
        assert NoSpecials(s) by {
          forall i | 0 <= i < |s| ensures !IsSpecial(s[i]) {
            if i > 0 { assert s[i] == s[1..][i - 1]; }
          }
        }
      }
      if NoSpecials(s) {
        assert !IsSpecial(s[0]);
        assert NoSpecials(s[1..]) by {
          forall i | 0 <= i < |s| - 1 ensures !IsSpecial(s[1..][i]) {
            assert s[1..][i] == s[i + 1];
          }
        }
      }
    }
  }

  /** A string holding none of the five specials is returned unchanged, and only such a string. */
  lemma {:induction false} EscapeIdentity(s: string)
    ensures Escape(s) == s <==> NoSpecials(s)
  {
    EscapeLength(s);
    if NoSpecials(s) && s != [] {
      assert NoSpecials(s[1..]) by {
        forall i | 0 <= i < |s| - 1 ensures !IsSpecial(s[1..][i]) {
          assert s[1..][i] == s[i + 1];
        }
      }
      EscapeIdentity(s[1..]);
      assert !IsSpecial(s[0]);
      assert [s[0]] + s[1..] == s;
    }
  }

  const PreOpen := "<pre>"
  const PreClose := "</pre>"

  /**
   * `renderText(md)`: the text, escaped, inside one `pre` element. The
   * element's content is safe markup and decodes back to the text itself.
   */
  function RenderText(md: Option<string>): (r: string)
    ensures |r| >= |PreOpen| + |PreClose|
    ensures r[..|PreOpen|] == PreOpen && r[|r| - |PreClose|..] == PreClose
    ensures IsSafe(r[|PreOpen|..|r| - |PreClose|])
    ensures Unescape(r[|PreOpen|..|r| - |PreClose|]) == md.GetOr("")
  {
    var body := EscapeHtml(md);
    EscapeIsSafe(md.GetOr(""));
    EscapeRoundTrip(md.GetOr(""));
    var r := PreOpen + body + PreClose;
    assert r[|PreOpen|..|r| - |PreClose|] == body;
    r
  }
}
