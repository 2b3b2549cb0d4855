/**
 * The preparation of the service-account key in `getGoogleSheetsClient`
 * (src/lib/google-sheets.ts): a missing value becomes "{}", then one layer of single quotes
 * and then one layer of double quotes, as some .env loaders leave them, are removed.
 */
module Credentials {
  import opened Http
  import opened Text

  /** `s.startsWith(q) && s.endsWith(q)` for a one-character quote. */
  predicate QuotedBy(s: string, q: char) {
    StartsWith(s, [q]) && EndsWith(s, [q])
  }

  /** JavaScript's `s.slice(1, -1)`: empty when `s` has fewer than two characters. */
  function SliceInner(s: string): (r: string)
    ensures |s| >= 2 ==> r == s[1..|s| - 1]
    ensures |s| < 2 ==> r == ""
  {
    if |s| >= 2 then s[1..|s| - 1] else ""
  }

  /** `t` is a contiguous piece of `s`. */
  ghost predicate IsInfix(t: string, s: string) {
    exists i, j :: 0 <= i <= j <= |s| && t == s[i..j]
  }

  lemma InfixOfInfix(u: string, t: string, s: string)
    requires IsInfix(u, t) && IsInfix(t, s)
    ensures IsInfix(u, s)
  {
    var i, j :| 0 <= i <= j <= |t| && u == t[i..j];
    var i', j' :| 0 <= i' <= j' <= |s| && t == s[i'..j'];
    var a, b := i' + i, i' + j;
    forall k | 0 <= k < |u| ensures u[k] == s[a..b][k] {
      assert u[k] == t[i + k] == s[i' + (i + k)];
    }
    assert u == s[a..b];
  }

  lemma SliceInnerIsInfix(s: string)
    ensures IsInfix(SliceInner(s), s)
  {
    if |s| >= 2 {
      assert SliceInner(s) == s[1..|s| - 1];
    } else {
      assert SliceInner(s) == s[0..0];
    }
  }

  /** `GOOGLE_SERVICE_ACCOUNT_KEY`, given as `env`, ready for `JSON.parse`. */
  method CredentialsText(env: Option<string>) returns (text: string)
    ensures !Truthy(env) ==> text == "{}"
    ensures IsInfix(text, Or(env, "{}"))
    ensures var raw := Or(env, "{}");
      var once := if QuotedBy(raw, '\'') then SliceInner(raw) else raw;
      text == if QuotedBy(once, '"') then SliceInner(once) else once
    ensures !QuotedBy(Or(env, "{}"), '\'') && !QuotedBy(Or(env, "{}"), '"') ==> text == Or(env, "{}")
  {
    text := Or(env, "{}");
    assert text == text[0..|text|];
    if QuotedBy(text, '\'') {
      SliceInnerIsInfix(text);
      text := SliceInner(text);
    }
    ghost var once := text;
    if QuotedBy(text, '"') {
      SliceInnerIsInfix(text);
      InfixOfInfix(SliceInner(text), text, Or(env, "{}"));
      text := SliceInner(text);
    }
  }

  /** Both layers go: `'"x"'` becomes `x`, and a lone quote becomes the empty string. */
  lemma CredentialsExamples()
    ensures Or(Some("'\"x\"'"), "{}") == "'\"x\"'"
    ensures SliceInner(SliceInner("'\"x\"'")) == "x"
    ensures QuotedBy("'\"x\"'", '\'') && QuotedBy(SliceInner("'\"x\"'"), '"')
    ensures QuotedBy("'", '\'') && SliceInner("'") == ""
    ensures QuotedBy("\"", '"') && SliceInner("\"") == ""
  {
    assert SliceInner("'\"x\"'") == "\"x\"";
  }
}
