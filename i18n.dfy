/** UI message lookup: the message of a key in the current language, falling
    back to Korean and then to the key itself, with `{name}` placeholders
    filled from optional parameters. The bundled message files are given as
    a map from language code to key-to-text map. */
module I18n {
  import opened Base

  type Messages = map<string, map<string, string>>

  /** `messages[lang]?.[key]`, with undefined read as the falsy "". */
  function Entry(messages: Messages, lang: string, key: string): string {
    if lang in messages && key in messages[lang] then messages[lang][key] else ""
  }

  /** `messages[lang]?.[key] || messages.ko[key] || key`: an empty text
      counts as missing. */
  function Message(messages: Messages, lang: string, key: string): (r: string)
    ensures Entry(messages, lang, key) != "" ==> r == Entry(messages, lang, key)
    ensures Entry(messages, lang, key) == "" && Entry(messages, "ko", key) != "" ==> r == Entry(messages, "ko", key)
    ensures Entry(messages, lang, key) == "" && Entry(messages, "ko", key) == "" ==> r == key
  {
    var own := Entry(messages, lang, key);
    if own != "" then own
    else
      var ko := Entry(messages, "ko", key);
      if ko != "" then ko else key
  }

  /** The regular-expression class `\w`. */
  predicate IsWordChar(c: char) {
    ('a' <= c <= 'z') || ('A' <= c <= 'Z') || ('0' <= c <= '9') || c == '_'
  }

  predicate IsWord(w: string) {
    forall i | 0 <= i < |w| :: IsWordChar(w[i])
  }

  /** The longest prefix of s made of word characters. */
  function WordPrefix(s: string): (r: string)
    ensures |r| <= |s| && r == s[..|r|] && IsWord(r)
    ensures |r| < |s| ==> !IsWordChar(s[|r|])
  {
    if s != [] && IsWordChar(s[0]) then [s[0]] + WordPrefix(s[1..]) else []
  }

  /** What a placeholder `{w}` becomes: the parameter, or itself when the
      parameter is undefined. */
  function Replacement(w: string, params: map<string, string>): string {
    if w in params then params[w] else "{" + w + "}"
  }

  /** The name of the placeholder s starts with: a `{`, one or more word
      characters and a `}`; "" when s does not start with one. */
  function PlaceholderName(s: string): (w: string)
    ensures w != "" ==> |w| + 2 <= |s| && IsWord(w) && s[0] == '{' && s[1..|w| + 1] == w && s[|w| + 1] == '}'
  {
    if s != [] && s[0] == '{' then
      var w := WordPrefix(s[1..]);
      if |w| > 0 && |w| + 1 < |s| && s[|w| + 1] == '}' then w else ""
    else ""
  }

  /** `msg.replace(/\{(\w+)\}/g, ...)`: scanning left to right, a
      placeholder is replaced and scanning resumes after its `}`; every
      other character is copied. */
  function Subst(s: string, params: map<string, string>): string
    decreases |s|
  {
    if s == [] then []
    else
      var w := PlaceholderName(s);
      if w != "" then Replacement(w, params) + Subst(s[|w| + 2..], params)
      else [s[0]] + Subst(s[1..], params)
  }

  /** `t(key, lang, params)`: without parameters the message as looked up. */
  function T(messages: Messages, key: string, lang: string, params: Option<map<string, string>>): string {
    var msg := Message(messages, lang, key);
    match params
    case None => msg
    case Some(p) => Subst(msg, p)
  }

  // ---------------------------------------------------------------------
  // Properties
  // ---------------------------------------------------------------------

  /** Without parameters a message comes back exactly as looked up. */
  lemma NoParamsUnchanged(messages: Messages, key: string, lang: string)
    ensures T(messages, key, lang, None) == Message(messages, lang, key)
  {
  }

  /** No placeholder starts anywhere in s. */
  predicate NoPlaceholder(s: string) {
    forall i | 0 <= i < |s| :: PlaceholderName(s[i..]) == ""
  }

  /** No placeholder starts within the first |a| characters of a + rest. */
  predicate PlainPrefix(a: string, rest: string) {
    forall i | 0 <= i < |a| :: PlaceholderName((a + rest)[i..]) == ""
  }

  lemma PlainHead(a: string, rest: string)
    requires a != [] && PlainPrefix(a, rest)
    ensures PlaceholderName(a + rest) == ""
  {
    assert (a + rest)[0..] == a + rest;
  }

  lemma PlainTail(a: string, rest: string)
    requires a != [] && PlainPrefix(a, rest)
    ensures PlainPrefix(a[1..], rest)
  {
    forall i | 0 <= i < |a[1..]| ensures PlaceholderName((a[1..] + rest)[i..]) == "" {
      assert (a[1..] + rest)[i..] == (a + rest)[i + 1..];
    }
  }

  /** Text in which no placeholder starts is copied unchanged. A brace is
      allowed: "{ }", "{}" or "a{b" are not placeholders. */
  lemma {:induction false} SubstPlain(a: string, rest: string, params: map<string, string>)
    requires PlainPrefix(a, rest)
    ensures Subst(a + rest, params) == a + Subst(rest, params)
  {
    if a != [] {
      PlainHead(a, rest);
      PlainTail(a, rest);
      assert (a + rest)[1..] == a[1..] + rest;
      SubstPlain(a[1..], rest, params);
      ConsSplit(a, Subst(rest, params));
    } else {
      assert a + rest == rest;
    }
  }

  /** Brace-free text holds no placeholder, so it is copied unchanged. */
  lemma SubstNoBrace(a: string, rest: string, params: map<string, string>)
    requires forall i | 0 <= i < |a| :: a[i] != '{'
    ensures Subst(a + rest, params) == a + Subst(rest, params)
  {
    assert PlainPrefix(a, rest) by {
      forall i | 0 <= i < |a| ensures PlaceholderName((a + rest)[i..]) == "" {
        assert (a + rest)[i..][0] == a[i];
      }
    }
    SubstPlain(a, rest, params);
  }

  /** The word prefix stops at a non-word character, so text after it does
      not extend the word. */
  lemma {:induction false} WordPrefixAppend(u: string, t: string)
    requires t != [] && !IsWordChar(t[0])
    ensures WordPrefix(u + t) == WordPrefix(u)
  {
    if u == [] {
      assert u + t == t;
    } else if IsWordChar(u[0]) {
      assert (u + t)[0] == u[0];
      assert (u + t)[1..] == u[1..] + t;
      WordPrefixAppend(u[1..], t);
    } else {
      assert (u + t)[0] == u[0];
    }
  }

  /** A non-empty text where no placeholder starts still has none at its
      start when a `{` follows it: a placeholder needs a `}` right after
      its word. */
  lemma PlaceholderBeforeBrace(a: string, t: string)
    requires a != [] && PlaceholderName(a) == ""
    requires t != [] && t[0] == '{'
    ensures PlaceholderName(a + t) == ""
  {
    var s := a + t;
    assert s[0] == a[0];
    if a[0] == '{' {
      assert s[1..] == a[1..] + t;
      WordPrefixAppend(a[1..], t);
      var w := WordPrefix(a[1..]);
      if |w| > 0 && |w| + 1 < |s| {
        if |w| + 1 < |a| {
          assert s[|w| + 1] == a[|w| + 1];
        } else {
          assert s[|w| + 1] == t[0];
        }
      }
    }
  }

  lemma ConsSplit(a: string, x: string)
    requires a != []
    ensures [a[0]] + (a[1..] + x) == a + x
  {
    assert a == [a[0]] + a[1..];
  }

  /** A message in which no placeholder starts comes back identical,
      whatever the parameters, literal braces included. */
  lemma NoPlaceholderUnchanged(s: string, params: map<string, string>)
    requires NoPlaceholder(s)
    ensures Subst(s, params) == s
  {
    assert s + [] == s;
    assert PlainPrefix(s, []);
    SubstPlain(s, [], params);
  }

  /** A placeholder `{w}` becomes its parameter when one is defined and stays
      `{w}` when not; the text after it is processed on its own. */
  lemma SubstPlaceholder(w: string, rest: string, params: map<string, string>)
    requires |w| > 0 && IsWord(w)
    ensures Subst("{" + w + "}" + rest, params) == Replacement(w, params) + Subst(rest, params)
    ensures w in params ==> Subst("{" + w + "}" + rest, params) == params[w] + Subst(rest, params)
    ensures w !in params ==> Subst("{" + w + "}" + rest, params) == "{" + w + "}" + Subst(rest, params)
  {
    var s := "{" + w + "}" + rest;
    assert s[1..] == w + ("}" + rest);
    WordPrefixOf(w, "}" + rest);
    assert PlaceholderName(s) == w;
    assert s[|w| + 2..] == rest;
  }

  /** A word followed by a non-word character is the whole word prefix. */
  lemma {:induction false} WordPrefixOf(w: string, t: string)
    requires IsWord(w) && t != [] && !IsWordChar(t[0])
    ensures WordPrefix(w + t) == w
  {
    if w != [] {
      assert (w + t)[0] == w[0];
      assert (w + t)[1..] == w[1..] + t;
      assert IsWord(w[1..]) by {
        forall i | 0 <= i < |w[1..]| ensures IsWordChar(w[1..][i]) {
          assert w[1..][i] == w[i + 1];
        }
      }
      WordPrefixOf(w[1..], t);
      assert w == [w[0]] + w[1..];
    } else {
      assert w + t == t;
    }
  }

  /** With no parameters defined every placeholder is kept verbatim, so the
      message is unchanged. */
  lemma {:induction false} SubstEmptyParams(s: string)
    ensures Subst(s, map[]) == s
    decreases |s|
  {
    if s != [] {
      var w := PlaceholderName(s);
      if w != "" {
        var rest := s[|w| + 2..];
        assert s == "{" + w + "}" + rest by {
          assert s[..|w| + 2] == "{" + w + "}";
          assert s == s[..|w| + 2] + rest;
        }
        SubstPlaceholder(w, rest, map[]);
        SubstEmptyParams(rest);
      } else {
        SubstEmptyParams(s[1..]);
        assert s == [s[0]] + s[1..];
      }
    }
  }

  /** Text where no placeholder starts keeps that property in front of a
      `{`. */
  lemma PlainBeforeBrace(a: string, t: string)
    requires NoPlaceholder(a) && t != [] && t[0] == '{'
    ensures PlainPrefix(a, t)
  {
    forall i | 0 <= i < |a| ensures PlaceholderName((a + t)[i..]) == "" {
      assert (a + t)[i..] == a[i..] + t;
      PlaceholderBeforeBrace(a[i..], t);
    }
  }

  /** A message made of text and one placeholder: the placeholder is
      filled, the text on both sides is kept, braces in it included. */
  lemma FillOne(before: string, w: string, after: string, params: map<string, string>)
    requires |w| > 0 && IsWord(w) && w in params
    requires NoPlaceholder(before) && NoPlaceholder(after)
    ensures Subst(before + ("{" + w + "}" + after), params) == before + (params[w] + after)
  {
    var mid := "{" + w + "}" + after;
    PlainBeforeBrace(before, mid);
    SubstPlain(before, mid, params);
    SubstPlaceholder(w, after, params);
    NoPlaceholderUnchanged(after, params);
  }

  /** Literal braces that form no placeholder are kept even when
      parameters are given. */
  lemma LiteralBracesKept(params: map<string, string>)
    ensures Subst("{ }", params) == "{ }"
  {
    var s := "{ }";
    assert PlaceholderName(s[0..]) == "" by {
      assert WordPrefix(s[1..]) == [];
    }
    assert PlaceholderName(s[1..]) == "";
    assert PlaceholderName(s[2..]) == "";
    assert NoPlaceholder(s);
    NoPlaceholderUnchanged(s, params);
  }
}
