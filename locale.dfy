/**
 * The locale provider: which language a page starts in (the stored choice,
 * then the `gp_lang` cookie, then Sinhala), dotted-path lookup in a
 * dictionary, `{{name}}` substitution, the `t` fallback chain and the
 * language switch that persists the choice. The two dictionaries are values
 * passed in; storage and cookie are fields of the provider.
 */
module Locale {
  import opened Wrappers
  import opened Strings
  import opened Json

  const Supported: seq<string> := ["si", "en"]
  const CookieKey: string := "gp_lang"

  predicate IsSupported(lang: string) {
    lang == "si" || lang == "en"
  }

  /** The longest front of `s` without `;`. */
  function UpToSemicolon(s: string): (r: string)
    ensures |r| <= |s| && ';' !in r && r == s[..|r|] && (|r| == |s| || s[|r|] == ';')
  {
    if s == [] || s[0] == ';' then [] else [s[0]] + UpToSemicolon(s[1..])
  }

  lemma {:induction false} UpToSemicolonWhole(s: string)
    requires ';' !in s
    ensures UpToSemicolon(s) == s
  {
    if s != [] {
      UpToSemicolonWhole(s[1..]);
      assert s == [s[0]] + s[1..];
    }
  }

  /** The cookie pattern `(^| )gp_lang=([^;]+)` matches with its key at position `i`. */
  predicate KeyAt(cookie: string, i: nat) {
    (i == 0 || (i <= |cookie| && cookie[i - 1] == ' ')) &&
    i + |CookieKey| + 1 <= |cookie| &&
    cookie[i..i + |CookieKey| + 1] == CookieKey + "=" &&
    UpToSemicolon(cookie[i + |CookieKey| + 1..]) != []
  }

  /** The captured value of the leftmost match at or after position `i`. */
  function CookieFrom(cookie: string, i: nat): Option<string>
    decreases |cookie| - i
  {
    if i > |cookie| then None
    else if KeyAt(cookie, i) then Some(UpToSemicolon(cookie[i + |CookieKey| + 1..]))
    else CookieFrom(cookie, i + 1)
  }

  /** `document.cookie.match(...)[2]`, `None` when the pattern does not match. */
  function CookieLang(cookie: string): Option<string> {
    CookieFrom(cookie, 0)
  }

  /** No match of the cookie pattern starts at a position in `[i, k)`. */
  predicate NoKeyBetween(cookie: string, i: nat, k: nat) {
    forall m: nat :: i <= m < k ==> !KeyAt(cookie, m)
  }

  /** A captured value comes from the first match at or after `i`. */
  lemma {:induction false} CookieFromFirst(cookie: string, i: nat)
    requires CookieFrom(cookie, i).Some?
    ensures exists k: nat :: (i <= k <= |cookie| && KeyAt(cookie, k) && NoKeyBetween(cookie, i, k) &&
                              CookieFrom(cookie, i).value == UpToSemicolon(cookie[k + |CookieKey| + 1..]))
    decreases |cookie| - i
  {
    if KeyAt(cookie, i) {
      assert NoKeyBetween(cookie, i, i);
    } else {
      CookieFromFirst(cookie, i + 1);
      var k: nat :| i + 1 <= k <= |cookie| && KeyAt(cookie, k) && NoKeyBetween(cookie, i + 1, k) &&
                    CookieFrom(cookie, i + 1).value == UpToSemicolon(cookie[k + |CookieKey| + 1..]);
      assert NoKeyBetween(cookie, i, k);
    }
  }

  /** The pattern fails to match from `i` on exactly when no position there starts a match. */
  lemma {:induction false} CookieFromNone(cookie: string, i: nat)
    ensures CookieFrom(cookie, i).None? <==> NoKeyBetween(cookie, i, |cookie| + 1)
    decreases |cookie| - i
  {
    if i <= |cookie| && !KeyAt(cookie, i) {
      CookieFromNone(cookie, i + 1);
      assert NoKeyBetween(cookie, i + 1, |cookie| + 1) ==> NoKeyBetween(cookie, i, |cookie| + 1);
    }
  }

  /** A captured value is never empty and never holds a `;`. */
  lemma CookieValueShape(cookie: string)
    requires CookieLang(cookie).Some?
    ensures CookieLang(cookie).value != [] && ';' !in CookieLang(cookie).value
  {
    CookieFromFirst(cookie, 0);
  }

  /** The cookie the provider writes reads back as its language. */
  lemma CookieLangWritten(lang: string)
    requires IsSupported(lang)
    ensures CookieLang(CookieKey + "=" + lang) == Some(lang)
  {
    var c := CookieKey + "=" + lang;
    assert c[0..|CookieKey| + 1] == CookieKey + "=";
    assert c[|CookieKey| + 1..] == lang;
    UpToSemicolonWhole(lang);
  }

  /** `loadInitialLanguage`: a supported stored choice, else a supported cookie value, else `si`. */
  function LoadInitialLanguage(hasWindow: bool, stored: Option<string>, cookie: string): (lang: string)
    ensures IsSupported(lang)
  {
    if !hasWindow then "si"
    else if stored.Some? && stored.value != "" && IsSupported(stored.value) then stored.value
    else
      var c := CookieLang(cookie);
      if c.Some? && IsSupported(c.value) then c.value else "si"
  }

  /**
   * The order of the sources: a supported stored value wins over any cookie;
   * an unsupported or missing one defers to the cookie; without either the
   * language is Sinhala.
   */
  lemma LoadInitialLanguageOrder(stored: Option<string>, cookie: string)
    ensures stored.Some? && IsSupported(stored.value) ==> LoadInitialLanguage(true, stored, cookie) == stored.value
    ensures !(stored.Some? && IsSupported(stored.value)) ==>
      LoadInitialLanguage(true, stored, cookie) ==
        (if CookieLang(cookie).Some? && IsSupported(CookieLang(cookie).value) then CookieLang(cookie).value else "si")
    ensures LoadInitialLanguage(true, None, "") == "si"
  {
    CookieFromNone("", 0);
  }

  /** The value before any lookup step finds a non-object. */
  function Step(obj: Option<Json>, key: string): Option<Json> {
    if Truthy(obj) && IsObject(obj.value) then Get(obj.value, key) else None
  }

  /** `keys.reduce((obj, key) => (obj && typeof obj === 'object' ? obj[key] : undefined), start)`. */
  function Walk(start: Option<Json>, keys: seq<string>): Option<Json>
    decreases |keys|
  {
    if keys == [] then start else Walk(Step(start, keys[0]), keys[1..])
  }

  /** `getValue`: `''` without a dictionary or path, else the walk along the dotted segments. */
  function GetValue(dict: Option<Json>, path: string): Option<Json> {
    if !Truthy(dict) || path == "" then Some(JStr(""))
    else Walk(dict, Split(path, '.'))
  }

  /** Once the walk falls off the dictionary it stays undefined. */
  lemma {:induction false} WalkUndefined(keys: seq<string>)
    ensures Walk(None, keys) == None
    decreases |keys|
  {
    if keys != [] {
      WalkUndefined(keys[1..]);
    }
  }

  /** Walking two paths in turn is walking their concatenation. */
  lemma {:induction false} WalkAppend(start: Option<Json>, a: seq<string>, b: seq<string>)
    ensures Walk(start, a + b) == Walk(Walk(start, a), b)
    decreases |a|
  {
    if a == [] {
      assert a + b == b;
    } else {
      assert (a + b)[1..] == a[1..] + b;
      WalkAppend(Step(start, a[0]), a[1..], b);
    }
  }

  /** `a.b` is `b` looked up in the value at `a`. */
  lemma GetValueDotted(dict: Option<Json>, a: string, b: string)
    requires Truthy(dict) && '.' !in a && '.' !in b
    ensures GetValue(dict, a + "." + b) == Step(Step(dict, a), b)
  {
    assert a + ['.'] + b == a + "." + b;
    SplitPair(a, b, '.');
    assert [a, b][1..] == [b];
    assert [b][1..] == [];
    assert Walk(dict, [a, b]) == Walk(Step(dict, a), [b]);
  }

  /** A single segment is a plain property lookup. */
  lemma GetValueSingle(dict: Option<Json>, key: string)
    requires Truthy(dict) && key != "" && '.' !in key
    ensures GetValue(dict, key) == Step(dict, key)
  {
    SplitNoSeparator(key, '.');
    assert [key][1..] == [];
    assert Walk(dict, [key]) == Walk(Step(dict, key), []);
  }

  /** The text `{{name}}` that stands for the option `name`. */
  function Placeholder(name: string): (p: string)
    ensures |p| == |name| + 4 && p[0] == '{' && p[|p| - 1] == '}'
  {
    "{{" + name + "}}"
  }

  /** The replacements of one `{{name}}` placeholder per option, in order. */
  function Substitute(s: string, options: seq<(string, string)>): string
    decreases |options|
  {
    if options == [] then s
    else Substitute(ReplaceAll(s, Placeholder(options[0].0), options[0].1), options[1..])
  }

  /** `format`: `''` for a value that is not a string, else its placeholders filled in. */
  function Format(value: Option<Json>, options: seq<(string, string)>): string {
    match value
    case Some(JStr(s)) => Substitute(s, options)
    case _ => ""
  }

  /** Without options a string is returned as it is. */
  lemma FormatNoOptions(s: string)
    ensures Format(Some(JStr(s)), []) == s
  {
  }

  /** A placeholder that occurs once is replaced by its option's text, and nothing else changes. */
  lemma FormatOnePlaceholder(x: string, name: string, y: string, v: string)
    requires forall i: nat :: i < |x| ==> !OccursAt(x + Placeholder(name) + y, Placeholder(name), i)
    requires !Occurs(y, Placeholder(name))
    ensures Format(Some(JStr(x + Placeholder(name) + y)), [(name, v)]) == x + v + y
  {
    var p := Placeholder(name);
    ReplaceAllFirst(x, p, y, v);
    ReplaceAllAbsent(y, p, v);
    var opts := [(name, v)];
    assert opts[1..] == [];
    assert Substitute(x + p + y, opts) == Substitute(ReplaceAll(x + p + y, p, v), []);
  }

  /** The dictionary of a language; any other code reads the Sinhala one. */
  function Dictionary(lang: string, si: Json, en: Json): Json {
    if lang == "en" then en else si
  }

  /** `t(key, fallback, options)`: the current value, the Sinhala value, the fallback, the key. */
  function T(dict: Json, si: Json, key: string, fallback: string, options: seq<(string, string)>): string {
    var value := GetValue(Some(dict), key);
    if Truthy(value) then Format(value, options)
    else
      var defaultValue := GetValue(Some(si), key);
      if Truthy(defaultValue) then Format(defaultValue, options)
      else if fallback != "" then fallback else key
  }

  /**
   * The chain of `t`: a string found in the current dictionary is formatted;
   * failing that, one found in the Sinhala dictionary; a truthy value that is
   * not a string (a section object, say) gives `''`; with neither, the
   * fallback, and the key itself without one.
   */
  lemma TChain(dict: Json, si: Json, key: string, fallback: string, options: seq<(string, string)>)
    ensures forall s :: GetValue(Some(dict), key) == Some(JStr(s)) && s != "" ==>
      T(dict, si, key, fallback, options) == Substitute(s, options)
    ensures forall s :: !Truthy(GetValue(Some(dict), key)) && GetValue(Some(si), key) == Some(JStr(s)) && s != "" ==>
      T(dict, si, key, fallback, options) == Substitute(s, options)
    ensures Truthy(GetValue(Some(dict), key)) && !GetValue(Some(dict), key).value.JStr? ==>
      T(dict, si, key, fallback, options) == ""
    ensures !Truthy(GetValue(Some(dict), key)) && !Truthy(GetValue(Some(si), key)) ==>
      T(dict, si, key, fallback, options) == (if fallback != "" then fallback else key)
  {
  }

  /** The language, the stored choice, the `gp_lang` cookie value and `documentElement.lang`. */
  class LocaleProvider {
    var lang: string
    var stored: Option<string>
    var cookieLang: Option<string>
    var documentLang: string

    /** The effect has run: every persisted copy holds the current language. */
    ghost predicate Valid()
      reads this
    {
      IsSupported(lang) && stored == Some(lang) && cookieLang == Some(lang) && documentLang == lang
    }

    /** Mounting: the initial language, then the effect that persists it. */
    constructor (stored: Option<string>, cookie: string)
      ensures lang == LoadInitialLanguage(true, stored, cookie)
      ensures Valid()
    {
      lang := LoadInitialLanguage(true, stored, cookie);
      this.stored := Some(lang);
      cookieLang := Some(lang);
      documentLang := lang;
    }

    /** `setLanguage`: an unsupported code is ignored; a supported one becomes the language and is persisted. */
    method SetLanguage(next: string)
      requires Valid()
      modifies this
      ensures Valid()
      ensures lang == (if IsSupported(next) then next else old(lang))
    {
      if !IsSupported(next) {
        return;
      }
      lang := next;
      stored := Some(lang);
      cookieLang := Some(lang);
      documentLang := lang;
    }

    /** `t` with the dictionary of the current language. */
    function Translate(si: Json, en: Json, key: string, fallback: string, options: seq<(string, string)>): string
      reads this
    {
      T(Dictionary(lang, si, en), si, key, fallback, options)
    }
  }

  /** A reload after the effect starts in the language that was persisted. */
  lemma ReloadKeepsLanguage(lang: string, cookie: string)
    requires IsSupported(lang)
    ensures LoadInitialLanguage(true, Some(lang), cookie) == lang
    ensures LoadInitialLanguage(true, None, CookieKey + "=" + lang) == lang
  {
    CookieLangWritten(lang);
  }
}
