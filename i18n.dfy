/**
 * The translation service: dotted-key lookup in a per-locale tree of
 * translations, Russian plural forms selected from a `count` parameter, and
 * `{{name}}` placeholders filled from the parameters.
 */
module I18n {
  import opened Wrappers
  import opened Strings

  /** A parsed translation file: objects of strings, with the other JSON scalars possible as leaves. */
  datatype Json = JString(s: string) | JNumber(n: int) | JBool(b: bool) | JNull | JObject(fields: map<string, Json>)

  /** A parameter value: `string | number`. */
  datatype Param = Str(text: string) | Num(n: int)

  /** The parameters in `Object.keys` order. */
  type Params = seq<(string, Param)>

  datatype PluralCategory = One | Few | Many

  const DefaultLocale := "ru"
  const LocaleKey := "@cryptoshield_locale"

  // ---------------------------------------------------------------- plural forms

  /** JavaScript's `%`: the remainder takes the sign of the dividend. */
  function JsRem(a: int, b: int): (r: int)
    requires b > 0
    ensures a >= 0 ==> r == a % b
    ensures a < 0 ==> -b < r <= 0
  {
    if a >= 0 then a % b else -((-a) % b)
  }

  /** `getPluralForm`: the Russian category for a count. */
  function PluralForm(count: int): (r: PluralCategory)
    ensures r == One <==> JsRem(count, 10) == 1 && JsRem(count, 100) != 11
    ensures r == Few <==> 2 <= JsRem(count, 10) <= 4 && (JsRem(count, 100) < 10 || JsRem(count, 100) >= 20)
  {
    var mod10 := JsRem(count, 10);
    var mod100 := JsRem(count, 100);
    if mod10 == 1 && mod100 != 11 then One
    else if mod10 >= 2 && mod10 <= 4 && (mod100 < 10 || mod100 >= 20) then Few
    else Many
  }

  function CategoryName(c: PluralCategory): string {
    match c
    case One => "one"
    case Few => "few"
    case Many => "many"
  }

  /**
   * The Unicode CLDR cardinal rule for Russian integers, as CLDR writes it:
   * one when i%10 = 1 and i%100 != 11; few when i%10 = 2..4 and i%100 != 12..14;
   * many when i%10 = 0, or i%10 = 5..9, or i%100 = 11..14.
   */
  function CldrRussian(i: nat): PluralCategory {
    if i % 10 == 1 && i % 100 != 11 then One
    else if 2 <= i % 10 <= 4 && !(12 <= i % 100 <= 14) then Few
    else Many
  }

  /** The CLDR "many" condition covers exactly what is neither one nor few. */
  lemma CldrManyCondition(i: nat)
    ensures CldrRussian(i) == Many <==> i % 10 == 0 || 5 <= i % 10 <= 9 || 11 <= i % 100 <= 14
  {
    assert i % 100 % 10 == i % 10;
  }

  /** `getPluralForm` agrees with CLDR on every non-negative count. */
  lemma PluralFormIsCldr(n: nat)
    ensures PluralForm(n) == CldrRussian(n)
  {
    assert n % 100 % 10 == n % 10;
  }

  /** A negative count always selects "many": its remainders are never positive. */
  lemma NegativeCountIsMany(n: int)
    requires n < 0
    ensures PluralForm(n) == Many
  {
  }

  /** The category repeats every hundred. */
  lemma PluralFormPeriodic(n: nat)
    ensures PluralForm(n + 100) == PluralForm(n)
  {
    var m := n + 100;
    assert m % 100 == n % 100 by {
      assert m == (n / 100 + 1) * 100 + n % 100;
    }
    assert m % 10 == n % 10 by {
      assert m == (n / 10 + 10) * 10 + n % 10;
    }
    assert JsRem(m, 10) == JsRem(n, 10) && JsRem(m, 100) == JsRem(n, 100);
  }

  lemma PluralFormExamples()
    ensures PluralForm(1) == One && PluralForm(21) == One && PluralForm(101) == One
    ensures PluralForm(2) == Few && PluralForm(4) == Few && PluralForm(22) == Few
    ensures PluralForm(0) == Many && PluralForm(5) == Many && PluralForm(11) == Many
    ensures PluralForm(12) == Many && PluralForm(14) == Many && PluralForm(111) == Many && PluralForm(-1) == Many
  {
  }

  // ---------------------------------------------------------------- lookup

  /** One step of the walk: only an object holding the segment lets it through. */
  function Step(value: Option<Json>, k: string): Option<Json> {
    if value.Some? && value.value.JObject? && k in value.value.fields then Some(value.value.fields[k]) else None
  }

  /** The walk through `keys` from `value`: nothing as soon as a segment is missing. */
  function Walk(value: Option<Json>, keys: seq<string>): (r: Option<Json>)
    ensures |keys| > 0 && value.None? ==> r.None?
    decreases |keys|
  {
    if |keys| == 0 then value else Walk(Step(value, keys[0]), keys[1..])
  }

  /** Walking `a` and then `b` is walking their concatenation. */
  lemma {:induction false} WalkConcat(value: Option<Json>, a: seq<string>, b: seq<string>)
    ensures Walk(value, a + b) == Walk(Walk(value, a), b)
    decreases |a|
  {
    if |a| > 0 {
      assert (a + b)[0] == a[0];
      assert (a + b)[1..] == a[1..] + b;
      assert Walk(value, a + b) == Walk(Step(value, a[0]), a[1..] + b);
      assert Walk(value, a) == Walk(Step(value, a[0]), a[1..]);
      WalkConcat(Step(value, a[0]), a[1..], b);
    } else {
      assert a + b == b;
    }
  }

  function Root(translations: map<string, Json>, locale: string): Option<Json> {
    if locale in translations then Some(translations[locale]) else None
  }

  /** The string a dotted key resolves to, if it resolves to a string. */
  function Resolve(translations: map<string, Json>, locale: string, key: string): Option<string> {
    match Walk(Root(translations, locale), Split(key, '.'))
    case Some(JString(s)) => Some(s)
    case _ => None
  }

  function ParamText(p: Param): string {
    match p
    case Str(text) => text
    case Num(n) => IntToString(n)
  }

  function Placeholder(name: string): (r: string)
    ensures |r| == |name| + 4 && r[0] == '{'
  {
    "{{" + name + "}}"
  }

  /** Each parameter in order replaces every `{{name}}` of the text as it is at that point. */
  function Substitute(text: string, params: Params): string
    decreases |params|
  {
    if |params| == 0 then text
    else Substitute(ReplaceAll(text, Placeholder(params[0].0), ParamText(params[0].1)), params[1..])
  }

  /** `params[name]`: the value of the first parameter called `name`, if any. */
  function FindParam(params: Params, name: string): (r: Option<Param>)
    ensures r.None? <==> forall i :: 0 <= i < |params| ==> params[i].0 != name
    ensures r.Some? ==>
      exists i :: 0 <= i < |params| && params[i] == (name, r.value) && forall j :: 0 <= j < i ==> params[j].0 != name
  {
    if |params| == 0 then None
    else if params[0].0 == name then Some(params[0].1)
    else FindParam(params[1..], name)
  }

  /** A count given as text is not a whole number here; it selects "many". */
  function CountCategory(p: Param): PluralCategory {
    match p
    case Num(n) => PluralForm(n)
    case Str(_) => Many
  }

  /**
   * `t(key, params)`: the key itself unless it resolves to a string; with a
   * `count` parameter the `key_<category>` string when that resolves; then
   * the parameters substituted.
   */
  function Translate(translations: map<string, Json>, locale: string, key: string, params: Option<Params>): string {
    match Resolve(translations, locale, key)
    case None => key
    case Some(value) =>
      var chosen :=
        if params.Some? && FindParam(params.value, "count").Some? then
          var pluralKey := key + "_" + CategoryName(CountCategory(FindParam(params.value, "count").value));
          Resolve(translations, locale, pluralKey).GetOr(value)
        else value;
      if params.Some? then Substitute(chosen, params.value) else chosen
  }

  // ---------------------------------------------------------------- properties of t

  /** A key with a missing segment, or one naming an object or another non-string, comes back as it is. */
  lemma UnresolvedKeyReturned(translations: map<string, Json>, locale: string, key: string, params: Option<Params>)
    requires Walk(Root(translations, locale), Split(key, '.')) == None
             || !Walk(Root(translations, locale), Split(key, '.')).value.JString?
    ensures Translate(translations, locale, key, params) == key
  {
  }

  /** A locale without a translation table answers every key with the key. */
  lemma UnknownLocaleReturnsKey(translations: map<string, Json>, locale: string, key: string, params: Option<Params>)
    requires locale !in translations
    ensures Translate(translations, locale, key, params) == key
  {
    UnresolvedKeyReturned(translations, locale, key, params);
  }

  /** Without parameters the resolved string comes back untouched. */
  lemma NoParamsGivesValue(translations: map<string, Json>, locale: string, key: string)
    requires Resolve(translations, locale, key).Some?
    ensures Translate(translations, locale, key, None) == Resolve(translations, locale, key).value
  {
  }

  /** With a `count`, an existing plural string is preferred; without one, the base string is used. */
  lemma PluralPreferred(translations: map<string, Json>, locale: string, key: string, params: Params, n: int)
    requires Resolve(translations, locale, key).Some?
    requires FindParam(params, "count") == Some(Num(n))
    ensures var pluralKey := key + "_" + CategoryName(PluralForm(n));
            Translate(translations, locale, key, Some(params))
            == Substitute(Resolve(translations, locale, pluralKey).GetOr(Resolve(translations, locale, key).value), params)
  {
  }

  /** Parameters are only applied where `count` is absent: the base string, substituted. */
  lemma NoCountUsesBase(translations: map<string, Json>, locale: string, key: string, params: Params)
    requires Resolve(translations, locale, key).Some?
    requires FindParam(params, "count").None?
    ensures Translate(translations, locale, key, Some(params)) == Substitute(Resolve(translations, locale, key).value, params)
  {
  }

  /**
   * Every placeholder of a parameter is filled: a text made of brace-free
   * pieces joined by `{{name}}` becomes the same pieces joined by the value.
   */
  lemma {:induction false} SubstituteFillsEveryPlaceholder(pieces: seq<string>, name: string, p: Param)
    requires |pieces| >= 1
    requires forall k :: 0 <= k < |pieces| ==> '{' !in pieces[k]
    ensures Substitute(Interleave(pieces, Placeholder(name)), [(name, p)]) == Interleave(pieces, ParamText(p))
  {
    ReplaceAllPieces(pieces, Placeholder(name), ParamText(p));
  }

  /** The usual shape: one `{{count}}` between two brace-free texts. */
  lemma {:induction false} CountMessage(before: string, after: string, n: int)
    requires '{' !in before && '{' !in after
    ensures Substitute(before + Placeholder("count") + after, [("count", Num(n))]) == before + IntToString(n) + after
  {
    var pieces := [before, after];
    assert Interleave(pieces, Placeholder("count")) == before + Placeholder("count") + after;
    assert Interleave(pieces, IntToString(n)) == before + IntToString(n) + after;
    SubstituteFillsEveryPlaceholder(pieces, "count", Num(n));
  }

  /** A text without the placeholder is left alone by that parameter. */
  lemma {:induction false} AbsentPlaceholderUntouched(text: string, name: string, p: Param)
    requires !Contains(text, Placeholder(name))
    ensures Substitute(text, [(name, p)]) == text
  {
    ReplaceAllAbsent(text, Placeholder(name), ParamText(p));
  }

  // ---------------------------------------------------------------- the service object

  /** The service: the current locale, the loaded tables, and the device store slot for the locale. */
  class I18nService {
    var currentLocale: string
    var translations: map<string, Json>
    var store: map<string, string>

    /** The service starts in Russian with the Russian table loaded. */
    constructor(ruTranslations: Json, persisted: map<string, string>)
      ensures currentLocale == DefaultLocale
      ensures translations == map[DefaultLocale := ruTranslations]
      ensures store == persisted
    {
      currentLocale := DefaultLocale;
      translations := map[DefaultLocale := ruTranslations];
      store := persisted;
    }

    /** `init`: a saved locale replaces the current one unless it is missing or empty. */
    method Init()
      modifies this
      ensures LocaleKey in store && store[LocaleKey] != "" ==> currentLocale == store[LocaleKey]
      ensures !(LocaleKey in store && store[LocaleKey] != "") ==> currentLocale == old(currentLocale)
      ensures translations == old(translations) && store == old(store)
    {
      if LocaleKey in store {
        var savedLocale := store[LocaleKey];
        if savedLocale != "" {
          currentLocale := savedLocale;
        }
      }
    }

    /** `setLocale`: the locale changes whether or not persisting it succeeds. */
    method SetLocale(locale: string, persistSucceeds: bool)
      modifies this
      ensures currentLocale == locale && translations == old(translations)
      ensures store == if persistSucceeds then old(store)[LocaleKey := locale] else old(store)
    {
      currentLocale := locale;
      if persistSucceeds {
        store := store[LocaleKey := locale];
      }
    }

    method GetCurrentLocale() returns (locale: string)
      ensures locale == currentLocale
    {
      locale := currentLocale;
    }

    /** `t`: walk the key's segments, pick a plural form, substitute the parameters. */
    method T(key: string, params: Option<Params>) returns (r: string)
      ensures r == Translate(translations, currentLocale, key, params)
    {
      var root := Root(translations, currentLocale);
      var keys := Split(key, '.');
      var value := root;
      var i := 0;
      while i < |keys|
        invariant 0 <= i <= |keys|
        invariant Walk(value, keys[i..]) == Walk(root, keys)
      {
        if value.Some? && value.value.JObject? && keys[i] in value.value.fields {
          value := Some(value.value.fields[keys[i]]);
        } else {
          return key;
        }
        i := i + 1;
      }
      if !(value.Some? && value.value.JString?) {
        return key;
      }
      var text := value.value.s;

      if params.Some? && FindParam(params.value, "count").Some? {
        var count := FindParam(params.value, "count").value;
        var pluralForm := CountCategory(count);
        var pluralKeys := Split(key + "_" + CategoryName(pluralForm), '.');
        var pluralValue := root;
        var j := 0;
        while j < |pluralKeys|
          invariant 0 <= j <= |pluralKeys|
          invariant Walk(pluralValue, pluralKeys[j..]) == Walk(root, pluralKeys)
        {
          if pluralValue.Some? && pluralValue.value.JObject? && pluralKeys[j] in pluralValue.value.fields {
            pluralValue := Some(pluralValue.value.fields[pluralKeys[j]]);
          } else {
            pluralValue := None;
            break;
          }
          j := j + 1;
        }
        if pluralValue.Some? && pluralValue.value.JString? {
          text := pluralValue.value.s;
        }
      }

      if params.Some? {
        var ps := params.value;
        ghost var chosen := text;
        var k := 0;
        while k < |ps|
          invariant 0 <= k <= |ps|
          invariant Substitute(text, ps[k..]) == Substitute(chosen, ps)
        {
          assert ps[k..][1..] == ps[k + 1..];
          text := ReplaceAll(text, Placeholder(ps[k].0), ParamText(ps[k].1));
          k := k + 1;
        }
      }
      r := text;
    }
  }
}
