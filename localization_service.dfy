/**
 * The localization service: the current language, look-up of dotted key
 * paths in the translation trees, `{{name}}` placeholders, and the list of
 * subscribers told about each language change.
 *
 * A subscriber is identified by a number standing for the function object;
 * calling it is recorded in `notifications`, and what it does is not part
 * of the model. The saved choice, the page's `lang` attribute and the
 * browser language are inputs of the constructor.
 */
module LocalizationService {
  import opened Wrappers
  import opened Text
  import opened Languages

  /** `language || this.currentLanguage`: an override counts only when it is a non-empty string. */
  function Chosen(language: Option<string>, current: string): string
  {
    if language.Some? && language.value != "" then language.value else current
  }

  /** The node at the end of a path of keys, if every key leads into an object. */
  function Lookup(node: Node, keys: seq<string>): Option<Node>
    decreases |keys|
  {
    if keys == [] then Some(node)
    else match node
      case Leaf(_) => None
      case Branch(children) => if keys[0] in children then Lookup(children[keys[0]], keys[1..]) else None
  }

  /** The string at the dotted path in a table; the path itself when there is none. */
  function TextAt(table: Node, keyPath: string): string
  {
    match Lookup(table, Split(keyPath, '.'))
    case Some(Leaf(text)) => text
    case _ => keyPath
  }

  /** `getText` in language `lang`: an unknown language gives back the path. */
  function Translate(lang: string, keyPath: string): string
  {
    if lang in Tables then TextAt(Tables[lang], keyPath) else keyPath
  }

  /** A string stored under keys free of dots is what their dotted path gives. */
  lemma TextAtStored(table: Node, keys: seq<string>, text: string)
    requires |keys| > 0
    requires forall i :: 0 <= i < |keys| ==> '.' !in keys[i]
    requires Lookup(table, keys) == Some(Leaf(text))
    ensures TextAt(table, Join(keys, '.')) == text
  {
    SplitJoin(keys, '.');
  }

  /** A missing key, or a path that ends inside an object, gives back the path. */
  lemma TextAtFallback(table: Node, keys: seq<string>)
    requires |keys| > 0
    requires forall i :: 0 <= i < |keys| ==> '.' !in keys[i]
    requires Lookup(table, keys).None? || Lookup(table, keys).value.Branch?
    ensures TextAt(table, Join(keys, '.')) == Join(keys, '.')
  {
    SplitJoin(keys, '.');
  }

  /** An English entry is found under its dotted path. */
  lemma TranslateEnglishEntry()
    ensures Translate("en", "common.yes") == "Yes"
  {
    assert "common.yes" == Join(["common", "yes"], '.');
    TextAtStored(En, ["common", "yes"], "Yes");
  }

  /** So is a Turkish one. */
  lemma TranslateTurkishEntry()
    ensures Translate("tr", "common.yes") == "Evet"
  {
    assert "common.yes" == Join(["common", "yes"], '.');
    TextAtStored(Tr, ["common", "yes"], "Evet");
  }

  /** A path that ends inside an object comes back as it is. */
  lemma TranslateObjectPath()
    ensures Translate("en", "navigation") == "navigation"
  {
    assert "navigation" == Join(["navigation"], '.');
    TextAtFallback(En, ["navigation"]);
  }

  /** So does any path in a language without a table. */
  lemma TranslateUnknownLanguage(keyPath: string)
    ensures Translate("fr", keyPath) == keyPath
  {
  }

  // ---------------------------------------------------------------------------
  // Placeholders
  // ---------------------------------------------------------------------------

  /** `{{key}}`. */
  function Placeholder(key: string): (p: string)
    ensures |p| == |key| + 4 && p[..2] == "{{"
  {
    "{{" + key + "}}"
  }

  /** Each entry in turn replaces every occurrence of its placeholder in the text. */
  function Fill(text: string, placeholders: seq<(string, string)>): string
    decreases |placeholders|
  {
    if placeholders == [] then text
    else Fill(ReplaceAll(text, Placeholder(placeholders[0].0), placeholders[0].1), placeholders[1..])
  }

  /** Text with no `{{` has no placeholder and comes back unchanged, whatever the values. */
  lemma {:induction false} FillWithoutPlaceholders(text: string, placeholders: seq<(string, string)>)
    requires forall j: nat :: !OccursAt(text, "{{", j)
    ensures Fill(text, placeholders) == text
    decreases |placeholders|
  {
    if placeholders != [] {
      var p := Placeholder(placeholders[0].0);
      forall j: nat | j + |p| <= |text| ensures !OccursAt(text, p, j) {
        assert text[j..j + |p|][..2] == text[j..j + 2];
        assert !OccursAt(text, "{{", j);
      }
      ReplaceAllAbsent(text, p, placeholders[0].1);
      FillWithoutPlaceholders(text, placeholders[1..]);
    }
  }

  /** A placeholder framed by text without braces is replaced by its value. */
  lemma FillOne(a: string, key: string, b: string, value: string)
    requires '{' !in a && '{' !in b
    ensures Fill(a + Placeholder(key) + b, [(key, value)]) == a + value + b
  {
    var p := Placeholder(key);
    var s := a + p + b;
    assert p[0] == '{';
    forall j: nat | j < |a| && j + |p| <= |s| ensures !OccursAt(s, p, j) {
      assert s[j..j + |p|][0] == s[j] == a[j];
    }
    ReplaceAllFirst(a, p, b, value);
    forall j: nat | j + |p| <= |b| ensures !OccursAt(b, p, j) {
      assert b[j..j + |p|][0] == b[j];
    }
    ReplaceAllAbsent(b, p, value);
  }

  // ---------------------------------------------------------------------------
  // Language choice
  // ---------------------------------------------------------------------------

  /** A code that passes `code && this.languages[code]`: non-empty and with a table. */
  predicate Supported(code: string)
  {
    code != "" && code in Tables
  }

  /** `_getInitialLanguage`: the saved choice, the page's `lang`, the browser's primary subtag, else English. */
  function InitialLanguage(saved: Option<string>, htmlLang: string, navigatorLanguage: string): (r: string)
    ensures r in Tables
    ensures saved.Some? && Supported(saved.value) ==> r == saved.value
    ensures !(saved.Some? && Supported(saved.value)) && Supported(htmlLang) ==> r == htmlLang
    ensures var browserLang := Split(navigatorLanguage, '-')[0];
            (!(saved.Some? && Supported(saved.value)) && !Supported(htmlLang) && Supported(browserLang)
             ==> r == browserLang)
    ensures var browserLang := Split(navigatorLanguage, '-')[0];
            (!(saved.Some? && Supported(saved.value)) && !Supported(htmlLang) && !Supported(browserLang)
             ==> r == "en")
  {
    if saved.Some? && Supported(saved.value) then saved.value
    else if Supported(htmlLang) then htmlLang
    else
      var browserLang := Split(navigatorLanguage, '-')[0];
      if Supported(browserLang) then browserLang
      else "en"
  }

  /** A supported saved choice wins; an unsupported one gives way to the page's `lang`. */
  lemma InitialLanguageSavedFirst()
    ensures InitialLanguage(Some("tr"), "en", "en-US") == "tr"
    ensures InitialLanguage(Some("fr"), "tr", "en-US") == "tr"
  {
  }

  /** The browser's primary subtag counts when it is supported. */
  lemma InitialLanguageBrowser()
    ensures InitialLanguage(None, "", "tr-TR") == "tr"
  {
    assert "tr-TR" == "tr" + ['-'] + "TR";
    SplitFirst("tr", '-', "TR");
  }

  /** When no source gives a supported code, the language is English. */
  lemma InitialLanguageDefault()
    ensures InitialLanguage(Some("fr"), "de", "fr-FR") == "en"
  {
    assert "fr-FR" == "fr" + ['-'] + "FR";
    SplitFirst("fr", '-', "FR");
  }

  /** The names of the supported languages; `Object.keys` lists exactly the table's codes, once each. */
  function AvailableLanguages(): (r: seq<string>)
    ensures (forall c :: c in r <==> c in Tables) && |r| == |Tables|
    ensures r == ["en", "tr"]
  {
    assert Tables.Keys == {"en", "tr"};
    Codes
  }

  /** The name of `code` in the current language, or the code in capitals when none is listed. */
  function LanguageName(current: string, code: string): (r: string)
    ensures current in LanguageNames && code in LanguageNames[current] ==> r == LanguageNames[current][code]
    ensures !(current in LanguageNames && code in LanguageNames[current]) ==> r == Upper(code)
  {
    if current in LanguageNames && code in LanguageNames[current] && LanguageNames[current][code] != ""
    then LanguageNames[current][code]
    else Upper(code)
  }

  // ---------------------------------------------------------------------------
  // Subscribers
  // ---------------------------------------------------------------------------

  type Callback = nat

  /** `splice(indexOf(x), 1)` when `x` is present: the first occurrence goes, the rest keep their order. */
  function RemoveFirst(s: seq<Callback>, x: Callback): seq<Callback>
  {
    if s == [] then []
    else if s[0] == x then s[1..]
    else [s[0]] + RemoveFirst(s[1..], x)
  }

  /** Removing an absent callback changes nothing; removing a present one drops exactly one copy of it. */
  lemma {:induction false} RemoveFirstMeaning(s: seq<Callback>, x: Callback)
    ensures x !in s ==> RemoveFirst(s, x) == s
    ensures x in s ==> |RemoveFirst(s, x)| == |s| - 1 && multiset(RemoveFirst(s, x)) == multiset(s) - multiset{x}
  {
    if s != [] {
      RemoveFirstMeaning(s[1..], x);
      assert s == [s[0]] + s[1..];
    }
  }

  /** Unsubscribing right after subscribing a new callback restores the list. */
  lemma {:induction false} SubscribeUnsubscribe(s: seq<Callback>, x: Callback)
    requires x !in s
    ensures RemoveFirst(s + [x], x) == s
  {
    if s != [] {
      assert (s + [x])[1..] == s[1..] + [x];
      SubscribeUnsubscribe(s[1..], x);
    }
  }

  /** One call of every subscriber, in order, with the language. */
  function Calls(subscribers: seq<Callback>, language: string): (r: seq<(Callback, string)>)
    ensures |r| == |subscribers|
    ensures forall i :: 0 <= i < |r| ==> r[i] == (subscribers[i], language)
  {
    seq(|subscribers|, i requires 0 <= i < |subscribers| => (subscribers[i], language))
  }

  class LocalizationServiceObject {
    var currentLanguage: string
    var subscribers: seq<Callback>
    var notifications: seq<(Callback, string)>

    /** The current language is always one of the tables. */
    ghost predicate Valid()
      reads this
    {
      currentLanguage in Tables
    }

    constructor(saved: Option<string>, htmlLang: string, navigatorLanguage: string)
      ensures Valid()
      ensures currentLanguage == InitialLanguage(saved, htmlLang, navigatorLanguage)
      ensures subscribers == [] && notifications == []
    {
      currentLanguage := InitialLanguage(saved, htmlLang, navigatorLanguage);
      subscribers := [];
      notifications := [];
    }

    /** `getText(keyPath, language)`: walk the keys down the chosen table. */
    method GetText(keyPath: string, language: Option<string>) returns (text: string)
      ensures text == Translate(Chosen(language, currentLanguage), keyPath)
    {
      var lang := Chosen(language, currentLanguage);
      if lang !in Tables {
        return keyPath;
      }
      var keys := Split(keyPath, '.');
      var result := Tables[lang];
      var i := 0;
      while i < |keys|
        invariant 0 <= i <= |keys|
        invariant Lookup(Tables[lang], keys) == Lookup(result, keys[i..])
      {
        var key := keys[i];
        assert keys[i..][1..] == keys[i + 1..];
        if result.Branch? && key in result.children {
          result := result.children[key];
        } else {
          return keyPath;
        }
        i := i + 1;
      }
      text := if result.Leaf? then result.text else keyPath;
    }

    /** `getTextWithPlaceholders`: the text, then each placeholder replaced in turn. */
    method GetTextWithPlaceholders(keyPath: string, placeholders: seq<(string, string)>, language: Option<string>)
      returns (text: string)
      ensures text == Fill(Translate(Chosen(language, currentLanguage), keyPath), placeholders)
    {
      text := GetText(keyPath, language);
      ghost var original := text;
      var i := 0;
      while i < |placeholders|
        invariant 0 <= i <= |placeholders|
        invariant Fill(text, placeholders[i..]) == Fill(original, placeholders)
      {
        var (key, value) := placeholders[i];
        assert placeholders[i..][1..] == placeholders[i + 1..];
        text := ReplaceAll(text, Placeholder(key), value);
        i := i + 1;
      }
    }

    /** `_notifySubscribers`: call every subscriber once, in order, with the current language. */
    method NotifySubscribers()
      modifies this`notifications
      ensures notifications == old(notifications) + Calls(subscribers, currentLanguage)
    {
      var i := 0;
      while i < |subscribers|
        invariant 0 <= i <= |subscribers|
        invariant notifications == old(notifications) + Calls(subscribers[..i], currentLanguage)
      {
        assert Calls(subscribers[..i + 1], currentLanguage) == Calls(subscribers[..i], currentLanguage) + [(subscribers[i], currentLanguage)];
        notifications := notifications + [(subscribers[i], currentLanguage)];
        i := i + 1;
      }
      assert subscribers[..i] == subscribers;
    }

    /** `setLanguage`: an unsupported code changes nothing; a supported one is stored and announced. */
    method SetLanguage(language: string)
      requires Valid()
      modifies this
      ensures Valid() && subscribers == old(subscribers)
      ensures language !in Tables ==> currentLanguage == old(currentLanguage) && notifications == old(notifications)
      ensures language in Tables ==>
                currentLanguage == language && notifications == old(notifications) + Calls(subscribers, language)
    {
      if language !in Tables {
        return;
      }
      currentLanguage := language;
      NotifySubscribers();
    }

    /** `subscribe(callback)`: add it at the end. */
    method Subscribe(callback: Callback)
      modifies this`subscribers
      ensures subscribers == old(subscribers) + [callback]
    {
      subscribers := subscribers + [callback];
    }

    /** The function `subscribe` returns: remove the first occurrence of the callback, if any. */
    method Unsubscribe(callback: Callback)
      modifies this`subscribers
      ensures subscribers == RemoveFirst(old(subscribers), callback)
    {
      var index := FirstIndex(subscribers, callback);
      if index.Some? {
        RemoveAtFirstIndex(subscribers, callback, index.value);
        subscribers := subscribers[..index.value] + subscribers[index.value + 1..];
      } else {
        RemoveFirstMeaning(subscribers, callback);
      }
    }

    /** `getLanguageName(code)` in the current language. */
    function GetLanguageName(code: string): (r: string)
      reads this
      ensures currentLanguage in LanguageNames && code in LanguageNames[currentLanguage] ==>
                r == LanguageNames[currentLanguage][code]
      ensures !(currentLanguage in LanguageNames && code in LanguageNames[currentLanguage]) ==> r == Upper(code)
    {
      LanguageName(currentLanguage, code)
    }
  }

  /** `indexOf(x)` on the subscriber list: the first position of `x`. */
  function FirstIndex(s: seq<Callback>, x: Callback): (r: Option<nat>)
    ensures r.None? ==> x !in s
    ensures r.Some? ==> r.value < |s| && s[r.value] == x && x !in s[..r.value]
  {
    if s == [] then None
    else if s[0] == x then Some(0)
    else match FirstIndex(s[1..], x)
      case None => None
      case Some(k) => Some(k + 1)
  }

  /** Splicing out the first occurrence is `RemoveFirst`. */
  lemma {:induction false} RemoveAtFirstIndex(s: seq<Callback>, x: Callback, i: nat)
    requires i < |s| && s[i] == x && x !in s[..i]
    ensures RemoveFirst(s, x) == s[..i] + s[i + 1..]
  {
    if i > 0 {
      assert s[1..][..i - 1] == s[1..i];
      assert x !in s[1..][..i - 1];
      RemoveAtFirstIndex(s[1..], x, i - 1);
      assert s[..i] == [s[0]] + s[1..i];
    }
  }
}
