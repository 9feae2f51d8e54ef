/**
 * The text the form stores for an error is `t(key)` in the current
 * language. None of the form's message names is an entry of either table's
 * `validation` section, so the stored text is always the key itself.
 */
module FormMessages {
  import opened Text
  import opened Languages
  import opened LocalizationService
  import opened EmployeeForm

  /** The message names the tables do carry under `validation`. */
  const TableNames: set<string> := {"required", "invalidEmail", "invalidPhone", "invalidDate", "duplicateEmail"}

  lemma ValidationSections()
    ensures En.children["validation"].Branch? && En.children["validation"].children.Keys == TableNames
    ensures Tr.children["validation"].Branch? && Tr.children["validation"].children.Keys == TableNames
  {
  }

  /** A dot-free name outside the section is not translated, in any language. */
  lemma UnlistedNameUntranslated(lang: string, name: string)
    requires '.' !in name && name !in TableNames
    ensures Translate(lang, "validation." + name) == "validation." + name
  {
    var keys := ["validation", name];
    assert "validation." + name == Join(keys, '.');
    if lang in Tables {
      ValidationSections();
      var table := Tables[lang];
      assert Lookup(table, keys) == Lookup(table.children["validation"], [name]);
      TextAtFallback(table, keys);
    }
  }

  /** None of the form's message names is one the tables carry. */
  lemma FormNamesUnlisted(e: ErrorKey)
    ensures '.' !in KeyName(e) && KeyName(e) !in TableNames
  {
    match e
    case NameMinLength =>
    case NameInvalidChars =>
    case EmailRequired =>
    case EmailInvalid =>
    case EmailExists =>
    case PhoneRequired =>
    case PhoneInvalid =>
    case DateRequired =>
    case DateInvalid =>
    case AgeInvalid =>
    case DateBirthFuture =>
    case SelectionRequired =>
  }

  /** Whatever the language, a form error's text is its key. */
  lemma ErrorTextIsKey(lang: string, e: ErrorKey)
    ensures Translate(lang, KeyText(e)) == KeyText(e)
  {
    FormNamesUnlisted(e);
    UnlistedNameUntranslated(lang, KeyName(e));
  }
}
