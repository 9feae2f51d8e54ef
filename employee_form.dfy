/**
 * The employee form: per-field validation rules, the whole-form check, and
 * the component state the input, submit, reset and confirmation handlers
 * change.
 *
 * Error values are translation keys. The keys are missing from both
 * language tables, so the text shown is the key itself.
 *
 * Date parsing (`new Date(value)`) and "today" are inputs (`DateContext`).
 * Dates are compared by calendar day.
 */
module EmployeeForm {
  import opened Wrappers
  import opened Text
  import opened EmployeeRecord

  // ---------------------------------------------------------------------------
  // Error keys and the form's fields
  // ---------------------------------------------------------------------------

  /** The validation messages, each shown through its translation key. */
  datatype ErrorKey =
    | NameMinLength | NameInvalidChars
    | EmailRequired | EmailInvalid | EmailExists
    | PhoneRequired | PhoneInvalid
    | DateRequired | DateInvalid | AgeInvalid | DateBirthFuture
    | SelectionRequired

  /** The key passed to `t(...)`: the message's name in the `validation` section. */
  function KeyText(e: ErrorKey): (r: string)
    ensures |r| > 11 && r[..11] == "validation." && r[11..] == KeyName(e)
  {
    "validation." + KeyName(e)
  }

  function KeyName(e: ErrorKey): string
  {
    match e
      case NameMinLength => "nameMinLength"
      case NameInvalidChars => "nameInvalidChars"
      case EmailRequired => "emailRequired"
      case EmailInvalid => "emailInvalid"
      case EmailExists => "emailExists"
      case PhoneRequired => "phoneRequired"
      case PhoneInvalid => "phoneInvalid"
      case DateRequired => "dateRequired"
      case DateInvalid => "dateInvalid"
      case AgeInvalid => "ageInvalid"
      case DateBirthFuture => "dateBirthFuture"
      case SelectionRequired => "selectionRequired"
  }

  /** The eight inputs of the form; `FieldName` is the property name in `formData`. */
  datatype Field = FirstName | LastName | DateOfEmployment | DateOfBirth | Phone | Email | Department | Position

  function FieldName(f: Field): string
  {
    match f
    case FirstName => "firstName"
    case LastName => "lastName"
    case DateOfEmployment => "dateOfEmployment"
    case DateOfBirth => "dateOfBirth"
    case Phone => "phone"
    case Email => "email"
    case Department => "department"
    case Position => "position"
  }

  /** The fields in the order `_initializeFormData` lists them. */
  const FormFields: seq<Field> :=
    [FirstName, LastName, DateOfEmployment, DateOfBirth, Phone, Email, Department, Position]

  const AllFields: set<Field> := {FirstName, LastName, DateOfEmployment, DateOfBirth, Phone, Email, Department, Position}

  /** The form with every field empty. */
  const EmptyForm: map<Field, string> := map f | f in AllFields :: ""

  lemma AllFieldsComplete(f: Field)
    ensures f in AllFields && |AllFields| == 8
  {
  }

  // ---------------------------------------------------------------------------
  // Dates
  // ---------------------------------------------------------------------------

  /** A calendar day. */
  datatype Date = Date(year: int, month: int, day: int)

  /** `a > b` on days. */
  predicate After(a: Date, b: Date)
  {
    a.year > b.year
    || (a.year == b.year && (a.month > b.month || (a.month == b.month && a.day > b.day)))
  }

  /** What `new Date(...)` gives: `parse` is `None` where `getTime()` is NaN. */
  datatype DateContext = DateContext(parse: string -> Option<Date>, today: Date)

  // ---------------------------------------------------------------------------
  // Character rules
  // ---------------------------------------------------------------------------

  /** `[a-zA-ZÀ-ÿ\s]`: U+00C0..U+00FF includes the signs U+00D7 and U+00F7. */
  predicate IsNameChar(c: char)
  {
    ('a' <= c <= 'z') || ('A' <= c <= 'Z') || ('\U{00C0}' <= c <= '\U{00FF}') || IsWhitespace(c)
  }

  /** `[^\s@]`. */
  predicate IsEmailChar(c: char)
  {
    !IsWhitespace(c) && c != '@'
  }

  predicate AllEmailChars(s: string)
  {
    forall i :: 0 <= i < |s| ==> IsEmailChar(s[i])
  }

  /** `[\d\s\-()]`. */
  predicate IsPhoneChar(c: char)
  {
    IsDigit(c) || IsWhitespace(c) || c == '-' || c == '(' || c == ')'
  }

  predicate AllPhoneChars(s: string)
  {
    forall i :: 0 <= i < |s| ==> IsPhoneChar(s[i])
  }

  // ---------------------------------------------------------------------------
  // The three patterns as explicit checks, each beside the decomposition the
  // pattern describes
  // ---------------------------------------------------------------------------

  /** `/^[a-zA-ZÀ-ÿ\s]+$/`. */
  predicate NameShape(t: string)
  {
    |t| > 0 && forall i :: 0 <= i < |t| ==> IsNameChar(t[i])
  }

  /**
   * `/^[^\s@]+@[^\s@]+\.[^\s@]+$/`, checked without a pattern engine: no
   * whitespace, the first `@` is not at the start and no other follows it, and
   * the domain after it has a `.` that is neither its first nor its last character.
   */
  predicate EmailShape(t: string)
  {
    (forall i :: 0 <= i < |t| ==> !IsWhitespace(t[i]))
    && match IndexOf(t, '@')
       case None => false
       case Some(k) =>
         var d := t[k + 1..];
         k > 0 && '@' !in d && |d| >= 3 && '.' in d[1..|d| - 1]
  }

  /** The strings the email pattern matches: local part, `@`, host, `.`, suffix, all non-empty. */
  ghost predicate EmailDecomposes(t: string)
  {
    exists l: string, a: string, b: string ::
      t == l + "@" + a + "." + b
      && |l| > 0 && |a| > 0 && |b| > 0 && AllEmailChars(l) && AllEmailChars(a) && AllEmailChars(b)
  }

  /** `/^\+?[\d\s\-()]{10,}$/`: an optional `+`, then at least ten characters of the class. */
  predicate PhoneShape(t: string)
  {
    (|t| >= 10 && AllPhoneChars(t)) || (|t| >= 11 && t[0] == '+' && AllPhoneChars(t[1..]))
  }

  /** The strings the phone pattern matches: a prefix of `""` or `"+"`, then ten or more class characters. */
  ghost predicate PhoneDecomposes(t: string)
  {
    exists p: string, rest: string :: (p == "" || p == "+") && t == p + rest && |rest| >= 10 && AllPhoneChars(rest)
  }

  /** A prefix of a string of email characters is one too. */
  lemma AllEmailCharsPrefix(s: string, i: nat)
    requires AllEmailChars(s) && i <= |s|
    ensures AllEmailChars(s[..i])
  {
    forall n | 0 <= n < i ensures IsEmailChar(s[..i][n]) {
      assert s[..i][n] == s[n];
    }
  }

  /** A suffix of a string of email characters is one too. */
  lemma AllEmailCharsSuffix(s: string, i: nat)
    requires AllEmailChars(s) && i <= |s|
    ensures AllEmailChars(s[i..])
  {
    forall n | 0 <= n < |s| - i ensures IsEmailChar(s[i..][n]) {
      assert s[i..][n] == s[i + n];
    }
  }

  /** A string splits around any of its positions. */
  lemma SplitAround(s: string, i: nat)
    requires i < |s|
    ensures s == s[..i] + [s[i]] + s[i + 1..]
  {
  }

  /** Named parts of the right shape witness the email decomposition. */
  lemma EmailDecomposesAt(t: string, l: string, a: string, b: string)
    requires t == l + ("@" + (a + ("." + b)))
    requires |l| > 0 && |a| > 0 && |b| > 0 && AllEmailChars(l) && AllEmailChars(a) && AllEmailChars(b)
    ensures EmailDecomposes(t)
  {
    assert t == l + "@" + a + "." + b;
  }

  /** Around an `@` that occurs nowhere else, a string without whitespace is email characters. */
  lemma EmailCharsAround(t: string, k: nat)
    requires forall i :: 0 <= i < |t| ==> !IsWhitespace(t[i])
    requires k < |t| && '@' !in t[..k] && '@' !in t[k + 1..]
    ensures AllEmailChars(t[..k]) && AllEmailChars(t[k + 1..])
  {
    forall n | 0 <= n < k ensures IsEmailChar(t[..k][n]) {
      assert t[..k][n] == t[n];
    }
    var u := t[k + 1..];
    forall n | 0 <= n < |u| ensures IsEmailChar(u[n]) {
      assert u[n] == t[k + 1 + n];
    }
  }

  /** Where an accepted email has its `@` and the `.` of its domain. */
  lemma EmailShapeAt(t: string) returns (k: nat, j: nat)
    requires EmailShape(t)
    ensures forall i :: 0 <= i < |t| ==> !IsWhitespace(t[i])
    ensures 0 < k < |t| && t[k] == '@' && '@' !in t[..k] && '@' !in t[k + 1..]
    ensures j + 2 < |t[k + 1..]| && t[k + 1..][j + 1] == '.'
  {
    k := IndexOf(t, '@').value;
    var d := t[k + 1..];
    var m := d[1..|d| - 1];
    j := IndexOf(m, '.').value;
    assert d[j + 1] == m[j];
  }

  /** A string split at an `@` and at a `.` after it. */
  lemma SplitEmail(t: string, k: nat, j: nat) returns (l: string, a: string, b: string)
    requires k < |t| && t[k] == '@'
    requires j + 2 < |t[k + 1..]| && t[k + 1..][j + 1] == '.'
    ensures t == l + ("@" + (a + ("." + b)))
    ensures l == t[..k] && a == t[k + 1..][..j + 1] && b == t[k + 1..][j + 2..]
  {
    var d := t[k + 1..];
    l, a, b := t[..k], d[..j + 1], d[j + 2..];
    assert d == a + ("." + b) by { SplitAround(d, j + 1); }
    assert t == l + ("@" + d) by { SplitAround(t, k); }
  }

  /** The three parts of such a split, when the string has no whitespace and no other `@`. */
  lemma EmailPartChars(t: string, k: nat, j: nat)
    requires forall i :: 0 <= i < |t| ==> !IsWhitespace(t[i])
    requires k < |t| && '@' !in t[..k] && '@' !in t[k + 1..]
    requires j + 2 < |t[k + 1..]|
    ensures AllEmailChars(t[..k]) && AllEmailChars(t[k + 1..][..j + 1]) && AllEmailChars(t[k + 1..][j + 2..])
  {
    EmailCharsAround(t, k);
    AllEmailCharsPrefix(t[k + 1..], j + 1);
    AllEmailCharsSuffix(t[k + 1..], j + 2);
  }

  lemma EmailShapeDecomposes(t: string)
    requires EmailShape(t)
    ensures EmailDecomposes(t)
  {
    var k, j := EmailShapeAt(t);
    var l, a, b := SplitEmail(t, k, j);
    EmailPartChars(t, k, j);
    EmailDecomposesAt(t, l, a, b);
  }

  lemma DecomposesEmailShape(t: string, l: string, a: string, b: string)
    requires t == l + "@" + a + "." + b
    requires |l| > 0 && |a| > 0 && |b| > 0 && AllEmailChars(l) && AllEmailChars(a) && AllEmailChars(b)
    ensures EmailShape(t)
  {
    forall i | 0 <= i < |t| ensures !IsWhitespace(t[i]) {
      if i < |l| { assert t[i] == l[i]; }
      else if i == |l| { }
      else if i < |l| + 1 + |a| { assert t[i] == a[i - |l| - 1]; }
      else if i == |l| + 1 + |a| { }
      else { assert t[i] == b[i - |l| - 2 - |a|]; }
    }
    assert t[..|l|] == l;
    assert forall q :: 0 <= q < |l| ==> l[q] != '@';
    assert t[|l|] == '@';
    assert IndexOf(t, '@') == Some(|l|);
    var d := t[|l| + 1..];
    assert d == a + "." + b;
    assert forall q :: 0 <= q < |d| ==> d[q] != '@' by {
      forall q | 0 <= q < |d| ensures d[q] != '@' {
        if q < |a| { assert d[q] == a[q]; }
        else if q > |a| { assert d[q] == b[q - |a| - 1]; }
      }
    }
    assert d[1..|d| - 1][|a| - 1] == '.';
  }

  /** The explicit email check accepts exactly the strings the pattern describes. */
  lemma EmailShapeIff(t: string)
    ensures EmailShape(t) <==> EmailDecomposes(t)
  {
    if EmailShape(t) {
      EmailShapeDecomposes(t);
    }
    if EmailDecomposes(t) {
      var l: string, a: string, b: string :|
        t == l + "@" + a + "." + b
        && |l| > 0 && |a| > 0 && |b| > 0 && AllEmailChars(l) && AllEmailChars(a) && AllEmailChars(b);
      DecomposesEmailShape(t, l, a, b);
    }
  }

  /** The explicit phone check accepts exactly the strings the pattern describes. */
  lemma PhoneShapeIff(t: string)
    ensures PhoneShape(t) <==> PhoneDecomposes(t)
  {
    if |t| >= 10 && AllPhoneChars(t) {
      assert t == "" + t;
    } else if |t| >= 11 && t[0] == '+' && AllPhoneChars(t[1..]) {
      assert t == "+" + t[1..];
    }
    if PhoneDecomposes(t) {
      var p: string, rest: string :| (p == "" || p == "+") && t == p + rest && |rest| >= 10 && AllPhoneChars(rest);
      if p == "+" {
        assert t[1..] == rest;
      } else {
        assert t == rest;
      }
    }
  }

  // ---------------------------------------------------------------------------
  // Per-field rules (`_validateField`)
  // ---------------------------------------------------------------------------

  /** What the uniqueness check reads from the component. */
  datatype Context = Context(existing: seq<Employee>, isEditMode: bool, employee: Option<Employee>)

  /** Whether the record being edited is the one skipped by the uniqueness check (`emp.id === employee.id`). */
  predicate Skipped(ctx: Context, emp: Employee)
  {
    ctx.isEditMode && ctx.employee.Some? && IdOf(emp) == IdOf(ctx.employee.value)
  }

  /** `emp` is not skipped and has a non-empty email equal to `t` ignoring case. */
  predicate SameEmail(ctx: Context, emp: Employee, t: string)
  {
    !Skipped(ctx, emp) && FieldOr(emp, "email") != "" && Lower(FieldOr(emp, "email")) == Lower(t)
  }

  /** `list.some(emp => ...)` for the uniqueness test. */
  function AnySameEmail(ctx: Context, list: seq<Employee>, t: string): bool
  {
    if list == [] then false else SameEmail(ctx, list[0], t) || AnySameEmail(ctx, list[1..], t)
  }

  predicate EmailTaken(ctx: Context, t: string)
  {
    AnySameEmail(ctx, ctx.existing, t)
  }

  lemma {:induction false} AnySameEmailIff(ctx: Context, list: seq<Employee>, t: string)
    ensures AnySameEmail(ctx, list, t) <==> exists i :: 0 <= i < |list| && SameEmail(ctx, list[i], t)
  {
    if list != [] {
      AnySameEmailIff(ctx, list[1..], t);
      if exists i :: 0 <= i < |list| && SameEmail(ctx, list[i], t) {
        var i :| 0 <= i < |list| && SameEmail(ctx, list[i], t);
        if i > 0 { assert list[1..][i - 1] == list[i]; }
      }
      if AnySameEmail(ctx, list[1..], t) {
        var i :| 0 <= i < |list[1..]| && SameEmail(ctx, list[1..][i], t);
        assert list[i + 1] == list[1..][i];
      }
    }
  }

  function NameError(value: string): Option<ErrorKey>
  {
    if value == "" || |Trim(value)| < 2 then Some(NameMinLength)
    else if !NameShape(Trim(value)) then Some(NameInvalidChars)
    else None
  }

  function EmailError(value: string, ctx: Context): Option<ErrorKey>
  {
    if value == "" || Trim(value) == "" then Some(EmailRequired)
    else if !EmailShape(Trim(value)) then Some(EmailInvalid)
    else if EmailTaken(ctx, Trim(value)) then Some(EmailExists)
    else None
  }

  function PhoneError(value: string): Option<ErrorKey>
  {
    if value == "" || Trim(value) == "" then Some(PhoneRequired)
    else if !PhoneShape(Trim(value)) then Some(PhoneInvalid)
    else None
  }

  function EmploymentDateError(value: string, dates: DateContext): Option<ErrorKey>
  {
    if value == "" then Some(DateRequired)
    else if dates.parse(value).None? then Some(DateInvalid)
    else None
  }

  /** The age error is written first and then overwritten by the future-date error. */
  function BirthDateError(value: string, dates: DateContext): Option<ErrorKey>
  {
    if value == "" then Some(DateRequired)
    else match dates.parse(value)
      case None => Some(DateInvalid)
      case Some(date) =>
        var age := dates.today.year - date.year;
        var afterAge := if age < 16 || age > 100 then Some(AgeInvalid) else None;
        if After(date, dates.today) then Some(DateBirthFuture) else afterAge
  }

  function SelectionError(value: string): Option<ErrorKey>
  {
    if value == "" || Trim(value) == "" then Some(SelectionRequired) else None
  }

  /** `_validateField(field, value)`: at most one error, chosen by the first rule that fails. */
  function FieldError(field: Field, value: string, ctx: Context, dates: DateContext): Option<ErrorKey>
  {
    match field
    case FirstName => NameError(value)
    case LastName => NameError(value)
    case Email => EmailError(value, ctx)
    case Phone => PhoneError(value)
    case DateOfEmployment => EmploymentDateError(value, dates)
    case DateOfBirth => BirthDateError(value, dates)
    case Department => SelectionError(value)
    case Position => SelectionError(value)
  }

  // ---------------------------------------------------------------------------
  // Properties of the rules
  // ---------------------------------------------------------------------------

  /** A name is accepted iff its trimmed value has two or more characters, all from the name class. */
  lemma NameAccepted(value: string)
    ensures NameError(value).None? <==> |Trim(value)| >= 2 && NameShape(Trim(value))
    ensures NameError(value) == Some(NameMinLength) <==> |Trim(value)| < 2
  {
    assert value == "" ==> Trim(value) == "";
  }

  /** Blank means empty or whitespace only; a blank email is reported as required. */
  lemma EmailBlankRequired(value: string, ctx: Context)
    ensures EmailError(value, ctx) == Some(EmailRequired) <==> forall i :: 0 <= i < |value| ==> IsWhitespace(value[i])
  {
    BlankIffAllWhitespace(value);
  }

  /** A blank phone is reported as required. */
  lemma PhoneBlankRequired(value: string)
    ensures PhoneError(value) == Some(PhoneRequired) <==> forall i :: 0 <= i < |value| ==> IsWhitespace(value[i])
  {
    BlankIffAllWhitespace(value);
  }

  /** A department or position passes iff it holds a non-whitespace character. */
  lemma SelectionAccepted(value: string)
    ensures SelectionError(value) == None <==> exists i :: 0 <= i < |value| && !IsWhitespace(value[i])
  {
    BlankIffAllWhitespace(value);
  }

  /** An email is accepted iff it is non-blank, matches the pattern once trimmed, and no other record uses it. */
  lemma EmailAccepted(value: string, ctx: Context)
    ensures EmailError(value, ctx) == None <==>
              Trim(value) != "" && EmailDecomposes(Trim(value))
              && forall i :: 0 <= i < |ctx.existing| ==> !SameEmail(ctx, ctx.existing[i], Trim(value))
  {
    EmailShapeIff(Trim(value));
    AnySameEmailIff(ctx, ctx.existing, Trim(value));
  }

  /** In edit mode the edited record, and every record sharing its id, is never a clash. */
  lemma OwnEmailNotTaken(ctx: Context, t: string)
    requires ctx.isEditMode && ctx.employee.Some?
    requires forall i :: 0 <= i < |ctx.existing| ==> IdOf(ctx.existing[i]) == IdOf(ctx.employee.value)
    ensures !EmailTaken(ctx, t)
  {
    AnySameEmailIff(ctx, ctx.existing, t);
  }

  /** The two records of the duplicate-email scenario. */
  const ScenarioA: Employee := map["id" := "1", "email" := "a@x.com"]
  const ScenarioB: Employee := map["id" := "2", "email" := "b@x.com"]

  /** `B@X.com` is trimmed already and has the email shape. */
  lemma ScenarioInput()
    ensures Trim("B@X.com") == "B@X.com" && EmailShape("B@X.com")
  {
    TrimUnpadded("B@X.com");
    DecomposesEmailShape("B@X.com", "B", "X", "com");
  }

  /** Lower-casing `B@X.com` gives the second record's email; the first record's email is lower case. */
  lemma ScenarioLower()
    ensures Lower("B@X.com") == "b@x.com" && Lower("a@x.com") == "a@x.com"
  {
  }

  /** Creating with `B@X.com` while `b@x.com` is stored reports the email as taken, whatever the case. */
  lemma DuplicateEmailOnCreate()
    ensures EmailError("B@X.com", Context([ScenarioA, ScenarioB], false, None)) == Some(EmailExists)
  {
    ScenarioInput();
    ScenarioLower();
    var ctx := Context([ScenarioA, ScenarioB], false, None);
    assert SameEmail(ctx, ScenarioB, "B@X.com");
    AnySameEmailIff(ctx, [ScenarioA, ScenarioB], "B@X.com");
  }

  /** Editing the record that owns `b@x.com` accepts `B@X.com`: the record itself is skipped. */
  lemma DuplicateEmailOwnRecord()
    ensures EmailError("B@X.com", Context([ScenarioA, ScenarioB], true, Some(ScenarioB))) == None
  {
    ScenarioInput();
    ScenarioLower();
    var ctx := Context([ScenarioA, ScenarioB], true, Some(ScenarioB));
    assert !SameEmail(ctx, ScenarioA, "B@X.com");
    assert Skipped(ctx, ScenarioB);
    AnySameEmailIff(ctx, [ScenarioA, ScenarioB], "B@X.com");
  }

  /** A phone is accepted iff it is non-blank and the trimmed value matches the pattern. */
  lemma PhoneAccepted(value: string)
    ensures PhoneError(value) == None <==> Trim(value) != "" && PhoneDecomposes(Trim(value))
  {
    PhoneShapeIff(Trim(value));
  }

  /** A future birth date reports the future error, whatever the age. */
  lemma FutureBirthWins(value: string, dates: DateContext)
    requires value != "" && dates.parse(value).Some? && After(dates.parse(value).value, dates.today)
    ensures BirthDateError(value, dates) == Some(DateBirthFuture)
  {
  }

  /** A birth date is accepted iff it parses, is not after today, and the year difference is in [16, 100]. */
  lemma BirthDateAccepted(value: string, dates: DateContext)
    ensures BirthDateError(value, dates) == None <==>
              value != "" && dates.parse(value).Some? && !After(dates.parse(value).value, dates.today)
              && 16 <= dates.today.year - dates.parse(value).value.year <= 100
  {
  }

  /** An unparsable but non-empty date is reported as invalid, for both date fields. */
  lemma UnparsableDates(value: string, dates: DateContext)
    requires value != "" && dates.parse(value).None?
    ensures EmploymentDateError(value, dates) == Some(DateInvalid)
    ensures BirthDateError(value, dates) == Some(DateInvalid)
  {
  }

  // ---------------------------------------------------------------------------
  // The whole form (`_validateForm`)
  // ---------------------------------------------------------------------------

  /** The errors of the fields in `fields`. */
  function ErrorsOver(formData: map<Field, string>, fields: set<Field>, ctx: Context, dates: DateContext)
    : (r: map<Field, ErrorKey>)
    ensures r.Keys <= fields
    ensures forall f :: f in r <==> f in fields && f in formData && FieldError(f, formData[f], ctx, dates).Some?
  {
    map f | f in fields && f in formData && FieldError(f, formData[f], ctx, dates).Some?
      :: FieldError(f, formData[f], ctx, dates).value
  }

  /** Each field's rule outcome, error or not. */
  function FieldResults(formData: map<Field, string>, ctx: Context, dates: DateContext): (r: map<Field, Option<ErrorKey>>)
    ensures r.Keys == formData.Keys
  {
    map f | f in formData :: FieldError(f, formData[f], ctx, dates)
  }

  /** The errors among the outcomes of the fields in `fields`. */
  function Collect(results: map<Field, Option<ErrorKey>>, fields: set<Field>): map<Field, ErrorKey>
  {
    map f | f in fields && f in results && results[f].Some? :: results[f].value
  }

  /** Taking one more field adds its error, if it has one, and changes nothing else. */
  lemma CollectStep(results: map<Field, Option<ErrorKey>>, done: set<Field>, f: Field)
    requires f in results && f !in done
    ensures Collect(results, done + {f})
            == if results[f].Some? then Collect(results, done)[f := results[f].value] else Collect(results, done)
  {
  }

  lemma ErrorsOverCollect(formData: map<Field, string>, fields: set<Field>, ctx: Context, dates: DateContext)
    ensures ErrorsOver(formData, fields, ctx, dates) == Collect(FieldResults(formData, ctx, dates), fields)
  {
  }

  /** The union of the per-field errors over every field of `formData`. */
  function FormErrors(formData: map<Field, string>, ctx: Context, dates: DateContext): map<Field, ErrorKey>
  {
    ErrorsOver(formData, formData.Keys, ctx, dates)
  }

  predicate FormValid(formData: map<Field, string>, ctx: Context, dates: DateContext)
  {
    forall f :: f in formData ==> FieldError(f, formData[f], ctx, dates).None?
  }

  /** The form has no errors iff every field passes its rule. */
  lemma FormErrorsMeaning(formData: map<Field, string>, ctx: Context, dates: DateContext)
    ensures FormErrors(formData, ctx, dates) == map[] <==> FormValid(formData, ctx, dates)
  {
    var e := FormErrors(formData, ctx, dates);
    if !FormValid(formData, ctx, dates) {
      var f :| f in formData && FieldError(f, formData[f], ctx, dates).Some?;
      assert f in e;
    }
  }

  /** Every error of the form is the error its own field's rule gives. */
  lemma FormErrorsOwn(formData: map<Field, string>, ctx: Context, dates: DateContext)
    ensures forall f :: f in FormErrors(formData, ctx, dates) ==>
              f in formData && Some(FormErrors(formData, ctx, dates)[f]) == FieldError(f, formData[f], ctx, dates)
  {
  }

  /** The error an empty value gets: the first rule of each field. */
  function EmptyError(f: Field): ErrorKey
  {
    match f
    case FirstName => NameMinLength
    case LastName => NameMinLength
    case Email => EmailRequired
    case Phone => PhoneRequired
    case DateOfEmployment => DateRequired
    case DateOfBirth => DateRequired
    case Department => SelectionRequired
    case Position => SelectionRequired
  }

  /** Every field rejects the empty value with its "required" (or, for names, minimum-length) error. */
  lemma EmptyValueRejected(f: Field, ctx: Context, dates: DateContext)
    ensures FieldError(f, "", ctx, dates) == Some(EmptyError(f))
  {
    assert Trim("") == "";
  }

  /** The all-empty form has exactly eight errors, each field's empty-value error. */
  lemma EmptyFormErrors(ctx: Context, dates: DateContext)
    ensures FormErrors(EmptyForm, ctx, dates).Keys == AllFields
    ensures |FormErrors(EmptyForm, ctx, dates)| == 8
    ensures forall f :: f in AllFields ==> FormErrors(EmptyForm, ctx, dates)[f] == EmptyError(f)
  {
    var e := FormErrors(EmptyForm, ctx, dates);
    forall f | f in AllFields ensures f in e && e[f] == EmptyError(f) {
      assert EmptyForm[f] == "";
      EmptyValueRejected(f, ctx, dates);
    }
    AllFieldsComplete(FirstName);
  }

  // ---------------------------------------------------------------------------
  // The component state
  // ---------------------------------------------------------------------------

  /** What submitting does: nothing, open the update confirmation, or create from the form's values. */
  datatype Submission = Rejected | ConfirmUpdate | Create(values: map<Field, string>)

  /** The update the confirmation starts: the edited record's id and the form's values. */
  datatype UpdateRequest = UpdateRequest(id: Option<string>, updates: map<Field, string>)

  /** The errors after one field is re-validated: its old entry goes, its fresh error (if any) comes in. */
  function RefreshError(errors: map<Field, ErrorKey>, name: Field, update: Option<ErrorKey>): (r: map<Field, ErrorKey>)
    ensures name in r <==> update.Some?
    ensures update.Some? ==> r[name] == update.value
    ensures forall k :: k != name ==> (k in r <==> k in errors)
    ensures forall k :: k != name && k in r ==> r[k] == errors[k]
  {
    match update
    case Some(e) => errors[name := e]
    case None => errors - {name}
  }

  /** `formData` filled from a record, with `''` for what it lacks. */
  function FormDataOf(e: Employee): (r: map<Field, string>)
    ensures r.Keys == AllFields
    ensures forall f :: f in AllFields ==> r[f] == FieldOr(e, FieldName(f))
  {
    map f | f in AllFields :: FieldOr(e, FieldName(f))
  }

  /** The loop of `_validateForm`: each field's rule outcome, gathered into the error map. */
  method CollectErrors(data: map<Field, string>, ctx: Context, dates: DateContext) returns (allErrors: map<Field, ErrorKey>)
    ensures allErrors == FormErrors(data, ctx, dates)
  {
    ghost var results := FieldResults(data, ctx, dates);
    allErrors := map[];
    var remaining := data.Keys;
    while remaining != {}
      invariant remaining <= data.Keys
      invariant allErrors == Collect(results, data.Keys - remaining)
      decreases remaining
    {
      var field :| field in remaining;
      var fieldErrors := FieldError(field, data[field], ctx, dates);
      assert fieldErrors == results[field];
      CollectStep(results, data.Keys - remaining, field);
      assert data.Keys - (remaining - {field}) == (data.Keys - remaining) + {field};
      if fieldErrors.Some? {
        allErrors := allErrors[field := fieldErrors.value];
      }
      remaining := remaining - {field};
    }
    assert data.Keys - remaining == data.Keys;
    ErrorsOverCollect(data, data.Keys, ctx, dates);
  }

  class EmployeeFormElement {
    var employee: Option<Employee>
    var isEditMode: bool
    var errors: map<Field, ErrorKey>
    var existingEmployees: seq<Employee>
    var loading: bool
    var showUpdateConfirmation: bool
    var formData: map<Field, string>

    /** `formData` always holds exactly the eight fields. */
    ghost predicate Valid()
      reads this
    {
      formData.Keys == AllFields
    }

    function Ctx(): Context
      reads this`existingEmployees, this`isEditMode, this`employee
    {
      Context(existingEmployees, isEditMode, employee)
    }

    constructor()
      ensures Valid()
      ensures employee == None && !isEditMode && !loading && errors == map[] && existingEmployees == []
      ensures !showUpdateConfirmation && formData == EmptyForm
    {
      employee := None;
      isEditMode := false;
      loading := false;
      errors := map[];
      existingEmployees := [];
      showUpdateConfirmation := false;
      formData := EmptyForm;
    }

    /** `stateChanged`: the store's list (or `[]` when it is null) and its loading flag. */
    method StateChanged(list: Option<seq<Employee>>, storeLoading: bool)
      modifies this
      ensures existingEmployees == list.GetOr([]) && loading == storeLoading
      ensures employee == old(employee) && isEditMode == old(isEditMode) && errors == old(errors)
      ensures showUpdateConfirmation == old(showUpdateConfirmation) && formData == old(formData)
    {
      existingEmployees := list.GetOr([]);
      loading := storeLoading;
    }

    /** `_initializeFormData`. */
    method InitializeFormData()
      modifies this
      ensures formData == EmptyForm
      ensures employee == old(employee) && isEditMode == old(isEditMode) && errors == old(errors)
      ensures existingEmployees == old(existingEmployees) && loading == old(loading)
      ensures showUpdateConfirmation == old(showUpdateConfirmation)
    {
      formData := EmptyForm;
    }

    /** `updated`: when `employee` changed to a record, switch to edit mode and load its values. */
    method Updated(employeeChanged: bool)
      modifies this
      ensures employeeChanged && old(employee).Some? ==>
                isEditMode && formData == FormDataOf(old(employee).value)
      ensures !(employeeChanged && old(employee).Some?) ==>
                isEditMode == old(isEditMode) && formData == old(formData)
      ensures employee == old(employee) && errors == old(errors) && existingEmployees == old(existingEmployees)
      ensures loading == old(loading) && showUpdateConfirmation == old(showUpdateConfirmation)
    {
      if employeeChanged && employee.Some? {
        isEditMode := true;
        formData := FormDataOf(employee.value);
      }
    }

    /** `_validateForm`: stores the errors of every field and reports whether there are none. */
    method ValidateForm(dates: DateContext) returns (valid: bool)
      requires Valid()
      modifies this
      ensures Valid()
      ensures errors == FormErrors(formData, Ctx(), dates)
      ensures valid <==> FormValid(formData, Ctx(), dates)
      ensures employee == old(employee) && isEditMode == old(isEditMode) && formData == old(formData)
      ensures existingEmployees == old(existingEmployees) && loading == old(loading)
      ensures showUpdateConfirmation == old(showUpdateConfirmation)
    {
      var ctx := Ctx();
      var allErrors := CollectErrors(formData, ctx, dates);
      errors := allErrors;
      valid := |allErrors| == 0;
      FormErrorsMeaning(formData, ctx, dates);
    }

    /** Drop the field's old error (it is always truthy) and record its fresh one. */
    method ReplaceError(name: Field, update: Option<ErrorKey>)
      modifies this`errors
      ensures errors == RefreshError(old(errors), name, update)
    {
      var current := errors;
      if name in current && KeyText(current[name]) != "" {
        current := current - {name};
      }
      if update.Some? {
        current := current[name := update.value];
      }
      errors := current;
    }

    /** `_handleInputChange(name, value)`: store the value and replace that field's error by its fresh one. */
    method HandleInputChange(name: Field, value: string, dates: DateContext)
      requires Valid()
      modifies this
      ensures Valid()
      ensures formData == old(formData)[name := value]
      ensures errors == RefreshError(old(errors), name, FieldError(name, value, old(Ctx()), dates))
      ensures employee == old(employee) && isEditMode == old(isEditMode)
      ensures existingEmployees == old(existingEmployees) && loading == old(loading)
      ensures showUpdateConfirmation == old(showUpdateConfirmation)
    {
      AllFieldsComplete(name);
      var fieldErrors := FieldError(name, value, Ctx(), dates);
      formData := formData[name := value];
      ReplaceError(name, fieldErrors);
    }

    /** `_handleSubmit`: validate, then ask for confirmation (edit) or create (new). */
    method HandleSubmit(dates: DateContext) returns (outcome: Submission)
      requires Valid()
      modifies this
      ensures Valid()
      ensures errors == FormErrors(formData, Ctx(), dates) && formData == old(formData)
      ensures outcome == Rejected <==> !FormValid(formData, Ctx(), dates)
      ensures outcome == ConfirmUpdate <==> FormValid(formData, Ctx(), dates) && isEditMode
      ensures outcome == Create(formData) <==> FormValid(formData, Ctx(), dates) && !isEditMode
      ensures showUpdateConfirmation == (outcome == ConfirmUpdate || old(showUpdateConfirmation))
      ensures employee == old(employee) && isEditMode == old(isEditMode)
      ensures existingEmployees == old(existingEmployees) && loading == old(loading)
    {
      var valid := ValidateForm(dates);
      if !valid {
        outcome := Rejected;
        return;
      }
      if isEditMode {
        showUpdateConfirmation := true;
        outcome := ConfirmUpdate;
      } else {
        outcome := Create(formData);
      }
    }

    /** `_handleUpdateConfirmed`: closes the confirmation and starts the update (nothing without a record). */
    method HandleUpdateConfirmed() returns (request: Option<UpdateRequest>)
      modifies this
      ensures !showUpdateConfirmation
      ensures request == (if employee.Some? then Some(UpdateRequest(IdOf(employee.value), formData)) else None)
      ensures employee == old(employee) && isEditMode == old(isEditMode) && errors == old(errors)
      ensures existingEmployees == old(existingEmployees) && loading == old(loading) && formData == old(formData)
    {
      showUpdateConfirmation := false;
      if employee.Some? {
        request := Some(UpdateRequest(IdOf(employee.value), formData));
      } else {
        request := None;
      }
    }

    /** `_handleUpdateCancelled`. */
    method HandleUpdateCancelled()
      modifies this
      ensures !showUpdateConfirmation
      ensures employee == old(employee) && isEditMode == old(isEditMode) && errors == old(errors)
      ensures existingEmployees == old(existingEmployees) && loading == old(loading) && formData == old(formData)
    {
      showUpdateConfirmation := false;
    }

    /** `_handleReset`: clear the errors and restore the empty form, or the edited record's values. */
    method HandleReset()
      requires Valid()
      modifies this
      ensures Valid() && errors == map[]
      ensures formData == (if employee.Some? && isEditMode then FormDataOf(employee.value) else EmptyForm)
      ensures employee == old(employee) && isEditMode == old(isEditMode)
      ensures existingEmployees == old(existingEmployees) && loading == old(loading)
      ensures showUpdateConfirmation == old(showUpdateConfirmation)
    {
      InitializeFormData();
      errors := map[];
      if employee.Some? && isEditMode {
        formData := FormDataOf(employee.value);
      }
    }
  }
}
