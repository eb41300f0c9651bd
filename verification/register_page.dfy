/**
 * The registration form: per-field validation rules with ordered error
 * messages, the error map they maintain, touched-field gating on change and
 * blur, the validation step of submit, the field status shown beside each
 * input, and the condition that disables the submit button.
 */
module RegisterPage {
  import opened Wrappers
  import opened JsBuiltins

  datatype Field = Name | Email | Password

  /** `Object.keys(formData)`: the order in which submit validates the fields. */
  const FieldOrder: seq<Field> := [Name, Email, Password]

  /** The three input values. */
  datatype FormData = FormData(name: string, email: string, password: string) {

    function Get(f: Field): string {
      match f
      case Name => name
      case Email => email
      case Password => password
    }

    /** `{ ...formData, [f]: v }` */
    function Set(f: Field, v: string): (d: FormData)
      ensures d.Get(f) == v
      ensures forall g | g != f :: d.Get(g) == Get(g)
    {
      match f
      case Name => this.(name := v)
      case Email => this.(email := v)
      case Password => this.(password := v)
    }
  }

  const NameRequired := "Name is required"
  const NameTooShort := "Name must be at least 2 characters"
  const EmailRequired := "Email is required"
  const EmailInvalid := "Please enter a valid email address"
  const PasswordRequired := "Password is required"
  const PasswordTooShort := "Password must be at least 8 characters"
  const PasswordTooWeak := "Password must contain uppercase, lowercase, and number"

  // ---------------------------------------------------------------------------
  // The name rule
  // ---------------------------------------------------------------------------

  /** The name's error: required when it trims to nothing, too short when it
      trims to one character, none otherwise. */
  function NameError(value: string): (r: Option<string>)
    ensures r == Some(NameRequired) <==> AllWhitespace(value)
    ensures r == Some(NameTooShort) <==> |Trim(value)| == 1
    ensures r == None <==> |Trim(value)| >= 2
  {
    var t := Trim(value);
    if t == [] then Some(NameRequired)
    else if |t| < 2 then Some(NameTooShort)
    else None
  }

  // ---------------------------------------------------------------------------
  // The email rule
  // ---------------------------------------------------------------------------

  /** `[^\s@]`: a character allowed in each of the three parts of an address. */
  predicate IsAddressChar(c: char) {
    !IsWhitespace(c) && c != '@'
  }

  predicate AllAddressChars(s: string) {
    forall i | 0 <= i < |s| :: IsAddressChar(s[i])
  }

  /** `/^[^\s@]+@[^\s@]+\.[^\s@]+$/.test(s)`: `s` is a non-empty run of
      `[^\s@]`, an `@`, a non-empty run, a `.`, and a non-empty run. */
  predicate MatchesEmailRegex(s: string) {
    exists at, dot | 0 < at < |s| && at + 1 < dot < |s| - 1 ::
      && s[at] == '@' && s[dot] == '.'
      && AllAddressChars(s[..at]) && AllAddressChars(s[at + 1..dot]) && AllAddressChars(s[dot + 1..])
  }

  /** The same shape in words: no whitespace, exactly one `@`, something
      before it, and after it a `.` that is neither the first nor the last
      character of the domain. */
  predicate EmailShape(s: string) {
    && NoWhitespace(s)
    && multiset(s)['@'] == 1
    && exists at | 0 < at < |s| :: s[at] == '@' && exists dot | at + 1 < dot < |s| - 1 :: s[dot] == '.'
  }

  lemma NoAtCount(s: string)
    requires AllAddressChars(s)
    ensures multiset(s)['@'] == 0
  {
  }

  lemma TwoOccurrences(s: string, i: nat, j: nat, c: char)
    requires i < j < |s| && s[i] == c && s[j] == c
    ensures multiset(s)[c] >= 2
  {
    assert s == s[..j] + s[j..];
    assert s[..j][i] == c;
    assert s[j..][0] == c;
    assert multiset(s) == multiset(s[..j]) + multiset(s[j..]);
  }

  lemma RegexToShape(s: string, at: nat, dot: nat)
    requires 0 < at < |s| && at + 1 < dot < |s| - 1
    requires s[at] == '@' && s[dot] == '.'
    requires AllAddressChars(s[..at]) && AllAddressChars(s[at + 1..dot]) && AllAddressChars(s[dot + 1..])
    ensures EmailShape(s)
  {
    forall i | 0 <= i < |s| ensures !IsWhitespace(s[i]) {
      if i < at { assert s[..at][i] == s[i]; }
      else if at < i < dot { assert s[at + 1..dot][i - at - 1] == s[i]; }
      else if dot < i { assert s[dot + 1..][i - dot - 1] == s[i]; }
    }
    var tail := s[at + 1..];
    assert tail == s[at + 1..dot] + [s[dot]] + s[dot + 1..];
    NoAtCount(s[at + 1..dot]);
    NoAtCount(s[dot + 1..]);
    assert multiset(tail)['@'] == 0;
    assert s == s[..at] + [s[at]] + tail;
    NoAtCount(s[..at]);
    assert multiset(s) == multiset(s[..at]) + multiset([s[at]]) + multiset(tail);
  }

  lemma ShapeToRegex(s: string)
    requires EmailShape(s)
    ensures MatchesEmailRegex(s)
  {
    var at :| 0 < at < |s| && s[at] == '@' && exists dot | at + 1 < dot < |s| - 1 :: s[dot] == '.';
    var dot :| at + 1 < dot < |s| - 1 && s[dot] == '.';
    forall i | 0 <= i < |s| && i != at ensures s[i] != '@' {
      if s[i] == '@' {
        if i < at { TwoOccurrences(s, i, at, '@'); } else { TwoOccurrences(s, at, i, '@'); }
      }
    }
    assert AllAddressChars(s[..at]);
    assert AllAddressChars(s[at + 1..dot]);
    assert AllAddressChars(s[dot + 1..]);
  }

  /** The address pattern accepts exactly the strings of that shape. */
  lemma EmailRegexShape(s: string)
    ensures MatchesEmailRegex(s) <==> EmailShape(s)
  {
    if MatchesEmailRegex(s) {
      var at, dot :| 0 < at < |s| && at + 1 < dot < |s| - 1
        && s[at] == '@' && s[dot] == '.'
        && AllAddressChars(s[..at]) && AllAddressChars(s[at + 1..dot]) && AllAddressChars(s[dot + 1..]);
      RegexToShape(s, at, dot);
    }
    if EmailShape(s) {
      ShapeToRegex(s);
    }
  }

  /** An address the email rule accepts lies on one line: it holds no line terminator. */
  lemma AcceptedEmailIsOneLine(s: string)
    requires EmailError(s).None?
    ensures forall i | 0 <= i < |s| :: !IsLineTerminator(s[i])
  {
    forall i | 0 <= i < |s| ensures !IsLineTerminator(s[i]) {
      LineTerminatorIsWhitespace(s[i]);
    }
  }

  /** The email's error: required when empty, invalid when it fails the
      address pattern, none otherwise. */
  function EmailError(value: string): (r: Option<string>)
    ensures r == Some(EmailRequired) <==> value == []
    ensures r == Some(EmailInvalid) <==> value != [] && !EmailShape(value)
    ensures r == None <==> EmailShape(value)
  {
    EmailRegexShape(value);
    if value == [] then Some(EmailRequired)
    else if !MatchesEmailRegex(value) then Some(EmailInvalid)
    else None
  }

  // ---------------------------------------------------------------------------
  // The password rule
  // ---------------------------------------------------------------------------

  /** The three classes the strength pattern looks ahead for. */
  datatype CharClass = Lower | Upper | Digit

  predicate InClass(c: char, k: CharClass) {
    match k
    case Lower => IsAsciiLower(c)
    case Upper => IsAsciiUpper(c)
    case Digit => IsAsciiDigit(c)
  }

  /** `(?=.*[k])` tried at position `p`: a character of class `k` at or after
      `p`, with no line terminator (which `.` does not match) before it. */
  predicate ReachableOnLine(s: string, p: nat, k: CharClass)
    requires p <= |s|
  {
    exists q | p <= q < |s| :: InClass(s[q], k) && forall r | p <= r < q :: !IsLineTerminator(s[r])
  }

  /** `/(?=.*[a-z])(?=.*[A-Z])(?=.*\d)/.test(s)`: the pattern is unanchored, so
      it succeeds when some start position sees all three classes on its line. */
  predicate MatchesStrengthRegex(s: string) {
    exists p | 0 <= p <= |s| ::
      ReachableOnLine(s, p, Lower) && ReachableOnLine(s, p, Upper) && ReachableOnLine(s, p, Digit)
  }

  predicate Contains(s: string, k: CharClass) {
    exists i | 0 <= i < |s| :: InClass(s[i], k)
  }

  /** A password the pattern accepts has a lower-case letter, an upper-case letter and a digit. */
  lemma StrengthRegexNeedsAllClasses(s: string)
    requires MatchesStrengthRegex(s)
    ensures Contains(s, Lower) && Contains(s, Upper) && Contains(s, Digit)
  {
    var p :| 0 <= p <= |s| && ReachableOnLine(s, p, Lower) && ReachableOnLine(s, p, Upper) && ReachableOnLine(s, p, Digit);
    var a :| p <= a < |s| && InClass(s[a], Lower) && forall r | p <= r < a :: !IsLineTerminator(s[r]);
    var b :| p <= b < |s| && InClass(s[b], Upper) && forall r | p <= r < b :: !IsLineTerminator(s[r]);
    var c :| p <= c < |s| && InClass(s[c], Digit) && forall r | p <= r < c :: !IsLineTerminator(s[r]);
    assert InClass(s[a], Lower) && InClass(s[b], Upper) && InClass(s[c], Digit);
  }

  /** On a single line the pattern accepts exactly the passwords that have a
      lower-case letter, an upper-case letter and a digit. */
  lemma StrengthRegexOnOneLine(s: string)
    requires forall i | 0 <= i < |s| :: !IsLineTerminator(s[i])
    ensures MatchesStrengthRegex(s) <==> Contains(s, Lower) && Contains(s, Upper) && Contains(s, Digit)
  {
    if Contains(s, Lower) && Contains(s, Upper) && Contains(s, Digit) {
      var a :| 0 <= a < |s| && InClass(s[a], Lower);
      var b :| 0 <= b < |s| && InClass(s[b], Upper);
      var c :| 0 <= c < |s| && InClass(s[c], Digit);
      assert ReachableOnLine(s, 0, Lower) && ReachableOnLine(s, 0, Upper) && ReachableOnLine(s, 0, Digit);
    }
    if MatchesStrengthRegex(s) {
      StrengthRegexNeedsAllClasses(s);
    }
  }

  /** The password's error, by priority: required when empty, too short under
      eight characters, too weak when the strength pattern fails, none otherwise. */
  function PasswordError(value: string): (r: Option<string>)
    ensures r == Some(PasswordRequired) <==> value == []
    ensures r == Some(PasswordTooShort) <==> 0 < |value| < 8
    ensures r == Some(PasswordTooWeak) <==> |value| >= 8 && !MatchesStrengthRegex(value)
    ensures r == None <==> |value| >= 8 && MatchesStrengthRegex(value)
  {
    if value == [] then Some(PasswordRequired)
    else if |value| < 8 then Some(PasswordTooShort)
    else if !MatchesStrengthRegex(value) then Some(PasswordTooWeak)
    else None
  }

  // ---------------------------------------------------------------------------
  // validateField
  // ---------------------------------------------------------------------------

  function FieldError(f: Field, value: string): (r: Option<string>)
    ensures r.Some? ==> r.value != ""
  {
    match f
    case Name => NameError(value)
    case Email => EmailError(value)
    case Password => PasswordError(value)
  }

  /** Every recorded error is one of the validator's messages, all non-empty. */
  ghost predicate MessagesNonEmpty(errors: map<Field, string>) {
    forall f | f in errors :: errors[f] != ""
  }

  /** The error map `validateField(f, value)` commits, starting from `errors`:
      the entry for `f` is set to its message or deleted, and every other
      entry is carried over. */
  function Validated(errors: map<Field, string>, f: Field, value: string): (r: map<Field, string>)
    ensures forall g | g != f :: (g in r <==> g in errors)
    ensures forall g | g != f && g in errors :: r[g] == errors[g]
    ensures f in r <==> FieldError(f, value).Some?
    ensures f in r ==> r[f] == FieldError(f, value).value
    ensures MessagesNonEmpty(errors) ==> MessagesNonEmpty(r)
  {
    match FieldError(f, value)
    case Some(msg) => errors[f := msg]
    case None => errors - {f}
  }

  /** `validateField` reports success exactly when its field passes and no
      other field has an error in the map it started from. */
  lemma ValidatedEmptyIff(errors: map<Field, string>, f: Field, value: string)
    ensures |Validated(errors, f, value)| == 0 <==> FieldError(f, value).None? && errors.Keys <= {f}
  {
    var r := Validated(errors, f, value);
    if |r| == 0 {
      assert r == map[];
    }
    if FieldError(f, value).None? && errors.Keys <= {f} {
      assert r.Keys == {};
    }
  }

  // ---------------------------------------------------------------------------
  // The validation step of submit
  // ---------------------------------------------------------------------------

  /** `Object.keys(formData).every(key => validateField(key, formData[key]))`
      from the `i`-th key on. Every call starts from the same render-time
      `snapshot` of the error map; `every` stops at the first call that
      reports failure. The result pairs the verdict with the error map of
      the last call made, which is the one that stays committed. */
  function EveryFrom(snapshot: map<Field, string>, data: FormData, i: nat): (r: (bool, map<Field, string>))
    requires i < |FieldOrder|
    ensures r.0 <==> |r.1| == 0
    decreases |FieldOrder| - i
  {
    var key := FieldOrder[i];
    var m := Validated(snapshot, key, data.Get(key));
    if |m| != 0 || i == |FieldOrder| - 1 then (|m| == 0, m) else EveryFrom(snapshot, data, i + 1)
  }

  /** The map `validateField` commits for the `j`-th key of the form. */
  function CallResult(snapshot: map<Field, string>, data: FormData, j: nat): map<Field, string>
    requires j < |FieldOrder|
  {
    Validated(snapshot, FieldOrder[j], data.Get(FieldOrder[j]))
  }

  /** Submit's `every` passes exactly when all three `validateField` calls
      report success, and the map it leaves committed is the map of one of
      the calls it made. */
  lemma EveryFromMeaning(snapshot: map<Field, string>, data: FormData)
    ensures EveryFrom(snapshot, data, 0).0 <==>
      |CallResult(snapshot, data, 0)| == 0 && |CallResult(snapshot, data, 1)| == 0 && |CallResult(snapshot, data, 2)| == 0
    ensures var m := EveryFrom(snapshot, data, 0).1;
      m == CallResult(snapshot, data, 0) || m == CallResult(snapshot, data, 1) || m == CallResult(snapshot, data, 2)
  {
    var m0, m1, m2 := CallResult(snapshot, data, 0), CallResult(snapshot, data, 1), CallResult(snapshot, data, 2);
    assert EveryFrom(snapshot, data, 2) == (|m2| == 0, m2);
    assert EveryFrom(snapshot, data, 1) == if |m1| != 0 then (false, m1) else EveryFrom(snapshot, data, 2);
    assert EveryFrom(snapshot, data, 0) == if |m0| != 0 then (false, m0) else EveryFrom(snapshot, data, 1);
  }

  /** Submit passes its validation step exactly when every field passes and
      the error map it started from is empty. */
  lemma SubmitPassesIff(snapshot: map<Field, string>, data: FormData)
    ensures EveryFrom(snapshot, data, 0).0 <==>
      |snapshot| == 0 && forall f :: FieldError(f, data.Get(f)).None?
  {
    ValidatedEmptyIff(snapshot, Name, data.name);
    ValidatedEmptyIff(snapshot, Email, data.email);
    ValidatedEmptyIff(snapshot, Password, data.password);
    if EveryFrom(snapshot, data, 0).0 {
      assert snapshot.Keys <= {Name} && snapshot.Keys <= {Email};
      assert snapshot.Keys == {};
    }
    if |snapshot| == 0 && forall f :: FieldError(f, data.Get(f)).None? {
      assert snapshot.Keys == {};
      assert FieldError(Name, data.Get(Name)).None?;
      assert FieldError(Email, data.Get(Email)).None?;
    }
  }

  /** From an empty error map, a failed submit leaves exactly one error: the
      one of the first invalid field in key order. */
  lemma SubmitReportsFirstError(data: FormData, k: nat)
    requires k < |FieldOrder|
    requires FieldError(FieldOrder[k], data.Get(FieldOrder[k])).Some?
    requires forall j | 0 <= j < k :: FieldError(FieldOrder[j], data.Get(FieldOrder[j])).None?
    ensures EveryFrom(map[], data, 0) ==
      (false, map[FieldOrder[k] := FieldError(FieldOrder[k], data.Get(FieldOrder[k])).value])
  {
    var e: map<Field, string> := map[];
    var msg := FieldError(FieldOrder[k], data.Get(FieldOrder[k])).value;
    assert Validated(e, FieldOrder[k], data.Get(FieldOrder[k])) == map[FieldOrder[k] := msg];
    if k > 0 {
      ValidatedEmptyIff(e, FieldOrder[0], data.Get(FieldOrder[0]));
    }
    if k > 1 {
      ValidatedEmptyIff(e, FieldOrder[1], data.Get(FieldOrder[1]));
    }
  }

  // ---------------------------------------------------------------------------
  // Field status and the submit button
  // ---------------------------------------------------------------------------

  datatype FieldStatus = StatusError | StatusSuccess

  /** `getFieldStatus`: no status (`null`) until the field is touched; then
      an error when its entry is a non-empty (truthy) message, success otherwise. */
  function GetFieldStatus(touched: set<Field>, errors: map<Field, string>, f: Field): (r: Option<FieldStatus>)
    ensures r.None? <==> f !in touched
    ensures r == Some(StatusError) <==> f in touched && f in errors && errors[f] != ""
    ensures r == Some(StatusSuccess) <==> f in touched && (f !in errors || errors[f] == "")
  {
    if f !in touched then None
    else if f in errors && errors[f] != "" then Some(StatusError)
    else Some(StatusSuccess)
  }

  /** After a blur, the field's status is an error exactly when its value
      breaks its rule. */
  lemma StatusAfterBlur(touched: set<Field>, errors: map<Field, string>, f: Field, value: string)
    ensures GetFieldStatus(touched + {f}, Validated(errors, f, value), f) ==
      Some(if FieldError(f, value).Some? then StatusError else StatusSuccess)
  {
  }

  /** `disabled={loading || Object.keys(errors).length > 0}` */
  function SubmitDisabled(loading: bool, errors: map<Field, string>): (r: bool)
    ensures !r <==> !loading && errors == map[]
  {
    loading || |errors| > 0
  }

  /** When the button can be pressed, submit passes exactly when all three
      fields pass their rules. */
  lemma EnabledSubmitChecksFields(errors: map<Field, string>, data: FormData)
    requires !SubmitDisabled(false, errors)
    ensures EveryFrom(errors, data, 0).0 <==> forall f :: FieldError(f, data.Get(f)).None?
  {
    SubmitPassesIff(errors, data);
  }

  // ---------------------------------------------------------------------------
  // The form's state and its event handlers
  // ---------------------------------------------------------------------------

  class RegisterForm {
    var formData: FormData
    var message: string
    var showPassword: bool
    var loading: bool
    var errors: map<Field, string>
    var touched: set<Field>

    ghost predicate Valid()
      reads this
    {
      MessagesNonEmpty(errors)
    }

    constructor ()
      ensures Valid()
      ensures formData == FormData("", "", "") && message == "" && !showPassword && !loading
      ensures errors == map[] && touched == {}
    {
      formData := FormData("", "", "");
      message := "";
      showPassword := false;
      loading := false;
      errors := map[];
      touched := {};
    }

    /** `validateField`: copy the error map, set or delete the field's entry,
        commit the copy, and report whether it is empty. */
    method ValidateField(field: Field, value: string) returns (ok: bool)
      requires Valid()
      modifies this`errors
      ensures Valid()
      ensures errors == Validated(old(errors), field, value)
      ensures ok <==> |errors| == 0
    {
      var newErrors := errors;
      var rule := FieldError(field, value);
      if rule.Some? {
        newErrors := newErrors[field := rule.value];
      } else {
        newErrors := newErrors - {field};
      }
      errors := newErrors;
      ok := |newErrors| == 0;
    }

    /** `handleChange`: store the value; re-validate only a touched field. */
    method HandleChange(field: Field, value: string)
      requires Valid()
      modifies this`formData, this`errors
      ensures Valid()
      ensures formData == old(formData).Set(field, value)
      ensures errors == if field in touched then Validated(old(errors), field, value) else old(errors)
    {
      formData := formData.Set(field, value);
      if field in touched {
        var _ := ValidateField(field, value);
      }
    }

    /** `handleBlur`: mark the field touched and always validate it. */
    method HandleBlur(field: Field, value: string)
      requires Valid()
      modifies this`touched, this`errors
      ensures Valid()
      ensures touched == old(touched) + {field}
      ensures errors == Validated(old(errors), field, value)
    {
      touched := touched + {field};
      var _ := ValidateField(field, value);
    }

    /** The eye button. */
    method TogglePasswordVisibility()
      modifies this`showPassword
      ensures showPassword == !old(showPassword)
    {
      showPassword := !showPassword;
    }

    /** `handleSubmit` up to the network step: set loading, clear the message,
        run the validation step, and on failure clear loading again. Returns
        whether the (unmodelled) network step would start. */
    method HandleSubmit() returns (proceeds: bool)
      requires Valid()
      modifies this`loading, this`message, this`errors
      ensures Valid()
      ensures message == ""
      ensures (proceeds, errors) == EveryFrom(old(errors), formData, 0)
      ensures loading == proceeds
    {
      loading := true;
      message := "";
      var snapshot := errors;
      var allValid := true;
      var committed := errors;
      var i := 0;
      while i < |FieldOrder| && allValid
        invariant 0 <= i <= |FieldOrder|
        invariant i == 0 ==> allValid
        invariant allValid && i < |FieldOrder| ==> EveryFrom(snapshot, formData, 0) == EveryFrom(snapshot, formData, i)
        invariant (!allValid || i == |FieldOrder|) ==> EveryFrom(snapshot, formData, 0) == (allValid, committed)
        invariant MessagesNonEmpty(committed)
      {
        var key := FieldOrder[i];
        committed := Validated(snapshot, key, formData.Get(key));
        allValid := |committed| == 0;
        i := i + 1;
      }
      errors := committed;
      if !allValid {
        loading := false;
      }
      proceeds := allValid;
    }
  }
}
