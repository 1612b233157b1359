/**
 * The client-side form rules of `main.js`: per-field validation (required,
 * e-mail shape, minimum length), whole-form validation and date formatting.
 * A field is what the rules read of an input element.
 */
module FormValidation {
  import opened Wrappers
  import opened Text

  /** An input's trimmed-to-be value, its `required` attribute, `type === 'email'` and its numeric `minlength`. */
  datatype Field = Field(value: string, required: bool, isEmail: bool, minLength: Option<int>)

  const RequiredMessage: string := "Este campo es obligatorio"
  const EmailMessage: string := "Email inválido"

  function MinLengthMessage(n: int): string {
    "Mínimo " + IntToString(n) + " caracteres"
  }

  // ---------------------------------------------------------------------------
  // The e-mail pattern ^[^\s@]+@[^\s@]+\.[^\s@]+$
  // ---------------------------------------------------------------------------

  /** Every character of `s` matches `[^\s@]`. */
  predicate PlainChars(s: string) {
    forall k :: 0 <= k < |s| ==> !IsJsSpace(s[k]) && s[k] != '@'
  }

  /** The regular expression read as its structure: three non-empty plain runs around "@" and ".". */
  ghost predicate MatchesEmailPattern(v: string) {
    exists a: string, b: string, c: string ::
      v == a + "@" + b + "." + c && |a| > 0 && |b| > 0 && |c| > 0 && PlainChars(a) && PlainChars(b) && PlainChars(c)
  }

  /**
   * The same shape stated by positions: no whitespace, exactly one "@", not at
   * the start, and a "." after it that is neither the first nor the last
   * character of the domain.
   */
  predicate EmailShape(v: string) {
    && (forall k | 0 <= k < |v| :: !IsJsSpace(v[k]))
    && exists i | 0 < i < |v| :: SoleAtSign(v, i)
  }

  /** `v[i]` is the only "@" of `v`, and a "." lies strictly inside the part after it. */
  predicate SoleAtSign(v: string, i: int)
    requires 0 <= i < |v|
  {
    && v[i] == '@'
    && (forall k | 0 <= k < |v| && k != i :: v[k] != '@')
    && (exists k | i + 1 < k < |v| - 1 :: v[k] == '.')
  }

  /** The pattern matches exactly the strings of the e-mail shape. */
  lemma EmailPatternIffShape(v: string)
    ensures MatchesEmailPattern(v) <==> EmailShape(v)
  {
    if MatchesEmailPattern(v) {
      var a: string, b: string, c: string :|
        v == a + "@" + b + "." + c && |a| > 0 && |b| > 0 && |c| > 0 && PlainChars(a) && PlainChars(b) && PlainChars(c);
      PatternGivesShape(v, a, b, c);
    }
    if EmailShape(v) {
      var i :| 0 < i < |v| && SoleAtSign(v, i);
      var k :| i + 1 < k < |v| - 1 && v[k] == '.';
      ShapeGivesPattern(v, i, k);
    }
  }

  lemma PatternGivesShape(v: string, a: string, b: string, c: string)
    requires v == a + "@" + b + "." + c && |a| > 0 && |b| > 0 && |c| > 0
    requires PlainChars(a) && PlainChars(b) && PlainChars(c)
    ensures EmailShape(v)
  {
    var i, k := |a|, |a| + 1 + |b|;
    assert v[i] == '@' && v[k] == '.';
    forall j | 0 <= j < |v|
      ensures !IsJsSpace(v[j]) && (j != i ==> v[j] != '@')
    {
      if j < i {
        assert v[j] == a[j];
      } else if i < j < k {
        assert v[j] == b[j - i - 1];
      } else if j > k {
        assert v[j] == c[j - k - 1];
      }
    }
    assert i + 1 < k < |v| - 1;
    assert SoleAtSign(v, i);
  }

  lemma ShapeGivesPattern(v: string, i: int, k: int)
    requires 0 < i && i + 1 < k < |v| - 1 && v[i] == '@' && v[k] == '.'
    requires forall j | 0 <= j < |v| :: !IsJsSpace(v[j])
    requires forall j | 0 <= j < |v| && j != i :: v[j] != '@'
    ensures MatchesEmailPattern(v)
  {
    var a, b, c := v[..i], v[i + 1..k], v[k + 1..];
    assert v == a + "@" + b + "." + c;
    assert PlainChars(a) by {
      forall j | 0 <= j < |a| ensures !IsJsSpace(a[j]) && a[j] != '@' {
        assert a[j] == v[j];
      }
    }
    assert PlainChars(b) by {
      forall j | 0 <= j < |b| ensures !IsJsSpace(b[j]) && b[j] != '@' {
        assert b[j] == v[i + 1 + j];
      }
    }
    assert PlainChars(c) by {
      forall j | 0 <= j < |c| ensures !IsJsSpace(c[j]) && c[j] != '@' {
        assert c[j] == v[k + 1 + j];
      }
    }
  }

  // ---------------------------------------------------------------------------
  // validateField
  // ---------------------------------------------------------------------------

  /** `field.hasAttribute('required') && !value`. */
  predicate RequiredFails(f: Field) {
    f.required && Trim(f.value) == ""
  }

  /** `field.type === 'email' && value` and the pattern does not match. */
  predicate EmailFails(f: Field) {
    f.isEmail && Trim(f.value) != "" && !EmailShape(Trim(f.value))
  }

  /** `field.hasAttribute('minlength') && value` and the trimmed value is shorter. */
  predicate MinLengthFails(f: Field) {
    f.minLength.Some? && Trim(f.value) != "" && |Trim(f.value)| < f.minLength.value
  }

  /** A field passes when none of the three rules fails. */
  predicate FieldValid(f: Field) {
    !RequiredFails(f) && !EmailFails(f) && !MinLengthFails(f)
  }

  /**
   * `validateField`: the rules run in order and each failing one overwrites
   * the message, so the last failing rule's message is the one shown.
   */
  method ValidateField(f: Field) returns (isValid: bool, errorMessage: string)
    ensures isValid <==> FieldValid(f)
    ensures errorMessage == if MinLengthFails(f) then MinLengthMessage(f.minLength.value)
                            else if EmailFails(f) then EmailMessage
                            else if RequiredFails(f) then RequiredMessage
                            else ""
    ensures !f.required && Trim(f.value) == "" ==> isValid
    ensures RequiredFails(f) ==> !isValid && errorMessage == RequiredMessage
  {
    var value := Trim(f.value);
    isValid := true;
    errorMessage := "";
    if f.required && value == "" {
      isValid := false;
      errorMessage := RequiredMessage;
    }
    if f.isEmail && value != "" {
      if !EmailShape(value) {
        isValid := false;
        errorMessage := EmailMessage;
      }
    }
    if f.minLength.Some? && value != "" {
      var minLength := f.minLength.value;
      if |value| < minLength {
        isValid := false;
        errorMessage := MinLengthMessage(minLength);
      }
    }
  }

  /** The verdict of `validateField` on one field, its message dropped. */
  method FieldVerdict(f: Field) returns (ok: bool)
    ensures ok == FieldValid(f)
  {
    var message;
    ok, message := ValidateField(f);
  }

  /**
   * `validateForm`: every required field is validated, none skipped after a
   * failure; `verdicts` records each field's outcome in order and the form is
   * valid when all of them are.
   */
  method ValidateForm(requiredFields: seq<Field>) returns (isValid: bool, verdicts: seq<bool>)
    ensures |verdicts| == |requiredFields|
    ensures forall i :: 0 <= i < |requiredFields| ==> verdicts[i] == FieldValid(requiredFields[i])
    ensures isValid <==> forall i :: 0 <= i < |verdicts| ==> verdicts[i]
  {
    isValid := true;
    verdicts := [];
    for i := 0 to |requiredFields|
      invariant |verdicts| == i
      invariant forall j :: 0 <= j < i ==> verdicts[j] == FieldValid(requiredFields[j])
      invariant isValid <==> forall j :: 0 <= j < i ==> verdicts[j]
    {
      var ok := FieldVerdict(requiredFields[i]);
      ghost var before := verdicts;
      verdicts := verdicts + [ok];
      assert verdicts[i] == ok && forall j :: 0 <= j < i ==> verdicts[j] == before[j];
      if !ok {
        isValid := false;
      }
    }
  }

  // ---------------------------------------------------------------------------
  // formatDate
  // ---------------------------------------------------------------------------

  /**
   * `formatDate(date, format)` for the date with day of month `day`,
   * zero-based month `month0` and full year `year`: the first "DD", then the
   * first "MM", then the first "YYYY" are replaced.
   */
  function FormatDate(fmt: string, day: nat, month0: nat, year: int): string {
    ReplaceFirst(ReplaceFirst(ReplaceFirst(fmt, "DD", Pad2(day)), "MM", Pad2(month0 + 1)), "YYYY", IntToString(year))
  }

  /** The default format gives two-digit day and month and the year, separated by slashes. */
  lemma FormatDateDefault(fmt: string, day: nat, month0: nat, year: int)
    requires fmt == "DD/MM/YYYY"
    requires 1 <= day <= 31 && month0 <= 11
    ensures FormatDate(fmt, day, month0, year) == Pad2(day) + "/" + Pad2(month0 + 1) + "/" + IntToString(year)
  {
    var dd, mm, yy := Pad2(day), Pad2(month0 + 1), IntToString(year);
    Pad2RoundTrip(day);
    Pad2RoundTrip(month0 + 1);
    DefaultDayStep(fmt, dd);
    DefaultMonthStep(dd, mm);
    DefaultYearStep(dd, mm, yy);
  }

  lemma DefaultDayStep(fmt: string, dd: string)
    requires fmt == "DD/MM/YYYY"
    ensures ReplaceFirst(fmt, "DD", dd) == (dd + "/") + "MM" + "/YYYY"
  {
    assert fmt == "" + "DD" + "/MM/YYYY";
    ReplaceFirstAfter("", "DD", dd, "/MM/YYYY");
  }

  lemma DefaultMonthStep(dd: string, mm: string)
    requires IsDigits(dd)
    ensures ReplaceFirst((dd + "/") + "MM" + "/YYYY", "MM", mm) == (dd + "/" + mm + "/") + "YYYY" + ""
  {
    DigitsThenSlash(dd, 'M');
    ReplaceFirstAfter(dd + "/", "MM", mm, "/YYYY");
  }

  lemma DefaultYearStep(dd: string, mm: string, yy: string)
    requires IsDigits(dd) && IsDigits(mm)
    ensures ReplaceFirst((dd + "/" + mm + "/") + "YYYY" + "", "YYYY", yy) == dd + "/" + mm + "/" + yy
  {
    DigitsThenSlash(dd, 'Y');
    DigitsThenSlash(mm, 'Y');
    assert forall j :: 0 <= j < |dd + "/" + mm + "/"| ==> (dd + "/" + mm + "/")[j] != 'Y' by {
      assert dd + "/" + mm + "/" == (dd + "/") + (mm + "/");
    }
    ReplaceFirstAfter(dd + "/" + mm + "/", "YYYY", yy, "");
  }

  /** Digits followed by a slash contain no letter. */
  lemma DigitsThenSlash(ds: string, letter: char)
    requires IsDigits(ds) && !IsDigitChar(letter) && letter != '/'
    ensures forall j :: 0 <= j < |ds + "/"| ==> (ds + "/")[j] != letter
  {
  }

  /** Only the first occurrence of a token is replaced: a repeated "DD" keeps its second copy. */
  lemma FormatDateFirstOnly(fmt: string, day: nat, month0: nat, year: int)
    requires fmt == "DD DD"
    requires 1 <= day <= 31 && month0 <= 11
    ensures FormatDate(fmt, day, month0, year) == Pad2(day) + " DD"
  {
    var dd := Pad2(day);
    Pad2RoundTrip(day);
    assert fmt == "" + "DD" + " DD";
    ReplaceFirstAfter("", "DD", dd, " DD");
    var s := dd + " DD";
    assert forall j :: 0 <= j < |s| ==> s[j] != 'M' && s[j] != 'Y' by {
      assert IsDigitChar(dd[0]) && IsDigitChar(dd[1]);
      assert s[2..] == " DD";
    }
    NoOccurrenceBefore(s, "MM", |s|);
    NoOccurrenceBefore(s, "YYYY", |s|);
    ReplaceFirstAbsent(s, "MM", Pad2(month0 + 1));
    ReplaceFirstAbsent(s, "YYYY", IntToString(year));
  }
}
