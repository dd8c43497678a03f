/**
 * Validation of the application form's text fields (script.js, validateForm
 * and isValidEmail).
 */
module FormValidation {
  import opened Values
  import opened Text

  /** The text fields read from the form; None is a field the form did not send. */
  datatype ContactForm = ContactForm(name: Option<string>, email: Option<string>, phone: Option<string>)

  /** One message per violated rule. */
  datatype FormError = NameTooShort | EmailInvalid | PhoneInvalid

  /** The text shown for each rule. */
  function Message(e: FormError): string
  {
    match e
    case NameTooShort => "Ad soyad en az 2 karakter olmalıdır."
    case EmailInvalid => "Geçerli bir e-posta adresi giriniz."
    case PhoneInvalid => "Geçerli bir telefon numarası giriniz."
  }

  /** The position of each rule in the order validateForm checks the rules. */
  function Rank(e: FormError): nat
  {
    match e
    case NameTooShort => 0
    case EmailInvalid => 1
    case PhoneInvalid => 2
  }

  /** A character the class `[^\s@]` accepts. */
  predicate Plain(c: char)
  {
    !IsJsWhitespace(c) && c != '@'
  }

  predicate AllPlain(t: string)
  {
    forall k | 0 <= k < |t| :: Plain(t[k])
  }

  /**
   * The language of the pattern /^[^\s@]+@[^\s@]+\.[^\s@]+$/: three non-empty runs of
   * plain characters, joined by an '@' at `i` and a '.' at `j`.
   */
  ghost predicate MatchesEmailPattern(s: string)
  {
    exists i, j :: 0 < i && i + 1 < j && j + 1 < |s| && s[i] == '@' && s[j] == '.' &&
      AllPlain(s[..i]) && AllPlain(s[i + 1..j]) && AllPlain(s[j + 1..])
  }

  /** The domain part has a '.' that is neither its first nor its last character. */
  predicate HasInnerDot(d: string)
  {
    exists j | 0 < j < |d| - 1 :: d[j] == '.'
  }

  /**
   * isValidEmail: no whitespace anywhere, exactly one '@', something before it,
   * and a '.' inside the part after it.
   */
  predicate IsValidEmail(email: string)
  {
    (forall k | 0 <= k < |email| :: !IsJsWhitespace(email[k])) &&
    exists i | 0 < i < |email| ::
      email[i] == '@' &&
      (forall k | 0 <= k < |email| && k != i :: email[k] != '@') &&
      HasInnerDot(email[i + 1..])
  }

  /** The check accepts exactly the strings the regular expression matches. */
  lemma EmailCheckMatchesPattern(s: string)
    ensures IsValidEmail(s) <==> MatchesEmailPattern(s)
  {
    if IsValidEmail(s) {
      AcceptedEmailMatches(s);
    }
    if MatchesEmailPattern(s) {
      MatchedEmailAccepted(s);
    }
  }

  lemma AcceptedEmailMatches(s: string)
    requires IsValidEmail(s)
    ensures MatchesEmailPattern(s)
  {
    var i :| 0 < i < |s| && s[i] == '@' &&
      (forall k | 0 <= k < |s| && k != i :: s[k] != '@') && HasInnerDot(s[i + 1..]);
    var d := s[i + 1..];
    var j :| 0 < j < |d| - 1 && d[j] == '.';
    var jj := i + 1 + j;
    assert s[jj] == '.';
    assert AllPlain(s[..i]);
    assert AllPlain(s[i + 1..jj]);
    assert AllPlain(s[jj + 1..]);
  }

  lemma MatchedEmailAccepted(s: string)
    requires MatchesEmailPattern(s)
    ensures IsValidEmail(s)
  {
    var i, j :| 0 < i && i + 1 < j && j + 1 < |s| && s[i] == '@' && s[j] == '.' &&
      AllPlain(s[..i]) && AllPlain(s[i + 1..j]) && AllPlain(s[j + 1..]);
    forall k | 0 <= k < |s|
      ensures !IsJsWhitespace(s[k]) && (k != i ==> s[k] != '@')
    {
      if k < i {
        assert s[..i][k] == s[k];
      } else if i < k < j {
        assert s[i + 1..j][k - i - 1] == s[k];
      } else if j < k {
        assert s[j + 1..][k - j - 1] == s[k];
      }
    }
    var d := s[i + 1..];
    assert d[j - i - 1] == '.';
    assert HasInnerDot(d);
  }

  predicate NameAccepted(name: Option<string>)
  {
    name.Some? && Utf16Length(name.value) >= 2
  }

  predicate EmailAccepted(email: Option<string>)
  {
    email.Some? && email.value != "" && IsValidEmail(email.value)
  }

  predicate PhoneAccepted(phone: Option<string>)
  {
    phone.Some? && Utf16Length(phone.value) >= 10
  }

  /**
   * validateForm: one message per violated rule, in the order name, email, phone;
   * no message exactly when all three rules hold.
   */
  method ValidateForm(form: ContactForm) returns (errors: seq<FormError>)
    ensures NameTooShort in errors <==> !NameAccepted(form.name)
    ensures EmailInvalid in errors <==> !EmailAccepted(form.email)
    ensures PhoneInvalid in errors <==> !PhoneAccepted(form.phone)
    ensures forall i, j :: 0 <= i < j < |errors| ==> Rank(errors[i]) < Rank(errors[j])
    ensures errors == [] <==>
      NameAccepted(form.name) && EmailAccepted(form.email) && PhoneAccepted(form.phone)
  {
    var nameBad := form.name.None? || form.name.value == "" || Utf16Length(form.name.value) < 2;
    var emailBad := form.email.None? || form.email.value == "" || !IsValidEmail(form.email.value);
    var phoneBad := form.phone.None? || form.phone.value == "" || Utf16Length(form.phone.value) < 10;
    errors := CollectErrors(nameBad, emailBad, phoneBad);
  }

  /** The pushes of validateForm, given which rules failed. */
  method CollectErrors(nameBad: bool, emailBad: bool, phoneBad: bool) returns (errors: seq<FormError>)
    ensures NameTooShort in errors <==> nameBad
    ensures EmailInvalid in errors <==> emailBad
    ensures PhoneInvalid in errors <==> phoneBad
    ensures errors == [] <==> !nameBad && !emailBad && !phoneBad
    ensures forall i, j :: 0 <= i < j < |errors| ==> Rank(errors[i]) < Rank(errors[j])
  {
    errors := [];
    if nameBad {
      errors := errors + [NameTooShort];
    }
    if emailBad {
      errors := errors + [EmailInvalid];
    }
    if phoneBad {
      errors := errors + [PhoneInvalid];
    }
  }
}
