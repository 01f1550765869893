/**
 * The sign-up form's client-side checks. The two sign-up pages of the
 * storefront define the same five checks, the same rule for disabling the
 * submit button and the same request payload, so both are modelled here once.
 */
module SignupForm {
  import opened Text

  /** The form's five text fields, as typed. */
  datatype SignupFields = SignupFields(
    name: string,
    number: string,
    email: string,
    password: string,
    confirmPassword: string)

  /** The JSON body of the sign-up request. */
  datatype SignupPayload = SignupPayload(name: string, number: string, email: string, password: string)

  const GmailSuffix: string := "@gmail.com"

  /**
   * `isEmailValid`: after trimming, the text ends with the (case-sensitive)
   * gmail suffix. A valid email is therefore never blank, so never empty in
   * the form's sense.
   */
  predicate IsEmailValid(s: string)
    ensures IsEmailValid(s) ==> |GmailSuffix| <= |Trim(s)| <= |s|
    ensures IsEmailValid(s) ==> !IsBlank(s)
  {
    EndsWith(Trim(s), GmailSuffix)
  }

  /**
   * `isPhoneValid`, the regular expression `^\d{10}$`: exactly ten ASCII
   * digits. Nothing is trimmed first, so a number with whitespace anywhere
   * is rejected.
   */
  predicate IsPhoneValid(s: string)
    ensures IsPhoneValid(s) <==> |s| == 10 && forall i :: 0 <= i < |s| ==> '0' <= s[i] <= '9'
    ensures IsPhoneValid(s) ==> forall i :: 0 <= i < |s| ==> !IsSpace(s[i])
  {
    |s| == 10 && AllDigits(s)
  }

  /** `[^\w\s]`: a character that is neither a word character nor whitespace. */
  predicate IsSymbol(c: char) {
    !IsWordChar(c) && !IsSpace(c)
  }

  predicate NoLineTerminator(s: string) {
    forall i :: 0 <= i < |s| ==> !IsLineTerminator(s[i])
  }

  /**
   * The lookahead `(?=.*C)` tried at the start of `s`: `.*` may not pass a
   * line terminator, so some character of class C occurs before the first one.
   */
  predicate Lookahead(s: string, charClass: char -> bool) {
    exists i :: 0 <= i < |s| && charClass(s[i]) && NoLineTerminator(s[..i])
  }

  /** Some character of `s` is in the class. */
  predicate Has(s: string, charClass: char -> bool) {
    exists i :: 0 <= i < |s| && charClass(s[i])
  }

  /** On a string without line terminators a lookahead is plain membership. */
  lemma LookaheadIsHas(s: string, charClass: char -> bool)
    requires NoLineTerminator(s)
    ensures Lookahead(s, charClass) <==> Has(s, charClass)
  {
    if Has(s, charClass) {
      var i :| 0 <= i < |s| && charClass(s[i]);
      assert NoLineTerminator(s[..i]) by {
        forall k | 0 <= k < i ensures !IsLineTerminator(s[..i][k]) {
          assert s[..i][k] == s[k];
        }
      }
    }
  }

  /**
   * `isPasswordStrong`, the regular expression
   * `^(?=.*[a-z])(?=.*[A-Z])(?=.*\d)(?=.*[^\w\s]).{8,}$`: four lookaheads at
   * the start, then at least eight characters that are not line terminators
   * up to the end. What it means: at least eight characters, no line
   * terminator, and a lower-case letter, an upper-case letter, a digit and a
   * symbol somewhere (an underscore or a space is not a symbol).
   */
  predicate IsPasswordStrong(s: string)
    ensures IsPasswordStrong(s) <==>
      && |s| >= 8 && NoLineTerminator(s)
      && Has(s, IsLower) && Has(s, IsUpper) && Has(s, IsDigit) && Has(s, IsSymbol)
  {
    if !NoLineTerminator(s) then false
    else
      LookaheadIsHas(s, IsLower);
      LookaheadIsHas(s, IsUpper);
      LookaheadIsHas(s, IsDigit);
      LookaheadIsHas(s, IsSymbol);
      && Lookahead(s, IsLower)
      && Lookahead(s, IsUpper)
      && Lookahead(s, IsDigit)
      && Lookahead(s, IsSymbol)
      && |s| >= 8
  }

  /** The underscore is a word character, so "Abcdef1_" is not strong, while "Abcdef1!" is. */
  lemma UnderscoreIsNotASymbol()
    ensures !IsPasswordStrong("Abcdef1_")
    ensures IsPasswordStrong("Abcdef1!")
  {
    var weak := "Abcdef1_";
    forall i | 0 <= i < |weak| ensures !IsSymbol(weak[i]) {
    }
    var strong := "Abcdef1!";
    assert strong[..0] == [] && strong[..1] == "A" && strong[..6] == "Abcdef";
    assert strong[..7] == "Abcdef1";
    assert IsLower(strong[1]) && NoLineTerminator(strong[..1]);
    assert IsUpper(strong[0]) && NoLineTerminator(strong[..0]);
    assert IsDigit(strong[6]) && NoLineTerminator(strong[..6]);
    assert IsSymbol(strong[7]) && NoLineTerminator(strong[..7]);
  }

  /** `doPasswordsMatch`. */
  predicate DoPasswordsMatch(f: SignupFields) {
    f.password == f.confirmPassword
  }

  /**
   * `isDisabled`: the submit button is disabled when any of the five checks
   * fails. It is enabled exactly when the name has a non-space character, the
   * number is ten digits, the trimmed email ends in "@gmail.com", the password
   * meets the strength rule and equals its confirmation.
   */
  predicate IsDisabled(f: SignupFields)
    ensures !IsDisabled(f) <==>
      && !IsBlank(f.name)
      && |f.number| == 10 && AllDigits(f.number)
      && EndsWith(Trim(f.email), GmailSuffix)
      && |f.password| >= 8 && NoLineTerminator(f.password)
      && Has(f.password, IsLower) && Has(f.password, IsUpper)
      && Has(f.password, IsDigit) && Has(f.password, IsSymbol)
      && f.password == f.confirmPassword
  {
    || IsEmpty(f.name)
    || !IsPhoneValid(f.number)
    || !IsEmailValid(f.email)
    || !IsPasswordStrong(f.password)
    || !DoPasswordsMatch(f)
  }

  /** `sendSignupData`'s body: the four fields as typed; the confirmation is not sent. */
  function Payload(f: SignupFields): SignupPayload {
    SignupPayload(f.name, f.number, f.email, f.password)
  }

  /** The payload carries the fields untrimmed and does not depend on the confirmation. */
  lemma PayloadAsTyped(f: SignupFields, confirmation: string)
    ensures Payload(f) == SignupPayload(f.name, f.number, f.email, f.password)
    ensures Payload(f.(confirmPassword := confirmation)) == Payload(f)
  {
  }
}
