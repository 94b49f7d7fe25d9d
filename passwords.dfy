/**
 * The password rules of the reset-password page and of the signup form.
 * Strength scores come from the zxcvbn library and arrive here as numbers
 * from 0 to 4.
 */
module Passwords {
  import opened Wrappers

  /** `/[A-Z]/.test(pw)`. */
  predicate HasUpper(pw: string) {
    exists i :: 0 <= i < |pw| && 'A' <= pw[i] <= 'Z'
  }

  /** `/[0-9]/.test(pw)`. */
  predicate HasDigit(pw: string) {
    exists i :: 0 <= i < |pw| && '0' <= pw[i] <= '9'
  }

  /** The reset page's validity: at least 8 characters, an upper-case letter, a digit, a matching confirmation, and a score of at least 1. */
  predicate ResetValid(pw: string, confirm: string, score: int) {
    |pw| >= 8 && HasUpper(pw) && HasDigit(pw) && confirm == pw && score >= 1
  }

  /** Each rule on its own makes the form invalid when it fails. */
  lemma ResetValidNeedsEachRule(pw: string, confirm: string, score: int)
    ensures |pw| < 8 ==> !ResetValid(pw, confirm, score)
    ensures (forall i :: 0 <= i < |pw| ==> !('A' <= pw[i] <= 'Z')) ==> !ResetValid(pw, confirm, score)
    ensures (forall i :: 0 <= i < |pw| ==> !('0' <= pw[i] <= '9')) ==> !ResetValid(pw, confirm, score)
    ensures confirm != pw || score < 1 ==> !ResetValid(pw, confirm, score)
  {
  }

  /** The emptied form is never valid, whatever score the empty password gets. */
  lemma EmptyFormInvalid(score: int)
    ensures !ResetValid([], [], score)
  {
  }

  /** The strength bar's width in percent: `(score + 1) * 20`. */
  function BarWidth(score: int): (w: int)
    ensures 0 <= score <= 4 ==> 20 <= w <= 100 && w % 20 == 0
    ensures w == 20 * score + 20
  {
    (score + 1) * 20
  }

  /** The bar width grows with the score. */
  lemma BarWidthMonotone(a: int, b: int)
    requires a < b
    ensures BarWidth(a) < BarWidth(b)
  {
  }

  /** The colour table has one entry per score. */
  function BarColour(score: int): (r: Option<string>)
    ensures r.Some? <==> 0 <= score <= 4
  {
    var colours := ["bg-red-500", "bg-orange-400", "bg-yellow-400", "bg-green-400", "bg-green-600"];
    if 0 <= score < |colours| then Some(colours[score]) else None
  }

  /** The label table as written: four entries, so indexing it past 3 yields `undefined`. */
  function StrengthLabel(score: int): (r: Option<string>)
    ensures r.Some? <==> 0 <= score <= 3
  {
    var labels := ["Weak", "Fair", "Good", "Strong"];
    if 0 <= score < |labels| then Some(labels[score]) else None
  }

  /** The strongest score zxcvbn gives has a colour but no label. */
  lemma TopScoreHasNoLabel()
    ensures BarColour(4).Some? && StrengthLabel(4).None?
  {
  }

  /** The label table with a fifth entry, one per score as the colour table has. */
  function StrengthLabelFixed(score: int): (r: Option<string>)
    ensures r.Some? <==> BarColour(score).Some?
    ensures 0 <= score <= 3 ==> r == StrengthLabel(score)
  {
    var labels := ["Weak", "Fair", "Good", "Strong", "Very strong"];
    if 0 <= score < |labels| then Some(labels[score]) else None
  }

  /** What the signup handler does with the entered passwords. */
  datatype SignupOutcome = Mismatch | TooWeak | SignUp

  /**
   * `handleSignup`: a mismatch is reported first; then fewer than 8
   * characters or a strength below 2 is rejected; only then is the account
   * requested.
   */
  function Signup(pw: string, confirm: string, strength: int): (r: SignupOutcome)
    ensures r == Mismatch <==> pw != confirm
    ensures r == TooWeak <==> pw == confirm && (|pw| < 8 || strength < 2)
    ensures r == SignUp <==> pw == confirm && |pw| >= 8 && strength >= 2
  {
    if pw != confirm then Mismatch
    else if |pw| < 8 || strength < 2 then TooWeak
    else SignUp
  }

  /** A mismatched pair is reported as a mismatch even when it is also weak. */
  lemma MismatchReportedFirst(pw: string, confirm: string, strength: int)
    requires pw != confirm && |pw| < 8 && strength < 2
    ensures Signup(pw, confirm, strength) == Mismatch
  {
  }

  /**
   * The two forms apply different rules: signup asks for no upper-case
   * letter or digit, so a password the reset page refuses can sign up.
   */
  lemma SignupLooserThanReset()
    ensures Signup("abcdefgh", "abcdefgh", 2) == SignUp && !ResetValid("abcdefgh", "abcdefgh", 2)
  {
    assert !HasUpper("abcdefgh");
  }

  datatype Banner = Success(text: string) | Failure(text: string)

  class ResetPasswordForm {
    var password: string
    var confirm: string
    /** The zxcvbn score of `password`, as the effect last computed it. */
    var score: int
    var isFormValid: bool
    var message: Option<Banner>
    /** The passwords sent to the auth service, in order. */
    var updates: seq<string>

    /** The validity flag always matches the fields, and the score is in zxcvbn's range. */
    ghost predicate Valid()
      reads this
    {
      0 <= score <= 4 && isFormValid == ResetValid(password, confirm, score)
    }

    constructor ()
      ensures Valid()
      ensures password == [] && confirm == [] && score == 0 && !isFormValid && message.None? && updates == []
    {
      password := [];
      confirm := [];
      score := 0;
      isFormValid := false;
      message := None;
      updates := [];
    }

    /** Typing in the password field; the effect rescores it and revalidates. */
    method EditPassword(value: string, newScore: int)
      requires Valid() && 0 <= newScore <= 4
      modifies this`password, this`score, this`isFormValid
      ensures Valid()
      ensures password == value && score == newScore && confirm == old(confirm)
      ensures isFormValid == ResetValid(value, confirm, newScore)
    {
      password := value;
      score := newScore;
      isFormValid := ResetValid(password, confirm, score);
    }

    /** Typing in the confirmation field; the password and its score are unchanged. */
    method EditConfirm(value: string)
      requires Valid()
      modifies this`confirm, this`isFormValid
      ensures Valid()
      ensures confirm == value && password == old(password)
      ensures isFormValid == ResetValid(password, value, score)
    {
      confirm := value;
      isFormValid := ResetValid(password, confirm, score);
    }

    /**
     * `handleSubmit`: nothing unless the form is valid. On success the new
     * password is sent, a success message shows and both fields empty,
     * which makes the form invalid; on failure the error text shows.
     */
    method Submit(ok: bool, errorText: string)
      requires Valid()
      modifies this
      ensures Valid()
      ensures !old(isFormValid) ==>
        password == old(password) && confirm == old(confirm) && message == old(message) && updates == old(updates) && isFormValid == old(isFormValid)
      ensures old(isFormValid) && ok ==>
        updates == old(updates) + [old(password)] && password == [] && confirm == [] && !isFormValid &&
        message == Some(Success("Password updated successfully! Redirecting to login..."))
      ensures old(isFormValid) && !ok ==>
        updates == old(updates) && password == old(password) && confirm == old(confirm) && isFormValid &&
        message == Some(Failure(errorText))
    {
      if !isFormValid {
        return;
      }
      message := None;
      if !ok {
        message := Some(Failure(errorText));
        return;
      }
      updates := updates + [password];
      message := Some(Success("Password updated successfully! Redirecting to login..."));
      password := [];
      confirm := [];
      // zxcvbn scores the empty password 0
      score := 0;
      isFormValid := ResetValid(password, confirm, score);
    }
  }

  /** The signup tab's password fields and the strength the effect keeps for the password. */
  class SignupForm {
    var password: string
    var confirm: string
    var strength: int
    /** The passwords sent with signup requests, in order. */
    var requests: seq<string>

    constructor ()
      ensures password == [] && confirm == [] && strength == 0 && requests == []
    {
      password := [];
      confirm := [];
      strength := 0;
      requests := [];
    }

    /** A change of the password; the effect rescores it. */
    method EditPassword(value: string, score: int)
      modifies this`password, this`strength
      ensures password == value && strength == score
    {
      password := value;
      strength := score;
    }

    /** A change of the confirmation; the strength is kept. */
    method EditConfirm(value: string)
      modifies this`confirm
      ensures confirm == value
    {
      confirm := value;
    }

    /** `handleSignup`: the outcome of the checks, and a request only when both pass. */
    method Submit() returns (outcome: SignupOutcome)
      modifies this`requests
      ensures outcome == Signup(password, confirm, strength)
      ensures requests == old(requests) + if outcome == SignUp then [password] else []
    {
      outcome := Signup(password, confirm, strength);
      if outcome == SignUp {
        requests := requests + [password];
      }
    }
  }
}
