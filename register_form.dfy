/** The registration form's `handleSubmit`: the checks it runs in order
    before it calls `onSubmit`, the e-mail pattern among them, and the error
    it shows. */
module RegisterForm {
  import opened Wrappers
  import opened Text
  import opened Outcomes

  const UsernameRequired := "El nombre de usuario es requerido"
  const EmailRequired := "El correo electrónico es requerido"
  const EmailInvalid := "El correo electrónico no es válido"
  const PasswordRequired := "La contraseña es requerida"
  const PasswordTooShort := "La contraseña debe tener al menos 6 caracteres"
  const PasswordMismatch := "Las contraseñas no coinciden"
  const RegisterFailure := "Error al registrarse. Por favor, intenta nuevamente."
  const MinPasswordLength: nat := 6

  /** `[^\s@]`. */
  predicate Plain(c: char) {
    !IsSpace(c) && c != '@'
  }

  predicate AllPlain(s: string) {
    forall i :: 0 <= i < |s| ==> Plain(s[i])
  }

  /** `/^[^\s@]+@[^\s@]+\.[^\s@]+$/.test(s)`: a non-empty plain part, '@', a
      non-empty plain part, '.', a non-empty plain part. */
  ghost predicate MatchesEmailRegex(s: string) {
    exists at, dot :: 0 < at && at + 1 < dot && dot + 1 < |s| && s[at] == '@' && s[dot] == '.'
                   && AllPlain(s[..at]) && AllPlain(s[at + 1..])
  }

  /** The position of the first `c` in `s`. */
  function IndexOf(s: string, c: char): (r: nat)
    requires c in s
    ensures r < |s| && s[r] == c && c !in s[..r]
  {
    if s[0] == c then 0
    else
      assert c in s[1..] by { var i :| 0 <= i < |s| && s[i] == c; assert s[1..][i - 1] == c; }
      var r := IndexOf(s[1..], c);
      assert s[..r + 1] == [s[0]] + s[1..][..r];
      r + 1
  }

  /** `d` has a '.' that is neither its first nor its last character. */
  predicate HasInnerDot(d: string) {
    exists k :: 0 < k < |d| - 1 && d[k] == '.'
  }

  predicate NoSpace(s: string) {
    forall i :: 0 <= i < |s| ==> !IsSpace(s[i])
  }

  /** The shape the pattern accepts, said directly: exactly one '@', no white
      space, something before the '@', and a '.' after it that is neither
      right after the '@' nor last. */
  predicate EmailAccepted(s: string) {
    && '@' in s
    && Count(s, '@') == 1
    && NoSpace(s)
    && IndexOf(s, '@') > 0
    && HasInnerDot(s[IndexOf(s, '@') + 1..])
  }

  lemma {:induction false} CountPresent(s: string, c: char)
    requires c in s
    ensures Count(s, c) >= 1
  {
    if s[0] != c {
      assert c in s[1..] by { var i :| 0 <= i < |s| && s[i] == c; assert s[1..][i - 1] == c; }
      CountPresent(s[1..], c);
    }
  }

  /** Counting '@' around one of them. */
  lemma CountAround(s: string, at: nat)
    requires at < |s| && s[at] == '@'
    ensures Count(s, '@') == Count(s[..at], '@') + 1 + Count(s[at + 1..], '@')
  {
    assert s == s[..at] + [s[at]] + s[at + 1..];
    CountAppend(s[..at] + [s[at]], s[at + 1..], '@');
    CountAppend(s[..at], [s[at]], '@');
    assert Count([s[at]], '@') == 1 by { assert [s[at]][1..] == []; }
  }

  lemma AcceptedMatchesRegex(s: string)
    requires EmailAccepted(s)
    ensures MatchesEmailRegex(s)
  {
    var at := IndexOf(s, '@');
    var d := s[at + 1..];
    CountAround(s, at);
    CountAbsent(s[..at], '@');
    assert '@' !in d by {
      if '@' in d { CountPresent(d, '@'); }
    }
    var k :| 0 < k < |d| - 1 && d[k] == '.';
    var dot := at + 1 + k;
    assert s[dot] == '.';
    assert AllPlain(s[..at]) by {
      forall i | 0 <= i < at ensures Plain(s[..at][i]) {
        assert s[..at][i] == s[i];
        assert s[..at][i] in s[..at];
      }
    }
    assert AllPlain(d) by {
      forall i | 0 <= i < |d| ensures Plain(d[i]) {
        assert d[i] == s[at + 1 + i];
        assert d[i] in d;
      }
    }
  }

  lemma RegexIsAccepted(s: string)
    requires MatchesEmailRegex(s)
    ensures EmailAccepted(s)
  {
    var at, dot :| 0 < at && at + 1 < dot && dot + 1 < |s| && s[at] == '@' && s[dot] == '.'
                && AllPlain(s[..at]) && AllPlain(s[at + 1..]);
    OnlyAt(s, at);
    PlainAroundAt(s, at);
    assert s[at + 1..][dot - at - 1] == '.';
  }

  /** An '@' with plain text on both sides is the one and only '@'. */
  lemma OnlyAt(s: string, at: nat)
    requires at < |s| && s[at] == '@' && AllPlain(s[..at]) && AllPlain(s[at + 1..])
    ensures '@' in s && IndexOf(s, '@') == at && Count(s, '@') == 1
  {
    var d := s[at + 1..];
    assert '@' in s;
    assert '@' !in s[..at] by {
      forall i | 0 <= i < at ensures s[..at][i] != '@' { assert Plain(s[..at][i]); }
    }
    assert '@' !in d by {
      forall i | 0 <= i < |d| ensures d[i] != '@' { assert Plain(d[i]); }
    }
    CountAround(s, at);
    CountAbsent(s[..at], '@');
    CountAbsent(d, '@');
  }

  /** Plain text on both sides of an '@' leaves no white space anywhere. */
  lemma PlainAroundAt(s: string, at: nat)
    requires at < |s| && s[at] == '@' && AllPlain(s[..at]) && AllPlain(s[at + 1..])
    ensures NoSpace(s)
  {
    forall i | 0 <= i < |s| ensures !IsSpace(s[i]) {
      if i < at {
        assert s[..at][i] == s[i];
        assert Plain(s[..at][i]);
      } else if i > at {
        assert s[at + 1..][i - at - 1] == s[i];
        assert Plain(s[at + 1..][i - at - 1]);
      }
    }
  }

  /** The direct description and the pattern accept the same strings. */
  lemma EmailAcceptedIffRegex(s: string)
    ensures EmailAccepted(s) <==> MatchesEmailRegex(s)
  {
    if EmailAccepted(s) {
      AcceptedMatchesRegex(s);
    }
    if MatchesEmailRegex(s) {
      RegexIsAccepted(s);
    }
  }

  /** The message of the first check the input fails, in the order
      `handleSubmit` runs them; `None` when all pass. */
  function FirstError(username: string, email: string, password: string, confirm: string): (r: Option<string>)
    ensures r.None? <==>
      && !IsBlank(username)
      && MatchesEmailRegex(Trim(email))
      && !IsBlank(password)
      && |password| >= MinPasswordLength
      && password == confirm
  {
    EmailAcceptedIffRegex(Trim(email));
    if IsBlank(username) then Some(UsernameRequired)
    else if IsBlank(email) then Some(EmailRequired)
    else if !EmailAccepted(Trim(email)) then Some(EmailInvalid)
    else if IsBlank(password) then Some(PasswordRequired)
    else if |password| < MinPasswordLength then Some(PasswordTooShort)
    else if password != confirm then Some(PasswordMismatch)
    else None
  }

  /** A password of white space only is refused whatever its length, and so
      is any password shorter than six characters. */
  lemma WeakPasswordsRefused(username: string, email: string, password: string, confirm: string)
    requires IsBlank(password) || |password| < MinPasswordLength
    ensures FirstError(username, email, password, confirm).Some?
  {
  }

  /** The form's error state. */
  class RegisterFormState {
    var formError: Option<string>

    constructor()
      ensures formError.None?
    {
      formError := None;
    }

    /** `handleSubmit`: the error is cleared, the checks run in order and the
        first failure is shown; when all pass `onSubmit` is called with the
        trimmed user name and e-mail and the password as typed, and a failure
        of that call shows the generic message. */
    method HandleSubmit(username: string, email: string, password: string, confirm: string, outcome: Outcome<()>)
      returns (call: Option<(string, string, string)>)
      modifies this
      ensures call.Some? <==> FirstError(username, email, password, confirm).None?
      ensures call.Some? ==> call.value == (Trim(username), Trim(email), password)
      ensures call.None? ==> formError == FirstError(username, email, password, confirm)
      ensures call.Some? ==> formError == if outcome.Err? then Some(RegisterFailure) else None
    {
      formError := None;
      if IsBlank(username) {
        formError := Some(UsernameRequired);
        return None;
      }
      if IsBlank(email) {
        formError := Some(EmailRequired);
        return None;
      }
      if !EmailAccepted(Trim(email)) {
        formError := Some(EmailInvalid);
        return None;
      }
      if IsBlank(password) {
        formError := Some(PasswordRequired);
        return None;
      }
      if |password| < MinPasswordLength {
        formError := Some(PasswordTooShort);
        return None;
      }
      if password != confirm {
        formError := Some(PasswordMismatch);
        return None;
      }
      call := Some((Trim(username), Trim(email), password));
      if outcome.Err? {
        formError := Some(RegisterFailure);
      }
    }
  }
}
