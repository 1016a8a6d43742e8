/** The e-mail form of the login page (src/components/Login.tsx): the
    password-confirmation guard, the call to the auth provider, and the
    rewriting of the provider's error messages into friendlier ones. */
module Login {
  import opened Seqs

  // ---------------------------------------------------------------------------
  // Error-message rewriting

  /** A thrown value: an `Error` carrying its message, or anything else. */
  datatype Thrown = ErrorInstance(message: string) | OtherValue

  /** `error instanceof Error ? error.message : 'An error occurred'` */
  function ErrorText(e: Thrown): string {
    match e
    case ErrorInstance(message) => message
    case OtherValue => "An error occurred"
  }

  const AlreadyRegistered := "If an account with this email exists, please check your email to confirm your account or try signing in instead."
  const WeakPassword := "Password must be at least 6 characters long and contain a mix of letters, numbers, and special characters."
  const BadEmail := "Please enter a valid email address."
  const BadCredentials := "Incorrect email or password. Please try again."

  /** The `if`/`else if` chain: the first provider phrase found in the
      message picks the replacement, and a message with none of them is shown
      as it is. */
  function FriendlyError(message: string): string {
    if Contains(message, "User already registered") then AlreadyRegistered
    else if Contains(message, "Password should be at least") then WeakPassword
    else if Contains(message, "Unable to validate email address") then BadEmail
    else if Contains(message, "Invalid login credentials") then BadCredentials
    else message
  }

  /** Reference definition: the rewrite rules as a table, searched in order. */
  datatype Rule = Rule(phrase: string, replacement: string)

  const Rules: seq<Rule> := [
    Rule("User already registered", AlreadyRegistered),
    Rule("Password should be at least", WeakPassword),
    Rule("Unable to validate email address", BadEmail),
    Rule("Invalid login credentials", BadCredentials)]

  /** The replacement of the first rule whose phrase occurs in `message`, or
      `message` when none does. */
  function FirstMatch(rules: seq<Rule>, message: string): string {
    if rules == [] then message
    else if Contains(message, rules[0].phrase) then rules[0].replacement
    else FirstMatch(rules[1..], message)
  }

  /** `message` holds the phrase of rule `k` and of no earlier rule. */
  predicate FirstHit(rules: seq<Rule>, message: string, k: int) {
    && 0 <= k < |rules|
    && Contains(message, rules[k].phrase)
    && forall j :: 0 <= j < k ==> !Contains(message, rules[j].phrase)
  }

  /** The table search picks the replacement of the earliest rule that
      matches, and leaves the message alone when no rule matches. */
  lemma {:induction false} FirstMatchSpec(rules: seq<Rule>, message: string)
    ensures (forall k :: 0 <= k < |rules| ==> !Contains(message, rules[k].phrase)) ==> FirstMatch(rules, message) == message
    ensures forall k :: FirstHit(rules, message, k) ==> FirstMatch(rules, message) == rules[k].replacement
  {
    if rules != [] {
      FirstMatchSpec(rules[1..], message);
      forall k | FirstHit(rules, message, k) && k > 0
        ensures FirstHit(rules[1..], message, k - 1)
      {
        assert forall j :: 0 <= j < k - 1 ==> rules[1..][j] == rules[j + 1];
      }
    }
  }

  /** The chain is the table read top to bottom: first match wins. */
  lemma FriendlyErrorTable(message: string)
    ensures FriendlyError(message) == FirstMatch(Rules, message)
  {
    var r1 := Rules[1..];
    var r2 := r1[1..];
    var r3 := r2[1..];
    assert r3 == [Rule("Invalid login credentials", BadCredentials)];
    assert r3[1..] == [];
    assert FirstMatch(r3, message) == if Contains(message, "Invalid login credentials") then BadCredentials else message;
    assert r2[0] == Rule("Unable to validate email address", BadEmail);
    assert FirstMatch(r2, message) == if Contains(message, "Unable to validate email address") then BadEmail else FirstMatch(r3, message);
    assert r1[0] == Rule("Password should be at least", WeakPassword);
    assert FirstMatch(r1, message) == if Contains(message, "Password should be at least") then WeakPassword else FirstMatch(r2, message);
    assert Rules[0] == Rule("User already registered", AlreadyRegistered);
  }

  /** A message without the letters 'U', 'P' and 'g' contains none of the
      phrases, so it is shown as it is. */
  lemma NoPhraseLetters(message: string)
    requires 'U' !in message && 'P' !in message && 'g' !in message
    ensures FriendlyError(message) == message
  {
    MissingChar(message, "User already registered", 0);
    MissingChar(message, "Password should be at least", 0);
    MissingChar(message, "Unable to validate email address", 0);
    MissingChar(message, "Invalid login credentials", 10);
  }

  /** A message that mentions none of the phrases is shown verbatim, as the
      login tests expect of "Invalid credentials". */
  lemma UnmatchedShownVerbatim()
    ensures FriendlyError("Invalid credentials") == "Invalid credentials"
  {
    NoPhraseLetters("Invalid credentials");
  }

  /** A thrown value that is not an `Error` is shown as the generic text,
      which no rule rewrites. */
  lemma OtherValueShown()
    ensures FriendlyError(ErrorText(OtherValue)) == "An error occurred"
  {
    NoPhraseLetters("An error occurred");
  }

  /** A message holding "Invalid login credentials" but neither 'U' nor 'P'
      matches only the last rule. */
  lemma LastRuleOnly(message: string)
    requires 'U' !in message && 'P' !in message
    requires Contains(message, "Invalid login credentials")
    ensures FriendlyError(message) == BadCredentials
  {
    MissingChar(message, "User already registered", 0);
    MissingChar(message, "Password should be at least", 0);
    MissingChar(message, "Unable to validate email address", 0);
  }

  lemma ContainsSelf(s: string)
    ensures Contains(s, s)
  {
    assert StartsWith(s, s);
  }

  lemma InvalidLoginLetters()
    ensures 'U' !in "Invalid login credentials" && 'P' !in "Invalid login credentials"
  {
  }

  /** The provider's wrong-password message is reported in the friendlier
      words. */
  lemma InvalidLoginRewritten()
    ensures FriendlyError("Invalid login credentials") == BadCredentials
  {
    InvalidLoginLetters();
    ContainsSelf("Invalid login credentials");
    LastRuleOnly("Invalid login credentials");
  }

  // ---------------------------------------------------------------------------
  // The form

  const PasswordsDiffer := "Passwords do not match"
  const AccountCreated := "Account created! Please check your email to confirm your account before signing in."

  /** The user record a sign-up returns, reduced to what the form reads. */
  datatype NewUser = NewUser(emailConfirmed: bool)

  /** How the provider call (`signUp` or `signInWithPassword`) ends: with
      data (for a sign-up, possibly a user), or by throwing. */
  datatype AuthReply = Succeeded(user: Option<NewUser>) | Threw(thrown: Thrown)

  /** The message the form shows after a provider call that returned
      `reply`. */
  function ReplyMessage(isSignUp: bool, reply: AuthReply): Option<string> {
    match reply
    case Threw(thrown) => Some(FriendlyError(ErrorText(thrown)))
    case Succeeded(user) =>
      if isSignUp && user.Some? && !user.value.emailConfirmed then Some(AccountCreated) else None
  }

  /** The component's state fields. */
  class LoginForm {
    var loading: bool
    var error: Option<string>
    var isSignUp: bool
    var email: string
    var password: string
    var confirmPassword: string

    constructor()
      ensures !loading && error == None && !isSignUp
      ensures email == "" && password == "" && confirmPassword == ""
    {
      loading, error, isSignUp := false, None, false;
      email, password, confirmPassword := "", "", "";
    }

    /** `handleEmailAuth`. `reply` stands for how the provider call ends;
        `called` says whether the provider was called at all. */
    method HandleEmailAuth(reply: AuthReply) returns (called: bool)
      modifies this
      ensures isSignUp == old(isSignUp) && email == old(email)
      ensures password == old(password) && confirmPassword == old(confirmPassword)
      ensures old(isSignUp) && old(password) != old(confirmPassword) ==>
        !called && error == Some(PasswordsDiffer) && loading == old(loading)
      ensures !(old(isSignUp) && old(password) != old(confirmPassword)) ==>
        called && !loading && error == ReplyMessage(old(isSignUp), reply)
    {
      if isSignUp && password != confirmPassword {
        error := Some(PasswordsDiffer);
        return false;
      }
      loading := true;
      error := None;
      called := true;
      match reply {
        case Threw(thrown) =>
          var message := ErrorText(thrown);
          error := Some(FriendlyError(message));
        case Succeeded(user) =>
          if isSignUp && user.Some? && !user.value.emailConfirmed {
            error := Some(AccountCreated);
          }
      }
      loading := false;
    }
  }
}
