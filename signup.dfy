/**
 * The `Signup` component: four text fields, an `error` message and a `loading`
 * flag. Submitting first checks that every field is filled in, then that the
 * password equals its confirmation, then sets `loading` and schedules a
 * completion that clears `loading` and `error` later. The submit button is
 * disabled while `loading` holds, so a click then does nothing.
 */
module Signup {
  import opened Wrappers

  const AllFieldsRequired: string := "All fields are required"
  const PasswordsDontMatch: string := "Passwords don't match"

  /**
   * The two checks of `handleSubmit`, in order: a missing field (only the empty
   * string is falsy), then `password !== confirmPassword`, an exact comparison.
   */
  function Validate(fullname: string, email: string, password: string, confirmPassword: string): (err: Option<string>)
    ensures err == Some(AllFieldsRequired)
        <==> fullname == "" || email == "" || password == "" || confirmPassword == ""
    ensures err == Some(PasswordsDontMatch)
        <==> fullname != "" && email != "" && password != "" && confirmPassword != "" && password != confirmPassword
    ensures err == None
        <==> fullname != "" && email != "" && password != "" && confirmPassword != "" && password == confirmPassword
  {
    if fullname == "" || email == "" || password == "" || confirmPassword == "" then Some(AllFieldsRequired)
    else if password != confirmPassword then Some(PasswordsDontMatch)
    else None
  }

  datatype SignupState = SignupState(
    fullname: string,
    email: string,
    password: string,
    confirmPassword: string,
    error: string,
    loading: bool,
    /** Completions scheduled with `setTimeout` that have not fired yet. */
    pendingCompletions: nat)

  function Initial(): (s: SignupState)
    ensures s.fullname == "" && s.email == "" && s.password == "" && s.confirmPassword == ""
    ensures s.error == "" && !s.loading && s.pendingCompletions == 0
  {
    SignupState("", "", "", "", "", false, 0)
  }

  /** A completion is pending exactly while the form is loading, and there is at most one. */
  predicate Valid(s: SignupState) {
    s.pendingCompletions == if s.loading then 1 else 0
  }

  datatype Field = FullName | EmailAddress | Password | ConfirmPassword

  /** The `onChange` of one input: only that field changes. */
  function Edit(s: SignupState, field: Field, value: string): (r: SignupState)
    ensures field == FullName ==> r == s.(fullname := value)
    ensures field == EmailAddress ==> r == s.(email := value)
    ensures field == Password ==> r == s.(password := value)
    ensures field == ConfirmPassword ==> r == s.(confirmPassword := value)
  {
    match field
    case FullName => s.(fullname := value)
    case EmailAddress => s.(email := value)
    case Password => s.(password := value)
    case ConfirmPassword => s.(confirmPassword := value)
  }

  /**
   * A submission. While loading the button is disabled and nothing happens. A
   * failed check sets its message and stops without setting `loading`; otherwise
   * `loading` is set and one completion is scheduled.
   */
  function Submit(s: SignupState): (r: SignupState)
    ensures s.loading ==> r == s
    ensures !s.loading && Validate(s.fullname, s.email, s.password, s.confirmPassword).Some? ==>
      r == s.(error := Validate(s.fullname, s.email, s.password, s.confirmPassword).value)
    ensures !s.loading && Validate(s.fullname, s.email, s.password, s.confirmPassword).None? ==>
      r.loading && r.error == s.error && r.pendingCompletions == s.pendingCompletions + 1
      && r.(loading := s.loading, pendingCompletions := s.pendingCompletions) == s
  {
    if s.loading then s
    else
      match Validate(s.fullname, s.email, s.password, s.confirmPassword)
      case Some(message) => s.(error := message)
      case None => s.(loading := true, pendingCompletions := s.pendingCompletions + 1)
  }

  /** The `setTimeout` callback: `loading` becomes false and `error` becomes empty. */
  function Complete(s: SignupState): (r: SignupState)
    requires s.pendingCompletions > 0
    ensures !r.loading && r.error == "" && r.pendingCompletions + 1 == s.pendingCompletions
    ensures r.(loading := s.loading, error := s.error, pendingCompletions := s.pendingCompletions) == s
  {
    s.(loading := false, error := "", pendingCompletions := s.pendingCompletions - 1)
  }

  datatype Event = Change(field: Field, value: string) | SubmitClick | Completion

  predicate Enabled(s: SignupState, e: Event) {
    e.Completion? ==> s.pendingCompletions > 0
  }

  function Step(s: SignupState, e: Event): SignupState
    requires Enabled(s, e)
  {
    match e
    case Change(f, v) => Edit(s, f, v)
    case SubmitClick => Submit(s)
    case Completion => Complete(s)
  }

  predicate Feasible(s: SignupState, es: seq<Event>)
    decreases |es|
  {
    es == [] || (Enabled(s, es[0]) && Feasible(Step(s, es[0]), es[1..]))
  }

  function Run(s: SignupState, es: seq<Event>): SignupState
    requires Feasible(s, es)
    decreases |es|
  {
    if es == [] then s else Run(Step(s, es[0]), es[1..])
  }

  /** No double submit: whatever the user does, at most one completion is ever pending. */
  lemma {:induction false} RunKeepsOneSubmission(s: SignupState, es: seq<Event>)
    requires Valid(s) && Feasible(s, es)
    ensures Valid(Run(s, es)) && Run(s, es).pendingCompletions <= 1
    decreases |es|
  {
    if es != [] {
      var t := Step(s, es[0]);
      assert Valid(t);
      RunKeepsOneSubmission(t, es[1..]);
    }
  }

  /** The required check comes first: an empty confirmation never yields the mismatch error. */
  lemma EmptyConfirmationIsMissingField(fullname: string, email: string, password: string)
    ensures Validate(fullname, email, password, "") == Some(AllFieldsRequired)
  {
  }

  /**
   * No trimming and no case folding: fields of spaces pass the required check, and
   * a confirmation differing only in case or in a trailing space is a mismatch.
   */
  lemma ExactComparison()
    ensures Validate(" ", " ", " ", " ") == None
    ensures Validate("a", "b", "Secret", "secret") == Some(PasswordsDontMatch)
    ensures Validate("a", "b", "secret", "secret ") == Some(PasswordsDontMatch)
  {
    assert "Secret"[0] != "secret"[0];
    assert |"secret"| != |"secret "|;
  }

  /** A valid submission followed by its completion ends with `loading` false and no error. */
  lemma SubmitThenComplete(s: SignupState)
    requires Valid(s) && !s.loading
    requires Validate(s.fullname, s.email, s.password, s.confirmPassword) == None
    ensures Submit(s).loading && Valid(Submit(s))
    ensures !Complete(Submit(s)).loading && Complete(Submit(s)).error == "" && Valid(Complete(Submit(s)))
  {
  }

  class SignupForm {
    var fullname: string
    var email: string
    var password: string
    var confirmPassword: string
    var error: string
    var loading: bool
    var pendingCompletions: nat

    function State(): SignupState
      reads this
    {
      SignupState(fullname, email, password, confirmPassword, error, loading, pendingCompletions)
    }

    constructor ()
      ensures Valid(State()) && State() == Initial()
    {
      fullname, email, password, confirmPassword := "", "", "", "";
      error, loading, pendingCompletions := "", false, 0;
    }

    /** The `onChange` handlers of the four inputs. */
    method SetField(field: Field, value: string)
      requires Valid(State())
      modifies this
      ensures Valid(State()) && State() == Edit(old(State()), field, value)
    {
      match field
      case FullName => fullname := value;
      case EmailAddress => email := value;
      case Password => password := value;
      case ConfirmPassword => confirmPassword := value;
    }

    /** A call of `handleSubmit`; the submit button is disabled while loading. */
    method HandleSubmit()
      requires Valid(State())
      modifies this
      ensures Valid(State()) && State() == Submit(old(State()))
    {
      if loading {
        return;  // disabled={loading}
      }
      if fullname == "" || email == "" || password == "" || confirmPassword == "" {
        error := AllFieldsRequired;
        return;
      }
      if password != confirmPassword {
        error := PasswordsDontMatch;
        return;
      }
      loading := true;
      pendingCompletions := pendingCompletions + 1;  // setTimeout(..., 2000)
    }

    /** The deferred completion. */
    method FireCompletion()
      requires Valid(State()) && pendingCompletions > 0
      modifies this
      ensures Valid(State()) && State() == Complete(old(State()))
    {
      loading := false;
      error := "";
      pendingCompletions := pendingCompletions - 1;
    }
  }
}
