/**
 * The `LoginForm` component: two text fields, an `error` message and a `loading`
 * flag. Submitting checks that both fields are filled in, then sets `loading` and
 * schedules a completion that clears `loading` and `error` later. The submit
 * button is disabled while `loading` holds, so a click then does nothing.
 */
module Login {
  import opened Wrappers

  const BothFieldsRequired: string := "Both fields are required"

  /**
   * The check of `handleSubmit`: `!email || !password`. Only the empty string is
   * falsy, so a field of spaces passes.
   */
  function Validate(email: string, password: string): (err: Option<string>)
    ensures err == None <==> email != "" && password != ""
    ensures err != None ==> err.value == BothFieldsRequired
  {
    if email == "" || password == "" then Some(BothFieldsRequired) else None
  }

  datatype LoginState = LoginState(
    email: string,
    password: string,
    error: string,
    loading: bool,
    /** Completions scheduled with `setTimeout` that have not fired yet. */
    pendingCompletions: nat)

  function Initial(): (s: LoginState)
    ensures s.email == "" && s.password == "" && s.error == "" && !s.loading && s.pendingCompletions == 0
  {
    LoginState("", "", "", false, 0)
  }

  /** A completion is pending exactly while the form is loading, and there is at most one. */
  predicate Valid(s: LoginState) {
    s.pendingCompletions == if s.loading then 1 else 0
  }

  /** The email input's `onChange`. */
  function EditEmail(s: LoginState, value: string): (r: LoginState)
    ensures r.email == value && r.(email := s.email) == s
  {
    s.(email := value)
  }

  /** The password input's `onChange`. */
  function EditPassword(s: LoginState, value: string): (r: LoginState)
    ensures r.password == value && r.(password := s.password) == s
  {
    s.(password := value)
  }

  /**
   * A submission. While loading the button is disabled and nothing happens. A
   * missing field sets the error and stops; otherwise `loading` is set and one
   * completion is scheduled, and the previous error stays shown until it fires.
   */
  function Submit(s: LoginState): (r: LoginState)
    ensures s.loading ==> r == s
    ensures !s.loading && (s.email == "" || s.password == "") ==>
      r == s.(error := BothFieldsRequired)
    ensures !s.loading && s.email != "" && s.password != "" ==>
      r.loading && r.error == s.error && r.pendingCompletions == s.pendingCompletions + 1
      && r.(loading := s.loading, pendingCompletions := s.pendingCompletions) == s
  {
    if s.loading then s
    else
      match Validate(s.email, s.password)
      case Some(message) => s.(error := message)
      case None => s.(loading := true, pendingCompletions := s.pendingCompletions + 1)
  }

  /** The `setTimeout` callback: `loading` becomes false and `error` becomes empty. */
  function Complete(s: LoginState): (r: LoginState)
    requires s.pendingCompletions > 0
    ensures !r.loading && r.error == "" && r.pendingCompletions + 1 == s.pendingCompletions
    ensures r.email == s.email && r.password == s.password
  {
    s.(loading := false, error := "", pendingCompletions := s.pendingCompletions - 1)
  }

  datatype Event = Email(value: string) | Password(value: string) | SubmitClick | Completion

  predicate Enabled(s: LoginState, e: Event) {
    e.Completion? ==> s.pendingCompletions > 0
  }

  function Step(s: LoginState, e: Event): LoginState
    requires Enabled(s, e)
  {
    match e
    case Email(v) => EditEmail(s, v)
    case Password(v) => EditPassword(s, v)
    case SubmitClick => Submit(s)
    case Completion => Complete(s)
  }

  predicate Feasible(s: LoginState, es: seq<Event>)
    decreases |es|
  {
    es == [] || (Enabled(s, es[0]) && Feasible(Step(s, es[0]), es[1..]))
  }

  function Run(s: LoginState, es: seq<Event>): LoginState
    requires Feasible(s, es)
    decreases |es|
  {
    if es == [] then s else Run(Step(s, es[0]), es[1..])
  }

  /** No double submit: whatever the user does, at most one completion is ever pending. */
  lemma {:induction false} RunKeepsOneSubmission(s: LoginState, es: seq<Event>)
    requires Valid(s) && Feasible(s, es)
    ensures Valid(Run(s, es)) && Run(s, es).pendingCompletions <= 1
    decreases |es|
  {
    if es != [] {
      var t := Step(s, es[0]);
      assert Valid(t);
      RunKeepsOneSubmission(t, es[1..]);
    }
  }

  /** A valid submission followed by its completion ends with `loading` false and no error. */
  lemma SubmitThenComplete(s: LoginState)
    requires Valid(s) && !s.loading && s.email != "" && s.password != ""
    ensures Submit(s).loading && Submit(s).error == s.error
    ensures Valid(Submit(s)) && !Complete(Submit(s)).loading && Complete(Submit(s)).error == ""
    ensures Valid(Complete(Submit(s)))
  {
  }

  class LoginForm {
    var email: string
    var password: string
    var error: string
    var loading: bool
    var pendingCompletions: nat

    function State(): LoginState
      reads this
    {
      LoginState(email, password, error, loading, pendingCompletions)
    }

    constructor ()
      ensures Valid(State()) && State() == Initial()
    {
      email, password, error, loading, pendingCompletions := "", "", "", false, 0;
    }

    method SetEmail(value: string)
      requires Valid(State())
      modifies this
      ensures Valid(State()) && State() == EditEmail(old(State()), value)
    {
      email := value;
    }

    method SetPassword(value: string)
      requires Valid(State())
      modifies this
      ensures Valid(State()) && State() == EditPassword(old(State()), value)
    {
      password := value;
    }

    /** A call of `handleSubmit`; the submit button is disabled while loading. */
    method HandleSubmit()
      requires Valid(State())
      modifies this
      ensures Valid(State()) && State() == Submit(old(State()))
    {
      if loading {
        return;  // disabled={loading}
      }
      if email == "" || password == "" {
        error := BothFieldsRequired;
        return;
      }
      loading := true;
      pendingCompletions := pendingCompletions + 1;  // setTimeout(..., 2000)
    }

    /** The deferred completion. */
    method FireCompletion()
      requires Valid(State()) && pendingCompletions > 0
      modifies this
      ensures Valid(State()) && State() == Complete(old(State()))
    {
      loading := false;
      error := "";
      pendingCompletions := pendingCompletions - 1;
    }
  }
}
