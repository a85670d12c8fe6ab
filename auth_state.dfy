/** The authentication record (`AuthState` and the `AuthContext` dataclass). */
module Auth {
  import opened Wrappers

  /** The states of one login attempt; `SandboxLogin` is declared but never entered. */
  datatype AuthState = Initial | SandboxLogin | WaitingForConfig | OAuthFlow | Completed | Error

  /** The four fields of an `AuthContext`, as a value. */
  datatype Snapshot = Snapshot(
    state: AuthState,
    environment: string,
    instanceUrl: Option<string>,
    errorMessage: Option<string>)

  /** What `update_state(s, e)` makes of a context. */
  function Updated(c: Snapshot, s: AuthState, e: Option<string>): Snapshot {
    c.(state := s, errorMessage := e)
  }

  /** Applying the same update twice gives the record that applying it once does. */
  lemma UpdateIdempotent(c: Snapshot, s: AuthState, e: Option<string>)
    ensures Updated(Updated(c, s, e), s, e) == Updated(c, s, e)
  {
  }

  /** Of two updates in a row only the second is visible: nothing accumulates. */
  lemma LastUpdateWins(c: Snapshot, s1: AuthState, e1: Option<string>, s2: AuthState, e2: Option<string>)
    ensures Updated(Updated(c, s1, e1), s2, e2) == Updated(c, s2, e2)
  {
  }

  class AuthContext {
    var state: AuthState
    var environment: string
    var instanceUrl: Option<string>
    var errorMessage: Option<string>
    /** The states this context has been in, oldest first. */
    ghost var trace: seq<AuthState>

    /** `AuthContext()`: the dataclass defaults. */
    constructor ()
      ensures Value() == Snapshot(Initial, "sandbox", None, None)
      ensures trace == [Initial]
    {
      state := Initial;
      environment := "sandbox";
      instanceUrl := None;
      errorMessage := None;
      trace := [Initial];
    }

    function Value(): Snapshot
      reads this
    {
      Snapshot(state, environment, instanceUrl, errorMessage)
    }

    /**
     * Sets the state and the error message; calling it without an error
     * clears any earlier message. Environment and instance URL stay as they are.
     */
    method UpdateState(newState: AuthState, error: Option<string>)
      modifies this
      ensures state == newState && errorMessage == error
      ensures environment == old(environment) && instanceUrl == old(instanceUrl)
      ensures Value() == Updated(old(Value()), newState, error)
      ensures trace == old(trace) + [newState]
    {
      state := newState;
      errorMessage := error;
      trace := trace + [newState];
    }
  }
}
