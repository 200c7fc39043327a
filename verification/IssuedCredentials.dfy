/** The lifecycle of an issued credential and its public slot value. */
module IssuedCredentials {
  import opened Wrappers
  import StatusBits

  datatype CredentialState = Active | Suspended | Revoked

  /** The management verbs on an issued credential. */
  datatype Verb = Suspend | Unsuspend | Revoke

  datatype DomainError = StateTransitionNotAllowed

  /** The documented transitions: Active and Suspended swap freely, both lead to
      Revoked, and nothing leaves Revoked. */
  predicate LegalTransition(before: CredentialState, after: CredentialState) {
    before != CredentialState.Revoked && before != after
  }

  predicate Permits(verb: Verb, state: CredentialState) {
    match verb
    case Suspend => state == CredentialState.Active
    case Unsuspend => state == CredentialState.Suspended
    case Revoke => state == CredentialState.Active || state == CredentialState.Suspended
  }

  function Target(verb: Verb): CredentialState {
    match verb
    case Suspend => CredentialState.Suspended
    case Unsuspend => CredentialState.Active
    case Revoke => CredentialState.Revoked
  }

  /** The slot value each handler passes along with its verb. */
  function HandlerBit(verb: Verb): StatusBits.StatusValue {
    match verb
    case Suspend => StatusBits.StatusValue.Suspended
    case Unsuspend => StatusBits.StatusValue.Valid
    case Revoke => StatusBits.StatusValue.Revoked
  }

  /** What a verifier must read for a credential in `state`. */
  function PublicStatus(state: CredentialState): StatusBits.StatusValue {
    match state
    case Active => StatusBits.StatusValue.Valid
    case Suspended => StatusBits.StatusValue.Suspended
    case Revoked => StatusBits.StatusValue.Revoked
  }

  /** A verb is accepted exactly where its target is a legal next state, and the
      bit its handler passes is the public status of that target. */
  lemma VerbsRealiseTheTransitions(verb: Verb, state: CredentialState)
    ensures Permits(verb, state) <==> LegalTransition(state, Target(verb))
    ensures HandlerBit(verb) == PublicStatus(Target(verb))
  {
  }

  class IssuedCredential {
    var state: CredentialState

    constructor ()
      ensures state == CredentialState.Active
    {
      state := CredentialState.Active;
    }

    constructor Load(stored: CredentialState)
      ensures state == stored
    {
      state := stored;
    }

    method TrySuspend() returns (r: Result<(), DomainError>)
      modifies this
      ensures r.Ok? <==> Permits(Suspend, old(state))
      ensures state == if r.Ok? then Target(Suspend) else old(state)
      ensures r.Ok? <==> old(state) == CredentialState.Active
      ensures r.Ok? ==> state == CredentialState.Suspended
    {
      match state
      case Active =>
        state := CredentialState.Suspended;
        r := Ok(());
      case _ => r := Err(StateTransitionNotAllowed);
    }

    method TryUnsuspend() returns (r: Result<(), DomainError>)
      modifies this
      ensures r.Ok? <==> Permits(Unsuspend, old(state))
      ensures state == if r.Ok? then Target(Unsuspend) else old(state)
      ensures r.Ok? <==> old(state) == CredentialState.Suspended
      ensures r.Ok? ==> state == CredentialState.Active
    {
      match state
      case Suspended =>
        state := CredentialState.Active;
        r := Ok(());
      case _ => r := Err(StateTransitionNotAllowed);
    }

    method TryRevoke() returns (r: Result<(), DomainError>)
      modifies this
      ensures r.Ok? <==> Permits(Revoke, old(state))
      ensures state == if r.Ok? then Target(Revoke) else old(state)
      ensures r.Ok? <==> old(state) == CredentialState.Active || old(state) == CredentialState.Suspended
      ensures r.Ok? ==> state == CredentialState.Revoked
    {
      match state
      case Active =>
        state := CredentialState.Revoked;
        r := Ok(());
      case Suspended =>
        state := CredentialState.Revoked;
        r := Ok(());
      case Revoked => r := Err(StateTransitionNotAllowed);
    }
  }
}
