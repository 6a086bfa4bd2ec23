/** Sandbox records and the questions the lifecycle asks of them
    (internal/gateway/types.go, internal/gateway/gateway_callbacks.go). */
module SandboxRecords {
  import opened Wrappers

  /** Nanoseconds since an arbitrary origin; 0 is the unset time. */
  type Time = nat

  const UNSET_TIME: Time := 0
  const SECOND: nat := 1_000_000_000
  const DEFAULT_TIMEOUT_SECONDS: nat := 15

  type Id = nat

  /** Blank is a name of nothing but white space. A runtime may report any other name, which is trimmed first. */
  datatype SandboxState = Blank | Running | Paused | OtherState(name: string)

  datatype TimeoutAction = Unspecified | KillOnTimeout | PauseOnTimeout | UnknownAction(name: string)
  {
    function Normalize(): Result<TimeoutAction, string> {
      match this
      case Unspecified => Success(KillOnTimeout)
      case KillOnTimeout => Success(KillOnTimeout)
      case PauseOnTimeout => Success(PauseOnTimeout)
      case UnknownAction(name) => Failure("unsupported sandbox timeout action")
    }

    predicate RetainsSandboxAfterTimeout() {
      Normalize() == Success(PauseOnTimeout)
    }
  }

  datatype Record = Record(state: SandboxState, createdAt: Time, endAt: Time, onTimeout: TimeoutAction)
  {
    function EffectiveEndAt(): Time {
      if endAt != UNSET_TIME then endAt else DefaultEndAt(createdAt)
    }

    /** A record no caller can use any more: running, past its deadline, and not kept by its policy. */
    predicate TerminallyExpired(now: Time) {
      Expired(now) && !onTimeout.RetainsSandboxAfterTimeout()
    }

    predicate Expired(now: Time) {
      state == Running && EffectiveEndAt() != UNSET_TIME && now >= EffectiveEndAt()
    }

    /** What every stored record satisfies: a deadline is set and the policy is one of the two known ones. */
    predicate Settled() {
      endAt != UNSET_TIME && (onTimeout == KillOnTimeout || onTimeout == PauseOnTimeout)
    }
  }

  function DefaultEndAt(start: Time): Time {
    start + DEFAULT_TIMEOUT_SECONDS * SECOND
  }

  function Later(a: Time, b: Time): Time {
    if a > b then a else b
  }

  /** A settled record is terminally expired exactly if it is running, is to be killed, and its deadline has come. */
  lemma TerminallyExpiredMeans(record: Record, now: Time)
    requires record.Settled()
    ensures record.TerminallyExpired(now) <==>
              record.state == Running && record.onTimeout == KillOnTimeout && record.endAt <= now
  {
  }

  /** Without a deadline the one that counts is fifteen seconds after creation; only a policy to pause retains the sandbox. */
  lemma TerminallyExpiredByDefault(record: Record, now: Time)
    requires record.endAt == UNSET_TIME
    ensures record.TerminallyExpired(now) <==>
              record.state == Running && record.onTimeout != PauseOnTimeout && record.createdAt + 15 * SECOND <= now
  {
  }

  /** Defaults filled in for a record found in the runtime at start-up. */
  function Enrich(record: Record, now: Time): (r: Result<Record, string>)
    requires now > UNSET_TIME
    ensures r.Success? ==> r.value.Settled() && r.value.state != Blank
    ensures r.Failure? <==> record.onTimeout.UnknownAction?
    ensures r.Success? ==>
              && r.value.createdAt == (if record.createdAt == UNSET_TIME then now else record.createdAt)
              && (record.endAt != UNSET_TIME ==> r.value.endAt == record.endAt)
              && (record.endAt == UNSET_TIME ==> r.value.endAt == DefaultEndAt(r.value.createdAt))
              && r.value.state == (if record.state == Blank then Running else record.state)
              && r.value.onTimeout == (if record.onTimeout.Unspecified? then KillOnTimeout else record.onTimeout)
  {
    var created := if record.createdAt == UNSET_TIME then now else record.createdAt;
    var end := if record.endAt == UNSET_TIME then DefaultEndAt(created) else record.endAt;
    var state := if record.state == Blank then Running else record.state;
    match record.onTimeout.Normalize()
    case Failure(e) => Failure(e)
    case Success(action) => Success(Record(state, created, end, action))
  }
}
