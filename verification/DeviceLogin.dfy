/** The device-code login: one request, decided in a browser and polled by a client. Times are in microseconds. */
module DeviceLogin {
  import opened Numbers
  import opened Text

  const SECOND := 1_000_000

  /** Settings in seconds; `lag` bounds, in microseconds, how long after its expiry check an exchange reads the clock
      again. */
  datatype Settings = Settings(lifetime: nat, interval: nat, lag: nat)

  predicate ValidSettings(cfg: Settings) { 1 <= cfg.interval <= cfg.lifetime }

  datatype Status = Pending | Approved | Denied | Consumed

  /** The authorization row. `polls` and `minted` keep the history: every recorded poll, and every token with the moment
      of
      its expiry check. */
  datatype Login = Login(status: Status, createdAt: int, expiresAt: int, lastPolled: Option<int>, polls: seq<int>, minted: seq<int>, clock: int)

  datatype Answer =
    | Token
    | Waiting
    | TooFast(seconds: int)
    | Refused
    | Used
    | Expired
    | Invalid
    | NotAvailable
    | Unauthorized

  function Started(cfg: Settings, now: int): Login { Login(Pending, now, now + cfg.lifetime * SECOND, None, [], [], now) }

  /** What an exchange meets: two clock readings, whether the secret matches, whether the approver is still active and
      whether the approved dataset is still visible. */
  datatype Attempt = Attempt(checked: int, now: int, genuine: bool, active: bool, visible: bool)

  datatype Step = Decide(now: int, approve: bool, datasetVisible: bool) | Exchange(attempt: Attempt)

  datatype Outcome = Outcome(login: Login, answer: Answer)

  /** `decide_device_authorization`. */
  function Decided(s: Login, now: int, approve: bool, datasetVisible: bool): Outcome
  {
    var t := s.(clock := now);
    if s.status != Pending || s.expiresAt <= now then Outcome(t, NotAvailable)
    else if !approve then Outcome(t.(status := Denied), Refused)
    else if !datasetVisible then Outcome(t, Invalid)
    else Outcome(t.(status := Approved), Waiting)
  }

  /** The seconds a client that polls too soon is told to wait. */
  function AdvisedWait(cfg: Settings, elapsed: int): int
  {
    var wait := (cfg.interval * SECOND - elapsed) / SECOND;
    if wait > 1 then wait else 1
  }

  /** `_record_device_poll`. */
  function Polled(cfg: Settings, s: Login, now: int): Outcome
  {
    if s.lastPolled.Some? && now - s.lastPolled.value < cfg.interval * SECOND then Outcome(s, TooFast(AdvisedWait(cfg, now - s.lastPolled.value)))
    else Outcome(s.(lastPolled := Some(now), polls := s.polls + [now]), Waiting)
  }

  /** `exchange_device_code`. */
  function Exchanged(cfg: Settings, s: Login, a: Attempt): Outcome
  {
    var t := s.(clock := a.now);
    if !a.genuine then Outcome(t, Invalid)
    else if s.expiresAt <= a.checked then Outcome(t, Expired)
    else
      match s.status
      case Denied => Outcome(t, Refused)
      case Consumed => Outcome(t, Used)
      case Pending => Polled(cfg, t, a.now)
      case Approved =>
        if !a.active then Outcome(t, Refused)
        else if !a.visible then Outcome(t, Unauthorized)
        else Outcome(t.(status := Consumed, minted := s.minted + [a.checked]), Token)
  }

  function Apply(cfg: Settings, s: Login, step: Step): Login
  {
    match step
    case Decide(now, approve, datasetVisible) => Decided(s, now, approve, datasetVisible).login
    case Exchange(a) => Exchanged(cfg, s, a).login
  }

  /** Time moves forward, and the second reading of an exchange comes soon after the first. */
  predicate Enabled(cfg: Settings, s: Login, step: Step)
  {
    match step
    case Decide(now, _, _) => s.clock <= now
    case Exchange(a) => s.clock <= a.checked <= a.now <= a.checked + cfg.lag
  }

  // ---- the row as code -----------------------------------------------------------------------

  class DeviceAuthorization {
    var status: Status
    var createdAt: int
    var expiresAt: int
    var lastPolled: Option<int>
    ghost var polls: seq<int>
    ghost var minted: seq<int>
    ghost var clock: int

    ghost function View(): Login
      reads this
    {
      Login(status, createdAt, expiresAt, lastPolled, polls, minted, clock)
    }

    constructor (cfg: Settings, now: int)
      ensures View() == Started(cfg, now)
    {
      status, createdAt, expiresAt, lastPolled := Pending, now, now + cfg.lifetime * SECOND, None;
      polls, minted, clock := [], [], now;
    }

    /** `decide_device_authorization`. */
    method Decide(now: int, approve: bool, datasetVisible: bool) returns (answer: Answer)
      modifies this
      ensures Outcome(View(), answer) == Decided(old(View()), now, approve, datasetVisible)
      ensures status != old(status) ==>
                old(status) == Pending && now < expiresAt && status == if approve then Approved else Denied
      ensures status == Approved && old(status) != Approved <==> answer == Waiting
    {
      clock := now;
      if status != Pending || expiresAt <= now {
        return NotAvailable;
      }
      if !approve {
        status := Denied;
        return Refused;
      }
      if !datasetVisible {
        return Invalid;
      }
      status := Approved;
      return Waiting;
    }

    /** `_record_device_poll`. */
    method RecordPoll(cfg: Settings, now: int) returns (answer: Answer)
      modifies this
      ensures Outcome(View(), answer) == Polled(cfg, old(View()), now)
      ensures answer == Waiting <==> old(lastPolled).None? || now >= old(lastPolled).value + cfg.interval * SECOND
      ensures polls == if answer == Waiting then old(polls) + [now] else old(polls)
    {
      if lastPolled.Some? {
        var elapsed := now - lastPolled.value;
        if elapsed < cfg.interval * SECOND {
          return TooFast(AdvisedWait(cfg, elapsed));
        }
      }
      lastPolled := Some(now);
      polls := polls + [now];
      return Waiting;
    }

    /** `exchange_device_code`. */
    method Exchange(cfg: Settings, a: Attempt) returns (answer: Answer)
      modifies this
      ensures Outcome(View(), answer) == Exchanged(cfg, old(View()), a)
      ensures answer == Token <==>
                a.genuine && a.checked < expiresAt && old(status) == Approved && a.active && a.visible
      ensures status == if answer == Token then Consumed else old(status)
      ensures |minted| == |old(minted)| + if answer == Token then 1 else 0
    {
      clock := a.now;
      if !a.genuine {
        return Invalid;
      }
      if expiresAt <= a.checked {
        return Expired;
      }
      if status == Denied {
        return Refused;
      }
      if status == Consumed {
        return Used;
      }
      if status == Pending {
        answer := RecordPoll(cfg, a.now);
        return;
      }
      if !a.active {
        return Refused;
      }
      if !a.visible {
        return Unauthorized;
      }
      minted := minted + [a.checked];
      status := Consumed;
      return Token;
    }
  }

  // ---- runs ----------------------------------------------------------------------------------------

  ghost predicate IsRun(cfg: Settings, steps: seq<Step>, states: seq<Login>)
  {
    |states| == |steps| + 1
    && forall i :: 0 <= i < |steps| ==>
         Enabled(cfg, states[i], steps[i]) && states[i + 1] == Apply(cfg, states[i], steps[i])
  }

  /** Polls lie at least an interval apart and, but for a lag in the last one, before expiry; a token was minted exactly
      if
      the code is consumed, once, and before expiry. */
  ghost predicate Sound(cfg: Settings, s: Login)
  {
    && s.expiresAt == s.createdAt + cfg.lifetime * SECOND && s.createdAt <= s.clock
    && (s.lastPolled == if s.polls == [] then None else Some(s.polls[|s.polls| - 1]))
    && (forall i :: 0 <= i < |s.polls| ==> s.createdAt <= s.polls[i] < s.expiresAt + cfg.lag)
    && (forall i :: 0 <= i < |s.polls| - 1 ==> s.polls[i] + cfg.interval * SECOND <= s.polls[i + 1])
    && (if s.status == Consumed then |s.minted| == 1 else s.minted == [])
    && (forall i :: 0 <= i < |s.minted| ==> s.createdAt <= s.minted[i] < s.expiresAt)
  }

  lemma PollSound(cfg: Settings, s: Login, now: int)
    requires Sound(cfg, s) && s.clock <= now < s.expiresAt + cfg.lag
    ensures Sound(cfg, Polled(cfg, s.(clock := now), now).login)
  {
  }

  lemma StepSound(cfg: Settings, s: Login, step: Step)
    requires Sound(cfg, s) && Enabled(cfg, s, step)
    ensures Sound(cfg, Apply(cfg, s, step))
  {
    hide Polled;
    if step.Exchange? && s.status == Pending && step.attempt.genuine && step.attempt.checked < s.expiresAt {
      PollSound(cfg, s, step.attempt.now);
    }
  }

  lemma {:induction false} RunSound(cfg: Settings, start: int, steps: seq<Step>, states: seq<Login>, i: nat)
    requires IsRun(cfg, steps, states) && states[0] == Started(cfg, start) && i < |states|
    ensures Sound(cfg, states[i])
  {
    hide Sound, Enabled, Apply;
    if i > 0 {
      RunSound(cfg, start, steps, states, i - 1);
      StepSound(cfg, states[i - 1], steps[i - 1]);
    } else {
      StartedSound(cfg, start);
    }
  }

  lemma StartedSound(cfg: Settings, start: int)
    ensures Sound(cfg, Started(cfg, start))
  {
  }

  /** Each authorization mints at most one token, and that before it expires. */
  lemma AtMostOneToken(cfg: Settings, start: int, steps: seq<Step>, states: seq<Login>, i: nat)
    requires IsRun(cfg, steps, states) && states[0] == Started(cfg, start) && i < |states|
    ensures |states[i].minted| <= 1 && forall k :: 0 <= k < |states[i].minted| ==>
              states[i].minted[k] < states[i].expiresAt
  {
    RunSound(cfg, start, steps, states, i);
  }

  predicate Settled(status: Status) { status == Denied || status == Consumed }

  /** Denied and consumed are final; nothing is polled or minted after them. */
  lemma {:induction false} SettledIsFinal(cfg: Settings, steps: seq<Step>, states: seq<Login>, i: nat, j: nat)
    requires IsRun(cfg, steps, states) && i <= j < |states| && Settled(states[i].status)
    ensures states[j].status == states[i].status && states[j].minted == states[i].minted
    ensures states[j].polls == states[i].polls
    decreases j
  {
    if i < j {
      SettledIsFinal(cfg, steps, states, i, j - 1);
    }
  }

  predicate Approves(s: Login, step: Step) { step.Decide? && step.approve && step.datasetVisible && s.status == Pending && step.now < s.expiresAt }

  /** A token is minted only after a browser approved the pending request in time. */
  lemma {:induction false} MintedOnlyAfterApproval(cfg: Settings, start: int, steps: seq<Step>, states: seq<Login>,
        i: nat)
    requires IsRun(cfg, steps, states) && states[0] == Started(cfg, start) && i < |states|
    requires states[i].status == Approved || states[i].minted != []
    ensures exists k :: 0 <= k < i && Approves(states[k], steps[k])
  {
    assert i > 0;
    var s, step := states[i - 1], steps[i - 1];
    assert states[i] == Apply(cfg, s, step);
    if s.status == Approved || s.minted != [] {
      MintedOnlyAfterApproval(cfg, start, steps, states, i - 1);
    } else {
      assert Approves(s, step);
    }
  }

  lemma {:induction false} Spacing(cfg: Settings, polls: seq<int>, k: nat)
    requires k < |polls| && forall i :: 0 <= i < |polls| - 1 ==> polls[i] + cfg.interval * SECOND <= polls[i + 1]
    ensures polls[0] + k * (cfg.interval * SECOND) <= polls[k]
  {
    if k > 0 {
      Spacing(cfg, polls, k - 1);
      assert k * (cfg.interval * SECOND) == (k - 1) * (cfg.interval * SECOND) + cfg.interval * SECOND;
    }
  }

  /** Recorded polls are at least the interval apart, so there are at most as many as fit the lifetime, and without a
      lag
      at most lifetime / interval + 1. */
  lemma PollsAreBounded(cfg: Settings, start: int, steps: seq<Step>, states: seq<Login>, i: nat)
    requires ValidSettings(cfg) && IsRun(cfg, steps, states) && states[0] == Started(cfg, start) && i < |states|
    ensures forall k ::
              0 <= k < |states[i].polls| - 1 ==> states[i].polls[k + 1] - states[i].polls[k] >= cfg.interval * SECOND
    ensures |states[i].polls| <= (cfg.lifetime * SECOND + cfg.lag - 1) / (cfg.interval * SECOND) + 1
    ensures cfg.lag == 0 ==> |states[i].polls| <= cfg.lifetime / cfg.interval + 1
  {
    RunSound(cfg, start, steps, states, i);
    var polls := states[i].polls;
    if polls != [] {
      Spacing(cfg, polls, |polls| - 1);
      QuotientIsLargest(|polls| - 1, cfg.lifetime * SECOND + cfg.lag - 1, cfg.interval * SECOND);
      if cfg.lag == 0 {
        WholeIntervals(|polls| - 1, cfg.interval, cfg.lifetime);
        QuotientIsLargest(|polls| - 1, cfg.lifetime, cfg.interval);
      }
    }
  }

  lemma WholeIntervals(k: nat, interval: nat, lifetime: nat)
    requires k * (interval * SECOND) <= lifetime * SECOND
    ensures k * interval <= lifetime
  {
    assert k * (interval * SECOND) == (k * interval) * SECOND;
  }

  // ---- the advised wait -------------------------------------------------------------------------------

  /** A client that waits as told is let through exactly when the time that remained was a whole number of seconds or at
      most one: the advice is rounded down. */
  lemma AdviceSufficesExactlyWhen(cfg: Settings, elapsed: int)
    requires 0 <= elapsed < cfg.interval * SECOND
    ensures var remaining := cfg.interval * SECOND - elapsed;
            elapsed + AdvisedWait(cfg, elapsed) * SECOND >= cfg.interval * SECOND <==>
              remaining <= SECOND || remaining % SECOND == 0
  {
    var remaining := cfg.interval * SECOND - elapsed;
    assert remaining == (remaining / SECOND) * SECOND + remaining % SECOND;
  }

  /** Polled three and a half seconds after the last poll of a five-second interval, a client is told to wait one
      second,
      and is then refused again. */
  lemma AdviceCanBeTooShort()
    ensures var cfg := Settings(600, 5, 0); AdvisedWait(cfg, 3_500_000) == 1 && 3_500_000 + SECOND < cfg.interval * SECOND
  {
  }
}
