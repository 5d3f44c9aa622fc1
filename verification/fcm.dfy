/**
 * The push-token manager (src/shared/hooks/useFCM.ts): a readiness probe for the
 * messaging platform with a bounded-then-periodic retry schedule, and the gates
 * deciding when a push token is fetched and when it is sent to the backend.
 *
 * Timers are not real time: a probe that fails leaves the next timer it arms in
 * `pending`, as a delay and a kind. Firebase calls and the PATCH are oracle values.
 */
module Fcm {
  import opened Optional
  import JsText
  import Credentials
  import AuthStore

  const InitialDelayMs: nat := 5000
  const MaxRetries: nat := 10
  const RestartDelayMs: nat := 10000

  /** A probe timer, and the 10-second timer that first sets the retry counter back to 0. */
  datatype TimerKind = ProbeTimer | RestartTimer

  datatype Timer = Timer(delayMs: nat, kind: TimerKind)

  datatype Probe = Probe(ready: bool, retryCount: nat, pending: Option<Timer>)

  /** The delay after the `k`-th consecutive failure of a round: k seconds, capped at 5. */
  function BackoffMs(k: nat): (d: nat)
    ensures 1 <= k ==> 1000 <= d <= 5000
    ensures k <= 5 ==> d == k * 1000
    ensures 5 <= k ==> d == 5000
  {
    if k * 1000 < 5000 then k * 1000 else 5000
  }

  /** The hook mounts: the first probe runs five seconds later. */
  function Mount(): (p: Probe)
    ensures !p.ready && p.retryCount == 0 && p.pending == Some(Timer(InitialDelayMs, ProbeTimer))
  {
    Probe(false, 0, Some(Timer(InitialDelayMs, ProbeTimer)))
  }

  /** `checkFirebaseReady`: a success marks the platform ready and clears the counter; a
      failure counts and arms the next timer, a short one below the retry bound and the
      10-second restart timer on reaching it. */
  function CheckReady(p: Probe, available: bool): (q: Probe)
    ensures available ==> q.ready && q.retryCount == 0 && q.pending.None?
    ensures !available ==> q.ready == p.ready && q.retryCount == p.retryCount + 1 && q.pending.Some?
    ensures !available && p.retryCount + 1 < MaxRetries ==>
      q.pending == Some(Timer(BackoffMs(p.retryCount + 1), ProbeTimer))
    ensures !available && p.retryCount + 1 >= MaxRetries ==>
      q.pending == Some(Timer(RestartDelayMs, RestartTimer))
  {
    if available then Probe(true, 0, None)
    else
      var count := p.retryCount + 1;
      if count < MaxRetries then Probe(p.ready, count, Some(Timer(BackoffMs(count), ProbeTimer)))
      else Probe(p.ready, count, Some(Timer(RestartDelayMs, RestartTimer)))
  }

  /** The pending timer fires and the probe runs; a restart timer resets the counter first. */
  function Fire(p: Probe, available: bool): (q: Probe)
    requires p.pending.Some?
    ensures available ==> q == Probe(true, 0, None)
    ensures !available ==> q.ready == p.ready && q.pending.Some?
    ensures !available && p.pending.value.kind == RestartTimer ==> q.retryCount == 1
    ensures !available && p.pending.value.kind == ProbeTimer ==> q.retryCount == p.retryCount + 1
    ensures Sane(p) ==> Sane(q)
  {
    var base := if p.pending.value.kind == RestartTimer then p.(retryCount := 0) else p;
    CheckReady(base.(pending := None), available)
  }

  /** Time passes until the pending timer (if any) fires with the given probe outcome. */
  function Advance(p: Probe, available: bool): (q: Probe)
    ensures p.pending.None? ==> q == p
    ensures p.pending.Some? && !available ==> q.pending.Some? && q.ready == p.ready
    ensures p.pending.Some? && available ==> q == Probe(true, 0, None)
    ensures Sane(p) ==> Sane(q)
  {
    if p.pending.Some? then Fire(p, available) else p
  }

  /** The state after mounting and `n` probes that all failed. */
  function FailTimes(n: nat): Probe {
    if n == 0 then Mount() else Advance(FailTimes(n - 1), false)
  }

  /** The timer armed after the `n`-th consecutive failure counted from mount. */
  function NthTimer(n: nat): Timer
    requires n >= 1
  {
    if n % MaxRetries == 0 then Timer(RestartDelayMs, RestartTimer)
    else Timer(BackoffMs(n % MaxRetries), ProbeTimer)
  }

  /** Failures come in rounds of ten: delays 1..5 s (capped) after failures 1 to 9 of a
      round, then the 10-second restart; the probing never stops. */
  lemma {:induction false} FailureCycle(n: nat)
    requires n >= 1
    ensures FailTimes(n) == Probe(false, (n - 1) % MaxRetries + 1, Some(NthTimer(n)))
  {
    if n == 1 {
      assert FailTimes(1) == Fire(Mount(), false);
    } else {
      FailureCycle(n - 1);
      FailureStep(n);
    }
  }

  /** One more failure after the `n - 1`-th moves the counter and the timer one step on. */
  lemma FailureStep(n: nat)
    requires n >= 2
    requires FailTimes(n - 1) == Probe(false, (n - 2) % MaxRetries + 1, Some(NthTimer(n - 1)))
    ensures FailTimes(n) == Probe(false, (n - 1) % MaxRetries + 1, Some(NthTimer(n)))
  {
    var p := FailTimes(n - 1);
    var c := (n - 2) % MaxRetries + 1;
    assert FailTimes(n) == Fire(p, false);
    CounterStep(n);
    if c == MaxRetries {
      assert p.pending.value.kind == RestartTimer;
      assert Fire(p, false) == CheckReady(Probe(false, 0, None), false);
    } else {
      assert p.pending.value.kind == ProbeTimer;
      assert Fire(p, false) == CheckReady(Probe(false, c, None), false);
    }
  }

  /** How the position within a round of ten moves from failure `n - 1` to failure `n`. */
  lemma CounterStep(n: nat)
    requires n >= 2
    ensures var c := (n - 2) % MaxRetries + 1;
      && (c == MaxRetries ==> (n - 1) % MaxRetries == 0 && n % MaxRetries == 1)
      && (c < MaxRetries ==> (n - 1) % MaxRetries + 1 == c + 1)
      && (c + 1 < MaxRetries ==> n % MaxRetries == c + 1)
      && (c + 1 == MaxRetries ==> n % MaxRetries == 0)
  {
    var q := (n - 2) / MaxRetries;
    var r := (n - 2) % MaxRetries;
    assert n - 2 == MaxRetries * q + r;
    if r == MaxRetries - 1 {
      assert n - 1 == MaxRetries * (q + 1);
      assert n == MaxRetries * (q + 1) + 1;
    } else {
      assert n - 1 == MaxRetries * q + (r + 1);
      if r + 2 < MaxRetries {
        assert n == MaxRetries * q + (r + 2);
      } else {
        assert n == MaxRetries * (q + 1);
      }
    }
  }

  /** Whatever the history of failures, a successful probe leaves the platform ready,
      the counter at 0 and no timer armed. */
  lemma SuccessSettles(n: nat)
    ensures Advance(FailTimes(n), true) == Probe(true, 0, None)
  {
    if n >= 1 {
      FailureCycle(n);
    }
  }

  /** The shape every reachable probe state has. */
  predicate Sane(p: Probe) {
    && p.retryCount <= MaxRetries
    && (p.pending.None? <==> p.ready)
    && (p.ready ==> p.retryCount == 0)
    && (p.pending.Some? ==>
         && (p.pending.value.kind == RestartTimer <==> p.retryCount == MaxRetries)
         && (p.pending.value.kind == RestartTimer ==> p.pending.value.delayMs == RestartDelayMs)
         && (p.pending.value.kind == ProbeTimer ==> 1000 <= p.pending.value.delayMs <= 5000))
  }

  function RunProbes(p: Probe, outcomes: seq<bool>): Probe
    decreases |outcomes|
  {
    if outcomes == [] then p else RunProbes(Advance(p, outcomes[0]), outcomes[1..])
  }

  /** From mount, under any sequence of probe outcomes: the counter never exceeds the
      bound, a timer is armed exactly while the platform is not ready, and every delay is
      1 to 5 seconds or the 10-second restart. */
  lemma {:induction false} ProbesStaySane(p: Probe, outcomes: seq<bool>)
    requires Sane(p)
    ensures Sane(RunProbes(p, outcomes))
    decreases |outcomes|
  {
    if outcomes != [] {
      var q := Advance(p, outcomes[0]);
      assert Sane(q);
      ProbesStaySane(q, outcomes[1..]);
    }
  }

  lemma MountIsSane()
    ensures Sane(Mount())
  {
  }

  // ---------------------------------------------------------------------------
  // Fetching and sending the push token

  datatype Permission = NotDetermined | Denied | Authorized | Provisional | Ephemeral

  /** What Firebase answers: the permission request (None: it threw) and `getToken` (None: it threw). */
  datatype Messaging = Messaging(permission: Option<Permission>, fetched: Option<string>)

  datatype PatchOutcome = PatchThrew | PatchAnswered(ok: bool)

  /** `PATCH /api/fcm/token` with its Authorization header and body token. */
  datatype TokenUpload = TokenUpload(authorization: string, token: string)

  datatype SendResult = SendResult(success: bool, upload: Option<TokenUpload>)

  /** The local token after an operation, the upload it made, and whether it was accepted. */
  datatype Push = Push(localToken: Option<string>, upload: Option<TokenUpload>, registered: bool)

  predicate Enabled(p: Permission) {
    p == Authorized || p == Provisional
  }

  /** `sendTokenToServer`: refuses without a session or an access token; otherwise PATCHes
      with the current access token and reports whether the response was ok. */
  function SendTokenToServer(isAuthenticated: bool, accessToken: Option<string>, fcmToken: string,
                             patch: PatchOutcome): (r: SendResult)
    ensures !isAuthenticated || !JsText.TruthyText(accessToken) ==> r == SendResult(false, None)
    ensures isAuthenticated && JsText.TruthyText(accessToken) ==>
      r.upload == Some(TokenUpload(Credentials.Bearer(accessToken.value), fcmToken))
    ensures r.success <==> isAuthenticated && JsText.TruthyText(accessToken) && patch == PatchAnswered(true)
  {
    if !isAuthenticated || !JsText.TruthyText(accessToken) then SendResult(false, None)
    else
      var upload := TokenUpload(Credentials.Bearer(accessToken.value), fcmToken);
      match patch
      case PatchThrew => SendResult(false, Some(upload))
      case PatchAnswered(ok) => SendResult(ok, Some(upload))
  }

  /** `getAndSendToken`: nothing before readiness; logged out, only fetch; logged in, ask
      permission, fetch, and send a non-empty token. Any throw ends the attempt quietly. */
  function GetAndSendToken(ready: bool, isAuthenticated: bool, accessToken: Option<string>,
                           local: Option<string>, m: Messaging, patch: PatchOutcome): (r: Push)
    ensures !ready ==> r == Push(local, None, false)
    ensures r.upload.Some? <==>
      && ready && isAuthenticated && JsText.TruthyText(accessToken)
      && m.permission.Some? && Enabled(m.permission.value)
      && JsText.TruthyText(m.fetched)
    ensures r.upload.Some? ==> r.upload.value == TokenUpload(Credentials.Bearer(accessToken.value), m.fetched.value)
    ensures r.registered <==> r.upload.Some? && patch == PatchAnswered(true)
  {
    if !ready then Push(local, None, false)
    else if !isAuthenticated then
      Push(if m.fetched.Some? then m.fetched else local, None, false)
    else if m.permission.None? || !Enabled(m.permission.value) || m.fetched.None? then
      Push(local, None, false)
    else
      var token := m.fetched.value;
      if token == "" then Push(m.fetched, None, false)
      else
        var sent := SendTokenToServer(isAuthenticated, accessToken, token, patch);
        Push(m.fetched, sent.upload, sent.success)
  }

  /** The effect that runs whenever readiness, the authentication flag or the access token
      changes: with both flag and token, fetch and send; otherwise only fetch. */
  function OnSessionChange(ready: bool, isAuthenticated: bool, accessToken: Option<string>,
                           local: Option<string>, m: Messaging, patch: PatchOutcome): (r: Push)
    ensures !ready ==> r == Push(local, None, false)
    ensures !isAuthenticated || !JsText.TruthyText(accessToken) ==>
      r.upload.None? && !r.registered && (ready ==> r.localToken == (if m.fetched.Some? then m.fetched else local))
    ensures r.registered ==> r.upload.Some? && patch == PatchAnswered(true)
  {
    if !ready then Push(local, None, false)
    else if isAuthenticated && JsText.TruthyText(accessToken) then
      GetAndSendToken(ready, isAuthenticated, accessToken, local, m, patch)
    else Push(if m.fetched.Some? then m.fetched else local, None, false)
  }

  /** Before readiness nothing is fetched or sent, on either path. */
  lemma NotReadyDoesNothing(isAuthenticated: bool, accessToken: Option<string>, local: Option<string>,
                            m: Messaging, patch: PatchOutcome)
    ensures OnSessionChange(false, isAuthenticated, accessToken, local, m, patch) == Push(local, None, false)
    ensures GetAndSendToken(false, isAuthenticated, accessToken, local, m, patch) == Push(local, None, false)
  {
  }

  /** Logged out, the token is fetched and kept locally but never sent. */
  lemma LoggedOutOnlyFetches(accessToken: Option<string>, local: Option<string>, m: Messaging, patch: PatchOutcome)
    ensures var r := OnSessionChange(true, false, accessToken, local, m, patch);
      r.upload.None? && !r.registered && r.localToken == (if m.fetched.Some? then m.fetched else local)
    ensures var r := GetAndSendToken(true, false, accessToken, local, m, patch);
      r.upload.None? && !r.registered && r.localToken == (if m.fetched.Some? then m.fetched else local)
  {
  }

  /** A token is uploaded exactly when the platform is ready, the session is authenticated
      with an access token, permission is authorized or provisional and the fetched token is
      non-empty; the upload carries the current access token and the fetched token, and it
      registers exactly when the server answers ok. */
  lemma UploadGate(ready: bool, isAuthenticated: bool, accessToken: Option<string>,
                   local: Option<string>, m: Messaging, patch: PatchOutcome)
    ensures var r := OnSessionChange(ready, isAuthenticated, accessToken, local, m, patch);
      r.upload.Some? <==>
        && ready && isAuthenticated && JsText.TruthyText(accessToken)
        && m.permission.Some? && Enabled(m.permission.value)
        && JsText.TruthyText(m.fetched)
    ensures var r := OnSessionChange(ready, isAuthenticated, accessToken, local, m, patch);
      r.upload.Some? ==> r.upload.value == TokenUpload(Credentials.Bearer(accessToken.value), m.fetched.value)
    ensures var r := OnSessionChange(ready, isAuthenticated, accessToken, local, m, patch);
      r.registered <==> r.upload.Some? && patch == PatchAnswered(true)
  {
  }

  /** An identity sync without a login (authenticated, no access token) never registers a
      push token: the effect takes the fetch-only path. */
  lemma IdentitySyncNeverUploads(u: AuthStore.UserInfo, local: Option<string>, m: Messaging, patch: PatchOutcome)
    ensures var s := AuthStore.SetUserInfoOn(AuthStore.Initial, u);
      s.isAuthenticated && OnSessionChange(true, s.isAuthenticated, s.accessToken, local, m, patch).upload.None?
  {
  }
}
