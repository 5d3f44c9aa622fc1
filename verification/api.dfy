/**
 * The authenticated HTTP client (src/shared/services/api.ts): a request
 * interceptor that attaches the stored access token as a bearer header, and a
 * response interceptor that answers a first 401 with one refresh exchange and
 * one replay of the request.
 *
 * One logical request is a small phase machine:
 *
 *   Attaching --send--> Sent --2xx / other error / already retried--> Done | Failed
 *                        |
 *                        +--401, not yet retried--> Refreshing --no token / refresh failed--> Failed
 *                                                      |
 *                                                      +--new token--> Attaching (replay) --> Sent --> Done | Failed
 *
 * Storage reads, the refresh endpoint and the transport are oracles in `Io`.
 * Requests that are in flight at the same time do not share anything, so one
 * request is modelled at a time.
 */
module Api {
  import opened Optional
  import opened Credentials
  import JsText

  const AuthorizationHeader := "Authorization"

  /** An axios request config: `retried` is the `_retry` mark the response interceptor sets. */
  datatype Request = Request(verb: string, url: string, headers: map<string, string>, retried: bool)

  datatype Response = Response(status: int, data: string)

  /** What the transport produced for one send; no status means no response at all (a network error). */
  datatype Wire = Wire(status: Option<int>, data: string)

  /** A rejected request: the response status, if any, and the config it was sent with. */
  datatype HttpError = HttpError(status: Option<int>, request: Request)

  datatype Reply = Ok(response: Response) | Err(error: HttpError)

  /** The refresh exchange: it threw (any non-2xx or network failure), or it answered
      with `data.data.accessToken`, possibly missing. */
  datatype RefreshResult = RefreshThrew | RefreshAnswered(accessToken: Option<string>)

  /** The outside calls one logical request makes. */
  datatype Effect = Send(request: Request) | PostRefresh(refreshToken: string)

  /** Oracles for one logical request: the three storage reads it may make (before the
      first send, in the response interceptor, before the replay), the refresh endpoint and
      the transport. */
  datatype Io = Io(
    attachRead: StorageRead,
    refreshRead: StorageRead,
    replayRead: StorageRead,
    refresh: string -> RefreshResult,
    transport: Request -> Wire)

  /** The code as written, and the same code with the replay keeping its fresh bearer header. */
  datatype Variant = AsWritten | Corrected

  datatype Phase =
    | Attaching(request: Request)
    | Sent(request: Request)
    | Refreshing(request: Request, original: HttpError)
    | Done(response: Response)
    | Failed(error: HttpError)

  datatype Trace = Trace(result: Reply, effects: seq<Effect>)

  /** The request interceptor: attach `Bearer <accessToken>` when storage yields a truthy
      access token; on a failed or empty read the request goes out as it was. */
  function AttachBearer(req: Request, read: StorageRead): (r: Request)
    ensures AccessToken(read).Some? ==>
      AuthorizationHeader in r.headers && r.headers[AuthorizationHeader] == Bearer(AccessToken(read).value)
    ensures AccessToken(read).None? ==> r == req
    ensures r.verb == req.verb && r.url == req.url && r.retried == req.retried
    ensures forall k :: k != AuthorizationHeader ==> (k in r.headers <==> k in req.headers)
    ensures forall k :: k != AuthorizationHeader && k in req.headers ==> r.headers[k] == req.headers[k]
  {
    match AccessToken(read)
    case Some(token) => req.(headers := req.headers[AuthorizationHeader := Bearer(token)])
    case None => req
  }

  /** axios settles a send: a 2xx status resolves, anything else rejects with the config. */
  function Settle(req: Request, w: Wire): (r: Reply)
    ensures r.Ok? <==> w.status.Some? && 200 <= w.status.value < 300
    ensures r.Ok? ==> r.response.status == w.status.value
    ensures r.Err? ==> r.error == HttpError(w.status, req)
  {
    if w.status.Some? && 200 <= w.status.value < 300 then Ok(Response(w.status.value, w.data))
    else Err(HttpError(w.status, req))
  }

  predicate Terminal(p: Phase) {
    p.Done? || p.Failed?
  }

  function Rank(p: Phase): nat {
    match p
    case Attaching(r) => if r.retried then 2 else 5
    case Sent(r) => if r.retried then 1 else 4
    case Refreshing(r, _) => if r.retried then 3 else 6
    case Done(_) => 0
    case Failed(_) => 0
  }

  /** `h` is the bearer of an access token one of the interceptor's storage reads yields. */
  predicate StoredBearer(io: Io, h: string) {
    || (AccessToken(io.attachRead).Some? && h == Bearer(AccessToken(io.attachRead).value))
    || (AccessToken(io.replayRead).Some? && h == Bearer(AccessToken(io.replayRead).value))
  }

  /** The header a send carries: the request interceptor runs on the first send and again
      on the replay, which re-enters the same client instance. It only ever touches the
      Authorization header, and what it leaves there is the header the request already
      had or the bearer of a stored token. */
  function OnSend(v: Variant, req: Request, io: Io): (out: Request)
    ensures out.verb == req.verb && out.url == req.url && out.retried == req.retried
    ensures forall k :: k != AuthorizationHeader ==> (k in out.headers <==> k in req.headers)
    ensures forall k :: k != AuthorizationHeader && k in req.headers ==> out.headers[k] == req.headers[k]
    ensures AuthorizationHeader in out.headers ==>
      || (AuthorizationHeader in req.headers && out.headers[AuthorizationHeader] == req.headers[AuthorizationHeader])
      || StoredBearer(io, out.headers[AuthorizationHeader])
  {
    if !req.retried then AttachBearer(req, io.attachRead)
    else if v == Corrected && AuthorizationHeader in req.headers then req
    else AttachBearer(req, io.replayRead)
  }

  /** One transition of the phase machine, with the outside calls it makes. */
  function Step(v: Variant, p: Phase, io: Io): (r: (Phase, seq<Effect>))
    requires !Terminal(p)
    ensures Rank(r.0) < Rank(p)
    ensures |r.1| <= 1
    ensures p.Attaching? ==> r.1 == [Send(OnSend(v, p.request, io))]
    ensures Coherent(p) ==> Coherent(r.0)
  {
    match p
    case Attaching(req) =>
      var out := OnSend(v, req, io);
      (Sent(out), [Send(out)])
    case Sent(req) =>
      (match Settle(req, io.transport(req))
       case Ok(resp) => (Done(resp), [])
       case Err(e) =>
         if e.status == Some(401) && !req.retried then
           var marked := req.(retried := true);
           (Refreshing(marked, e.(request := marked)), [])
         else (Failed(e), []))
    case Refreshing(req, original) =>
      (match RefreshToken(io.refreshRead)
       case None => (Failed(original), [])
       case Some(rt) =>
         var answer := io.refresh(rt);
         if answer.RefreshAnswered? && JsText.TruthyText(answer.accessToken) then
           (Attaching(req.(headers := req.headers[AuthorizationHeader := Bearer(answer.accessToken.value)])),
            [PostRefresh(rt)])
         else (Failed(original), [PostRefresh(rt)]))
  }

  /** A 401 is only ever carried forward once its request bears the retry mark: the
      marking happens before any refresh is attempted. */
  predicate Coherent(p: Phase) {
    match p
    case Refreshing(_, original) => original.request.retried
    case Failed(e) => e.request.retried || e.status != Some(401)
    case _ => true
  }

  /** The rest of a request's life from phase `p`: each step makes at most one outside
      call, a run that attaches starts with that send, and a 401 reaches the caller only
      with the retry mark set. */
  function Run(v: Variant, p: Phase, io: Io): (t: Trace)
    ensures |t.effects| <= Rank(p)
    ensures p.Attaching? ==> t.effects != [] && t.effects[0] == Send(OnSend(v, p.request, io))
    ensures Coherent(p) && t.result.Err? ==> t.result.error.request.retried || t.result.error.status != Some(401)
    decreases Rank(p)
  {
    match p
    case Done(resp) => Trace(Ok(resp), [])
    case Failed(e) => Trace(Err(e), [])
    case _ =>
      var (next, effects) := Step(v, p, io);
      var rest := Run(v, next, io);
      Trace(rest.result, effects + rest.effects)
  }

  /** One logical call through the client: a fresh request, not yet marked as retried.
      Its first outside call is the send of the intercepted request, it makes at most
      five outside calls, and a 401 the caller receives always carries the retry mark. */
  function Call(v: Variant, req: Request, io: Io): (t: Trace)
    requires !req.retried
    ensures t.effects != [] && t.effects[0] == Send(AttachBearer(req, io.attachRead))
    ensures |t.effects| <= 5
    ensures t.result.Err? && t.result.error.status == Some(401) ==> t.result.error.request.retried
  {
    Run(v, Attaching(req), io)
  }

  /** A non-terminal phase runs as its step followed by the rest of the run. */
  lemma RunUnfold(v: Variant, p: Phase, io: Io)
    requires !Terminal(p)
    ensures Run(v, p, io).result == Run(v, Step(v, p, io).0, io).result
    ensures Run(v, p, io).effects == Step(v, p, io).1 + Run(v, Step(v, p, io).0, io).effects
  {
  }

  // ---------------------------------------------------------------------------
  // Properties of one logical call

  /** The request as first sent. */
  function FirstSend(req: Request, io: Io): Request {
    AttachBearer(req, io.attachRead)
  }

  function FirstReply(req: Request, io: Io): Reply {
    Settle(FirstSend(req, io), io.transport(FirstSend(req, io)))
  }

  predicate IsUnauthorized(r: Reply) {
    r.Err? && r.error.status == Some(401)
  }

  /** The request the refresh path replays: marked retried, bearer set to the new token. */
  function ReplayBase(req: Request, io: Io, token: string): Request {
    var marked := FirstSend(req, io).(retried := true);
    marked.(headers := marked.headers[AuthorizationHeader := Bearer(token)])
  }

  /** The token the refresh exchange handed back, when the path reaches a replay. */
  predicate RefreshSucceeds(io: Io, rt: string) {
    var a := io.refresh(rt);
    a.RefreshAnswered? && JsText.TruthyText(a.accessToken)
  }

  /** The request is always sent, authenticated or not: a failed storage read never
      stops it (fail-open), and the first outside call is always that send. */
  lemma FailOpen(v: Variant, req: Request, io: Io)
    requires !req.retried
    ensures |Call(v, req, io).effects| >= 1
    ensures Call(v, req, io).effects[0] == Send(FirstSend(req, io))
    ensures io.attachRead.ReadFailed? ==> FirstSend(req, io) == req
  {
  }

  /** Anything but a 401 passes through untouched, with no refresh call. */
  lemma PassThrough(v: Variant, req: Request, io: Io)
    requires !req.retried
    requires !IsUnauthorized(FirstReply(req, io))
    ensures Call(v, req, io) == Trace(FirstReply(req, io), [Send(FirstSend(req, io))])
  {
    var first := FirstSend(req, io);
    assert Step(v, Attaching(req), io) == (Sent(first), [Send(first)]);
    RunUnfold(v, Attaching(req), io);
    RunUnfold(v, Sent(first), io);
    match FirstReply(req, io)
    case Ok(resp) =>
      assert Step(v, Sent(first), io) == (Done(resp), []);
    case Err(e) =>
      assert Step(v, Sent(first), io) == (Failed(e), []);
  }

  /** The reply to a request that already bears the retry mark (the replay) is final:
      a 401 included, it is returned as is and nothing further is called. */
  lemma RetriedReplyIsFinal(v: Variant, r: Request, io: Io)
    requires r.retried
    ensures Run(v, Sent(r), io) == Trace(Settle(r, io.transport(r)), [])
  {
    RunUnfold(v, Sent(r), io);
    match Settle(r, io.transport(r))
    case Ok(resp) =>
      assert Step(v, Sent(r), io) == (Done(resp), []);
    case Err(e) =>
      assert Step(v, Sent(r), io) == (Failed(e), []);
  }

  /** A 401 with no refresh token in storage (or a failed read) is rejected with the
      original error, and the refresh endpoint is never called. */
  lemma NoRefreshTokenRejects(v: Variant, req: Request, io: Io)
    requires !req.retried
    requires IsUnauthorized(FirstReply(req, io))
    requires RefreshToken(io.refreshRead).None?
    ensures Call(v, req, io).result.Err?
    ensures Call(v, req, io).result.error.status == Some(401)
    ensures Call(v, req, io).result.error.request == FirstSend(req, io).(retried := true)
    ensures Call(v, req, io).effects == [Send(FirstSend(req, io))]
  {
    var first := FirstSend(req, io);
    var marked := first.(retried := true);
    var e := FirstReply(req, io).error;
    assert Step(v, Attaching(req), io) == (Sent(first), [Send(first)]);
    assert Step(v, Sent(first), io) == (Refreshing(marked, e.(request := marked)), []);
    assert Step(v, Refreshing(marked, e.(request := marked)), io) == (Failed(e.(request := marked)), []);
    RunUnfold(v, Attaching(req), io);
    RunUnfold(v, Sent(first), io);
    RunUnfold(v, Refreshing(marked, e.(request := marked)), io);
  }

  /** A refresh that throws or returns no access token surfaces the original 401,
      after exactly one refresh call. */
  lemma FailedRefreshRejects(v: Variant, req: Request, io: Io, rt: string)
    requires !req.retried
    requires IsUnauthorized(FirstReply(req, io))
    requires RefreshToken(io.refreshRead) == Some(rt)
    requires !RefreshSucceeds(io, rt)
    ensures Call(v, req, io).result.Err?
    ensures Call(v, req, io).result.error.status == Some(401)
    ensures Call(v, req, io).result.error.request == FirstSend(req, io).(retried := true)
    ensures Call(v, req, io).effects == [Send(FirstSend(req, io)), PostRefresh(rt)]
  {
    var first := FirstSend(req, io);
    var marked := first.(retried := true);
    var e := FirstReply(req, io).error;
    assert Step(v, Attaching(req), io) == (Sent(first), [Send(first)]);
    assert Step(v, Sent(first), io) == (Refreshing(marked, e.(request := marked)), []);
    assert Step(v, Refreshing(marked, e.(request := marked)), io) == (Failed(e.(request := marked)), [PostRefresh(rt)]);
    RunUnfold(v, Attaching(req), io);
    RunUnfold(v, Sent(first), io);
    RunUnfold(v, Refreshing(marked, e.(request := marked)), io);
  }

  /** The request as replayed after a successful refresh. */
  function ReplaySend(v: Variant, req: Request, io: Io, token: string): Request {
    OnSend(v, ReplayBase(req, io, token), io)
  }

  /** A successful refresh leads to exactly one replay, and the caller receives the
      replay's outcome, whatever it is: a second 401 is not refreshed again. */
  lemma SuccessfulRefreshReplays(v: Variant, req: Request, io: Io, rt: string)
    requires !req.retried
    requires IsUnauthorized(FirstReply(req, io))
    requires RefreshToken(io.refreshRead) == Some(rt)
    requires RefreshSucceeds(io, rt)
    ensures var replay := ReplaySend(v, req, io, RefreshedToken(io, rt));
      && replay.retried
      && Call(v, req, io).effects == [Send(FirstSend(req, io)), PostRefresh(rt), Send(replay)]
      && Call(v, req, io).result == Settle(replay, io.transport(replay))
  {
    var first := FirstSend(req, io);
    var marked := first.(retried := true);
    var e := FirstReply(req, io).error;
    var token := RefreshedToken(io, rt);
    var base := ReplayBase(req, io, token);
    var replay := OnSend(v, base, io);
    assert Step(v, Attaching(req), io) == (Sent(first), [Send(first)]);
    assert Step(v, Sent(first), io) == (Refreshing(marked, e.(request := marked)), []);
    assert Step(v, Refreshing(marked, e.(request := marked)), io) == (Attaching(base), [PostRefresh(rt)]);
    assert Step(v, Attaching(base), io) == (Sent(replay), [Send(replay)]);
    RunUnfold(v, Attaching(req), io);
    RunUnfold(v, Sent(first), io);
    RunUnfold(v, Refreshing(marked, e.(request := marked)), io);
    RunUnfold(v, Attaching(base), io);
    RunUnfold(v, Sent(replay), io);
    match Settle(replay, io.transport(replay))
    case Ok(resp) =>
      assert Step(v, Sent(replay), io) == (Done(resp), []);
    case Err(e2) =>
      assert Step(v, Sent(replay), io) == (Failed(e2), []);
  }

  /** The access token a successful refresh returned. */
  function RefreshedToken(io: Io, rt: string): string
    requires RefreshSucceeds(io, rt)
  {
    io.refresh(rt).accessToken.value
  }

  function CountRefreshes(effects: seq<Effect>): nat {
    if effects == [] then 0 else (if effects[0].PostRefresh? then 1 else 0) + CountRefreshes(effects[1..])
  }

  function CountSends(effects: seq<Effect>): nat {
    if effects == [] then 0 else (if effects[0].Send? then 1 else 0) + CountSends(effects[1..])
  }

  /** Whatever the oracles answer, one logical request makes at most one refresh call
      and at most two sends. */
  lemma {:induction false} BoundedRetry(v: Variant, req: Request, io: Io)
    requires !req.retried
    ensures CountRefreshes(Call(v, req, io).effects) <= 1
    ensures CountSends(Call(v, req, io).effects) <= 2
  {
    var first := FirstSend(req, io);
    var reply := FirstReply(req, io);
    if !IsUnauthorized(reply) {
      PassThrough(v, req, io);
    } else {
      match RefreshToken(io.refreshRead)
      case None =>
        NoRefreshTokenRejects(v, req, io);
      case Some(rt) =>
        if RefreshSucceeds(io, rt) {
          SuccessfulRefreshReplays(v, req, io, rt);
          var replay := ReplaySend(v, req, io, RefreshedToken(io, rt));
          assert Call(v, req, io).effects == [Send(first), PostRefresh(rt), Send(replay)];
          assert CountRefreshes([Send(replay)]) == 0;
          assert CountRefreshes([PostRefresh(rt), Send(replay)]) == 1;
          assert CountSends([Send(replay)]) == 1;
          assert CountSends([PostRefresh(rt), Send(replay)]) == 1;
        } else {
          FailedRefreshRejects(v, req, io, rt);
          assert CountRefreshes([PostRefresh(rt)]) == 1;
        }
    }
  }

  /** Corrected: the replay carries the token the refresh just returned. */
  lemma ReplayCarriesNewToken(req: Request, io: Io, rt: string)
    requires !req.retried
    requires RefreshSucceeds(io, rt)
    ensures var replay := ReplaySend(Corrected, req, io, RefreshedToken(io, rt));
      AuthorizationHeader in replay.headers && replay.headers[AuthorizationHeader] == Bearer(RefreshedToken(io, rt))
  {
  }

  /** As written: the replay re-enters the request interceptor, which overwrites the new
      bearer with whatever access token storage still holds, because the refresh path
      never writes the new token back. */
  lemma ReplayCarriesStoredToken(req: Request, io: Io, rt: string)
    requires !req.retried
    requires RefreshSucceeds(io, rt)
    requires AccessToken(io.replayRead).Some?
    requires AccessToken(io.replayRead).value != RefreshedToken(io, rt)
    ensures var replay := ReplaySend(AsWritten, req, io, RefreshedToken(io, rt));
      && AuthorizationHeader in replay.headers
      && replay.headers[AuthorizationHeader] == Bearer(AccessToken(io.replayRead).value)
      && replay.headers[AuthorizationHeader] != Bearer(RefreshedToken(io, rt))
  {
    BearerInjective(AccessToken(io.replayRead).value, RefreshedToken(io, rt));
  }
}
