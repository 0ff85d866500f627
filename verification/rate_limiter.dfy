/** The per-user fixed-window rate limiter of `userRateLimit` and the periodic
    sweep meant to evict expired windows.

    A store maps a user id to its window `{count, resetTime}`. A request from a
    user whose window has expired (strictly after `resetTime`) starts a fresh
    window; a request is refused with 429 while the count has reached the
    maximum and is otherwise counted. Requests without an authenticated user are
    never looked at. Time is a number of milliseconds supplied by the caller. */
module RateLimiter {
  import opened Js

  type UserId = string

  datatype Window = Window(count: nat, resetTime: nat)

  datatype Config = Config(maxRequests: nat, windowMs: nat)

  /** The defaults of `userRateLimit()`: 100 requests per 15 minutes. */
  const DefaultConfig := Config(100, 15 * 60 * 1000)

  type Store = map<UserId, Window>

  datatype Decision = Proceed | Limited(retryAfterSeconds: nat)

  datatype StepResult = StepResult(decision: Decision, store: Store)

  /** The window a user without a live entry starts with. */
  function Fresh(cfg: Config, now: nat): Window {
    Window(0, now + cfg.windowMs)
  }

  /** The window in force for `user` at `now`: the stored one, or a fresh one
      when there is none or the stored one expired strictly before `now`. */
  function Current(cfg: Config, store: Store, user: UserId, now: nat): (w: Window)
    ensures now <= w.resetTime
  {
    var w0 := if user in store then store[user] else Fresh(cfg, now);
    if now > w0.resetTime then Fresh(cfg, now) else w0
  }

  /** `Math.ceil((resetTime - now) / 1000)` for a wait of `ms` milliseconds. */
  function RetryAfterSeconds(ms: nat): (r: nat)
    ensures r * 1000 >= ms
    ensures r > 0 ==> (r - 1) * 1000 < ms
  {
    CeilDiv(ms, 1000)
  }

  /** The text of the 429 reply's `message` field. */
  function LimitedMessage(seconds: nat): string {
    "Too many requests. Please try again in " + NatToString(seconds) + " seconds."
  }

  /** One request through the limiter. The entry already in the store is the
      very object the code resets in place, so a reset persists even when the
      request is then refused; a counted request stores the incremented window. */
  function Step(cfg: Config, store: Store, user: Option<UserId>, now: nat): (r: StepResult)
    ensures user.None? ==> r == StepResult(Proceed, store)
    ensures user.Some? ==> forall v :: v != user.value ==>
      (v in r.store <==> v in store) && (v in store ==> r.store[v] == store[v])
    ensures user.Some? && r.decision.Proceed? ==> user.value in r.store
  {
    match user
    case None => StepResult(Proceed, store)
    case Some(u) =>
      var w := Current(cfg, store, u, now);
      if w.count >= cfg.maxRequests then
        StepResult(Limited(RetryAfterSeconds(w.resetTime - now)), if u in store then store[u := w] else store)
      else
        StepResult(Proceed, store[u := Window(w.count + 1, w.resetTime)])
  }

  // ---------------------------------------------------------------------------
  // Properties of one step

  /** A user without an entry is treated as a fresh window, and with a positive
      budget the request is counted as the first of a window ending `windowMs` later. */
  lemma MissingEntryStartsFresh(cfg: Config, store: Store, u: UserId, now: nat)
    requires u !in store
    ensures Current(cfg, store, u, now) == Window(0, now + cfg.windowMs)
    ensures cfg.maxRequests > 0 ==>
      Step(cfg, store, Some(u), now) == StepResult(Proceed, store[u := Window(1, now + cfg.windowMs)])
  {
  }

  /** A stored window stays in force exactly while `now <= resetTime`; at
      `now == resetTime` its old count still applies. */
  lemma ResetOnlyAfterStrictExpiry(cfg: Config, store: Store, u: UserId, now: nat)
    requires u in store
    ensures Current(cfg, store, u, now) == store[u] <==> now <= store[u].resetTime
    ensures now > store[u].resetTime ==> Current(cfg, store, u, now) == Window(0, now + cfg.windowMs)
  {
  }

  /** A refused request: 429 with the rounded-up wait, at least one second
      while the window is still running and zero at its last millisecond; the
      stored window is untouched unless it had expired (possible only with a
      zero budget), in which case the in-place reset persists. */
  lemma LimitedLeavesWindow(cfg: Config, store: Store, u: UserId, now: nat)
    requires Current(cfg, store, u, now).count >= cfg.maxRequests
    ensures var w := Current(cfg, store, u, now);
      && Step(cfg, store, Some(u), now).decision == Limited(RetryAfterSeconds(w.resetTime - now))
      && (now < w.resetTime ==> RetryAfterSeconds(w.resetTime - now) >= 1)
      && (now == w.resetTime ==> RetryAfterSeconds(w.resetTime - now) == 0)
    ensures u in store && now <= store[u].resetTime ==> Step(cfg, store, Some(u), now).store == store
    ensures u !in store ==> Step(cfg, store, Some(u), now).store == store
  {
  }

  /** A counted request stores the user's window with the count up by exactly
      one and the same reset time; no other entry changes. */
  lemma AcceptIncrements(cfg: Config, store: Store, u: UserId, now: nat)
    requires Current(cfg, store, u, now).count < cfg.maxRequests
    ensures var w := Current(cfg, store, u, now);
      Step(cfg, store, Some(u), now) == StepResult(Proceed, store[u := Window(w.count + 1, w.resetTime)])
  {
  }

  /** Requests of one user never change what another user's next request sees. */
  lemma CrossUserIndependent(cfg: Config, store: Store, u: UserId, v: UserId, now: nat, later: nat)
    requires u != v
    ensures Current(cfg, Step(cfg, store, Some(u), now).store, v, later) == Current(cfg, store, v, later)
  {
  }

  // ---------------------------------------------------------------------------
  // The store invariant

  /** Every count is within budget and every window ends at most `windowMs` after `now`. */
  ghost predicate Bounded(cfg: Config, store: Store, now: nat) {
    forall v :: v in store ==> store[v].count <= cfg.maxRequests && store[v].resetTime <= now + cfg.windowMs
  }

  /** The invariant survives any request at the same or a later time. */
  lemma StepPreservesBounded(cfg: Config, store: Store, user: Option<UserId>, now: nat, later: nat)
    requires Bounded(cfg, store, now) && now <= later
    ensures Bounded(cfg, Step(cfg, store, user, later).store, later)
  {
    if user.Some? {
      var u := user.value;
      var w := Current(cfg, store, u, later);
      assert w.count <= cfg.maxRequests && w.resetTime <= later + cfg.windowMs;
    }
  }

  // ---------------------------------------------------------------------------
  // The sweep

  /** The intended sweep: keep exactly the windows with `now <= resetTime`. */
  function Sweep(store: Store, now: nat): (r: Store)
    ensures forall v :: v in r ==> v in store && r[v] == store[v]
  {
    map v | v in store && now <= store[v].resetTime :: store[v]
  }

  /** The sweep removes exactly the entries with `now > resetTime` and never a
      window that is still running. */
  lemma SweepRemovesExactlyExpired(store: Store, now: nat, v: UserId)
    requires v in store
    ensures v !in Sweep(store, now) <==> now > store[v].resetTime
  {
  }

  /** `a` is `b` with some entries missing, each of which had expired before `t`. */
  ghost predicate SweptOf(a: Store, b: Store, t: nat) {
    && (forall v :: v in a ==> v in b && a[v] == b[v])
    && (forall v :: v in b && v !in a ==> b[v].resetTime < t)
  }

  /** Removing expired entries changes neither the decision nor the window of
      any later request (given a positive budget), and the relation carries
      over to the resulting stores. */
  lemma SweptStep(cfg: Config, a: Store, b: Store, t: nat, user: Option<UserId>, later: nat)
    requires cfg.maxRequests > 0
    requires SweptOf(a, b, t) && t <= later
    ensures Step(cfg, a, user, later).decision == Step(cfg, b, user, later).decision
    ensures SweptOf(Step(cfg, a, user, later).store, Step(cfg, b, user, later).store, later)
    ensures user.Some? ==> Current(cfg, a, user.value, later) == Current(cfg, b, user.value, later)
  {
    if user.Some? {
      var u := user.value;
      assert Current(cfg, a, u, later) == Current(cfg, b, u, later);
    }
  }

  /** Sweeping at a time no earlier than `t` keeps the relation. */
  lemma SweepKeepsSweptOf(a: Store, b: Store, t: nat, now: nat)
    requires SweptOf(a, b, t) && t <= now
    ensures SweptOf(Sweep(a, now), b, now)
  {
  }

  // ---------------------------------------------------------------------------
  // Traces of requests and timer ticks

  datatype Event = Request(user: Option<UserId>, at: nat) | Tick(at: nat)

  /** What a timer tick does: the intended sweep, or the code as written, whose
      callback names a map that only exists inside the limiter's closure and so
      throws a ReferenceError before removing anything. With Node's defaults
      that uncaught exception ends the process at the first tick, a minute
      after the module loads. `AsWritten` is a process that survives the throw
      (one with a process-level `uncaughtException` handler, which is not part
      of this model): there the tick changes nothing. */
  datatype Reaper = Sweeping | AsWritten

  datatype RunResult = RunResult(decisions: seq<Decision>, store: Store)

  function TickEffect(reaper: Reaper, store: Store, now: nat): Store {
    match reaper
    case Sweeping => Sweep(store, now)
    case AsWritten => store
  }

  /** Replays a trace; one decision per request, in order. */
  function Run(cfg: Config, store: Store, events: seq<Event>, reaper: Reaper): (r: RunResult)
    decreases |events|
  {
    if |events| == 0 then RunResult([], store)
    else match events[0]
      case Request(user, at) =>
        var s := Step(cfg, store, user, at);
        var rest := Run(cfg, s.store, events[1..], reaper);
        RunResult([s.decision] + rest.decisions, rest.store)
      case Tick(at) =>
        Run(cfg, TickEffect(reaper, store, at), events[1..], reaper)
  }

  function At(e: Event): nat {
    match e
    case Request(_, at) => at
    case Tick(at) => at
  }

  /** Event times never go backwards and start no earlier than `t`. */
  ghost predicate TimesFrom(events: seq<Event>, t: nat)
    decreases |events|
  {
    |events| == 0 || (t <= At(events[0]) && TimesFrom(events[1..], At(events[0])))
  }

  /** Over any trace with non-decreasing times, the sweep is unobservable: the
      decisions are those of a store that is never swept. */
  lemma {:induction false} SweepUnobservable(cfg: Config, a: Store, b: Store, t: nat, events: seq<Event>)
    requires cfg.maxRequests > 0
    requires SweptOf(a, b, t) && TimesFrom(events, t)
    ensures Run(cfg, a, events, Sweeping).decisions == Run(cfg, b, events, AsWritten).decisions
    decreases |events|
  {
    if |events| > 0 {
      match events[0]
      case Request(user, at) =>
        SweptStep(cfg, a, b, t, user, at);
        SweepUnobservable(cfg, Step(cfg, a, user, at).store, Step(cfg, b, user, at).store, at, events[1..]);
      case Tick(at) =>
        SweepKeepsSweptOf(a, b, t, at);
        SweepUnobservable(cfg, Sweep(a, at), b, at, events[1..]);
    }
  }

  /** Starting from the same store, sweeping and never sweeping give the same decisions. */
  lemma ReaperHarmless(cfg: Config, store: Store, events: seq<Event>)
    requires cfg.maxRequests > 0 && TimesFrom(events, 0)
    ensures Run(cfg, store, events, Sweeping).decisions == Run(cfg, store, events, AsWritten).decisions
  {
    SweepUnobservable(cfg, store, store, 0, events);
  }

  /** The users that send at least one authenticated request in a trace. */
  function Requesters(events: seq<Event>): set<UserId>
    decreases |events|
  {
    if |events| == 0 then {}
    else
      var here: set<UserId> := if events[0].Request? && events[0].user.Some? then {events[0].user.value} else {};
      here + Requesters(events[1..])
  }

  /** With the timer as written, in a process that survives the throwing
      callback, nothing is ever evicted: every entry present at the start and
      every user who sent an authenticated request stays in the store for
      good, so the map grows with the number of distinct users. */
  lemma {:induction false} AsWrittenNeverEvicts(cfg: Config, store: Store, events: seq<Event>)
    requires cfg.maxRequests > 0
    ensures store.Keys + Requesters(events) <= Run(cfg, store, events, AsWritten).store.Keys
    decreases |events|
  {
    if |events| > 0 {
      match events[0]
      case Request(user, at) =>
        var s := Step(cfg, store, user, at);
        if user.Some? {
          assert user.value in s.store by {
            if user.value !in store {
              MissingEntryStartsFresh(cfg, store, user.value, at);
            }
          }
        }
        AsWrittenNeverEvicts(cfg, s.store, events[1..]);
      case Tick(at) =>
        AsWrittenNeverEvicts(cfg, store, events[1..]);
    }
  }

  /** A user seen once at time 0 is still stored a day later with the timer as
      written (in a process that survives the throwing callback), and gone
      after a sweep with the intended one. */
  lemma AsWrittenKeepsStaleEntry()
    ensures var events := [Request(Some("u1"), 0), Tick(86400000)];
      && "u1" in Run(DefaultConfig, map[], events, AsWritten).store
      && "u1" !in Run(DefaultConfig, map[], events, Sweeping).store
  {
    var events := [Request(Some("u1"), 0), Tick(86400000)];
    assert events[1..][1..] == [];
  }

  /** After any sweep no stored window has expired. */
  lemma SweepLeavesNoExpired(store: Store, now: nat)
    ensures forall v :: v in Sweep(store, now) ==> now <= Sweep(store, now)[v].resetTime
  {
  }

  // ---------------------------------------------------------------------------
  // Bursts of one user

  function Burst(u: UserId, times: seq<nat>): (es: seq<Event>)
    ensures |es| == |times|
  {
    seq(|times|, i requires 0 <= i < |times| => Request(Some(u), times[i]))
  }

  /** While a window is running, a burst that fits in the remaining budget is
      accepted in full and ends with the count raised by its length. */
  lemma {:induction false} BurstWithinWindow(cfg: Config, store: Store, u: UserId, k: nat, reset: nat, times: seq<nat>, reaper: Reaper)
    requires u in store && store[u] == Window(k, reset)
    requires k + |times| <= cfg.maxRequests
    requires forall i :: 0 <= i < |times| ==> times[i] <= reset
    ensures var r := Run(cfg, store, Burst(u, times), reaper);
      && |r.decisions| == |times|
      && (forall i :: 0 <= i < |times| ==> r.decisions[i] == Proceed)
      && u in r.store && r.store[u] == Window(k + |times|, reset)
    decreases |times|
  {
    if |times| > 0 {
      var es := Burst(u, times);
      assert es[0] == Request(Some(u), times[0]);
      assert es[1..] == Burst(u, times[1..]);
      var s := Step(cfg, store, Some(u), times[0]);
      assert s.decision == Proceed && s.store[u] == Window(k + 1, reset);
      BurstWithinWindow(cfg, s.store, u, k + 1, reset, times[1..], reaper);
    }
  }

  /** A request that arrives after the budget was used up, before the window
      ends, is refused with a wait of at least one second and changes nothing. */
  lemma OverBudgetRefused(cfg: Config, store: Store, u: UserId, now: nat)
    requires u in store && store[u].count >= cfg.maxRequests && now < store[u].resetTime
    ensures var r := Step(cfg, store, Some(u), now);
      r.decision.Limited? && r.decision.retryAfterSeconds >= 1 && r.store == store
  {
  }

  /** Once the window has passed, the next request is accepted and opens a new
      window holding a count of one. */
  lemma AfterResetAccepted(cfg: Config, store: Store, u: UserId, now: nat)
    requires cfg.maxRequests > 0 && u in store && now > store[u].resetTime
    ensures Step(cfg, store, Some(u), now) == StepResult(Proceed, store[u := Window(1, now + cfg.windowMs)])
  {
  }

  /** With a budget of 2 per second, requests at 0, 100 and 200 ms are accepted,
      accepted and refused with a one-second hint; one at 1100 ms is accepted again. */
  lemma TwoPerSecondScenario()
    ensures var events := [Request(Some("u1"), 0), Request(Some("u1"), 100), Request(Some("u1"), 200), Request(Some("u1"), 1100)];
      Run(Config(2, 1000), map[], events, Sweeping).decisions == [Proceed, Proceed, Limited(1), Proceed]
  {
    var events := [Request(Some("u1"), 0), Request(Some("u1"), 100), Request(Some("u1"), 200), Request(Some("u1"), 1100)];
    var cfg := Config(2, 1000);
    var s1 := Step(cfg, map[], Some("u1"), 0);
    assert s1.store == map["u1" := Window(1, 1000)];
    var s2 := Step(cfg, s1.store, Some("u1"), 100);
    assert s2.store == map["u1" := Window(2, 1000)];
    var s3 := Step(cfg, s2.store, Some("u1"), 200);
    assert s3 == StepResult(Limited(1), s2.store);
    var s4 := Step(cfg, s3.store, Some("u1"), 1100);
    assert s4.decision == Proceed;
    assert events[1..][1..][1..][1..] == [];
  }

  /** Requests without an authenticated user are accepted whatever their number
      and never touch the store. */
  lemma {:induction false} AnonymousAlwaysProceed(cfg: Config, store: Store, events: seq<Event>, reaper: Reaper)
    requires forall i :: 0 <= i < |events| ==> events[i].Request? && events[i].user.None?
    ensures var r := Run(cfg, store, events, reaper);
      r.store == store && forall i :: 0 <= i < |r.decisions| ==> r.decisions[i] == Proceed
    decreases |events|
  {
    if |events| > 0 {
      AnonymousAlwaysProceed(cfg, store, events[1..], reaper);
    }
  }
}
