/** The limiter exactly as the JavaScript runs it: the Map holds references to
    window objects, `get(userId) || {...}` yields either the stored object or a
    new one, the reset and the increment mutate that object in place, and
    `get(userId) || set(userId, userData)` only inserts when nothing was stored.

    The lemmas show that this reference semantics is the functional
    `RateLimiter.Step`: because the object obtained from the Map is the one
    stored in it, every increment persists, and the get-or-set line loses nothing. */
module RateLimiterHeap {
  import opened Js
  import opened RateLimiter

  type Ref = nat

  /** The Map of user id to object reference, the heap of window objects, and
      the next unused reference. */
  datatype JsState = JsState(refs: map<UserId, Ref>, heap: map<Ref, Window>, next: Ref)

  /** Every stored reference points at a live object, no two users share an
      object, and fresh references are really fresh. */
  ghost predicate Wf(h: JsState) {
    && (forall u :: u in h.refs ==> h.refs[u] in h.heap)
    && (forall u, v :: u in h.refs && v in h.refs && u != v ==> h.refs[u] != h.refs[v])
    && (forall a :: a in h.heap ==> a < h.next)
  }

  /** The windows the Map currently reaches. */
  function View(h: JsState): Store
    requires Wf(h)
  {
    map u | u in h.refs :: h.heap[h.refs[u]]
  }

  datatype JsStepResult = JsStepResult(decision: Decision, state: JsState)

  /** One request, statement by statement. */
  function JsStep(cfg: Config, h: JsState, user: Option<UserId>, now: nat): JsStepResult
    requires Wf(h)
  {
    match user
    case None => JsStepResult(Proceed, h)
    case Some(u) =>
      // get(userId) || { count: 0, resetTime: now + windowMs }
      var obj := if u in h.refs then h.refs[u] else h.next;
      var heap1 := if u in h.refs then h.heap else h.heap[h.next := Fresh(cfg, now)];
      var next1 := if u in h.refs then h.next else h.next + 1;
      // reset in place when the window has passed
      var heap2 := if now > heap1[obj].resetTime then heap1[obj := Fresh(cfg, now)] else heap1;
      var w := heap2[obj];
      if w.count >= cfg.maxRequests then
        JsStepResult(Limited(RetryAfterSeconds(w.resetTime - now)), JsState(h.refs, heap2, next1))
      else
        // count++ on the object, then get(userId) || set(userId, userData)
        var heap3 := heap2[obj := Window(w.count + 1, w.resetTime)];
        var refs1 := if u in h.refs then h.refs else h.refs[u := obj];
        JsStepResult(Proceed, JsState(refs1, heap3, next1))
  }

  /** The statement-level limiter makes the same decision as `Step` and leaves
      the Map reaching exactly the store `Step` computes. */
  lemma JsStepRefinesStep(cfg: Config, h: JsState, user: Option<UserId>, now: nat)
    requires Wf(h)
    ensures Wf(JsStep(cfg, h, user, now).state)
    ensures JsStep(cfg, h, user, now).decision == Step(cfg, View(h), user, now).decision
    ensures View(JsStep(cfg, h, user, now).state) == Step(cfg, View(h), user, now).store
  {
    if user.Some? {
      JsStepKeepsWf(cfg, h, user.value, now);
      JsStepDecidesAsStep(cfg, h, user.value, now);
      JsStepMatchesStep(cfg, h, user.value, now);
    }
  }

  /** The object a request works on belongs to that user alone, so the step
      keeps the references apart. */
  lemma JsStepKeepsWf(cfg: Config, h: JsState, u: UserId, now: nat)
    requires Wf(h)
    ensures Wf(JsStep(cfg, h, Some(u), now).state)
  {
    var obj := if u in h.refs then h.refs[u] else h.next;
    forall v | v in h.refs && v != u
      ensures h.refs[v] != obj
    {
    }
  }

  /** The step decides as `Step` does. */
  lemma JsStepDecidesAsStep(cfg: Config, h: JsState, u: UserId, now: nat)
    requires Wf(h)
    ensures JsStep(cfg, h, Some(u), now).decision == Step(cfg, View(h), Some(u), now).decision
  {
  }

  /** With the step well formed, the windows it reaches are the store of
      `Step`. */
  lemma JsStepMatchesStep(cfg: Config, h: JsState, u: UserId, now: nat)
    requires Wf(h) && Wf(JsStep(cfg, h, Some(u), now).state)
    ensures View(JsStep(cfg, h, Some(u), now).state) == Step(cfg, View(h), Some(u), now).store
  {
    var r := JsStep(cfg, h, Some(u), now);
    var spec := Step(cfg, View(h), Some(u), now);
    var got := View(r.state);
    JsStepViewKeys(cfg, h, u, now);
    forall v | v in got
      ensures got[v] == spec.store[v]
    {
      if v == u {
        assert got[v] == r.state.heap[r.state.refs[u]];
      } else {
        JsStepOthersUntouched(cfg, h, u, now, v);
      }
    }
  }

  /** The Map reaches the users `Step` keeps. */
  lemma JsStepViewKeys(cfg: Config, h: JsState, u: UserId, now: nat)
    requires Wf(h) && Wf(JsStep(cfg, h, Some(u), now).state)
    ensures View(JsStep(cfg, h, Some(u), now).state).Keys == Step(cfg, View(h), Some(u), now).store.Keys
  {
  }

  /** Another user's object is neither replaced nor mutated. */
  lemma JsStepOthersUntouched(cfg: Config, h: JsState, u: UserId, now: nat, v: UserId)
    requires Wf(h) && Wf(JsStep(cfg, h, Some(u), now).state)
    requires v != u && v in h.refs
    ensures var r := JsStep(cfg, h, Some(u), now).state;
      v in r.refs && r.refs[v] == h.refs[v] && r.heap[r.refs[v]] == h.heap[h.refs[v]]
  {
    var obj := if u in h.refs then h.refs[u] else h.next;
    assert h.refs[v] != obj;
  }

  /** Replays a trace on the JavaScript state; a timer tick does nothing, as
      the callback throws before touching the Map. */
  function JsRun(cfg: Config, h: JsState, events: seq<Event>): (r: RunResult)
    requires Wf(h)
    decreases |events|
  {
    if |events| == 0 then RunResult([], View(h))
    else match events[0]
      case Request(user, at) =>
        JsStepRefinesStep(cfg, h, user, at);
        var s := JsStep(cfg, h, user, at);
        var rest := JsRun(cfg, s.state, events[1..]);
        RunResult([s.decision] + rest.decisions, rest.store)
      case Tick(_) =>
        JsRun(cfg, h, events[1..])
  }

  /** Over a whole trace the JavaScript limiter and the functional one agree on
      every decision and on the final store: counts persist across requests. */
  lemma {:induction false} JsRunRefinesRun(cfg: Config, h: JsState, events: seq<Event>)
    requires Wf(h)
    ensures JsRun(cfg, h, events) == Run(cfg, View(h), events, AsWritten)
    decreases |events|
  {
    if |events| > 0 {
      match events[0]
      case Request(user, at) =>
        JsStepRefinesStep(cfg, h, user, at);
        JsRunRefinesRun(cfg, JsStep(cfg, h, user, at).state, events[1..]);
      case Tick(_) =>
        JsRunRefinesRun(cfg, h, events[1..]);
    }
  }

  /** Two requests from a new user leave a count of two: the second increment is not lost. */
  lemma SecondIncrementPersists()
    ensures var h := JsState(map[], map[], 0);
      var r := JsRun(DefaultConfig, h, [Request(Some("u1"), 0), Request(Some("u1"), 10)]);
      r.store == map["u1" := Window(2, 900000)]
  {
    var h := JsState(map[], map[], 0);
    var events := [Request(Some("u1"), 0), Request(Some("u1"), 10)];
    JsRunRefinesRun(DefaultConfig, h, events);
    assert View(h) == map[];
    var s1 := Step(DefaultConfig, map[], Some("u1"), 0);
    assert s1.store == map["u1" := Window(1, 900000)];
    var s2 := Step(DefaultConfig, s1.store, Some("u1"), 10);
    assert s2.store == map["u1" := Window(2, 900000)];
    assert events[1..][1..] == [];
  }
}
