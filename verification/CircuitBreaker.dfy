/** The per tool and tenant circuit breaker. */
module CircuitBreaker {

  datatype Config = Config(failureThreshold: int, openMs: nat)

  datatype Breaker = Breaker(failures: nat, openUntil: nat)

  const CLOSED := Breaker(0, 0)

  predicate IsOpen(b: Breaker, now: nat) {
    b.openUntil > now
  }

  /** A failure reads the clock twice: to see whether the breaker is open, and to open it. */
  datatype Event = Success | Failure(checkedAt: nat, openedAt: nat)

  function Record(cfg: Config, b: Breaker, e: Event): Breaker {
    match e
    case Success => CLOSED
    case Failure(checkedAt, openedAt) =>
      if IsOpen(b, checkedAt) then b.(failures := b.failures + 1)
      else if b.failures + 1 >= cfg.failureThreshold then Breaker(b.failures + 1, openedAt + cfg.openMs)
      else b.(failures := b.failures + 1)
  }

  function After(cfg: Config, b: Breaker, h: seq<Event>): Breaker {
    if h == [] then b else Record(cfg, After(cfg, b, h[..|h| - 1]), h[|h| - 1])
  }

  /** The breaker after a history of records. */
  function Fold(cfg: Config, h: seq<Event>): Breaker {
    After(cfg, CLOSED, h)
  }

  /** The clock never goes back. */
  ghost predicate Timed(h: seq<Event>) {
    && (forall i | 0 <= i < |h| && h[i].Failure? :: h[i].checkedAt <= h[i].openedAt)
    && forall i, j | 0 <= i < j < |h| && h[i].Failure? && h[j].Failure? :: h[i].openedAt <= h[j].checkedAt
  }

  lemma AfterLast(cfg: Config, b: Breaker, h: seq<Event>, e: Event)
    ensures After(cfg, b, h + [e]) == Record(cfg, After(cfg, b, h), e)
  {
    assert (h + [e])[..|h|] == h;
  }

  lemma {:induction false} AfterConcat(cfg: Config, b: Breaker, g: seq<Event>, h: seq<Event>)
    ensures After(cfg, b, g + h) == After(cfg, After(cfg, b, g), h)
  {
    if h == [] {
      assert g + h == g;
    } else {
      var n := |h| - 1;
      assert g + h == (g + h[..n]) + [h[n]];
      AfterLast(cfg, b, g + h[..n], h[n]);
      AfterConcat(cfg, b, g, h[..n]);
    }
  }

  /** The index of the last success, or -1. */
  function LastSuccess(h: seq<Event>): (i: int)
    ensures -1 <= i < |h|
    ensures i >= 0 ==> h[i].Success?
    ensures forall j | i < j < |h| :: h[j].Failure?
  {
    if h == [] then -1 else if h[|h| - 1].Success? then |h| - 1 else LastSuccess(h[..|h| - 1])
  }

  /** The counter is the number of failures since the last success, however often the breaker
      opens in between. */
  lemma {:induction false} CounterCountsSinceSuccess(cfg: Config, h: seq<Event>)
    ensures Fold(cfg, h).failures == |h| - 1 - LastSuccess(h)
  {
    if h != [] { CounterCountsSinceSuccess(cfg, h[..|h| - 1]); }
  }

  /** A breaker with a window set has counted up to the threshold. */
  lemma {:induction false} WindowMeansThreshold(cfg: Config, h: seq<Event>)
    ensures Fold(cfg, h).openUntil != 0 ==> Fold(cfg, h).failures >= cfg.failureThreshold
  {
    if h != [] { WindowMeansThreshold(cfg, h[..|h| - 1]); }
  }

  /** Failures that find the breaker open do not move its window, however many there are. */
  lemma {:induction false} FailuresKeepWindow(cfg: Config, b: Breaker, h: seq<Event>)
    requires forall i | 0 <= i < |h| :: h[i].Failure? && h[i].checkedAt < b.openUntil
    ensures After(cfg, b, h) == Breaker(b.failures + |h|, b.openUntil)
  {
    if h != [] { FailuresKeepWindow(cfg, b, h[..|h| - 1]); }
  }

  /** Once the window is over, a single failure opens the breaker again. */
  lemma FailureReopens(cfg: Config, h: seq<Event>, e: Event)
    requires e.Failure? && Fold(cfg, h).openUntil != 0 && !IsOpen(Fold(cfg, h), e.checkedAt)
    ensures Fold(cfg, h + [e]).openUntil == e.openedAt + cfg.openMs
  {
    WindowMeansThreshold(cfg, h);
    AfterLast(cfg, CLOSED, h, e);
  }

  // ----- Which failures open the breaker -----

  /** Record i opens the breaker. */
  predicate Opens(cfg: Config, h: seq<Event>, i: nat)
    requires i < |h|
  {
    && h[i].Failure? && !IsOpen(Fold(cfg, h[..i]), h[i].checkedAt)
    && Fold(cfg, h[..i]).failures + 1 >= cfg.failureThreshold
  }

  /** An opening after the last success whose window has not ended at `now`. */
  ghost predicate Covered(cfg: Config, h: seq<Event>, now: nat) {
    exists o | LastSuccess(h) < o < |h| :: Opens(cfg, h, o) && h[o].openedAt + cfg.openMs > now
  }

  lemma OpensPrefix(cfg: Config, h: seq<Event>, i: nat, n: nat)
    requires i < n <= |h|
    ensures Opens(cfg, h[..n], i) == Opens(cfg, h, i)
  {
    assert h[..n][..i] == h[..i];
  }

  /** What the window of a breaker is: that of the latest opening since the last success. */
  ghost predicate WindowOf(cfg: Config, h: seq<Event>, o: int) {
    && LastSuccess(h) <= o < |h|
    && (o == LastSuccess(h) ==> Fold(cfg, h).openUntil == 0)
    && (o > LastSuccess(h) ==> Opens(cfg, h, o) && Fold(cfg, h).openUntil == h[o].openedAt + cfg.openMs)
    && forall p | o < p < |h| :: !Opens(cfg, h, p)
  }

  lemma {:induction false} LatestOpening(cfg: Config, h: seq<Event>) returns (o: int)
    ensures WindowOf(cfg, h, o)
  {
    if h == [] {
      o := -1;
    } else {
      var n := |h| - 1;
      var front := h[..n];
      o := LatestOpening(cfg, front);
      forall i: nat | i < n ensures Opens(cfg, front, i) == Opens(cfg, h, i) { OpensPrefix(cfg, h, i, n); }
      if h[n].Success? || Opens(cfg, h, n) { o := n; }
    }
  }

  /** Two openings without a success between them are at least `openMs` apart. */
  lemma {:induction false} OpeningsApart(cfg: Config, h: seq<Event>, i: nat, j: nat)
    requires Timed(h) && i < j < |h| && Opens(cfg, h, i) && Opens(cfg, h, j)
    requires forall k | i < k < j :: h[k].Failure?
    ensures h[j].checkedAt >= h[i].openedAt + cfg.openMs
  {
    var front := h[..j];
    var o := LatestOpening(cfg, front);
    OpensPrefix(cfg, h, i, j);
    assert LastSuccess(front) < i by {
      assert forall k | i <= k < j :: front[k].Failure?;
    }
    assert i <= o;
    if o > i { assert h[i].openedAt <= h[o].checkedAt <= h[o].openedAt; }
  }

  /** Which records open the breaker: the failures that are at least the threshold-th since the
      last success and fall into no earlier window since then. */
  lemma OpensExactly(cfg: Config, h: seq<Event>, i: nat)
    requires Timed(h) && i < |h|
    ensures Opens(cfg, h, i)
            <==> h[i].Failure? && i - LastSuccess(h[..i]) >= cfg.failureThreshold
                 && !Covered(cfg, h[..i], h[i].checkedAt)
  {
    var front := h[..i];
    CounterCountsSinceSuccess(cfg, front);
    if h[i].Failure? { OpenIffCovered(cfg, front, h[i].checkedAt); }
  }

  /** The breaker is open exactly inside the window of an opening since the last success. */
  lemma OpenIffCovered(cfg: Config, h: seq<Event>, now: nat)
    requires Timed(h)
    ensures IsOpen(Fold(cfg, h), now) <==> Covered(cfg, h, now)
  {
    var o := LatestOpening(cfg, h);
    if Covered(cfg, h, now) {
      var p :| LastSuccess(h) < p < |h| && Opens(cfg, h, p) && h[p].openedAt + cfg.openMs > now;
      assert p <= o;
      if p < o { assert h[p].openedAt <= h[o].checkedAt <= h[o].openedAt; }
    }
  }

  // ----- The handle -----

  class BreakerHandle {
    const config: Config
    var consecutiveFailures: nat
    var openUntil: nat

    function Value(): Breaker
      reads this
    {
      Breaker(consecutiveFailures, openUntil)
    }

    constructor (config: Config)
      ensures this.config == config && Value() == CLOSED
    {
      this.config := config;
      consecutiveFailures, openUntil := 0, 0;
    }

    method RecordSuccess()
      modifies this
      ensures Value() == Record(config, old(Value()), Success)
    {
      consecutiveFailures := 0;
      openUntil := 0;
    }

    method RecordFailure(checkedAt: nat, openedAt: nat)
      modifies this
      ensures Value() == Record(config, old(Value()), Failure(checkedAt, openedAt))
    {
      var wasOpen := openUntil > checkedAt;
      consecutiveFailures := consecutiveFailures + 1;
      if wasOpen { return; }
      if consecutiveFailures >= config.failureThreshold {
        openUntil := openedAt + config.openMs;
      }
    }
  }
}
