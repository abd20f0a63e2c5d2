/**
 * The error counter of the category download loop. Each pass of the
 * `while True` loop ends in one of three ways, and the loop's two
 * cross-pass variables, `consecutive_errors` and `downloaded_count`, move
 * accordingly. `downloaded_count` is an unbound Python local until the
 * first batch that returned photos: reading it then raises, and the
 * loop's catch-all handler counts that as one more error.
 */
module BatchCounter {
  import opened Wrappers

  /** After this many consecutive errors the loop cools down and starts counting again. */
  const MaxConsecutiveErrors: int := 5

  /** How one pass of the loop ended. */
  datatype BatchEvent =
    /** The fetch raised an exception that `get_photos_by_category` does not catch. */
    | FetchFailed
    /** The fetch returned `None`, an empty list or an empty object. */
    | NothingFetched
    /** The fetch returned photos; `downloaded` were new, and `finished` is false when the pass raised before its end. */
    | Batch(downloaded: nat, finished: bool)

  /**
   * The loop's cross-pass variables: the consecutive-error count, the
   * last value bound to `downloaded_count` (`None` while unbound) and the
   * number of ten-minute cooldowns taken so far.
   */
  datatype LoopState = LoopState(errors: int, downloadedCount: Option<nat>, cooldowns: nat)

  /** The state before the first pass. */
  const Initial: LoopState := LoopState(0, None, 0)

  /** One pass of the loop. */
  function Step(s: LoopState, e: BatchEvent): (t: LoopState)
    ensures e.Batch? ==> t.downloadedCount == Some(e.downloaded)
    ensures !e.Batch? ==> t.downloadedCount == s.downloadedCount
    ensures e.Batch? && e.finished ==> t.errors == 0
    ensures (e.FetchFailed? || (e.Batch? && !e.finished)) ==> t.errors == s.errors + 1 && t.cooldowns == s.cooldowns
    ensures e.NothingFetched? && s.errors + 1 < MaxConsecutiveErrors ==>
      t.errors == s.errors + 1 + (if s.downloadedCount.None? then 1 else 0) && t.cooldowns == s.cooldowns
    ensures e.NothingFetched? && s.errors + 1 >= MaxConsecutiveErrors ==>
      t.errors == (if s.downloadedCount.None? then 1 else 0) && t.cooldowns == s.cooldowns + 1
    ensures !e.NothingFetched? ==> t.cooldowns == s.cooldowns
  {
    match e
    case FetchFailed =>
      // raised inside the try: the handler adds one
      s.(errors := s.errors + 1)
    case NothingFetched =>
      var raised := s.errors + 1;
      var (afterCheck, cooldowns) :=
        if raised >= MaxConsecutiveErrors then (0, s.cooldowns + 1) else (raised, s.cooldowns);
      // the later read of `downloaded_count` raises while it is unbound
      var afterRead := if s.downloadedCount.None? then afterCheck + 1 else afterCheck;
      LoopState(afterRead, s.downloadedCount, cooldowns)
    case Batch(k, finished) =>
      LoopState(if finished then 0 else s.errors + 1, Some(k), s.cooldowns)
  }

  /** The state after a sequence of passes, in order. */
  function Run(s: LoopState, events: seq<BatchEvent>): (t: LoopState)
    ensures s.cooldowns <= t.cooldowns <= s.cooldowns + |events|
    ensures (s.downloadedCount.Some? || exists i :: 0 <= i < |events| && events[i].Batch?) ==> t.downloadedCount.Some?
    decreases |events|
  {
    if events == [] then s
    else
      assert forall i :: 1 <= i < |events| ==> events[i] == events[1..][i - 1];
      Run(Step(s, events[0]), events[1..])
  }

  /** `Run` over a sequence extended by one pass is one more `Step`. */
  lemma {:induction false} RunSnoc(s: LoopState, events: seq<BatchEvent>, e: BatchEvent)
    ensures Run(s, events + [e]) == Step(Run(s, events), e)
    decreases |events|
  {
    if events != [] {
      assert (events + [e])[1..] == events[1..] + [e];
      RunSnoc(Step(s, events[0]), events[1..], e);
    }
  }

  /**
   * The very first pass finding nothing counts two errors: one for the
   * empty fetch, one for the exception reading `downloaded_count`.
   */
  lemma FirstEmptyFetchCountsTwice()
    ensures Step(Initial, NothingFetched) == LoopState(2, None, 0)
  {
  }

  /**
   * Once a batch has bound `downloaded_count`, empty fetches count up by
   * one each, and every fifth one triggers a cooldown and a reset: after
   * `n` of them from `e < 5` errors the count is `(e + n) % 5` and
   * `(e + n) / 5` cooldowns have been taken.
   */
  lemma {:induction false} EmptyFetchesCycle(s: LoopState, n: nat)
    requires s.downloadedCount.Some? && 0 <= s.errors < MaxConsecutiveErrors
    ensures Run(s, seq(n, _ => NothingFetched)) ==
      LoopState((s.errors + n) % MaxConsecutiveErrors, s.downloadedCount, s.cooldowns + (s.errors + n) / MaxConsecutiveErrors)
    decreases n
  {
    if n > 0 {
      var events := seq(n, _ => NothingFetched);
      assert events[1..] == seq(n - 1, _ => NothingFetched);
      var t := Step(s, NothingFetched);
      EmptyFetchesCycle(t, n - 1);
      if s.errors + 1 < MaxConsecutiveErrors {
        assert t.errors + n - 1 == s.errors + n;
      } else {
        assert t.errors + n - 1 + MaxConsecutiveErrors == s.errors + n;
      }
    }
  }

  /**
   * While `downloaded_count` is unbound, empty fetches move the counter
   * 1 -> 3 -> 5 -> 1: each pass adds two, and the pass that starts at or
   * above four cools down, resets and then adds the one for the exception.
   */
  lemma UnboundEmptyFetchesCycle(c: nat)
    ensures Run(LoopState(1, None, c), [NothingFetched, NothingFetched, NothingFetched]) == LoopState(1, None, c + 1)
    ensures Run(Initial, [NothingFetched, NothingFetched]) == LoopState(4, None, 0)
  {
  }

  /**
   * Exceptions are counted but never compared with the threshold: `n`
   * failed fetches raise the count by `n` and take no cooldown.
   */
  lemma {:induction false} FailedFetchesNeverCoolDown(s: LoopState, n: nat)
    ensures Run(s, seq(n, _ => FetchFailed)) == s.(errors := s.errors + n)
    decreases n
  {
    if n > 0 {
      var events := seq(n, _ => FetchFailed);
      assert events[1..] == seq(n - 1, _ => FetchFailed);
      FailedFetchesNeverCoolDown(Step(s, FetchFailed), n - 1);
    }
  }

  /** `downloaded_count` stays unbound until the first pass that returned photos. */
  lemma {:induction false} UnboundUntilBatch(s: LoopState, events: seq<BatchEvent>)
    requires forall i :: 0 <= i < |events| ==> !events[i].Batch?
    ensures Run(s, events).downloadedCount == s.downloadedCount
    decreases |events|
  {
    if events != [] {
      UnboundUntilBatch(Step(s, events[0]), events[1..]);
    }
  }

  /**
   * Without exceptions, and once `downloaded_count` is bound, the counter
   * stays below the threshold: the cooldown brings it back to 0.
   */
  lemma {:induction false} ErrorsStayBelowThreshold(s: LoopState, events: seq<BatchEvent>)
    requires s.downloadedCount.Some? && 0 <= s.errors < MaxConsecutiveErrors
    requires forall i :: 0 <= i < |events| ==> events[i] == NothingFetched || (events[i].Batch? && events[i].finished)
    ensures Run(s, events).downloadedCount.Some?
    ensures 0 <= Run(s, events).errors < MaxConsecutiveErrors
    decreases |events|
  {
    if events != [] {
      ErrorsStayBelowThreshold(Step(s, events[0]), events[1..]);
    }
  }

  /** A finished batch wipes out any history: the counter is 0 whatever came before. */
  lemma {:induction false} FinishedBatchResets(s: LoopState, events: seq<BatchEvent>, k: nat)
    ensures Run(s, events + [Batch(k, true)]).errors == 0
    ensures Run(s, events + [Batch(k, true)]).downloadedCount == Some(k)
  {
    RunSnoc(s, events, Batch(k, true));
  }
}
