/** The latest book per venue and symbol, and the polling loop that keeps it fresh: websocket first,
    polling as a fallback, and back. */
module OrderBookManager {
  import opened Prelude
  import opened OrderBook

  datatype Transport = Ws | Rest

  /** How one attempt to get a book ended. */
  datatype Reply = Snapshot(book: Book, at: int) | NotImplemented | Transient | Failure

  /** One attempt: whether websocket was eligible when it started, and how it ended. */
  datatype Try = Try(eligible: bool, reply: Reply)

  /** The counters one polling loop keeps between attempts. */
  datatype Poller = Poller(backoff: real, wsDisabled: int, wsFailures: int)

  const COOLDOWN := 30
  const FOREVER := 1000000000
  const MAX_BACKOFF := 5.0

  function FirstAttempt(interval: real): Poller {
    Poller(interval, 0, 0)
  }

  predicate UsesWs(eligible: bool, p: Poller) {
    eligible && p.wsDisabled <= 0
  }

  function TransportOf(eligible: bool, p: Poller): Transport {
    if UsesWs(eligible, p) then Ws else Rest
  }

  /** The counters after one attempt. */
  function Attempt(interval: real, p: Poller, y: Try): Poller {
    var ws := UsesWs(y.eligible, p);
    var slower := Min(MAX_BACKOFF, p.backoff * 2.0);
    match y.reply
    case Snapshot(_, _) =>
      if ws then Poller(interval, p.wsDisabled, 0)
      else Poller(interval, if p.wsDisabled > 0 then p.wsDisabled - 1 else p.wsDisabled, p.wsFailures)
    case NotImplemented => p.(wsDisabled := FOREVER)
    case Transient =>
      if !ws then p.(backoff := slower)
      else if p.wsFailures + 1 >= 3 then Poller(slower, COOLDOWN, 0)
      else Poller(slower, p.wsDisabled, p.wsFailures + 1)
    case Failure => Poller(slower, if ws then COOLDOWN else p.wsDisabled, p.wsFailures)
  }

  /** How long the loop sleeps after an attempt: not at all after a push or a missing implementation. */
  function Pause(interval: real, p: Poller, y: Try): real {
    match y.reply
    case Snapshot(_, _) => if UsesWs(y.eligible, p) then 0.0 else interval
    case NotImplemented => 0.0
    case _ => Min(MAX_BACKOFF, p.backoff)
  }

  /** The counters after a sequence of attempts. */
  function Attempts(interval: real, p: Poller, ys: seq<Try>): Poller {
    if ys == [] then p
    else Attempt(interval, Attempts(interval, p, ys[..|ys| - 1]), ys[|ys| - 1])
  }

  function Pauses(interval: real, p: Poller, ys: seq<Try>): seq<real> {
    if ys == [] then []
    else
      var init := ys[..|ys| - 1];
      Pauses(interval, p, init) + [Pause(interval, Attempts(interval, p, init), ys[|ys| - 1])]
  }

  /** Counters a loop can hold between attempts. */
  ghost predicate Steady(interval: real, p: Poller) {
    0 <= p.wsFailures <= 2 && 0 <= p.wsDisabled && p.backoff <= Max(MAX_BACKOFF, interval)
  }

  /** However attempts go, at most two websocket failures are outstanding between attempts and the
      backoff never exceeds five seconds or the polling interval. */
  lemma {:induction false} PollerStaysSteady(interval: real, ys: seq<Try>)
    ensures Steady(interval, Attempts(interval, FirstAttempt(interval), ys))
  {
    if ys != [] {
      PollerStaysSteady(interval, ys[..|ys| - 1]);
    }
  }

  /** No pause is longer than five seconds or the polling interval, and a failed attempt never waits
      more than five seconds. */
  lemma {:induction false} PausesAreBounded(interval: real, p: Poller, ys: seq<Try>)
    ensures |Pauses(interval, p, ys)| == |ys|
    ensures
      forall k :: 0 <= k < |ys| ==>
        Pauses(interval, p, ys)[k] <= if ys[k].reply.Snapshot? then Max(0.0, interval) else MAX_BACKOFF
  {
    if ys != [] {
      PausesAreBounded(interval, p, ys[..|ys| - 1]);
    }
  }

  /** What one attempt does to the counters.  Websocket is given up exactly on a missing implementation,
      on an error that is not transient, and on the third transient error outstanding; a transient
      error short of that is outstanding until a push arrives; polling never changes the outstanding
      errors and counts a cooldown down by one when it succeeds. */
  lemma AttemptCounts(interval: real, p: Poller, y: Try)
    requires 0 <= p.wsFailures <= 2 && 0 <= p.wsDisabled
    ensures
      var q := Attempt(interval, p, y);
      var ws := y.eligible && p.wsDisabled == 0;
      && (ws ==>
            && (q.wsDisabled > 0 <==>
                y.reply.NotImplemented? || y.reply.Failure? || (y.reply.Transient? && p.wsFailures == 2))
            && (q.wsDisabled > 0 ==> q.wsDisabled == if y.reply.NotImplemented? then 1000000000 else 30)
            && q.wsFailures == (match y.reply
                                case Snapshot(_, _) => 0
                                case Transient => if p.wsFailures == 2 then 0 else p.wsFailures + 1
                                case _ => p.wsFailures))
      && (!ws ==>
            && q.wsFailures == p.wsFailures
            && q.wsDisabled == (if y.reply.NotImplemented? then 1000000000
                                else if y.reply.Snapshot? && p.wsDisabled > 0 then p.wsDisabled - 1
                                else p.wsDisabled))
  {}

  function PowerOfTwo(k: nat): real {
    if k == 0 then 1.0 else 2.0 * PowerOfTwo(k - 1)
  }

  ghost predicate AllErrors(ys: seq<Try>) {
    forall y :: y in ys ==> y.reply.Transient? || y.reply.Failure?
  }

  /** Every error in a row doubles the backoff, up to five seconds, and a snapshot brings it back to the
      polling interval. */
  lemma {:induction false} BackoffDoubles(interval: real, p: Poller, ys: seq<Try>)
    requires 0.0 <= p.backoff && AllErrors(ys)
    ensures
      Attempts(interval, p, ys).backoff
      == if ys == [] then p.backoff else Min(5.0, Times(p.backoff, PowerOfTwo(|ys|)))
  {
    if ys != [] {
      var init := ys[..|ys| - 1];
      assert ys[|ys| - 1] in ys && forall y :: y in init ==> y in ys;
      BackoffDoubles(interval, p, init);
      Doubled(p.backoff, |init|);
      ErrorDoubles(interval, Attempts(interval, p, init), ys[|ys| - 1]);
      assert PowerOfTwo(|ys|) == PowerOfTwo(|init| + 1);
    }
  }

  lemma ErrorDoubles(interval: real, p: Poller, y: Try)
    requires y.reply.Transient? || y.reply.Failure?
    ensures Attempt(interval, p, y).backoff == Min(5.0, p.backoff * 2.0)
  {}

  lemma {:induction false} Doubled(x: real, k: nat)
    requires 0.0 <= x
    ensures Times(x, PowerOfTwo(k + 1)) == Times(x, PowerOfTwo(k)) * 2.0 && 0.0 <= Times(x, PowerOfTwo(k))
    ensures k == 0 ==> Times(x, PowerOfTwo(k)) == x
  {
    if k > 0 {
      Doubled(x, k - 1);
    }
  }

  lemma SnapshotResetsBackoff(interval: real, p: Poller, y: Try)
    ensures y.reply.Snapshot? ==> Attempt(interval, p, y).backoff == interval
    ensures y.reply.NotImplemented? ==> Attempt(interval, p, y).backoff == p.backoff
  {}

  /** A push and a missing implementation are followed up at once, a poll after the interval, an error
      after the backoff it found, at most five seconds. */
  lemma AttemptWaits(interval: real, p: Poller, y: Try)
    ensures
      var ws := y.eligible && p.wsDisabled <= 0;
      && (y.reply.NotImplemented? || (y.reply.Snapshot? && ws) ==> Pause(interval, p, y) == 0.0)
      && (y.reply.Snapshot? && !ws ==> Pause(interval, p, y) == interval)
      && (y.reply.Transient? || y.reply.Failure? ==>
            Pause(interval, p, y) == if p.backoff <= 5.0 then p.backoff else 5.0)
  {}

  /** The k-th pause is that of the k-th attempt, from the counters the attempts before it left. */
  lemma {:induction false} PausesFollowAttempts(interval: real, p: Poller, ys: seq<Try>, k: nat)
    requires k < |ys|
    ensures
      && |Pauses(interval, p, ys)| == |ys|
      && Pauses(interval, p, ys)[k] == Pause(interval, Attempts(interval, p, ys[..k]), ys[k])
  {
    var init := ys[..|ys| - 1];
    if k < |init| {
      PausesFollowAttempts(interval, p, init, k);
      assert init[..k] == ys[..k];
    } else {
      PausesAreBounded(interval, p, init);
    }
  }

  /** Successful attempts. */
  function Successes(ys: seq<Try>): nat {
    if ys == [] then 0 else Successes(ys[..|ys| - 1]) + (if ys[|ys| - 1].reply.Snapshot? then 1 else 0)
  }

  /** While a cooldown of `c` lasts, only polling is used, and only successful polls count it down:
      websocket can be tried again exactly when `c` polls have succeeded, whenever it is eligible. */
  lemma {:induction false} CooldownCountsSuccessfulPolls(interval: real, p: Poller, ys: seq<Try>)
    requires 0 < p.wsDisabled
    requires forall y :: y in ys ==> !y.reply.NotImplemented?
    requires Successes(ys) <= p.wsDisabled
    requires forall n :: 0 <= n < |ys| ==> Successes(ys[..n]) < p.wsDisabled
    ensures
      var q := Attempts(interval, p, ys);
      && q.wsDisabled == p.wsDisabled - Successes(ys) && q.wsFailures == p.wsFailures
      && (UsesWs(true, q) <==> Successes(ys) == p.wsDisabled)
      && forall n :: 0 <= n < |ys| ==> !UsesWs(true, Attempts(interval, p, ys[..n]))
  {
    if ys != [] {
      var init := ys[..|ys| - 1];
      assert ys[|ys| - 1] in ys && forall y :: y in init ==> y in ys;
      assert forall n :: 0 <= n <= |init| ==> init[..n] == ys[..n];
      assert Successes(init) < p.wsDisabled;
      CooldownCountsSuccessfulPolls(interval, p, init);
    }
  }

  /** The attempt that gives websocket up, on the third outstanding transient failure or on any other
      error, starts a cooldown of exactly thirty successful polls. */
  lemma FallbackLastsThirtyPolls(interval: real, p: Poller, y: Try, ys: seq<Try>)
    requires UsesWs(y.eligible, p) && 0 <= p.wsFailures <= 2
    requires y.reply.Failure? || (y.reply.Transient? && p.wsFailures == 2)
    requires forall x :: x in ys ==> !x.reply.NotImplemented?
    requires forall n :: 0 <= n < |ys| ==> Successes(ys[..n]) < COOLDOWN
    requires Successes(ys) <= COOLDOWN
    ensures
      var q := Attempt(interval, p, y);
      && q.wsDisabled == COOLDOWN
      && (UsesWs(true, Attempts(interval, q, ys)) <==> Successes(ys) == COOLDOWN)
      && forall n :: 0 <= n < |ys| ==> !UsesWs(true, Attempts(interval, q, ys[..n]))
  {
    CooldownCountsSuccessfulPolls(interval, Attempt(interval, p, y), ys);
  }

  /** A missing websocket implementation is given up for a billion successful polls, not for ever. */
  lemma NotImplementedIsNotPermanent(interval: real, p: Poller, eligible: bool, ys: seq<Try>)
    requires forall x :: x in ys ==> !x.reply.NotImplemented?
    requires forall n :: 0 <= n < |ys| ==> Successes(ys[..n]) < FOREVER
    requires Successes(ys) == FOREVER
    ensures UsesWs(true, Attempts(interval, Attempt(interval, p, Try(eligible, NotImplemented)), ys))
  {
    CooldownCountsSuccessfulPolls(interval, Attempt(interval, p, Try(eligible, NotImplemented)), ys);
  }

  datatype Entry = Entry(book: Book, receivedAt: int)

  type Key = (Exchange, Symbol)

  /** What a run of attempts for one pair leaves behind: the last snapshot and how it came. */
  function LastSnapshot(interval: real, p: Poller, ys: seq<Try>): Option<(Entry, Transport)> {
    if ys == [] then None
    else
      var init, last := ys[..|ys| - 1], ys[|ys| - 1];
      if last.reply.Snapshot?
      then
        Some((Entry(last.reply.book, last.reply.at), TransportOf(last.eligible, Attempts(interval, p, init))))
      else LastSnapshot(interval, p, init)
  }

  ghost predicate NoSnapshot(ys: seq<Try>) {
    forall y :: y in ys ==> !y.reply.Snapshot?
  }

  /** The source tag names the transport of the last update: websocket exactly when it was eligible and
      no cooldown was left at that attempt, however many failures followed. */
  lemma {:induction false} SourceNamesLastTransport(interval: real, p: Poller, before: seq<Try>, y: Try, after: seq<Try>)
    requires y.reply.Snapshot? && NoSnapshot(after)
    ensures
      var ws := y.eligible && Attempts(interval, p, before).wsDisabled <= 0;
      LastSnapshot(interval, p, before + [y] + after)
      == Some((Entry(y.reply.book, y.reply.at), if ws then Ws else Rest))
  {
    if after == [] {
      assert before + [y] + after == before + [y] && (before + [y])[..|before|] == before;
    } else {
      var init, last := after[..|after| - 1], after[|after| - 1];
      var ys := before + [y] + after;
      assert last in after && forall x :: x in init ==> x in after;
      assert ys[..|ys| - 1] == before + [y] + init && ys[|ys| - 1] == last;
      SourceNamesLastTransport(interval, p, before, y, init);
    }
  }

  lemma Overwritten<K, V>(m: map<K, V>, key: K, first: V, second: V)
    ensures m[key := first][key := second] == m[key := second]
  {}

  lemma TryStep(interval: real, p: Poller, ys: seq<Try>, i: nat)
    requires i < |ys|
    ensures
      var before, y := Attempts(interval, p, ys[..i]), ys[i];
      && Attempts(interval, p, ys[..i + 1]) == Attempt(interval, before, y)
      && Pauses(interval, p, ys[..i + 1]) == Pauses(interval, p, ys[..i]) + [Pause(interval, before, y)]
      && LastSnapshot(interval, p, ys[..i + 1])
         == if y.reply.Snapshot? then Some((Entry(y.reply.book, y.reply.at), TransportOf(y.eligible, before)))
            else LastSnapshot(interval, p, ys[..i])
  {
    assert ys[..i + 1][..i] == ys[..i];
  }

  class OrderBookManager {
    const maxStaleMs: int
    const interval: real
    var books: map<Key, Entry>
    var sources: map<Key, Transport>

    constructor (maxStaleMs: int, interval: real)
      ensures this.maxStaleMs == maxStaleMs && this.interval == interval && books == map[] && sources == map[]
    {
      this.maxStaleMs, this.interval, books, sources := maxStaleMs, interval, map[], map[];
    }

    method Update(book: Book, now: int)
      modifies this`books
      ensures books == old(books)[(book.exchange, book.symbol) := Entry(book, now)]
      ensures
        forall later ::
          AgeMs(book.exchange, book.symbol, later) == Some(if now <= later then later - now else 0)
    {
      books := books[(book.exchange, book.symbol) := Entry(book, now)];
    }

    function AgeMs(exchange: Exchange, symbol: Symbol, now: int): (age: Option<int>)
      reads this
    {
      if (exchange, symbol) !in books then None
      else
        var elapsed := now - books[(exchange, symbol)].receivedAt;
        Some(if elapsed < 0 then 0 else elapsed)
    }

    function IsStale(exchange: Exchange, symbol: Symbol, now: int): (stale: bool)
      reads this
    {
      (exchange, symbol) !in books || now - books[(exchange, symbol)].receivedAt > maxStaleMs
    }

    /** Staleness is age beyond the limit, for limits that are not negative: a snapshot from the future
        has age zero and is not stale. */
    lemma StaleIffTooOld(exchange: Exchange, symbol: Symbol, now: int)
      requires 0 <= maxStaleMs
      ensures
        var age := AgeMs(exchange, symbol, now);
        IsStale(exchange, symbol, now) <==> age.None? || age.value > maxStaleMs
    {}

    /** The polling loop of one venue and symbol for as long as the attempts last (the manager is
        stopped after them), with the replies about this pair.  The entry and source tag left behind
        are those of the last snapshot, untouched if there was none; entries of other pairs are never
        touched. */
    method PollOne(exchange: Exchange, symbol: Symbol, tries: seq<Try>) returns (last: Poller, pauses: seq<real>)
      requires
        forall y :: y in tries && y.reply.Snapshot? ==>
          y.reply.book.exchange == exchange && y.reply.book.symbol == symbol
      modifies this
      ensures last == Attempts(interval, FirstAttempt(interval), tries)
      ensures pauses == Pauses(interval, FirstAttempt(interval), tries)
      ensures
        var key := (exchange, symbol);
        match LastSnapshot(interval, FirstAttempt(interval), tries)
        case None => books == old(books) && sources == old(sources)
        case Some(found) => books == old(books)[key := found.0] && sources == old(sources)[key := found.1]
    {
      var key := (exchange, symbol);
      ghost var first := FirstAttempt(interval);
      var backoff, wsDisabled, wsFailures := interval, 0, 0;
      pauses := [];
      var i := 0;
      while i < |tries|
        invariant 0 <= i <= |tries|
        invariant Poller(backoff, wsDisabled, wsFailures) == Attempts(interval, first, tries[..i])
        invariant pauses == Pauses(interval, first, tries[..i])
        invariant
          match LastSnapshot(interval, first, tries[..i])
          case None => books == old(books) && sources == old(sources)
          case Some(found) => books == old(books)[key := found.0] && sources == old(sources)[key := found.1]
      {
        TryStep(interval, first, tries, i);
        var useWs := tries[i].eligible && wsDisabled <= 0;
        var pause := 0.0;
        match tries[i].reply {
          case Snapshot(book, at) =>
            assert tries[i] in tries;
            var source := if useWs then Ws else Rest;
            match LastSnapshot(interval, first, tries[..i]) {
              case None =>
              case Some(found) =>
                Overwritten(old(books), key, found.0, Entry(book, at));
                Overwritten(old(sources), key, found.1, source);
            }
            sources := sources[key := source];
            Update(book, at);
            backoff := interval;
            if useWs {
              wsFailures := 0;
            } else {
              if wsDisabled > 0 {
                wsDisabled := wsDisabled - 1;
              }
              pause := interval;
            }
          case NotImplemented =>
            wsDisabled := FOREVER;
          case Transient =>
            if useWs {
              wsFailures := wsFailures + 1;
              if wsFailures >= 3 {
                wsDisabled := COOLDOWN;
                wsFailures := 0;
              }
            }
            pause := Min(MAX_BACKOFF, backoff);
            backoff := Min(MAX_BACKOFF, backoff * 2.0);
          case Failure =>
            if useWs {
              wsDisabled := COOLDOWN;
            }
            pause := Min(MAX_BACKOFF, backoff);
            backoff := Min(MAX_BACKOFF, backoff * 2.0);
        }
        pauses := pauses + [pause];
        i := i + 1;
      }
      assert tries[..i] == tries;
      last := Poller(backoff, wsDisabled, wsFailures);
    }
  }
}
