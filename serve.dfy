/**
  server/server.go: the accept loop. It hands every accepted connection to
  the handler, sleeps after a temporary accept error with a delay that
  starts at 5ms, doubles on each further consecutive temporary error and
  never exceeds 1s, resets after a success, and stops on any other error.
  Durations are Go's `time.Duration`, in nanoseconds.
 */
module ServeLoop {
  import opened Base
  import opened Streams

  const Millisecond: int := 1_000_000
  const Second: int := 1_000_000_000

  /** The first delay and the largest one. */
  const FirstDelay: int := 5 * Millisecond
  const MaxDelay: int := 1 * Second

  /** What one `Accept` returns; a `net.Error` whose `Temporary()` is true
      is a temporary error, every other error is permanent. */
  datatype AcceptOutcome = Accepted(conn: Stream) | TemporaryError(error: Error) | PermanentError(error: Error)

  /** The handler connections go to: the package's `DefaultHandler` or one
      the caller supplies. */
  datatype Handler = DefaultHandler | CustomHandler(id: nat)

  /** A listener, known by identity. */
  datatype Listener = Listener(id: nat)

  /** What the loop did with a run of accept outcomes: the error it
      returned (None if the outcomes ran out first), the delays it slept,
      and the connections it handed to the handler, in order. */
  datatype Trace = Trace(err: Option<Error>, sleeps: seq<int>, handed: seq<Stream>)

  /** The update of `tempDelay` after a temporary error. */
  function Backoff(d: int): int {
    var next := if d == 0 then FirstDelay else d * 2;
    if next > MaxDelay then MaxDelay else next
  }

  /** The loop as a function of the outcomes still to come and the current
      `tempDelay`. */
  function Run(accepts: seq<AcceptOutcome>, delay: int): Trace
    decreases |accepts|
  {
    if |accepts| == 0 then Trace(None, [], [])
    else match accepts[0]
      case Accepted(c) =>
        var t := Run(accepts[1..], 0);
        t.(handed := [c] + t.handed)
      case TemporaryError(_) =>
        var d := Backoff(delay);
        var t := Run(accepts[1..], d);
        t.(sleeps := [d] + t.sleeps)
      case PermanentError(e) => Trace(Some(e), [], [])
  }

  // ---------------------------------------------------------------------
  // Reference definitions

  /** The connections among the outcomes, in order. */
  function Conns(xs: seq<AcceptOutcome>): seq<Stream>
    decreases |xs|
  {
    if |xs| == 0 then []
    else if xs[0].Accepted? then [xs[0].conn] + Conns(xs[1..])
    else Conns(xs[1..])
  }

  /** How many of the outcomes are temporary errors. */
  function Temporaries(xs: seq<AcceptOutcome>): nat
    decreases |xs|
  {
    if |xs| == 0 then 0
    else (if xs[0].TemporaryError? then 1 else 0) + Temporaries(xs[1..])
  }

  /** Every delay lies between 5ms and 1s. */
  predicate InRange(sleeps: seq<int>) {
    forall k :: 0 <= k < |sleeps| ==> FirstDelay <= sleeps[k] <= MaxDelay
  }

  function Pow2(k: nat): nat {
    if k == 0 then 1 else 2 * Pow2(k - 1)
  }

  /** `tempDelay` after `k` consecutive temporary errors. */
  function Delay(k: nat): int {
    if k == 0 then 0 else Backoff(Delay(k - 1))
  }

  // ---------------------------------------------------------------------
  // Properties

  /** The delay after `k` consecutive temporary errors is 5ms doubled
      `k - 1` times, capped at 1s. */
  lemma {:induction false} DelayIsCappedDoubling(k: nat)
    requires k >= 1
    ensures Delay(k) == Min(FirstDelay * Pow2(k - 1), MaxDelay)
  {
    if k > 1 {
      DelayIsCappedDoubling(k - 1);
      var p := Pow2(k - 2);
      assert Pow2(k - 1) == 2 * p;
      if FirstDelay * p <= MaxDelay {
        assert Delay(k - 1) == FirstDelay * p;
        assert Delay(k - 1) != 0;
      } else {
        assert Delay(k - 1) == MaxDelay;
        assert FirstDelay * Pow2(k - 1) > MaxDelay;
      }
    }
  }

  /** Every sleep lies between 5ms and 1s, when the loop starts from no
      delay or from a delay already in that range. */
  lemma {:induction false} SleepsBounded(accepts: seq<AcceptOutcome>, d: int)
    requires d == 0 || FirstDelay <= d <= MaxDelay
    ensures InRange(Run(accepts, d).sleeps)
    decreases |accepts|
  {
    if |accepts| > 0 {
      match accepts[0]
      case Accepted(_) =>
        SleepsBounded(accepts[1..], 0);
      case TemporaryError(_) =>
        SleepsBounded(accepts[1..], Backoff(d));
        var t := Run(accepts[1..], Backoff(d));
        assert Run(accepts, d).sleeps == [Backoff(d)] + t.sleeps;
      case PermanentError(_) =>
    }
  }

  /** A run of `k` temporary errors, starting after `m` earlier ones,
      sleeps Delay(m + 1), ..., Delay(m + k). */
  lemma {:induction false} ConsecutiveTemporaries(accepts: seq<AcceptOutcome>, m: nat, k: nat)
    requires k <= |accepts|
    requires forall j :: 0 <= j < k ==> accepts[j].TemporaryError?
    ensures var t := Run(accepts, Delay(m));
      |t.sleeps| >= k && forall j :: 0 <= j < k ==> t.sleeps[j] == Delay(m + j + 1)
    decreases k
  {
    if k > 0 {
      assert forall j :: 0 <= j < k - 1 ==> accepts[1..][j] == accepts[j + 1];
      ConsecutiveTemporaries(accepts[1..], m + 1, k - 1);
      var t := Run(accepts, Delay(m));
      var t' := Run(accepts[1..], Delay(m + 1));
      assert t.sleeps == [Delay(m + 1)] + t'.sleeps;
    }
  }

  /** From the start, or right after a successful accept, `k` temporary
      errors in a row sleep 5ms, 10ms, 20ms, ... up to 1s. */
  lemma BackoffFromReset(accepts: seq<AcceptOutcome>, k: nat)
    requires k <= |accepts|
    requires forall j :: 0 <= j < k ==> accepts[j].TemporaryError?
    ensures var t := Run(accepts, 0);
      |t.sleeps| >= k && forall j :: 0 <= j < k ==> t.sleeps[j] == Min(FirstDelay * Pow2(j), MaxDelay)
  {
    ConsecutiveTemporaries(accepts, 0, k);
    forall j | 0 <= j < k
      ensures Delay(j + 1) == Min(FirstDelay * Pow2(j), MaxDelay)
    {
      DelayIsCappedDoubling(j + 1);
    }
  }

  /** A successful accept resets the delay: the next temporary error sleeps
      5ms, whatever came before. */
  lemma AcceptResets(accepts: seq<AcceptOutcome>, d: int)
    requires |accepts| >= 2 && accepts[0].Accepted? && accepts[1].TemporaryError?
    ensures var t := Run(accepts, d);
      |t.sleeps| >= 1 && t.sleeps[0] == FirstDelay && t.handed[0] == accepts[0].conn
  {
    assert accepts[1..][0] == accepts[1];
  }

  /** The loop stops at the first permanent error and returns it; until
      then it hands over every accepted connection, in order, and sleeps
      once per temporary error. */
  lemma {:induction false} RunStopsAtFirstFatal(accepts: seq<AcceptOutcome>, d: int, i: nat)
    requires i <= |accepts|
    requires forall j :: 0 <= j < i ==> !accepts[j].PermanentError?
    requires i == |accepts| || accepts[i].PermanentError?
    ensures var t := Run(accepts, d);
      && t.handed == Conns(accepts[..i])
      && |t.sleeps| == Temporaries(accepts[..i])
      && t.err == (if i == |accepts| then None else Some(accepts[i].error))
    decreases i
  {
    if i == 0 {
      assert accepts[..0] == [];
    } else {
      var rest := accepts[1..];
      assert forall j :: 0 <= j < i - 1 ==> rest[j] == accepts[j + 1];
      assert i - 1 == |rest| || rest[i - 1] == accepts[i];
      var prefix := accepts[..i];
      assert prefix[0] == accepts[0] && prefix[1..] == rest[..i - 1];
      RunStopsAtFirstFatal(rest, if accepts[0].Accepted? then 0 else Backoff(d), i - 1);
    }
  }

  /** One step of the loop at position `i`: what `Run` of the outcomes
      from `i` on is, in terms of the outcomes from `i + 1` on. */
  lemma RunStep(accepts: seq<AcceptOutcome>, i: nat, d: int)
    requires i < |accepts|
    ensures accepts[i].Accepted? ==>
      var t := Run(accepts[i + 1..], 0);
      Run(accepts[i..], d) == t.(handed := [accepts[i].conn] + t.handed)
    ensures accepts[i].TemporaryError? ==>
      var t := Run(accepts[i + 1..], Backoff(d));
      Run(accepts[i..], d) == t.(sleeps := [Backoff(d)] + t.sleeps)
    ensures accepts[i].PermanentError? ==>
      Run(accepts[i..], d) == Trace(Some(accepts[i].error), [], [])
  {
    assert accepts[i..][0] == accepts[i] && accepts[i..][1..] == accepts[i + 1..];
  }

  // ---------------------------------------------------------------------
  // The server object

  /** `Server`. */
  class Server {
    var listener: Option<Listener>

    /** The composite literal `&Server{Listener: ...}`. */
    constructor (listener: Option<Listener>)
      ensures this.listener == listener
    {
      this.listener := listener;
    }

    /** `Serve` over a finite run of accept outcomes. Without a listener it
        first listens (`listen` is what that gives), and a nil handler
        means `DefaultHandler`. */
    method Serve(h: Option<Handler>, listen: Result<Listener>, accepts: seq<AcceptOutcome>)
      returns (err: Option<Error>, used: Handler, sleeps: seq<int>, handed: seq<Stream>)
      modifies this
      ensures old(listener).None? && listen.Err? ==>
        err == Some(listen.error) && sleeps == [] && handed == [] && listener == None
      ensures old(listener).Some? || listen.Ok? ==>
        && listener == (if old(listener).Some? then old(listener) else Some(listen.value))
        && used == (if h.None? then DefaultHandler else h.value)
        && Trace(err, sleeps, handed) == Run(accepts, 0)
    {
      used := if h.None? then DefaultHandler else h.value;
      sleeps, handed := [], [];
      if listener.None? {
        if listen.Err? {
          return Some(listen.error), used, sleeps, handed;
        }
        listener := Some(listen.value);
      }
      ghost var held := listener;
      ghost var whole := Run(accepts, 0);
      var tempDelay := 0;
      var i := 0;
      while i < |accepts|
        invariant 0 <= i <= |accepts|
        invariant listener == held
        invariant whole.err == Run(accepts[i..], tempDelay).err
        invariant whole.sleeps == sleeps + Run(accepts[i..], tempDelay).sleeps
        invariant whole.handed == handed + Run(accepts[i..], tempDelay).handed
      {
        var a := accepts[i];
        RunStep(accepts, i, tempDelay);
        ghost var d0 := tempDelay;
        if a.PermanentError? {
          assert sleeps + [] == sleeps && handed + [] == handed;
          return Some(a.error), used, sleeps, handed;
        } else if a.TemporaryError? {
          if tempDelay == 0 {
            tempDelay := FirstDelay;
          } else {
            tempDelay := tempDelay * 2;
          }
          if tempDelay > MaxDelay {
            tempDelay := MaxDelay;
          }
          assert tempDelay == Backoff(d0);
          ghost var rest := Run(accepts[i + 1..], tempDelay).sleeps;
          assert sleeps + ([tempDelay] + rest) == (sleeps + [tempDelay]) + rest;
          sleeps := sleeps + [tempDelay];
        } else {
          tempDelay := 0;
          ghost var rest := Run(accepts[i + 1..], 0).handed;
          assert handed + ([a.conn] + rest) == (handed + [a.conn]) + rest;
          handed := handed + [a.conn];
        }
        i := i + 1;
      }
      assert accepts[i..] == [];
      assert sleeps + [] == sleeps && handed + [] == handed;
      err := None;
    }
  }
}
