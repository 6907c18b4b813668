/**
 * `fetchWithRetry`: up to `retries` attempts at one endpoint.  A 2xx or 404 reply is
 * returned at once; a 401 triggers one session refresh and the next attempt without
 * waiting; any other reply, and a network error before the last attempt, is followed
 * by a back-off of `min(1000 * 2^i, 5000)` ms.
 *
 * The network is a script: `main(i)` is what the endpoint does on attempt `i`,
 * `refresh(i)` what `/api/auth/session` does when attempt `i` refreshes.  Waiting is
 * recorded as an event instead of being performed.
 */
module Retry {

  /** What one `fetch` does: answer with a status and a body, or throw. */
  datatype Attempt<P> = Responded(status: int, payload: P) | Failed(message: string)

  datatype Server<P> = Server(main: nat -> Attempt<P>, refresh: nat -> Attempt<P>)

  datatype FetchError = Network(message: string) | MaxRetries

  datatype Outcome<P> = Returned(status: int, payload: P) | Threw(error: FetchError)

  /** The observable steps of a run: a request, a session refresh, a wait. */
  datatype Event = Call(attempt: nat) | Refresh(attempt: nat) | Sleep(attempt: nat, ms: nat)

  datatype Run<P> = Run(outcome: Outcome<P>, events: seq<Event>)

  /** `response.ok`. */
  predicate IsOk(status: int) {
    200 <= status <= 299
  }

  /** A reply that ends the loop. */
  predicate IsTerminal<P>(a: Attempt<P>) {
    a.Responded? && (IsOk(a.status) || a.status == 404)
  }

  function Pow2(i: nat): (r: nat)
    ensures r >= 1
  {
    if i == 0 then 1 else 2 * Pow2(i - 1)
  }

  /** `Math.min(1000 * Math.pow(2, i), 5000)`. */
  function Backoff(i: nat): (ms: nat)
    ensures 1000 <= ms <= 5000
  {
    var d := 1000 * Pow2(i);
    if d < 5000 then d else 5000
  }

  /** The waits are 1000, 2000 and 4000 ms, then 5000 ms from the fourth attempt on. */
  lemma {:induction false} BackoffSchedule(i: nat)
    ensures Backoff(0) == 1000 && Backoff(1) == 2000 && Backoff(2) == 4000
    ensures i >= 3 ==> Backoff(i) == 5000
  {
    assert Pow2(2) == 4;
    if i >= 3 {
      Pow2AtLeast8(i);
    }
  }

  lemma {:induction false} Pow2AtLeast8(i: nat)
    requires i >= 3
    ensures Pow2(i) >= 8
  {
    if i > 3 {
      Pow2AtLeast8(i - 1);
    } else {
      assert Pow2(3) == 2 * Pow2(2) == 4 * Pow2(1);
    }
  }

  function Prepend<P>(events: seq<Event>, r: Run<P>): Run<P> {
    Run(r.outcome, events + r.events)
  }

  /** What one pass of the loop body does: end the run, or record events and go on. */
  datatype Step<P> = Stop(run: Run<P>) | Continue(events: seq<Event>)

  /** The body of the loop for attempt `i`, its `try` and its `catch`. */
  function AttemptStep<P>(s: Server<P>, retries: int, i: nat): Step<P> {
    match s.main(i)
    case Failed(e) =>
      if i == retries - 1 then Stop(Run(Threw(Network(e)), [Call(i)]))
      else Continue([Call(i), Sleep(i, Backoff(i))])
    case Responded(status, payload) =>
      if IsOk(status) || status == 404 then Stop(Run(Returned(status, payload), [Call(i)]))
      else if status == 401 then
        match s.refresh(i)
        case Failed(e) =>
          if i == retries - 1 then Stop(Run(Threw(Network(e)), [Call(i), Refresh(i)]))
          else Continue([Call(i), Refresh(i), Sleep(i, Backoff(i))])
        case Responded(_, _) => Continue([Call(i), Refresh(i)])
      else Continue([Call(i), Sleep(i, Backoff(i))])
  }

  /** The loop from attempt `i` on, as the specification of `FetchWithRetry`. */
  function Attempts<P>(s: Server<P>, retries: int, i: nat): Run<P>
    decreases retries - i
  {
    if i >= retries then Run(Threw(MaxRetries), [])
    else match AttemptStep(s, retries, i)
      case Stop(r) => r
      case Continue(evs) => Prepend(evs, Attempts(s, retries, i + 1))
  }

  /** The retry loop itself. */
  method FetchWithRetry<P>(s: Server<P>, retries: int) returns (out: Outcome<P>, events: seq<Event>)
    ensures Run(out, events) == Attempts(s, retries, 0)
  {
    events := [];
    var i: nat := 0;
    while i < retries
      invariant Attempts(s, retries, 0) == Prepend(events, Attempts(s, retries, i))
      decreases retries - i
    {
      ghost var before := events;
      var a := s.main(i);
      var step: seq<Event>;
      if a.Failed? {
        if i == retries - 1 {
          return Threw(Network(a.message)), events + [Call(i)];
        }
        step := [Call(i), Sleep(i, Backoff(i))];
      } else if IsOk(a.status) || a.status == 404 {
        return Returned(a.status, a.payload), events + [Call(i)];
      } else if a.status == 401 {
        var session := s.refresh(i);
        if session.Failed? {
          if i == retries - 1 {
            return Threw(Network(session.message)), events + [Call(i), Refresh(i)];
          }
          step := [Call(i), Refresh(i), Sleep(i, Backoff(i))];
        } else {
          step := [Call(i), Refresh(i)];
        }
      } else {
        step := [Call(i), Sleep(i, Backoff(i))];
      }
      assert AttemptStep(s, retries, i) == Continue(step);
      events := events + step;
      PrependPrepend(before, step, Attempts(s, retries, i + 1));
      i := i + 1;
    }
    out := Threw(MaxRetries);
  }

  lemma PrependPrepend<P>(a: seq<Event>, b: seq<Event>, r: Run<P>)
    ensures Prepend(a, Prepend(b, r)) == Prepend(a + b, r)
  {
  }

  // ---------------------------------------------------------------------------
  // Properties of the loop

  /** The first terminal reply is the one returned; network errors and failed
      refreshes before it are caught and the loop goes on. */
  lemma {:induction false} ReturnsFirstTerminal<P>(s: Server<P>, retries: int, i: nat, j: nat)
    requires i <= j < retries && IsTerminal(s.main(j))
    requires forall k :: i <= k < j ==> !IsTerminal(s.main(k))
    ensures Attempts(s, retries, i).outcome == Returned(s.main(j).status, s.main(j).payload)
    decreases j - i
  {
    if i < j {
      ReturnsFirstTerminal(s, retries, i + 1, j);
    }
  }

  /** Whatever is returned is a terminal reply of some attempt. */
  lemma {:induction false} ReturnedIsTerminal<P>(s: Server<P>, retries: int, i: nat)
    ensures var o := Attempts(s, retries, i).outcome;
      o.Returned? ==> exists j :: i <= j < retries && IsTerminal(s.main(j)) && s.main(j) == Responded(o.status, o.payload)
    decreases retries - i
  {
    if i < retries && !IsTerminal(s.main(i)) {
      ReturnedIsTerminal(s, retries, i + 1);
    }
  }

  /** Number of requests to the endpoint among `events`. */
  function Calls(events: seq<Event>): nat {
    if events == [] then 0 else (if events[0].Call? then 1 else 0) + Calls(events[1..])
  }

  lemma {:induction false} CallsAppend(a: seq<Event>, b: seq<Event>)
    ensures Calls(a + b) == Calls(a) + Calls(b)
  {
    if a == [] {
      assert a + b == b;
    } else {
      assert (a + b)[0] == a[0];
      assert (a + b)[1..] == a[1..] + b;
      CallsAppend(a[1..], b);
    }
  }

  /** The endpoint is called at most `retries` times. */
  lemma {:induction false} AtMostRetriesCalls<P>(s: Server<P>, retries: int, i: nat)
    ensures Calls(Attempts(s, retries, i).events) <= if i < retries then retries - i else 0
    decreases retries - i
  {
    if i < retries {
      AtMostRetriesCalls(s, retries, i + 1);
      var rest := Attempts(s, retries, i + 1).events;
      CallsAppend([Call(i), Sleep(i, Backoff(i))], rest);
      CallsAppend([Call(i), Refresh(i)], rest);
      CallsAppend([Call(i), Refresh(i), Sleep(i, Backoff(i))], rest);
      assert Calls([Call(i), Refresh(i), Sleep(i, Backoff(i))]) == 1 by {
        assert [Call(i), Refresh(i), Sleep(i, Backoff(i))][1..] == [Refresh(i), Sleep(i, Backoff(i))];
        assert [Refresh(i), Sleep(i, Backoff(i))][1..] == [Sleep(i, Backoff(i))];
      }
      assert Calls([Call(i), Sleep(i, Backoff(i))]) == 1 by {
        assert [Call(i), Sleep(i, Backoff(i))][1..] == [Sleep(i, Backoff(i))];
      }
      assert Calls([Call(i), Refresh(i)]) == 1 by {
        assert [Call(i), Refresh(i)][1..] == [Refresh(i)];
      }
    }
  }

  /** Every wait follows a failed attempt and lasts `Backoff` of that attempt; a 401
      whose session refresh answered is never followed by a wait. */
  lemma {:induction false} WaitsAreBackoffs<P>(s: Server<P>, retries: int, i: nat)
    ensures forall e :: e in Attempts(s, retries, i).events && e.Sleep? ==>
      && i <= e.attempt < retries
      && e.ms == Backoff(e.attempt) && e.ms <= 5000
      && !IsTerminal(s.main(e.attempt))
      && !(s.main(e.attempt).Responded? && s.main(e.attempt).status == 401 && s.refresh(e.attempt).Responded?)
    decreases retries - i
  {
    if i < retries {
      WaitsAreBackoffs(s, retries, i + 1);
    }
  }

  /** A session refresh happens only after a 401, once per such attempt. */
  lemma {:induction false} RefreshOnlyAfter401<P>(s: Server<P>, retries: int, i: nat)
    ensures forall e :: e in Attempts(s, retries, i).events && e.Refresh? ==>
      i <= e.attempt < retries && s.main(e.attempt).Responded? && s.main(e.attempt).status == 401
    decreases retries - i
  {
    if i < retries {
      RefreshOnlyAfter401(s, retries, i + 1);
    }
  }

  /** A 401 answered by the refresh goes straight to the next attempt. */
  lemma UnauthorizedRetriesAtOnce<P>(s: Server<P>, retries: int, i: nat)
    requires i < retries
    requires s.main(i).Responded? && s.main(i).status == 401 && s.refresh(i).Responded?
    ensures Attempts(s, retries, i) == Prepend([Call(i), Refresh(i)], Attempts(s, retries, i + 1))
  {
  }

  /** When no attempt gets a terminal reply and the last one does not throw, the run
      ends in 'Max retries reached'; earlier network errors and failed refreshes are
      caught and the loop goes on. */
  lemma {:induction false} ExhaustedThrowsMax<P>(s: Server<P>, retries: int, i: nat)
    requires forall k :: i <= k < retries ==> !IsTerminal(s.main(k))
    requires i < retries ==>
      s.main(retries - 1).Responded? && (s.main(retries - 1).status == 401 ==> s.refresh(retries - 1).Responded?)
    ensures Attempts(s, retries, i).outcome == Threw(MaxRetries)
    decreases retries - i
  {
    if i < retries {
      ExhaustedThrowsMax(s, retries, i + 1);
    }
  }

  /** A network error on the last attempt is rethrown unchanged. */
  lemma {:induction false} LastNetworkErrorRethrown<P>(s: Server<P>, retries: int, i: nat, e: string)
    requires i < retries && s.main(retries - 1) == Failed(e)
    requires forall k :: i <= k < retries - 1 ==> !IsTerminal(s.main(k))
    ensures Attempts(s, retries, i).outcome == Threw(Network(e))
    decreases retries - i
  {
    if i < retries - 1 {
      LastNetworkErrorRethrown(s, retries, i + 1, e);
    }
  }
}
