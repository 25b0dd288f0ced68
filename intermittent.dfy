/**
 * The intermittent-failure simulator: `InfrabinService.Intermittent` fails its
 * caller `intermittentErrors` times in a row with `Unavailable`, then succeeds
 * once and starts over.  The only state is the service's `int32` counter; the
 * threshold is read from configuration afresh on every call.
 */
module Intermittent {
  import opened Grpc
  import Decimal
  import opened Wrappers

  const MinInt32: int := -0x8000_0000
  const MaxInt32: int := 0x7fff_ffff

  newtype int32 = x: int | -0x8000_0000 <= x < 0x8000_0000

  /** Two's-complement wrap-around of Go's `int32` arithmetic. */
  function Wrap32(x: int): (r: int32)
    ensures MinInt32 <= x <= MaxInt32 ==> r as int == x
    ensures (r as int - x) % 0x1_0000_0000 == 0
  {
    ((x - MinInt32) % 0x1_0000_0000 + MinInt32) as int32
  }

  function Max(a: int, b: int): int { if a < b then b else a }

  /** The message of a simulated failure: the remaining count, as `%d errors left`. */
  function ErrorsLeftMessage(left: int32): string {
    Decimal.FormatInt(left as int) + " errors left"
  }

  /** What one call decides: fail with a remaining count, or succeed reporting the threshold. */
  datatype Outcome = ErrorsLeft(left: int32) | Recovered(intermittentErrors: int32)

  /** The countdown message ends in `" errors left"`, and what precedes it reads back as the count. */
  lemma ErrorsLeftMessageReadsBack(left: int32)
    ensures var m := ErrorsLeftMessage(left);
      && |m| >= 12 && m[|m| - 12..] == " errors left"
      && Decimal.ParseInt(m[..|m| - 12]) == Some(left as int)
  {
    var m := ErrorsLeftMessage(left);
    assert m[..|m| - 12] == Decimal.FormatInt(left as int);
    assert m[|m| - 12..] == " errors left";
    Decimal.ParseFormatInt(left as int);
  }

  /**
   * The handler's return value for an outcome: a failure is `Unavailable`
   * and its message tells the caller the remaining count; a success returns
   * the threshold.
   */
  function ToResult(o: Outcome): (r: Result<int32>)
    ensures r.Failure? <==> o.ErrorsLeft?
    ensures o.ErrorsLeft? ==>
      var m := r.error.message;
      && r.error.code == Unavailable
      && |m| >= 12 && m[|m| - 12..] == " errors left"
      && Decimal.ParseInt(m[..|m| - 12]) == Some(o.left as int)
    ensures o.Recovered? ==> r.value == o.intermittentErrors
  {
    match o
    case ErrorsLeft(left) =>
      ErrorsLeftMessageReadsBack(left);
      Failure(Status(Unavailable, ErrorsLeftMessage(left)))
    case Recovered(n) => Success(n)
  }

  /** The counter after one call and what the call decided. */
  datatype Reply = Reply(counter: int32, outcome: Outcome)

  /**
   * One call of the handler on counter `counter` with threshold `maxErrs`.
   * Below the threshold the call counts one more failure and reports how many
   * failures are left, this one included; otherwise it resets the counter and
   * succeeds, reporting the threshold.
   */
  function Step(counter: int32, maxErrs: int32): (s: Reply)
    ensures counter < maxErrs ==> s.counter as int == counter as int + 1 && s.outcome.ErrorsLeft?
    ensures 0 <= counter < maxErrs ==>
      && 1 <= maxErrs as int - counter as int <= maxErrs as int
      && s.outcome == ErrorsLeft(maxErrs - counter)
    ensures maxErrs <= counter ==> s == Reply(0, Recovered(maxErrs))
    ensures 0 <= counter ==> 0 <= s.counter as int <= Max(0, maxErrs as int)
  {
    if counter < maxErrs then
      var next := counter + 1;
      Reply(next, ErrorsLeft(Wrap32(maxErrs as int - next as int + 1)))
    else
      Reply(0, Recovered(maxErrs))
  }

  /** The service object; only the counter of the intermittent handler is modelled. */
  class InfrabinService {
    var intermittentErrorsCounter: int32

    /** The counter invariant every sequence of calls keeps. */
    ghost predicate Valid()
      reads this
    {
      0 <= intermittentErrorsCounter
    }

    /** A fresh service: Go's zero value for the counter. */
    constructor ()
      ensures Valid() && intermittentErrorsCounter == 0
    {
      intermittentErrorsCounter := 0;
    }

    /** `Intermittent`; `intermittentErrors` is the configured threshold read on this call. */
    method Intermittent(intermittentErrors: int32) returns (r: Result<int32>)
      modifies this
      ensures intermittentErrorsCounter == Step(old(intermittentErrorsCounter), intermittentErrors).counter
      ensures r == ToResult(Step(old(intermittentErrorsCounter), intermittentErrors).outcome)
      ensures old(Valid()) ==> Valid() && intermittentErrorsCounter as int <= Max(0, intermittentErrors as int)
    {
      var maxErrs := intermittentErrors;
      if intermittentErrorsCounter < maxErrs {
        intermittentErrorsCounter := intermittentErrorsCounter + 1;
        r := Failure(Status(Unavailable,
          ErrorsLeftMessage(Wrap32(maxErrs as int - intermittentErrorsCounter as int + 1))));
        return;
      }
      intermittentErrorsCounter := 0;
      r := Success(maxErrs);
    }
  }

  /** The counter and the replies after `k` calls with a fixed threshold. */
  datatype History = History(counter: int32, outcomes: seq<Outcome>)

  function Calls(counter: int32, maxErrs: int32, k: nat): (h: History)
    ensures |h.outcomes| == k
  {
    if k == 0 then History(counter, [])
    else
      var prev := Calls(counter, maxErrs, k - 1);
      var s := Step(prev.counter, maxErrs);
      History(s.counter, prev.outcomes + [s.outcome])
  }

  /** The countdown `left, left - 1, ..., 1` of failures. */
  function Countdown(left: int32): (r: seq<Outcome>)
    requires 0 <= left
    ensures |r| == left as int
    decreases left
  {
    if left == 0 then [] else [ErrorsLeft(left)] + Countdown(left - 1)
  }

  lemma {:induction false} CallsSplit(counter: int32, maxErrs: int32, a: nat, b: nat)
    ensures Calls(counter, maxErrs, a + b).counter == Calls(Calls(counter, maxErrs, a).counter, maxErrs, b).counter
    ensures Calls(counter, maxErrs, a + b).outcomes
         == Calls(counter, maxErrs, a).outcomes + Calls(Calls(counter, maxErrs, a).counter, maxErrs, b).outcomes
    decreases b
  {
    if b > 0 {
      CallsSplit(counter, maxErrs, a, b - 1);
      var h := Calls(counter, maxErrs, a);
      var t := Calls(h.counter, maxErrs, b - 1);
      var s := Step(t.counter, maxErrs);
      var whole := Calls(counter, maxErrs, a + b - 1);
      assert whole.counter == t.counter && whole.outcomes == h.outcomes + t.outcomes;
      assert Calls(counter, maxErrs, a + b) == History(s.counter, whole.outcomes + [s.outcome]);
      assert Calls(h.counter, maxErrs, b) == History(s.counter, t.outcomes + [s.outcome]);
      assert (h.outcomes + t.outcomes) + [s.outcome] == h.outcomes + (t.outcomes + [s.outcome]);
    }
  }

  /** From counter `c` below the threshold, the next `n - c` calls all fail, counting down to 1. */
  lemma {:induction false} FailuresCountDown(c: int32, n: int32)
    requires 0 <= c <= n
    ensures Calls(c, n, (n - c) as nat) == History(n, Countdown(n - c))
    decreases n - c
  {
    if c < n {
      var k := (n - c) as nat;
      CallsSplit(c, n, 1, k - 1);
      assert Calls(c, n, 1) == History(c + 1, [ErrorsLeft(n - c)]);
      FailuresCountDown(c + 1, n);
    }
  }

  /**
   * The cycle: with a fixed threshold `n >= 0` and a counter at 0, the next
   * `n + 1` calls fail with remaining counts `n, ..., 1`, then one succeeds
   * reporting `n`, and the counter is back at 0.
   */
  lemma {:induction false} Cycle(n: int32)
    requires 0 <= n
    ensures Calls(0, n, n as nat + 1) == History(0, Countdown(n) + [Recovered(n)])
  {
    FailuresCountDown(0, n);
  }

  lemma ModOfSmall(j: nat, m: nat)
    requires j < m
    ensures j % m == j
  {
  }

  lemma ModShift(j: nat, m: nat)
    requires 0 < m <= j
    ensures j % m == (j - m) % m
  {
    var q, r := (j - m) / m, (j - m) % m;
    assert j - m == q * m + r;
    assert j == (q + 1) * m + r;
    var d := (q + 1) - j / m;
    assert d * m == j % m - r;
  }

  /** After `j` calls from a fresh counter the counter is `j mod (n + 1)`. */
  lemma {:induction false} CounterAfter(n: int32, j: nat)
    requires 0 <= n
    ensures Calls(0, n, j).counter as int == j % (n as int + 1)
    decreases j
  {
    var m := n as int + 1;
    if j < m {
      PrefixOfCountdown(n, j);
      ModOfSmall(j, m);
    } else {
      CallsSplit(0, n, m, j - m);
      Cycle(n);
      CounterAfter(n, j - m);
      ModShift(j, m);
    }
  }

  /** Before the threshold is reached, `p` calls from a fresh counter leave it at `p`. */
  lemma {:induction false} PrefixOfCountdown(n: int32, p: nat)
    requires 0 <= n && p <= n as int
    ensures Calls(0, n, p).counter as int == p
    decreases p
  {
    if p > 0 {
      PrefixOfCountdown(n, p - 1);
    }
  }

  /**
   * The reply to the call with index `j` (from 0) on a fresh counter, for a
   * fixed threshold `n >= 0`: it depends only on `j mod (n + 1)`, so the
   * pattern repeats forever.  With `n == 0` every call succeeds.
   */
  lemma {:induction false} NthReply(n: int32, j: nat)
    requires 0 <= n
    ensures var p := j % (n as int + 1);
      Calls(0, n, j + 1).outcomes[j] == if p < n as int then ErrorsLeft(n - p as int32) else Recovered(n)
  {
    CounterAfter(n, j);
    var prev := Calls(0, n, j);
    assert Calls(0, n, j + 1).outcomes[j] == Step(prev.counter, n).outcome;
  }
}

/** A caller's view: a fresh service, threshold 3, five calls in a row. */
module IntermittentScenario {
  import opened Grpc
  import opened Intermittent

  /** The three countdown messages of threshold 3, written out. */
  lemma CountdownMessages()
    ensures ErrorsLeftMessage(3) == "3 errors left"
    ensures ErrorsLeftMessage(2) == "2 errors left"
    ensures ErrorsLeftMessage(1) == "1 errors left"
  {
    assert Decimal.FormatInt(3) == [Decimal.DigitChar(3)] == "3";
    assert Decimal.FormatInt(2) == [Decimal.DigitChar(2)] == "2";
    assert Decimal.FormatInt(1) == [Decimal.DigitChar(1)] == "1";
  }

  method ThresholdThree() returns (replies: seq<Result<int32>>)
    ensures replies == [
      Failure(Status(Unavailable, "3 errors left")),
      Failure(Status(Unavailable, "2 errors left")),
      Failure(Status(Unavailable, "1 errors left")),
      Success(3),
      Failure(Status(Unavailable, "3 errors left"))]
  {
    var s := new InfrabinService();
    var r1 := s.Intermittent(3);
    assert r1 == ToResult(ErrorsLeft(3));
    var r2 := s.Intermittent(3);
    assert r2 == ToResult(ErrorsLeft(2));
    var r3 := s.Intermittent(3);
    assert r3 == ToResult(ErrorsLeft(1));
    var r4 := s.Intermittent(3);
    assert r4 == Success(3);
    var r5 := s.Intermittent(3);
    assert r5 == ToResult(ErrorsLeft(3));
    CountdownMessages();
    replies := [r1, r2, r3, r4, r5];
  }
}
