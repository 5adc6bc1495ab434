/** im/client/net/backoff.py and the supervisor of im/client/net/session.py, over reals. */
module Retrying {
  /** `b ** n`. */
  function Pow(b: real, n: nat): real {
    if n == 0 then 1.0 else b * Pow(b, n - 1)
  }

  function Min(a: real, b: real): real {
    if a <= b then a else b
  }

  datatype Policy = Policy(first: real, factor: real, maximum: real, jitter: real)

  const DEFAULT := Policy(1.0, 2.0, 30.0, 0.25)

  /** The delay before jitter, after so many attempts. */
  function Nominal(p: Policy, attempts: nat): real {
    Min(p.first * Pow(p.factor, attempts), p.maximum)
  }

  /** The delay, given a random draw in [0, 1). */
  function Delay(p: Policy, attempts: nat, draw: real): real {
    Jittered(Nominal(p, attempts), p.jitter, draw)
  }

  function Jittered(nominal: real, jitter: real, draw: real): real {
    if jitter <= 0.0 then nominal else nominal * (1.0 - draw * jitter)
  }

  /** Between (1 - jitter) and 1 times the nominal delay; exactly that without jitter. */
  ghost predicate Within(delay: real, nominal: real, jitter: real) {
    && delay <= nominal
    && (if jitter > 0.0 then (1.0 - jitter) * nominal <= delay else delay == nominal)
  }

  ghost predicate Growing(p: Policy) {
    p.first > 0.0 && p.factor > 1.0
  }

  // ------------------------------------------------------------ the schedule

  /** Bernoulli's inequality: powers outgrow any line. */
  lemma {:induction false} PowGrows(b: real, n: nat)
    requires b > 1.0
    ensures Pow(b, n) >= 1.0 + n as real * (b - 1.0)
  {
    if n > 0 {
      PowGrows(b, n - 1);
      var line, m := 1.0 + (n - 1) as real * (b - 1.0), (n - 1) as real;
      Scale(b, line, Pow(b, n - 1));
      assert b * line == 1.0 + n as real * (b - 1.0) + m * ((b - 1.0) * (b - 1.0));
      Scale(m, 0.0, (b - 1.0) * (b - 1.0));
    }
  }

  lemma Scale(c: real, x: real, y: real)
    requires c >= 0.0 && x <= y
    ensures c * x <= c * y
  {}

  lemma {:induction false} PowRises(b: real, n: nat, m: nat)
    requires b > 1.0 && n <= m
    ensures 1.0 <= Pow(b, n) <= Pow(b, m)
    decreases m
  {
    PowGrows(b, n);
    Scale(n as real, 0.0, b - 1.0);
    if n < m {
      PowRises(b, n, m - 1);
      Scale(Pow(b, m - 1), 1.0, b);
    }
  }

  /** Nominal delays never decrease and never pass the maximum. */
  lemma NominalRises(p: Policy, n: nat, m: nat)
    requires Growing(p) && n <= m
    ensures Nominal(p, n) <= Nominal(p, m) <= p.maximum
  {
    PowRises(p.factor, n, m);
    Scale(p.first, Pow(p.factor, n), Pow(p.factor, m));
  }

  /** How many attempts are enough to reach the maximum. */
  function Enough(p: Policy): nat
    requires p.first > 0.0 && p.factor > 1.0
  {
    if p.maximum <= 0.0 then 0 else Past(p.maximum, Stride(p.first, p.factor))
  }

  /** What each attempt adds, at the least. */
  function Stride(first: real, factor: real): (r: real)
    requires first > 0.0 && factor > 1.0
    ensures r > 0.0
  {
    Positive(first, factor - 1.0);
    first * (factor - 1.0)
  }

  lemma Positive(x: real, y: real)
    requires x > 0.0 && y > 0.0
    ensures x * y > 0.0
  {}

  /** A count of steps that goes past a distance. */
  function Past(a: real, step: real): nat
    requires a > 0.0 && step > 0.0
  {
    (a / step).Floor + 1
  }

  lemma PastQuotient(a: real, step: real, n: nat)
    requires a > 0.0 && step > 0.0 && n >= Past(a, step)
    ensures n as real * step >= a
  {
    var q := a / step;
    assert q * step == a;
    assert n as real >= q;
    Scale(step, q, n as real);
  }

  /** They reach the maximum after finitely many attempts, and stay there. */
  lemma NominalSettles(p: Policy, n: nat)
    requires Growing(p) && n >= Enough(p)
    ensures Nominal(p, n) == p.maximum
  {
    var step, power := Stride(p.first, p.factor), Pow(p.factor, n);
    PowGrows(p.factor, n);
    Line(p.first, p.factor, n, power);
    if p.maximum > 0.0 {
      PastQuotient(p.maximum, step, n);
    } else {
      Scale(n as real, 0.0, step);
    }
  }

  lemma Line(first: real, factor: real, n: nat, power: real)
    requires first > 0.0 && factor > 1.0 && power >= 1.0 + n as real * (factor - 1.0)
    ensures first * power >= first + n as real * Stride(first, factor)
  {
    Scale(first, 1.0 + n as real * (factor - 1.0), power);
    var m, d := n as real, factor - 1.0;
    assert first * (1.0 + m * d) == first + m * (first * d);
  }

  /** A share of a wait, taken off it. */
  lemma JitterIsWithin(nominal: real, jitter: real, draw: real)
    requires nominal >= 0.0 && 0.0 <= draw < 1.0
    ensures Within(Jittered(nominal, jitter, draw), nominal, jitter)
  {
    if jitter > 0.0 {
      var x := draw * jitter;
      assert 0.0 <= x <= jitter by { Scale(jitter, 0.0, draw); Scale(jitter, draw, 1.0); }
      Scale(nominal, 0.0, x);
      Scale(nominal, x, jitter);
      assert nominal * (1.0 - x) == nominal - nominal * x;
      assert (1.0 - jitter) * nominal == nominal - nominal * jitter;
    }
  }

  lemma NominalIsNotNegative(p: Policy, k: nat)
    requires Growing(p) && p.maximum >= 0.0
    ensures Nominal(p, k) >= 0.0
  {
    PowRises(p.factor, k, k);
    Scale(p.first, 0.0, Pow(p.factor, k));
  }

  /** Jitter takes off at most its share: between (1 - jitter) and 1 times the nominal. */
  lemma DelayIsWithin(p: Policy, k: nat, draw: real)
    requires Growing(p) && p.maximum >= 0.0 && 0.0 <= draw < 1.0
    ensures Within(Delay(p, k, draw), Nominal(p, k), p.jitter)
  {
    NominalIsNotNegative(p, k);
    JitterIsWithin(Nominal(p, k), p.jitter, draw);
  }

  // -------------------------------------------------------------- the objects

  class Backoff {
    const policy: Policy
    var attempts: nat

    constructor (policy: Policy)
      ensures this.policy == policy && attempts == 0
    {
      this.policy, attempts := policy, 0;
    }

    method Reset()
      modifies this
      ensures attempts == 0
    {
      attempts := 0;
    }

    method NextDelay(draw: real) returns (delay: real)
      modifies this
      ensures delay == Delay(policy, old(attempts), draw) && attempts == old(attempts) + 1
    {
      delay := Nominal(policy, attempts);
      attempts := attempts + 1;
      if policy.jitter <= 0.0 {
        return;
      }
      delay := delay * (1.0 - draw * policy.jitter);
    }
  }

  /** How one attempt to reconnect ends. An exception that is not caught ends the thread. */
  datatype Attempt = CONNECTED | FAILED | ESCAPED

  /** One turn of the supervisor: the connection is fine or being made, or it is down; and
      then it waits, unless told to stop meanwhile, and tries. */
  datatype Turn = Fine | Down(draw: real, stopped: bool, attempt: Attempt)

  /** The loop is over after one of these. */
  predicate Ended(turns: seq<Turn>) {
    exists i | 0 <= i < |turns| :: turns[i].Down? && (turns[i].stopped || turns[i].attempt == ESCAPED)
  }

  /** Failed attempts since the last success, or since the start. */
  function Streak(turns: seq<Turn>): nat {
    if turns == [] then 0 else
      var front, t := turns[..|turns| - 1], turns[|turns| - 1];
      if t.Fine? then Streak(front) else if t.attempt == CONNECTED then 0 else Streak(front) + 1
  }

  function Successes(turns: seq<Turn>): nat {
    if turns == [] then 0 else
      var front, t := turns[..|turns| - 1], turns[|turns| - 1];
      Successes(front) + if t.Down? && t.attempt == CONNECTED then 1 else 0
  }

  /** What is waited before each attempt, by how many failed just before it. */
  function Waits(p: Policy, turns: seq<Turn>): seq<real> {
    if turns == [] then [] else
      var front, t := turns[..|turns| - 1], turns[|turns| - 1];
      if Ended(front) || t.Fine? then Waits(p, front) else Waits(p, front) + [Delay(p, Streak(front), t.draw)]
  }

  class Supervisor {
    const backoff: Backoff
    var reconnects: nat

    /** A session that has just logged in: `start` resets the schedule. */
    constructor (policy: Policy)
      ensures fresh(backoff) && backoff.policy == policy && backoff.attempts == 0 && reconnects == 0
    {
      backoff := new Backoff(policy);
      reconnects := 0;
    }

    method Watch(turns: seq<Turn>) returns (waits: seq<real>)
      requires backoff.attempts == 0
      modifies this, backoff
      ensures waits == Waits(backoff.policy, turns)
      ensures !Ended(turns) ==> backoff.attempts == Streak(turns) && reconnects == old(reconnects) + Successes(turns)
    {
      waits := [];
      for i := 0 to |turns|
        invariant waits == Waits(backoff.policy, turns[..i]) && !Ended(turns[..i])
        invariant backoff.attempts == Streak(turns[..i]) && reconnects == old(reconnects) + Successes(turns[..i])
      {
        assert turns[..i + 1][..i] == turns[..i];
        if turns[i].Fine? {
          continue;
        }
        var delay := backoff.NextDelay(turns[i].draw);
        waits := waits + [delay];
        if turns[i].stopped || turns[i].attempt == ESCAPED {
          assert turns[..i + 1][i] == turns[i];
          OverIsOver(backoff.policy, turns, i + 1);
          return;
        }
        if turns[i].attempt == CONNECTED {
          reconnects := reconnects + 1;
          backoff.Reset();
        }
      }
      assert turns[..|turns|] == turns;
    }
  }

  lemma {:induction false} OverIsOver(p: Policy, turns: seq<Turn>, n: nat)
    requires n <= |turns| && Ended(turns[..n])
    ensures Ended(turns) && Waits(p, turns) == Waits(p, turns[..n])
    decreases |turns|
  {
    var i :| 0 <= i < n && turns[..n][i].Down? && (turns[..n][i].stopped || turns[..n][i].attempt == ESCAPED);
    assert turns[i] == turns[..n][i];
    if n < |turns| {
      var front := turns[..|turns| - 1];
      assert front[..n] == turns[..n];
      OverIsOver(p, front, n);
    } else {
      assert turns[..n] == turns;
    }
  }

  // ------------------------------------------------------------- the promise

  /** Each wait of the loop, with k failures just before it, lies between (1 - jitter) and
      1 times min(first * factor^k, maximum). */
  lemma RetrySchedule(p: Policy, turns: seq<Turn>, i: nat)
    requires Growing(p) && p.maximum >= 0.0
    requires i < |turns| && turns[i].Down? && 0.0 <= turns[i].draw < 1.0 && !Ended(turns[..i])
    ensures |Waits(p, turns[..i + 1])| == |Waits(p, turns[..i])| + 1 && Waits(p, turns[..i]) <= Waits(p, turns[..i + 1])
    ensures Within(Waits(p, turns[..i + 1])[|Waits(p, turns[..i])|],
                   Min(p.first * Pow(p.factor, Streak(turns[..i])), p.maximum), p.jitter)
  {
    var wait := Delay(p, Streak(turns[..i]), turns[i].draw);
    assert turns[..i + 1][..i] == turns[..i];
    DelayIsWithin(p, Streak(turns[..i]), turns[i].draw);
    assert Waits(p, turns[..i + 1]) == Waits(p, turns[..i]) + [wait];
  }

  /** One success starts again from k = 0, and k counts the failures from there. */
  lemma {:induction false} SuccessRestarts(before: seq<Turn>, success: Turn, after: seq<Turn>)
    requires success.Down? && success.attempt == CONNECTED
    requires forall i | 0 <= i < |after| :: after[i].Down? ==> after[i].attempt == FAILED
    ensures Streak(before + [success] + after) == |Attempts(after)|
  {
    var turns := before + [success] + after;
    if after == [] {
      assert turns[..|turns| - 1] == before && turns[|turns| - 1] == success;
    } else {
      var front := after[..|after| - 1];
      assert turns[..|turns| - 1] == before + [success] + front && turns[|turns| - 1] == after[|after| - 1];
      SuccessRestarts(before, success, front);
    }
  }

  /** The turns that tried. */
  function Attempts(turns: seq<Turn>): seq<Turn> {
    if turns == [] then [] else
      Attempts(turns[..|turns| - 1]) + if turns[|turns| - 1].Down? then [turns[|turns| - 1]] else []
  }

  /** The schedule as shipped doubles from one second and settles at thirty. */
  lemma DefaultSchedule(n: nat)
    ensures n < 5 ==> Nominal(DEFAULT, n) == Pow(2.0, n)
    ensures n >= 5 ==> Nominal(DEFAULT, n) == 30.0
  {
    assert Pow(2.0, 1) == 2.0 && Pow(2.0, 2) == 4.0;
    assert Pow(2.0, 3) == 8.0 && Pow(2.0, 4) == 16.0 && Pow(2.0, 5) == 32.0;
    if n >= 5 { PowRises(2.0, 5, n); }
  }
}
