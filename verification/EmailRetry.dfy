/** Sending email with retries: which outcomes are retried, how often, and how long it may take. */
module EmailRetry {
  import opened Common

  /** What talking to the SMTP server may come to. */
  datatype Outcome =
    | Accepted
    | AuthenticationError
    | Response(code: int)
    | Timeout
    | ConnectionError
    | Unexpected

  datatype Sending = Returned(success: bool) | Raised(error: Outcome)

  /** `send_email`: authentication errors and 5xx are final, everything else is raised. */
  function SendEmail(outcome: Outcome): Sending {
    match outcome
    case Accepted => Returned(true)
    case AuthenticationError => Returned(false)
    case Response(code) => if 500 <= code < 600 then Returned(false) else Raised(outcome)
    case _ => Raised(outcome)
  }

  predicate Retried(error: Outcome) {
    error.Timeout? || error.ConnectionError? || (error.Response? && 400 <= error.code < 500)
  }

  const MAX_BACKOFF := 300

  function Pow2(n: nat): nat { if n == 0 then 1 else 2 * Pow2(n - 1) }

  function Min(a: int, b: int): int { if a < b then a else b }

  function Capped(attempt: nat, base: int): int { Min(base * Pow2(attempt), MAX_BACKOFF) }

  /** Ten percent jitter either way, never below zero; `random` stands for `random.random()`. */
  function Jittered(backoff: real, random: real): real {
    var jitter := backoff * 0.1 * (2.0 * random - 1.0);
    if backoff + jitter > 0.0 then backoff + jitter else 0.0
  }

  function Backoff(attempt: nat, base: int, random: real): real {
    Jittered(Capped(attempt, base) as real, random)
  }

  /** `max_retries or settings.smtp_max_retries`: asking for 0 retries means the default too. */
  function EffectiveRetries(maxRetries: Option<int>, default: int): int {
    if maxRetries.None? || maxRetries.value == 0 then default else maxRetries.value
  }

  /** The whole trace: every attempt before the last was transient, and the last ended it. */
  predicate IsTrace(smtp: nat -> Outcome, retries: int, sends: nat) {
    && sends <= (if retries < 0 then 0 else retries + 1)
    && (forall i :: 0 <= i < sends - 1 ==> Retried(smtp(i)))
    && (sends == 0 ==> retries < 0)
    && (sends > 0 ==> sends - 1 == retries || !Retried(smtp(sends - 1)))
  }

  /** The number of sends is determined, and they end in success exactly when some attempt within the
      allowance is accepted after nothing but transient errors. */
  lemma TraceDecides(smtp: nat -> Outcome, retries: int, sends: nat, other: nat)
    requires IsTrace(smtp, retries, sends) && IsTrace(smtp, retries, other)
    ensures sends == other
    ensures sends > 0 && smtp(sends - 1).Accepted?
            <==> exists i: nat :: i <= retries && smtp(i).Accepted? && forall k: nat :: k < i ==> Retried(smtp(k))
  {
    if i: nat :| i <= retries && smtp(i).Accepted? && forall k: nat :: k < i ==> Retried(smtp(k)) {
      assert i == sends - 1;
    }
    if sends > 0 && smtp(sends - 1).Accepted? {
      assert forall k: nat :: k < sends - 1 ==> Retried(smtp(k));
    }
  }

  /** True for an accepted message, False for a failed login and for 5xx, and an exception for everything else. */
  lemma SendEmailMaps(outcome: Outcome)
    ensures SendEmail(outcome) == Returned(true) <==> outcome == Accepted
    ensures SendEmail(outcome) == Returned(false) <==>
              outcome == AuthenticationError || (outcome.Response? && 500 <= outcome.code < 600)
    ensures SendEmail(outcome).Raised? ==> SendEmail(outcome).error == outcome
  {
  }

  /** Timeouts, connection errors and 4xx responses, and nothing else, are sent again. */
  lemma TraceInOutcomes(smtp: nat -> Outcome, retries: int)
    ensures forall sends: nat :: IsTrace(smtp, retries, sends) ==>
              && (sends == 0 <==> retries < 0)
              && (sends > 0 && smtp(sends - 1) == Accepted <==>
                    exists i: nat :: i <= retries && smtp(i) == Accepted
                      && forall k: nat :: k < i ==>
                           smtp(k) == Timeout || smtp(k) == ConnectionError || (smtp(k).Response? && 400 <= smtp(k).code < 500))
              && (sends > 0 ==>
                    && sends - 1 <= retries
                    && (forall k: nat :: k < sends - 1 ==>
                          smtp(k) == Timeout || smtp(k) == ConnectionError || (smtp(k).Response? && 400 <= smtp(k).code < 500))
                    && (sends - 1 < retries ==>
                          var last := smtp(sends - 1);
                          !(last == Timeout || last == ConnectionError || (last.Response? && 400 <= last.code < 500))))
  {
    forall sends: nat | IsTrace(smtp, retries, sends)
      ensures sends > 0 && smtp(sends - 1) == Accepted <==>
                exists i: nat :: i <= retries && smtp(i) == Accepted
                  && forall k: nat :: k < i ==>
                       smtp(k) == Timeout || smtp(k) == ConnectionError || (smtp(k).Response? && 400 <= smtp(k).code < 500)
    {
      TraceDecides(smtp, retries, sends, sends);
    }
  }

  method SendWithRetry(smtp: nat -> Outcome, random: nat -> real, maxRetries: Option<int>, base: int, default: int)
    returns (success: bool, sends: nat, sleeps: seq<real>)
    ensures IsTrace(smtp, EffectiveRetries(maxRetries, default), sends)
    ensures success <==> sends > 0 && smtp(sends - 1).Accepted?
    ensures |sleeps| == if sends == 0 then 0 else sends - 1
    ensures forall i :: 0 <= i < |sleeps| ==> sleeps[i] == Backoff(i, base, random(i))
    ensures var retries := if maxRetries.None? || maxRetries.value == 0 then default else maxRetries.value;
            && (success <==>
                  exists i: nat :: i <= retries && smtp(i) == Accepted
                    && forall k: nat :: k < i ==>
                         smtp(k) == Timeout || smtp(k) == ConnectionError || (smtp(k).Response? && 400 <= smtp(k).code < 500))
            && (sends == 0 <==> retries < 0)
            && (sends > 0 ==>
                  && sends - 1 <= retries
                  && (forall k: nat :: k < sends - 1 ==>
                        smtp(k) == Timeout || smtp(k) == ConnectionError || (smtp(k).Response? && 400 <= smtp(k).code < 500))
                  && (sends - 1 < retries ==>
                        var last := smtp(sends - 1);
                        !(last == Timeout || last == ConnectionError || (last.Response? && 400 <= last.code < 500))))
  {
    TraceInOutcomes(smtp, EffectiveRetries(maxRetries, default));
    var retries := EffectiveRetries(maxRetries, default);
    sends, sleeps := 0, [];
    while sends < retries + 1
      invariant 0 <= sends <= (if retries < 0 then 0 else retries + 1)
      invariant |sleeps| == sends && (sends > 0 ==> sends <= retries)
      invariant forall i :: 0 <= i < sends ==> Retried(smtp(i))
      invariant forall i :: 0 <= i < |sleeps| ==> sleeps[i] == Backoff(i, base, random(i))
      decreases retries + 1 - sends
    {
      var attempt := sends;
      sends := sends + 1;
      match SendEmail(smtp(attempt)) {
        case Returned(ok) => return ok, sends, sleeps;
        case Raised(error) =>
          if !Retried(error) {
            return false, sends, sleeps;
          }
          if attempt >= retries {
            return false, sends, sleeps;
          }
          sleeps := sleeps + [Backoff(attempt, base, random(attempt))];
      }
    }
    return false, sends, sleeps;
  }

  // ---- How long the sleeps take -----------------------------------------------------------------

  function Total(sleeps: seq<real>): real {
    if sleeps == [] then 0.0 else Total(sleeps[..|sleeps| - 1]) + sleeps[|sleeps| - 1]
  }

  /** The sum of the capped backoffs without jitter. */
  function CappedSum(n: nat, base: int): int {
    if n == 0 then 0 else CappedSum(n - 1, base) + Capped(n - 1, base)
  }

  /** The nominal backoff starts at the base delay and doubles up to five minutes. */
  lemma BackoffDoubles(attempt: nat, base: nat)
    ensures Capped(0, base) == if base < 300 then base else 300
    ensures Capped(attempt + 1, base) == if 2 * Capped(attempt, base) < 300 then 2 * Capped(attempt, base) else 300
  {
    var p := Pow2(attempt);
    assert base * (2 * p) == 2 * (base * p);
  }

  lemma Product(x: real, y: real)
    requires x >= 0.0 && y >= 0.0
    ensures x * y >= 0.0
  {
  }

  lemma JitterBounds(backoff: real, random: real)
    requires 0.0 <= random < 1.0
    ensures backoff >= 0.0 ==> 0.9 * backoff <= Jittered(backoff, random) <= 1.1 * backoff
    ensures backoff < 0.0 ==> Jittered(backoff, random) == 0.0
  {
    var r := 2.0 * random - 1.0;
    var size := if backoff >= 0.0 then backoff else -backoff;
    Product(size, 1.0 - r);
    Product(size, 1.0 + r);
    var part := size * r;
    assert size * (1.0 - r) == size - part && size * (1.0 + r) == size + part;
    assert backoff * 0.1 * r == if backoff >= 0.0 then 0.1 * part else -0.1 * part;
  }

  /** The jitter spreads a sleep evenly from nine to eleven tenths of its nominal length. */
  lemma JitterSpreads(backoff: real, random: real)
    requires 0.0 <= random < 1.0
    ensures backoff >= 0.0 ==> Jittered(backoff, random) == 0.9 * backoff + 0.2 * (backoff * random)
    ensures backoff < 0.0 ==> Jittered(backoff, random) == 0.0
  {
    JitterBounds(backoff, random);
    assert backoff * 0.1 * (2.0 * random - 1.0) == 0.2 * (backoff * random) - 0.1 * backoff;
    if backoff >= 0.0 {
      Product(backoff, random);
    }
  }

  lemma Scale(base: nat, p: int)
    requires p >= 1
    ensures base * (2 * p - 1) == base * (p - 1) + base * p && 0 <= base * p
  {
  }

  lemma PowPositive(n: nat)
    ensures Pow2(n) >= 1
  {
  }

  lemma {:induction false} CappedSumBounds(n: nat, base: nat)
    ensures 0 <= CappedSum(n, base) <= base * (Pow2(n) - 1)
    ensures CappedSum(n, base) <= MAX_BACKOFF * n
  {
    if n == 0 {
    } else {
      CappedSumBounds(n - 1, base);
      var p := Pow2(n - 1);
      PowPositive(n - 1);
      Scale(base, p);
    }
  }

  lemma CappedSign(attempt: nat, base: int)
    ensures base >= 0 ==> Capped(attempt, base) >= 0
    ensures base < 0 ==> Capped(attempt, base) < 0
  {
    PowPositive(attempt);
    if base >= 0 {
      Scale(base, Pow2(attempt));
    } else {
      assert base * Pow2(attempt) < 0;
    }
  }

  /** Any sequence of sleeps the retry loop makes takes between 0.9 and 1.1 times the capped geometric sum,
      so at most 1.1 times base * (2^m - 1) and 1.1 times 300 m seconds; a negative base never sleeps. */
  lemma {:induction false} TotalSleep(sleeps: seq<real>, base: int, random: nat -> real)
    requires forall i: nat :: 0.0 <= random(i) < 1.0
    requires forall i :: 0 <= i < |sleeps| ==> sleeps[i] == Backoff(i, base, random(i))
    ensures base >= 0 ==>
              && 0.9 * (CappedSum(|sleeps|, base) as real) <= Total(sleeps) <= 1.1 * (CappedSum(|sleeps|, base) as real)
              && Total(sleeps) <= 1.1 * ((base * (Pow2(|sleeps|) - 1)) as real)
              && Total(sleeps) <= 1.1 * ((300 * |sleeps|) as real)
    ensures base < 0 ==> Total(sleeps) == 0.0
    decreases |sleeps|
  {
    if sleeps == [] {
    } else {
      var n := |sleeps| - 1;
      TotalSleep(sleeps[..n], base, random);
      CappedSign(n, base);
      JitterBounds(Capped(n, base) as real, random(n));
      hide Capped, Jittered;
    }
    if base >= 0 {
      CappedSumBounds(|sleeps|, base);
    }
  }
}
