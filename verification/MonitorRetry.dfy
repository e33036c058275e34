/** The retry loop of the upload worker for one sample, and the panel's age check it must satisfy.
    Times are in milliseconds; retryDelay is the one second passed in by startMonitorWorkers. */
module MonitorRetry {

  const RETRY_DELAY: int := 1000
  const RETENTION: int := 45000
  const CLIENT_TIMEOUT: int := 4000
  const AGE_LIMIT: int := 60000

  /** The delay after the n-th failed upload: 1, 2, 4, 5, 5, ... seconds. */
  function Backoff(n: nat): int {
    if n == 0 then RETRY_DELAY
    else if n == 1 then 2 * RETRY_DELAY
    else if n == 2 then 4 * RETRY_DELAY
    else 5 * RETRY_DELAY
  }

  /** Sum of the first n delays. */
  function Waited(n: nat): int {
    if n == 0 then 0 else Waited(n - 1) + Backoff(n - 1)
  }

  lemma {:induction false} WaitedSum(n: nat)
    ensures n <= 3 ==> Waited(n) <= 7000
    ensures n >= 3 ==> Waited(n) == 7000 + 5000 * (n - 3)
  {
    if n > 3 {
      WaitedSum(n - 1);
    }
  }

  /** The age part of Metrics.Validate: refused when older or further ahead than one minute. */
  predicate AgeAccepted(sampledAt: int, now: int) {
    !(sampledAt < now - AGE_LIMIT || sampledAt > now + AGE_LIMIT)
  }

  datatype Ending = Delivered | Expired

  /** What the surroundings do during the k-th round: how long the upload takes, whether it is
      acknowledged, and how much later than asked the timer fires. */
  datatype Round = Round(takes: UploadTime, acked: bool, late: nat)

  /** The client gives up after its timeout. */
  type UploadTime = t: int | 0 <= t <= CLIENT_TIMEOUT

  /** The clock at the start of each round: after an upload, its delay and the timer's lateness. */
  predicate Clocks(now: int, rounds: nat -> Round, clocks: seq<int>) {
    && |clocks| > 0 && clocks[0] == now
    && forall k | 0 < k < |clocks| ::
         clocks[k] == clocks[k - 1] + rounds(k - 1).takes + Backoff(k - 1) + rounds(k - 1).late
  }

  /** One more round extends the clocks. */
  lemma ClocksGrow(now: int, rounds: nat -> Round, clocks: seq<int>, next: int)
    requires Clocks(now, rounds, clocks)
    requires next == clocks[|clocks| - 1] + rounds(|clocks| - 1).takes + Backoff(|clocks| - 1)
                     + rounds(|clocks| - 1).late
    ensures Clocks(now, rounds, clocks + [next])
  {
    var longer := clocks + [next];
    forall k | 0 < k < |longer|
      ensures longer[k] == longer[k - 1] + rounds(k - 1).takes + Backoff(k - 1) + rounds(k - 1).late
    {
      if k < |clocks| {
        assert longer[k] == clocks[k] && longer[k - 1] == clocks[k - 1];
      }
    }
  }

  lemma {:induction false} RoundsTakeTime(now: int, rounds: nat -> Round, clocks: seq<int>)
    requires Clocks(now, rounds, clocks)
    ensures clocks[|clocks| - 1] >= now + Waited(|clocks| - 1)
  {
    if |clocks| > 1 {
      RoundsTakeTime(now, rounds, clocks[..|clocks| - 1]);
    }
  }

  /** A sample that was so old when it was taken up may have that many failed uploads behind it and
      still be tried; one stamped ahead of the clock has a negative age. */
  predicate MayTryAgain(age: int, failed: nat) { age + Waited(failed) < RETENTION }

  /** A sample not dated in the future is tried at most eleven times, and one dated ahead as often as
      fits, at one try in five seconds, into the longer time. */
  lemma TriesAllowed(age: int, failed: nat)
    requires MayTryAgain(age, failed)
    ensures age >= 0 ==> failed <= 10
    ensures failed >= 3 ==> 5000 * failed < RETENTION - age + 8000
  {
    WaitedSum(failed);
  }

  /** The last of the rounds found the sample unexpired, so it was still young enough. */
  lemma TriesAreBounded(sampledAt: int, now: int, rounds: nat -> Round, clocks: seq<int>, tried: nat)
    requires Clocks(now, rounds, clocks) && 0 < tried <= |clocks|
    requires clocks[tried - 1] - sampledAt < RETENTION
    ensures MayTryAgain(now - sampledAt, tried - 1)
    ensures sampledAt <= now ==> tried <= 11
  {
    RoundsTakeTime(now, rounds, clocks[..tried]);
    TriesAllowed(now - sampledAt, tried - 1);
  }

  /** The doubled and capped delay. */
  function Doubled(delay: int): int {
    if delay < 5 * RETRY_DELAY
    then if delay * 2 > 5 * RETRY_DELAY then 5 * RETRY_DELAY else delay * 2
    else delay
  }

  lemma DoublingIsBackoff(n: nat)
    ensures Doubled(Backoff(n)) == Backoff(n + 1)
  {
  }

  /** Tries one sample until it is delivered or older than the retention. Round k starts at
      clocks[k]; the last round is the first whose upload is acknowledged or the first that finds
      the sample expired, and every earlier round made exactly one failed upload. */
  method UploadUntilSettled(sampledAt: int, now: int, rounds: nat -> Round)
    returns (ending: Ending, tried: nat, clocks: seq<int>)
    ensures tried <= |clocks| && Clocks(now, rounds, clocks)
    ensures tried > 0 ==> MayTryAgain(now - sampledAt, tried - 1)
    ensures sampledAt <= now ==> tried <= 11
    ensures forall k | 0 <= k < tried :: clocks[k] - sampledAt < RETENTION
    ensures forall k | 0 <= k < |clocks| - 1 :: !rounds(k).acked
    ensures match ending
            case Delivered => tried == |clocks| && rounds(tried - 1).acked
            case Expired => tried == |clocks| - 1 && clocks[tried] - sampledAt >= RETENTION
  {
    var delay := RETRY_DELAY;
    tried, clocks := 0, [now];
    while clocks[tried] - sampledAt < RETENTION
      invariant |clocks| == tried + 1 && Clocks(now, rounds, clocks)
      invariant delay == Backoff(tried)
      invariant forall k | 0 <= k < tried :: clocks[k] - sampledAt < RETENTION
      invariant forall k | 0 <= k < tried :: !rounds(k).acked
      decreases sampledAt + RETENTION - clocks[tried]
    {
      var round := rounds(tried);
      if round.acked {
        ending, tried := Delivered, tried + 1;
        TriesAreBounded(sampledAt, now, rounds, clocks, tried);
        return;
      }
      var next := clocks[tried] + round.takes + delay + round.late;
      ClocksGrow(now, rounds, clocks, next);
      DoublingIsBackoff(tried);
      clocks := clocks + [next];
      tried := tried + 1;
      if delay < 5 * RETRY_DELAY {
        delay := delay * 2;
        if delay > 5 * RETRY_DELAY {
          delay := 5 * RETRY_DELAY;
        }
      }
    }
    ending := Expired;
    if tried > 0 {
      TriesAreBounded(sampledAt, now, rounds, clocks, tried);
    }
  }

  lemma {:induction false} InstantRoundsWaitOnly(now: int, rounds: nat -> Round, clocks: seq<int>)
    requires forall k: nat :: rounds(k).takes == 0 && rounds(k).late == 0
    requires Clocks(now, rounds, clocks)
    ensures clocks[|clocks| - 1] == now + Waited(|clocks| - 1)
  {
    var n := |clocks| - 1;
    if n > 0 {
      InstantRoundsWaitOnly(now, rounds, clocks[..n]);
      assert clocks[n] == clocks[n - 1] + Backoff(n - 1);
    }
  }

  /** The bound is reached: with instant failures the eleventh upload is still tried. */
  lemma ElevenUploadsHappen(rounds: nat -> Round, clocks: seq<int>)
    requires forall k: nat :: rounds(k).takes == 0 && rounds(k).late == 0
    requires Clocks(0, rounds, clocks)
    ensures clocks[|clocks| - 1] < RETENTION <==> |clocks| <= 11
  {
    InstantRoundsWaitOnly(0, rounds, clocks);
    WaitedSum(|clocks| - 1);
  }

  /** A request of an upload started in time that arrives while the client still waits. */
  predicate InTime(sampledAt: int, start: int, arrival: int) {
    0 <= start - sampledAt < RETENTION && start <= arrival <= start + CLIENT_TIMEOUT
  }

  /** Every such request passes the panel's age check exactly when the panel's clock is at most
      eleven seconds ahead (to the millisecond) and at most a minute behind. */
  lemma TimelyRequestsPassTheAgeCheck(skew: int)
    ensures (forall sampledAt, start, arrival ::
               InTime(sampledAt, start, arrival) ==> AgeAccepted(sampledAt, arrival + skew))
            <==> -AGE_LIMIT <= skew <= 11001
  {
    if skew > 11001 {
      assert InTime(0, RETENTION - 1, RETENTION - 1 + CLIENT_TIMEOUT);
    } else if skew < -AGE_LIMIT {
      assert InTime(0, 0, 0);
    }
  }
}
