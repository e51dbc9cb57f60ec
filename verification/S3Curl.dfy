/**
  The retry loop around every presigned S3 request. Time is in whole seconds. What the server answers, how long
  each call takes, how much longer than asked each sleep takes, and the random numbers are all arbitrary.
 */
module S3Curl {

  const PATIENCE: int := 90

  /** The exit status of curl and the HTTP code it wrote. */
  datatype Answer = Answer(status: nat, code: int)

  predicate Success(a: Answer) { a.status == 0 && 200 <= a.code <= 299 }

  predicate Retryable(a: Answer) {
    (a.status == 0 && a.code in {408, 429, 500, 502, 503, 504}) || a.status == 28
  }

  /** The exit code for an answer that is returned as a failure. */
  function FailureCode(a: Answer): nat { if a.status != 0 then a.status else 22 }

  /** Everything outside the loop's control on its nth turn. */
  datatype Turn = Turn(answer: Answer, took: nat, random: nat, late: nat)

  /** A sleep as it was started: when, and for how long. */
  datatype Sleep = Sleep(at: int, pause: int)

  /** The base delay of the nth turn: 1, 2, 4, and then 8. */
  function Delay(n: nat): nat { if n == 0 then 1 else if n == 1 then 2 else if n == 2 then 4 else 8 }

  /** What n turns have waited at least. */
  function Waited(n: nat): nat { if n == 0 then 0 else Waited(n - 1) + Delay(n - 1) }

  lemma {:induction false} WaitedGrows(n: nat)
    ensures n >= 3 ==> Waited(n) == 7 + 8 * (n - 3)
    ensures n < 3 ==> Waited(n) <= 3
  {
    if n > 0 {
      WaitedGrows(n - 1);
    }
  }

  /** Every sleep is within its turn's range, none ends after the patience, and they follow one another. */
  ghost predicate SleepsOk(start: int, sleeps: seq<Sleep>, now: int) {
    && (forall k :: 0 <= k < |sleeps| ==>
          sleeps[k].at + sleeps[k].pause <= start + PATIENCE && Delay(k) <= sleeps[k].pause < 2 * Delay(k))
    && (forall k :: 0 <= k < |sleeps| - 1 ==> sleeps[k].at + sleeps[k].pause <= sleeps[k + 1].at)
    && (sleeps != [] ==> sleeps[|sleeps| - 1].at + sleeps[|sleeps| - 1].pause <= now)
  }

  lemma SleepsGrow(start: int, sleeps: seq<Sleep>, now: int, pause: int, later: int)
    requires SleepsOk(start, sleeps, now) && now + pause <= start + PATIENCE && now + pause <= later
    requires Delay(|sleeps|) <= pause < 2 * Delay(|sleeps|)
    ensures SleepsOk(start, sleeps + [Sleep(now, pause)], later)
  {
    hide Delay;
  }

  lemma SleepsLater(start: int, sleeps: seq<Sleep>, now: int, later: int)
    requires SleepsOk(start, sleeps, now) && now <= later
    ensures SleepsOk(start, sleeps, later)
  {
    hide Delay;
  }

  /** One more wait within the patience leaves room for at most fourteen attempts. */
  lemma RoomForAttempt(n: nat, start: int, now: int, pause: int)
    requires now - start >= Waited(n) && pause >= Delay(n) && now + pause <= start + PATIENCE
    ensures Waited(n + 1) <= PATIENCE && n + 1 < 14
    ensures now + pause - start >= Waited(n + 1)
  {
    WaitedGrows(n + 1);
  }

  lemma PauseRange(delay: nat, random: nat)
    requires delay > 0
    ensures delay <= delay + random % delay < 2 * delay
  {}

  lemma DelayNext(n: nat)
    ensures 1 <= Delay(n) <= 8 && Delay(n + 1) == (if Delay(n) < 8 then Delay(n) * 2 else Delay(n))
  {}

  /** How the loop goes on from its nth turn: the exit code, the number of attempts, and when it ends. */
  function From(start: int, turns: nat -> Turn, n: nat, now: int): (nat, nat, int)
    requires n < 14 && now - start >= Waited(n)
    decreases 14 - n
  {
    var turn := turns(n);
    var later := now + turn.took;
    DelayNext(n);
    var pause := Delay(n) + turn.random % Delay(n);
    if Success(turn.answer) then (0, n + 1, later)
    else if !Retryable(turn.answer) || later + pause > start + PATIENCE then (FailureCode(turn.answer), n + 1, later)
    else
      RoomForAttempt(n, start, later, pause);
      From(start, turns, n + 1, later + pause + turn.late)
  }

  /** One turn of the loop. */
  lemma FromStep(start: int, turns: nat -> Turn, n: nat, now: int)
    requires n < 14 && now - start >= Waited(n)
    ensures var turn := turns(n);
            var later := now + turn.took;
            Delay(n) > 0
            && var pause := Delay(n) + turn.random % Delay(n);
               if Success(turn.answer) then From(start, turns, n, now) == (0, n + 1, later)
               else if !Retryable(turn.answer) || later + pause > start + PATIENCE
               then From(start, turns, n, now) == (FailureCode(turn.answer), n + 1, later)
               else n + 1 < 14 && later + pause + turn.late - start >= Waited(n + 1)
                    && From(start, turns, n, now) == From(start, turns, n + 1, later + pause + turn.late)
  {
    DelayNext(n);
    hide Delay, Waited, Success, Retryable;
    var turn := turns(n);
    var later := now + turn.took;
    var pause := Delay(n) + turn.random % Delay(n);
    if !Success(turn.answer) && Retryable(turn.answer) && later + pause <= start + PATIENCE {
      RoomForAttempt(n, start, later, pause);
    }
  }

  /**
    Run the request until it is answered for good or the patience is used up. It ends after at most fourteen
    attempts; it never starts a sleep that would end more than 90 seconds after the start; and it gives up on a
    retryable answer only when more than 75 seconds have passed.
   */
  method Request(start: int, turns: nat -> Turn) returns (code: nat, attempts: nat, end: int, sleeps: seq<Sleep>)
    ensures Waited(0) == 0 && (code, attempts, end) == From(start, turns, 0, start)
    ensures 1 <= attempts <= 14 && |sleeps| == attempts - 1
    ensures forall k :: 0 <= k < attempts - 1 ==> Retryable(turns(k).answer)
    ensures code == 0 <==> Success(turns(attempts - 1).answer)
    ensures code != 0 ==> code == FailureCode(turns(attempts - 1).answer)
    ensures code != 0 && Retryable(turns(attempts - 1).answer) ==> end - start > 75
    ensures SleepsOk(start, sleeps, end)
  {
    hide Delay, Waited, SleepsOk, Retryable, Success, From;
    var seconds := start;
    var deadline := start + PATIENCE;
    var delay := 1;
    attempts := 1;
    sleeps := [];
    FirstTurn(start);
    while true
      invariant 1 <= attempts == |sleeps| + 1 <= 14 && delay == Delay(attempts - 1)
      invariant seconds - start >= Waited(attempts - 1)
      invariant From(start, turns, attempts - 1, seconds) == From(start, turns, 0, start)
      invariant forall k :: 0 <= k < attempts - 1 ==> Retryable(turns(k).answer)
      invariant SleepsOk(start, sleeps, seconds)
      decreases 14 - attempts
    {
      var turn := turns(attempts - 1);
      FromStep(start, turns, attempts - 1, seconds);
      SleepsLater(start, sleeps, seconds, seconds + turn.took);
      seconds := seconds + turn.took;
      DelayNext(attempts - 1);
      if Success(turn.answer) {
        return 0, attempts, seconds, sleeps;
      }
      PauseRange(delay, turn.random);
      var pause := delay + turn.random % delay;
      if !Retryable(turn.answer) || seconds + pause > deadline {
        return FailureCode(turn.answer), attempts, seconds, sleeps;
      }
      SleepsGrow(start, sleeps, seconds, pause, seconds + pause + turn.late);
      sleeps := sleeps + [Sleep(seconds, pause)];
      seconds := seconds + pause + turn.late;
      attempts := attempts + 1;
      if delay < 8 {
        delay := delay * 2;
      }
    }
  }

  lemma FirstTurn(start: int)
    ensures Delay(0) == 1 && Waited(0) == 0 && SleepsOk(start, [], start)
  {}

  // ---------------------------------------------------------------------------------------------
  // The limits are attained
  // ---------------------------------------------------------------------------------------------

  const THROTTLED := Answer(0, 429)

  /** Throttled every time, answered at once, with the shortest pauses. */
  function Quick(n: nat): Turn { Turn(THROTTLED, 0, 0, 0) }

  /** Throttled every time; the fourth answer takes a while, and the pause after it is the longest one. */
  function Slow(took: nat): nat -> Turn { (n: nat) => if n == 3 then Turn(THROTTLED, took, 7, 0) else Quick(n) }

  /** A throttled turn: it ends the run when its pause would end too late. */
  lemma ThrottledStep(turns: nat -> Turn, n: nat, now: int, took: nat, random: nat, pause: int)
    requires n < 14 && now >= Waited(n) && turns(n) == Turn(THROTTLED, took, random, 0)
    requires Delay(n) > 0 && pause == Delay(n) + random % Delay(n)
    ensures var next := now + took + pause;
            if next > PATIENCE then From(0, turns, n, now) == (22, n + 1, now + took)
            else n + 1 < 14 && next >= Waited(n + 1) && From(0, turns, n, now) == From(0, turns, n + 1, next)
  {
    hide From, Delay, Waited;
    FromStep(0, turns, n, now);
  }

  lemma ShortestPause(n: nat)
    ensures Delay(n) > 0 && Delay(n) + 0 % Delay(n) == Delay(n)
  {}

  lemma QuickStep(n: nat)
    requires n < 14
    ensures if Waited(n + 1) > PATIENCE then From(0, Quick, n, Waited(n)) == (22, n + 1, Waited(n))
            else n + 1 < 14 && From(0, Quick, n, Waited(n)) == From(0, Quick, n + 1, Waited(n + 1))
  {
    WaitedStep(n);
    hide *;
    ShortestPause(n);
    QuickTurn(n);
    ThrottledStep(Quick, n, Waited(n), 0, 0, Delay(n));
  }

  lemma QuickTurn(n: nat)
    ensures Quick(n) == Turn(THROTTLED, 0, 0, 0)
  {}

  lemma {:induction false} QuickFrom(n: nat)
    requires n < 14
    ensures From(0, Quick, n, Waited(n)) == (22, 14, 87)
    decreases 14 - n
  {
    WaitedGrows(n);
    WaitedGrows(n + 1);
    hide From, Waited;
    QuickStep(n);
    if n < 13 {
      QuickFrom(n + 1);
    }
  }

  lemma WaitedStep(n: nat)
    ensures Waited(n + 1) == Waited(n) + Delay(n) && (n >= 3 ==> Delay(n) == 8) && (n < 3 ==> Waited(n + 1) <= 7)
  {
    WaitedGrows(n);
  }

  lemma FirstDelays()
    ensures Delay(0) == 1 && Delay(1) == 2 && Delay(2) == 4 && Delay(3) == 8 && Delay(4) == 8
    ensures Waited(0) == 0 && Waited(1) == 1 && Waited(2) == 3 && Waited(3) == 7 && Waited(4) == 15
  {
    WaitedStep(0);
    WaitedStep(1);
    WaitedStep(2);
    WaitedStep(3);
  }

  lemma SlowFrom(took: nat)
    requires 68 <= took <= 69
    ensures Waited(0) == 0 && From(0, Slow(took), 0, 0) == if took == 68 then (22, 5, 90) else (22, 4, 76)
  {
    FirstDelays();
    hide From, Waited, Delay;
    var turns := Slow(took);
    ThrottledStep(turns, 0, 0, 0, 0, 1);
    ThrottledStep(turns, 1, 1, 0, 0, 2);
    ThrottledStep(turns, 2, 3, 0, 0, 4);
    ThrottledStep(turns, 3, 7, took, 7, 15);
    if took == 68 {
      ThrottledStep(turns, 4, 90, 0, 0, 8);
    }
  }

  /**
    The limits are attained: with the shortest waits there are fourteen attempts; a longest wait that ends after
    exactly 90 seconds is still made; and a throttled request is given up after 76 seconds.
   */
  lemma LimitsAreTight()
    ensures Waited(0) == 0
    ensures From(0, Quick, 0, 0) == (22, 14, 87)
    ensures From(0, Slow(68), 0, 0) == (22, 5, 90)
    ensures From(0, Slow(69), 0, 0) == (22, 4, 76)
  {
    QuickFrom(0);
    SlowFrom(68);
    SlowFrom(69);
  }
}
