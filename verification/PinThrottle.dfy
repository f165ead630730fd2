/** PIN verification with a failure counter and a lockout, and the rate of guesses it lets through. */
module PinThrottle {
  import opened TimeCalculation

  const MAX_ATTEMPTS: nat := 10
  const LOCKOUT := 900_000_000
  const MFA_MAX_ATTEMPTS: nat := 5
  const MFA_LOCKOUT := 900_000_000

  datatype Record = Record(failed: nat, lockedUntil: Option<int>)
  const FRESH := Record(0, None)

  datatype PinResult = PinResult(ok: bool, locked: bool)

  predicate Locked(r: Record, now: int) { r.lockedUntil.Some? && now < r.lockedUntil.value }

  /** One more failure; at the limit the counter starts over behind a lock. */
  function Failed(r: Record, now: int, limit: nat, lockout: int): Record {
    if r.failed + 1 >= limit then Record(0, Some(now + lockout)) else r.(failed := r.failed + 1)
  }

  /** A call for a known code: the clock, whether the PIN is the employee's, whether the employee works there today, and
      whether it is the master PIN of a server in DEBUG mode. */
  datatype Guess = Guess(now: int, right: bool, employed: bool, master: bool)

  function AfterGuess(r: Record, g: Guess): Record {
    if g.master || Locked(r, g.now) || !g.employed then r
    else if g.right then FRESH
    else Failed(r, g.now, MAX_ATTEMPTS, LOCKOUT)
  }

  /** The stored PIN is compared, and the answer matters. */
  predicate Checked(r: Record, g: Guess) { !g.master && !Locked(r, g.now) && g.employed }

  /** The answer says "locked": it was before, or this failure has locked it. */
  predicate SaysLocked(before: Record, g: Guess, after: Record) {
    Locked(before, g.now) || (Checked(before, g) && !g.right && Locked(after, g.now))
  }

  // ---- The same in plain numbers ----

  /** The PIN is compared with the stored one: nobody used the master PIN, no lock is running, the employee works
      there. */
  predicate Compared(r: Record, g: Guess) {
    !g.master && g.employed && match r.lockedUntil { case Some(until) => until <= g.now case None => true }
  }

  /** Ten failures in a row lock for fifteen minutes. */
  function OneFailureMore(r: Record, now: int): Record {
    if r.failed < 9 then Record(r.failed + 1, r.lockedUntil) else Record(0, Some(now + 15 * 60 * 1_000_000))
  }

  lemma GuessesDo(r: Record, g: Guess)
    ensures Checked(r, g) <==> Compared(r, g)
    ensures Compared(r, g) && g.right ==> AfterGuess(r, g) == Record(0, None)
    ensures Compared(r, g) && !g.right ==> AfterGuess(r, g) == OneFailureMore(r, g.now)
    ensures !Compared(r, g) ==> AfterGuess(r, g) == r
  {
  }

  /** Employee codes that have a PIN, and their records. */
  class PinDesk {
    var records: map<nat, Record>

    predicate Valid() reads this { forall code :: code in records ==> records[code].failed < MAX_ATTEMPTS }

    constructor ()
      ensures Valid() && records == map[]
    {
      records := map[];
    }

    /** set_employee_pin creates the record or clears its counter and lock. */
    method SetPin(code: nat)
      requires Valid()
      modifies this
      ensures Valid() && records == old(records)[code := Record(0, None)]
    {
      records := records[code := FRESH];
    }

    /** verify_employee_pin, undisturbed. An unknown code is answered like a wrong PIN; a checked right PIN clears the
        record, a checked wrong one counts, and the tenth locks for fifteen minutes; any other call changes nothing. */
    method Verify(code: nat, g: Guess) returns (a: PinResult)
      requires Valid()
      modifies this
      ensures Valid()
      ensures code !in old(records) ==> records == old(records) && a == PinResult(false, false)
      ensures code in old(records) ==> records == old(records)[code := AfterGuess(old(records[code]), g)]
      ensures code in old(records) && Compared(old(records[code]), g) && g.right ==> records[code] == Record(0, None)
      ensures code in old(records) && Compared(old(records[code]), g) && !g.right ==>
        records[code] == OneFailureMore(old(records[code]), g.now)
      ensures code in old(records) && !Compared(old(records[code]), g) ==> records == old(records)
      ensures code in old(records) ==> (a.ok <==> g.master || (Checked(old(records[code]), g) && g.right))
      ensures code in old(records) ==> (a.locked <==> !g.master && SaysLocked(old(records[code]), g, records[code]))
    {
      if code !in records {
        return PinResult(false, false);
      }
      var failedAttempts, lockedUntil := records[code].failed, records[code].lockedUntil;
      if g.master {
        return PinResult(true, false);
      }
      if lockedUntil.Some? && lockedUntil.value > g.now {
        return PinResult(false, true);
      }
      if !g.employed {
        return PinResult(false, false);
      }
      if g.right {
        if failedAttempts != 0 || lockedUntil.Some? {
          records := records[code := FRESH];
        }
        return PinResult(true, false);
      }
      failedAttempts := failedAttempts + 1;
      var locked := failedAttempts >= MAX_ATTEMPTS;
      if locked {
        lockedUntil := Some(g.now + LOCKOUT);
        failedAttempts := 0;
      }
      records := records[code := Record(failedAttempts, lockedUntil)];
      a := PinResult(false, locked);
    }
  }

  // ---- Runs of wrong guesses ----

  function After(r: Record, guesses: seq<Guess>): Record {
    if guesses == [] then r else AfterGuess(After(r, guesses[..|guesses| - 1]), guesses[|guesses| - 1])
  }

  function CheckedCount(r: Record, guesses: seq<Guess>): nat {
    if guesses == [] then 0
    else
      var front, g := guesses[..|guesses| - 1], guesses[|guesses| - 1];
      CheckedCount(r, front) + (if Checked(After(r, front), g) then 1 else 0)
  }

  /** Wrong guesses, none with a clock reading before `start`; the readings may come in any order. */
  ghost predicate WrongGuesses(guesses: seq<Guess>, start: int) {
    forall i :: 0 <= i < |guesses| ==> !guesses[i].right && !guesses[i].master && start <= guesses[i].now
  }

  lemma {:induction false} CounterStaysBelowTheLimit(r: Record, guesses: seq<Guess>)
    requires r.failed < MAX_ATTEMPTS
    ensures After(r, guesses).failed < MAX_ATTEMPTS
  {
    if guesses != [] { CounterStaysBelowTheLimit(r, guesses[..|guesses| - 1]); }
  }

  /** Checked guesses so far are ten for every lock passed, plus the counter; the k-th lock ends no earlier than k
      lockouts after the start. */
  ghost predicate Ledger(r0: Record, guesses: seq<Guess>, start: int, locks: nat) {
    var r := After(r0, guesses);
    && r0.failed + CheckedCount(r0, guesses) == MAX_ATTEMPTS * locks + r.failed
    && (locks > 0 ==> r.lockedUntil.Some? && start + LOCKOUT * locks <= r.lockedUntil.value)
  }

  lemma {:induction false} KeepLedger(r0: Record, guesses: seq<Guess>, start: int) returns (locks: nat)
    requires r0.failed < MAX_ATTEMPTS && WrongGuesses(guesses, start)
    ensures Ledger(r0, guesses, start, locks)
  {
    if guesses == [] {
      locks := 0;
    } else {
      var front, g := guesses[..|guesses| - 1], guesses[|guesses| - 1];
      locks := KeepLedger(r0, front, start);
      CounterStaysBelowTheLimit(r0, front);
      var r := After(r0, front);
      if Checked(r, g) && r.failed + 1 >= MAX_ATTEMPTS {
        locks := locks + 1;
      }
    }
  }

  /** One after another: in a span of length `span` at most 10·(⌊span / 15 min⌋ + 1) wrong guesses are checked, less
      the failures already counted when it begins. */
  lemma GuessesAreRateLimited(r0: Record, guesses: seq<Guess>, start: int, span: nat)
    requires r0.failed < MAX_ATTEMPTS && WrongGuesses(guesses, start)
    requires forall i :: 0 <= i < |guesses| ==> guesses[i].now <= start + span
    ensures CheckedCount(r0, guesses) <= MAX_ATTEMPTS * (span / LOCKOUT + 1) - r0.failed
    decreases |guesses|
  {
    if guesses != [] {
      var front, g := guesses[..|guesses| - 1], guesses[|guesses| - 1];
      if Checked(After(r0, front), g) {
        var locks := KeepLedger(r0, front, start);
        CounterStaysBelowTheLimit(r0, front);
        assert LOCKOUT * locks <= span;
        assert locks <= span / LOCKOUT;
        LocksBound(locks, span / LOCKOUT);
      } else {
        GuessesAreRateLimited(r0, front, start, span);
      }
    }
  }

  lemma LocksBound(a: nat, b: nat)
    requires a <= b
    ensures MAX_ATTEMPTS * a <= MAX_ATTEMPTS * b
  {
  }

  // ---- A right PIN starts afresh ----

  /** Wrong guesses of the employee, at any times. */
  ghost predicate Wrongs(guesses: seq<Guess>) {
    forall i :: 0 <= i < |guesses| ==> !guesses[i].right && !guesses[i].master && guesses[i].employed
  }

  lemma {:induction false} FreshCounts(r: Record, before: seq<Guess>, wrongs: seq<Guess>)
    requires After(r, before) == Record(0, None) && Wrongs(wrongs) && |wrongs| <= 9
    ensures After(r, before + wrongs) == Record(|wrongs|, None)
    ensures CheckedCount(r, before + wrongs) == CheckedCount(r, before) + |wrongs|
  {
    if wrongs == [] {
      assert before + wrongs == before;
    } else {
      var n := |wrongs| - 1;
      FreshCounts(r, before, wrongs[..n]);
      GuessSnoc(r, before + wrongs[..n], wrongs[n]);
      assert before + wrongs == before + wrongs[..n] + [wrongs[n]];
    }
  }

  /** Whatever happened before, after a checked right guess nine wrong ones are all checked and lock nothing; the tenth
      is checked and locks for fifteen minutes. */
  lemma RightGuessStartsAfresh(r: Record, before: seq<Guess>, right: Guess, wrongs: seq<Guess>, tenth: Guess)
    requires right.right && Compared(After(r, before), right) && Wrongs(wrongs) && |wrongs| <= 9 && Wrongs([tenth])
    ensures var all := before + [right] + wrongs;
      && After(r, all) == Record(|wrongs|, None)
      && CheckedCount(r, all) == CheckedCount(r, before) + 1 + |wrongs|
      && (|wrongs| == 9 ==>
            && CheckedCount(r, all + [tenth]) == CheckedCount(r, all) + 1
            && After(r, all + [tenth]) == Record(0, Some(tenth.now + 15 * 60 * 1_000_000)))
  {
    GuessSnoc(r, before, right);
    FreshCounts(r, before + [right], wrongs);
    assert [tenth][0] == tenth;
    GuessSnoc(r, before + [right] + wrongs, tenth);
  }

  // ---- The bound is exact ----

  function Burst(at: int, n: nat): seq<Guess> {
    if n == 0 then [] else Burst(at, n - 1) + [Guess(at, false, true, false)]
  }

  /** Bursts of ten as soon as each lock ends. */
  function Bursts(start: int, n: nat): seq<Guess> {
    if n == 0 then [] else Bursts(start, n - 1) + Burst(start + LOCKOUT * (n - 1), 10)
  }

  lemma GuessSnoc(r: Record, guesses: seq<Guess>, g: Guess)
    ensures After(r, guesses + [g]) == AfterGuess(After(r, guesses), g)
    ensures CheckedCount(r, guesses + [g])
      == CheckedCount(r, guesses) + (if Checked(After(r, guesses), g) then 1 else 0)
  {
    assert (guesses + [g])[..|guesses|] == guesses;
  }

  lemma {:induction false} BurstChecked(r: Record, before: seq<Guess>, at: int, n: nat)
    requires n <= 10 && After(r, before).failed == 0 && !Locked(After(r, before), at)
    ensures CheckedCount(r, before + Burst(at, n)) == CheckedCount(r, before) + n
    ensures After(r, before + Burst(at, n)) == if n == 10 then Record(0, Some(at + LOCKOUT))
      else After(r, before).(failed := n)
  {
    if n == 0 {
      assert before + [] == before;
    } else {
      BurstChecked(r, before, at, n - 1);
      GuessSnoc(r, before + Burst(at, n - 1), Guess(at, false, true, false));
      assert before + Burst(at, n) == before + Burst(at, n - 1) + [Guess(at, false, true, false)];
    }
  }

  lemma {:induction false} BurstIs(at: int, n: nat)
    ensures |Burst(at, n)| == n && forall i :: 0 <= i < n ==> Burst(at, n)[i] == Guess(at, false, true, false)
  {
    if n > 0 { BurstIs(at, n - 1); }
  }

  lemma {:induction false} BurstsAreWrongGuesses(start: int, n: nat)
    ensures WrongGuesses(Bursts(start, n), start)
    ensures forall i :: 0 <= i < |Bursts(start, n)| ==> Bursts(start, n)[i].now <= start + LOCKOUT * (n - 1)
  {
    if n > 0 {
      BurstsAreWrongGuesses(start, n - 1);
      BurstIs(start + LOCKOUT * (n - 1), 10);
    }
  }

  /** After n full bursts: all checked, and the n-th lock running. */
  ghost predicate FullBursts(guesses: seq<Guess>, start: int, n: nat) {
    && CheckedCount(FRESH, guesses) == 10 * n
    && After(FRESH, guesses) == if n == 0 then FRESH else Record(0, Some(start + LOCKOUT * n))
  }

  lemma {:induction false} BurstsChecked(start: int, n: nat)
    ensures FullBursts(Bursts(start, n), start, n)
  {
    if n > 0 {
      BurstsChecked(start, n - 1);
      OneBurstMore(Bursts(start, n - 1), start, n - 1);
    }
  }

  lemma OneBurstMore(front: seq<Guess>, start: int, n: nat)
    requires FullBursts(front, start, n)
    ensures FullBursts(front + Burst(start + LOCKOUT * n, 10), start, n + 1)
  {
    BurstChecked(FRESH, front, start + LOCKOUT * n, 10);
  }

  /** For every whole number of lockouts some run of wrong guesses meets the bound of `GuessesAreRateLimited`
      exactly. */
  lemma BoundIsReached(start: int, lockouts: nat) returns (guesses: seq<Guess>)
    ensures WrongGuesses(guesses, start) && forall i :: 0 <= i < |guesses| ==>
      guesses[i].now <= start + LOCKOUT * lockouts
    ensures CheckedCount(FRESH, guesses) == MAX_ATTEMPTS * (LOCKOUT * lockouts / LOCKOUT + 1)
  {
    guesses := Bursts(start, lockouts + 1);
    BurstsAreWrongGuesses(start, lockouts + 1);
    BurstsChecked(start, lockouts + 1);
  }

  // ---- The second factor of managers: the same counter, five attempts ----

  class MfaThrottle {
    var failedAttempts: nat
    var lockedUntil: Option<int>

    predicate Valid() reads this { failedAttempts < MFA_MAX_ATTEMPTS }

    function Value(): Record reads this { Record(failedAttempts, lockedUntil) }

    constructor ()
      ensures Valid() && Value() == FRESH
    {
      failedAttempts, lockedUntil := 0, None;
    }

    function IsLocked(now: int): (locked: bool)
      reads this
      ensures locked <==> lockedUntil != None && now < lockedUntil.value
    {
      Locked(Value(), now)
    }

    method RecordFailure(now: int) returns (locked: bool)
      requires Valid()
      modifies this
      ensures Valid() && Value() == Failed(old(Value()), now, MFA_MAX_ATTEMPTS, MFA_LOCKOUT)
      ensures locked ==> IsLocked(now)
      ensures locked <==> old(failedAttempts) == 4
      ensures Value() == if locked then Record(0, Some(now + 15 * 60 * 1_000_000))
                         else Record(old(failedAttempts) + 1, old(lockedUntil))
    {
      failedAttempts := failedAttempts + 1;
      locked := failedAttempts >= MFA_MAX_ATTEMPTS;
      if locked {
        lockedUntil := Some(now + MFA_LOCKOUT);
        failedAttempts := 0;
      }
    }

    method RecordSuccess()
      modifies this
      ensures Valid() && Value() == FRESH
    {
      failedAttempts, lockedUntil := 0, None;
    }
  }
}
