/**
 The lock on repeated wrong passwords: src/application/auth_service.py:52-74 and
 src/infrastructure/repository/user_repo.py:86-106, over serial attempts on one account.
 */
module Lockout {
  import opened Common

  datatype Policy = Policy(maxAttempts: int, lockout: int)

  datatype LockState = LockState(failed: nat, lockedUntil: Option<Instant>)

  /** One attempt: the clock at the lock check and at the failure count, and what it would find. */
  datatype Attempt = Attempt(checkAt: Instant, countAt: Instant, passwordOk: bool, statusOk: bool)

  datatype Verdict = Locked | WrongPassword | StatusRefused | Admitted

  predicate IsLocked(s: LockState, now: Instant) {
    s.lockedUntil.Some? && s.lockedUntil.value > now
  }

  function AfterFailure(s: LockState, now: Instant, policy: Policy): LockState {
    if s.failed + 1 >= policy.maxAttempts then LockState(0, Some(now + policy.lockout))
    else s.(failed := s.failed + 1)
  }

  function VerdictOn(s: LockState, a: Attempt): Verdict {
    if IsLocked(s, a.checkAt) then Locked
    else if !a.passwordOk then WrongPassword
    else if !a.statusOk then StatusRefused
    else Admitted
  }

  function After(s: LockState, a: Attempt, policy: Policy): LockState {
    match VerdictOn(s, a)
    case WrongPassword => AfterFailure(s, a.countAt, policy)
    case Admitted => LockState(0, None)
    case _ => s
  }

  function AfterAll(s: LockState, run: seq<Attempt>, policy: Policy): LockState {
    if run == [] then s else After(AfterAll(s, run[..|run| - 1], policy), run[|run| - 1], policy)
  }

  /** The verdict each attempt of a run gets. */
  function VerdictAt(s: LockState, run: seq<Attempt>, policy: Policy, i: nat): Verdict
    requires i < |run|
  {
    VerdictOn(AfterAll(s, run[..i], policy), run[i])
  }

  function WrongVerdicts(s: LockState, run: seq<Attempt>, policy: Policy): nat {
    if run == [] then 0
    else WrongVerdicts(s, run[..|run| - 1], policy) +
         if VerdictAt(s, run, policy, |run| - 1).WrongPassword? then 1 else 0
  }

  /** How often a run sets the lock. */
  function Locks(s: LockState, run: seq<Attempt>, policy: Policy): nat {
    if run == [] then 0
    else Locks(s, run[..|run| - 1], policy) +
         if VerdictAt(s, run, policy, |run| - 1).WrongPassword?
            && AfterAll(s, run[..|run| - 1], policy).failed + 1 >= policy.maxAttempts then 1 else 0
  }

  /** The clock never runs back, and the whole run falls between two instants. */
  ghost predicate InOrder(run: seq<Attempt>, from: Instant, to: Instant) {
    && (forall i | 0 <= i < |run| :: from <= run[i].checkAt <= run[i].countAt <= to)
    && (forall i, j | 0 <= i < j < |run| :: run[i].countAt <= run[j].checkAt)
  }

  ghost predicate NobodyAdmitted(s: LockState, run: seq<Attempt>, policy: Policy) {
    forall i | 0 <= i < |run| :: !VerdictAt(s, run, policy, i).Admitted?
  }

  /** The failure counter stays below the limit, whatever is tried. */
  lemma {:induction false} CounterBelowLimit(s: LockState, run: seq<Attempt>, policy: Policy)
    requires policy.maxAttempts >= 1 && s.failed < policy.maxAttempts
    ensures AfterAll(s, run, policy).failed < policy.maxAttempts
    decreases |run|
  {
    if run != [] {
      CounterBelowLimit(s, run[..|run| - 1], policy);
    }
  }

  /** While the lock lasts nothing is tried: not even the right password changes anything. */
  lemma {:induction false} NothingCountsWhileLocked(s: LockState, run: seq<Attempt>, policy: Policy)
    requires s.lockedUntil.Some? && forall a <- run :: a.checkAt < s.lockedUntil.value
    ensures AfterAll(s, run, policy) == s
    ensures forall i | 0 <= i < |run| :: VerdictAt(s, run, policy, i) == Locked
    decreases |run|
  {
    if run != [] {
      var init := run[..|run| - 1];
      NothingCountsWhileLocked(s, init, policy);
      assert run[|run| - 1] in run;
      forall i | 0 <= i < |run| ensures VerdictAt(s, run, policy, i) == Locked {
        if i < |init| {
          assert init[..i] == run[..i];
          assert VerdictAt(s, init, policy, i) == Locked;
        }
      }
    }
  }

  /**
   What a run without a successful login has come to: the wrong verdicts fill whole rounds of maxAttempts, one for
   each lock, and each lock pushes the next round one lockout further.
   */
  ghost predicate Accounted(s: LockState, run: seq<Attempt>, policy: Policy, from: Instant, last: Instant) {
    Balanced(s, AfterAll(s, run, policy), WrongVerdicts(s, run, policy), Locks(s, run, policy), policy, from, last)
  }

  ghost predicate Balanced(s: LockState, now: LockState, wrong: int, locks: int, policy: Policy,
                           from: Instant, last: Instant)
  {
    && now.failed < policy.maxAttempts && locks >= 0
    && wrong + s.failed == locks * policy.maxAttempts + now.failed
    && (if locks == 0 then now.lockedUntil == s.lockedUntil
        else now.lockedUntil.Some? && now.lockedUntil.value >= from + locks * policy.lockout)
    && (locks > 0 ==> last >= from + (locks - 1) * policy.lockout)
    && (locks > 0 && now.failed > 0 ==> last >= from + locks * policy.lockout)
  }

  /** A refused attempt during a lock, or with the right password, changes nothing. */
  lemma BalancedLater(s: LockState, now: LockState, wrong: int, locks: int, policy: Policy,
                      from: Instant, last: Instant, later: Instant)
    requires Balanced(s, now, wrong, locks, policy, from, last) && last <= later
    ensures Balanced(s, now, wrong, locks, policy, from, later)
  {
  }

  /** A wrong password found an open lock: either one failure more, or one round more and a new lock. */
  lemma BalancedFailure(s: LockState, now: LockState, wrong: int, locks: int, policy: Policy,
                        from: Instant, last: Instant, a: Attempt)
    requires policy.maxAttempts >= 1 && policy.lockout > 0
    requires Balanced(s, now, wrong, locks, policy, from, last)
    requires !IsLocked(s, from) && !IsLocked(now, a.checkAt) && from <= last <= a.checkAt <= a.countAt
    ensures Balanced(s, AfterFailure(now, a.countAt, policy), wrong + 1,
                     locks + (if now.failed + 1 >= policy.maxAttempts then 1 else 0), policy, from, a.countAt)
  {
    Distribute(locks, policy.maxAttempts);
    Distribute(locks, policy.lockout);
    RoundReached(s, now, wrong, locks, policy, from, last, a);
  }

  lemma RoundReached(s: LockState, now: LockState, wrong: int, locks: int, policy: Policy,
                     from: Instant, last: Instant, a: Attempt)
    requires Balanced(s, now, wrong, locks, policy, from, last)
    requires !IsLocked(now, a.checkAt) && from <= a.checkAt
    ensures a.checkAt >= from + locks * policy.lockout
  {
  }

  /** One more attempt, after a run that is accounted for. */
  lemma AccountedStep(s: LockState, init: seq<Attempt>, a: Attempt, policy: Policy, from: Instant, last: Instant)
    requires policy.maxAttempts >= 1 && policy.lockout > 0
    requires !IsLocked(s, from) && from <= last <= a.checkAt <= a.countAt
    requires Accounted(s, init, policy, from, last)
    requires !VerdictOn(AfterAll(s, init, policy), a).Admitted?
    ensures Accounted(s, init + [a], policy, from, a.countAt)
  {
    hide AfterAll, Locks, WrongVerdicts, Balanced, AfterFailure;
    var now, wrong, locks := AfterAll(s, init, policy), WrongVerdicts(s, init, policy), Locks(s, init, policy);
    Unfold(s, init, a, policy);
    if VerdictOn(now, a).WrongPassword? {
      BalancedFailure(s, now, wrong, locks, policy, from, last, a);
    } else {
      BalancedLater(s, now, wrong, locks, policy, from, last, a.countAt);
    }
  }

  lemma Unfold(s: LockState, init: seq<Attempt>, a: Attempt, policy: Policy)
    ensures var now := AfterAll(s, init, policy);
            && AfterAll(s, init + [a], policy) == After(now, a, policy)
            && WrongVerdicts(s, init + [a], policy) == WrongVerdicts(s, init, policy)
                 + (if VerdictOn(now, a).WrongPassword? then 1 else 0)
            && Locks(s, init + [a], policy) == Locks(s, init, policy) +
                 (if VerdictOn(now, a).WrongPassword? && now.failed + 1 >= policy.maxAttempts then 1 else 0)
  {
    assert (init + [a])[..|init + [a]| - 1] == init;
  }

  lemma Distribute(n: int, m: int)
    ensures (n + 1) * m == n * m + m && (n - 1) * m == n * m - m
  {
  }

  lemma {:induction false} RunAccounted(s: LockState, run: seq<Attempt>, policy: Policy, from: Instant, to: Instant)
    requires policy.maxAttempts >= 1 && policy.lockout > 0
    requires s.failed < policy.maxAttempts && !IsLocked(s, from)
    requires InOrder(run, from, to) && NobodyAdmitted(s, run, policy)
    ensures Accounted(s, run, policy, from, if run == [] then from else run[|run| - 1].countAt)
    decreases |run|
  {
    if run != [] {
      hide Accounted;
      var init, a := run[..|run| - 1], run[|run| - 1];
      forall i | 0 <= i < |init| ensures !VerdictAt(s, init, policy, i).Admitted? {
        assert init[..i] == run[..i];
        assert !VerdictAt(s, run, policy, i).Admitted?;
      }
      RunAccounted(s, init, policy, from, to);
      assert !VerdictAt(s, run, policy, |init|).Admitted? && run[..|init|] == init;
      assert run == init + [a];
      AccountedStep(s, init, a, policy, from, if init == [] then from else init[|init| - 1].countAt);
    }
  }

  lemma TimesMonotone(x: int, y: int, m: int)
    requires m >= 0
    ensures x <= y ==> x * m <= y * m
  {
  }

  lemma WholeRounds(q: int, length: int, span: int)
    requires length > 0 && q * length <= span
    ensures q <= span / length
  {
    var fit := span / length;
    assert span == fit * length + span % length;
    Distribute(fit, length);
    TimesMonotone(fit + 1, q, length);
  }

  /**
   The rate at which passwords can be guessed: between two instants, and without a successful login, an account
   gives at most maxAttempts wrong verdicts for each lockout that fits, and one round more, less those counted before.
   */
  lemma LockoutRate(s: LockState, run: seq<Attempt>, policy: Policy, from: Instant, to: Instant)
    requires policy.maxAttempts >= 1 && policy.lockout > 0 && from <= to
    requires s.failed < policy.maxAttempts && !IsLocked(s, from)
    requires InOrder(run, from, to) && NobodyAdmitted(s, run, policy)
    ensures WrongVerdicts(s, run, policy) <= ((to - from) / policy.lockout + 1) * policy.maxAttempts - s.failed
  {
    RunAccounted(s, run, policy, from, to);
    var last := if run == [] then from else run[|run| - 1].countAt;
    assert last <= to;
    RateOfAccounted(s, run, policy, from, last, to);
  }

  lemma RateOfAccounted(s: LockState, run: seq<Attempt>, policy: Policy, from: Instant, last: Instant, to: Instant)
    requires policy.maxAttempts >= 1 && policy.lockout > 0 && from <= last <= to
    requires Accounted(s, run, policy, from, last)
    ensures WrongVerdicts(s, run, policy) <= ((to - from) / policy.lockout + 1) * policy.maxAttempts - s.failed
  {
    hide AfterAll, Locks, WrongVerdicts;
    var now, locks, fit := AfterAll(s, run, policy), Locks(s, run, policy), (to - from) / policy.lockout;
    Distribute(locks, policy.maxAttempts);
    var rounds := if now.failed == 0 && locks > 0 then locks - 1 else locks;
    assert rounds * policy.lockout <= to - from;
    WholeRounds(rounds, policy.lockout, to - from);
    TimesMonotone(rounds + 1, fit + 1, policy.maxAttempts);
  }

  // ---- The bound is attained -------------------------------------------------------------

  /** n wrong passwords at one instant. */
  function Burst(n: nat, at: Instant): (run: seq<Attempt>)
    ensures |run| == n
  {
    seq(n, _ => Attempt(at, at, false, true))
  }

  /** A round of wrong passwords at every instant the lock allows. */
  function FullRate(failed: nat, policy: Policy, from: Instant, rounds: nat): seq<Attempt>
    requires failed < policy.maxAttempts
  {
    if rounds == 0 then Burst(policy.maxAttempts - failed, from)
    else FullRate(failed, policy, from, rounds - 1) + Burst(policy.maxAttempts, from + rounds * policy.lockout)
  }

  lemma OneMoreInBurst(run: seq<Attempt>, n: nat, at: Instant)
    requires n > 0
    ensures run + Burst(n, at) == run + Burst(n - 1, at) + [Attempt(at, at, false, true)]
  {
  }

  /** From an open lock, a burst up to the limit gets only wrong verdicts and sets the lock. */
  lemma {:induction false} BurstCounts(s: LockState, run: seq<Attempt>, policy: Policy, n: nat, at: Instant)
    requires policy.lockout > 0
    requires var now := AfterAll(s, run, policy); !IsLocked(now, at) && n >= 1 && now.failed + n <= policy.maxAttempts
    ensures WrongVerdicts(s, run + Burst(n, at), policy) == WrongVerdicts(s, run, policy) + n
    ensures AfterAll(s, run + Burst(n, at), policy) ==
              if AfterAll(s, run, policy).failed + n == policy.maxAttempts then LockState(0, Some(at + policy.lockout))
              else AfterAll(s, run, policy).(failed := AfterAll(s, run, policy).failed + n)
    decreases n
  {
    hide AfterAll, WrongVerdicts, Locks, Burst;
    var a := Attempt(at, at, false, true);
    var before := run + Burst(n - 1, at);
    OneMoreInBurst(run, n, at);
    Unfold(s, before, a, policy);
    if n > 1 {
      BurstCounts(s, run, policy, n - 1, at);
    } else {
      assert before == run;
    }
  }

  /** The rate is exact: for every span there is a run that gets that many wrong verdicts. */
  lemma {:induction false} RateIsAttained(s: LockState, policy: Policy, from: Instant, rounds: nat)
    requires policy.maxAttempts >= 1 && policy.lockout > 0 && s.failed < policy.maxAttempts && !IsLocked(s, from)
    ensures WrongVerdicts(s, FullRate(s.failed, policy, from, rounds), policy) ==
            (rounds + 1) * policy.maxAttempts - s.failed
    ensures AfterAll(s, FullRate(s.failed, policy, from, rounds), policy) ==
            LockState(0, Some(from + (rounds + 1) * policy.lockout))
  {
    hide AfterAll, WrongVerdicts;
    Distribute(rounds, policy.lockout);
    Distribute(rounds, policy.maxAttempts);
    if rounds == 0 {
      NoAttempts(s, policy);
      BurstCounts(s, [], policy, policy.maxAttempts - s.failed, from);
      assert [] + Burst(policy.maxAttempts - s.failed, from) == Burst(policy.maxAttempts - s.failed, from);
    } else {
      RateIsAttained(s, policy, from, rounds - 1);
      BurstCounts(s, FullRate(s.failed, policy, from, rounds - 1), policy, policy.maxAttempts,
                  from + rounds * policy.lockout);
    }
  }

  /** The bound of LockoutRate is the best there is: between any two instants some run of wrong passwords reaches it. */
  lemma RateIsExact(s: LockState, policy: Policy, from: Instant, to: Instant)
    requires policy.maxAttempts >= 1 && policy.lockout > 0 && from <= to
    requires s.failed < policy.maxAttempts && !IsLocked(s, from)
    ensures exists run ::
              && InOrder(run, from, to) && NobodyAdmitted(s, run, policy)
              && WrongVerdicts(s, run, policy) == ((to - from) / policy.lockout + 1) * policy.maxAttempts - s.failed
  {
    hide WrongVerdicts, AfterAll, FullRate, InOrder, NobodyAdmitted;
    var rounds := FittingRounds(to - from, policy.lockout);
    var run := FullRate(s.failed, policy, from, rounds);
    RateIsAttained(s, policy, from, rounds);
    FullRateInOrder(s.failed, policy, from, rounds);
    LongerSpan(run, from, from + rounds * policy.lockout, to);
    OnlyWrongPasswords(s.failed, policy, from, rounds);
    NobodyGetsIn(s, run, policy);
  }

  lemma FittingRounds(span: nat, length: int) returns (rounds: nat)
    requires length > 0
    ensures rounds == span / length && rounds * length <= span
  {
    rounds := span / length;
    assert span == rounds * length + span % length;
  }

  lemma LongerSpan(run: seq<Attempt>, from: Instant, mid: Instant, to: Instant)
    requires InOrder(run, from, mid) && mid <= to
    ensures InOrder(run, from, to)
  {
  }

  lemma NobodyGetsIn(s: LockState, run: seq<Attempt>, policy: Policy)
    requires forall a <- run :: !a.passwordOk
    ensures NobodyAdmitted(s, run, policy)
  {
  }

  lemma {:induction false} OnlyWrongPasswords(failed: nat, policy: Policy, from: Instant, rounds: nat)
    requires failed < policy.maxAttempts
    ensures forall a <- FullRate(failed, policy, from, rounds) :: !a.passwordOk
  {
    if rounds > 0 {
      OnlyWrongPasswords(failed, policy, from, rounds - 1);
    }
  }

  lemma NoAttempts(s: LockState, policy: Policy)
    ensures AfterAll(s, [], policy) == s && WrongVerdicts(s, [], policy) == 0
  {
  }

  lemma {:induction false} FullRateInOrder(failed: nat, policy: Policy, from: Instant, rounds: nat)
    requires policy.lockout > 0 && failed < policy.maxAttempts
    ensures InOrder(FullRate(failed, policy, from, rounds), from, from + rounds * policy.lockout)
  {
    if rounds > 0 {
      hide InOrder, FullRate;
      Distribute(rounds, policy.lockout);
      FullRateInOrder(failed, policy, from, rounds - 1);
      OneMoreBurst(failed, policy, from, rounds);
    }
  }

  lemma OneMoreBurst(failed: nat, policy: Policy, from: Instant, rounds: nat)
    requires rounds > 0 && failed < policy.maxAttempts
    requires InOrder(FullRate(failed, policy, from, rounds - 1), from, from + (rounds - 1) * policy.lockout)
    requires (rounds - 1) * policy.lockout <= rounds * policy.lockout && 0 <= rounds * policy.lockout
    ensures InOrder(FullRate(failed, policy, from, rounds), from, from + rounds * policy.lockout)
  {
    var before := FullRate(failed, policy, from, rounds - 1);
    var burst := Burst(policy.maxAttempts, from + rounds * policy.lockout);
    assert FullRate(failed, policy, from, rounds) == before + burst;
  }
}
