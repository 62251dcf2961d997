/** The supervisor's clocks: poll interval, suspend threshold, and what a whole run of the monitor
    loop looks like in time. Durations are exact reals, in seconds. */
module Timing {
  import opened Trace
  import opened Diary

  function Min(a: real, b: real): real {
    if a < b then a else b
  }

  function Max(a: real, b: real): real {
    if a < b then b else a
  }

  /** `cookie_check_interval` for a configured number of seconds. */
  function CheckInterval(configured: real): real {
    Max(configured, 1.0)
  }

  function PollInterval(interval: real): real {
    Min(Max(interval / 4.0, 1.0), 15.0)
  }

  function SuspendThreshold(poll: real): real {
    Max(poll * 4.0, 30.0)
  }

  /** For every configured interval the poll is between 1 and 15 seconds and no longer than the
      interval, and the suspend threshold is at most a minute. */
  lemma PollBounds(configured: real)
    ensures var ci := CheckInterval(configured);
            var poll := PollInterval(ci);
            1.0 <= poll <= 15.0 && poll <= ci && poll < SuspendThreshold(poll) <= 60.0
  {
  }

  /** Every interval has four polls, but for the bounds: exactly four from 4 to 60 seconds, fewer below
      and more above. So the suspend threshold is the interval itself, kept between 30 and 60. */
  lemma FourPolls(configured: real)
    ensures var ci := CheckInterval(configured);
            var poll := PollInterval(ci);
            && (ci == configured <==> configured >= 1.0) && (ci == 1.0 <==> configured <= 1.0)
            && (4.0 * poll == ci <==> 4.0 <= ci <= 60.0)
            && (4.0 * poll > ci <==> ci < 4.0) && (poll == 1.0 <==> ci <= 4.0)
            && (4.0 * poll < ci <==> ci > 60.0) && (poll == 15.0 <==> ci >= 60.0)
            && SuspendThreshold(poll) == Max(30.0, Min(ci, 60.0))
  {
  }

  /** How long a forced check goes on trying. */
  const RETRY_WINDOW: real := 60.0

  // ── Ticks of the monitor loop ──────────────────────────────────────────

  datatype Check = NotDue | VpnDead | Checked(status: CookieStatus)

  /** One iteration: both clocks at its top, why it ran, what it checked, when its body was over,
      whether stop had been requested by then, and `last_check` as it left it. `entry` is where in the
      diary the wait before it is, unless a wake cut that short. */
  datatype Tick = Tick(
    mono: real, wall: real, wake: bool, forced: bool, check: Check, done: real, stopped: bool, lastCheck: real, entry: nat)

  /** The wall-clock jump since the previous top; a clock set back counts as no time at all. */
  function WallDelta(before: real, now: real): real {
    Max(now - before, 0.0)
  }

  /** What the loop keeps from one iteration to the next. */
  datatype Carry = Carry(wall: real, done: real, lastCheck: real)

  function CarryOf(t: Tick): Carry {
    Carry(t.wall, t.done, t.lastCheck)
  }

  /** `t` can be the iteration after `c`. */
  predicate Follows(ci: real, c: Carry, t: Tick) {
    var poll := PollInterval(ci);
    && (t.mono >= c.done && (!t.wake ==> t.mono >= c.done + poll))
    && (t.forced <==> t.wake || WallDelta(c.wall, t.wall) > SuspendThreshold(poll))
    && t.done >= t.mono
    && match t.check
       case VpnDead => t.lastCheck == t.mono
       case NotDue => !t.forced && t.mono - c.lastCheck < ci && t.lastCheck == c.lastCheck
       case Checked(st) =>
         && (t.forced || t.mono - c.lastCheck >= ci)
         && t.lastCheck == (if st == NetworkError then c.lastCheck else t.mono)
         && (t.forced && st == NetworkError && !t.stopped ==> t.done >= t.mono + RETRY_WINDOW)
  }

  function CarryAt(start: Carry, log: seq<Tick>, k: nat): Carry
    requires k <= |log|
  {
    if k == 0 then start else CarryOf(log[k - 1])
  }

  /** A log of consecutive iterations, started from `start`. */
  ghost predicate GoodLog(ci: real, start: Carry, log: seq<Tick>) {
    forall k {:trigger CarryAt(start, log, k)} :: 0 <= k < |log| ==> Follows(ci, CarryAt(start, log, k), log[k])
  }

  /** Every iteration that was not woken was preceded by one sleep, for exactly a poll, from the end of
      the iteration before to its own top. */
  ghost predicate TimedBy(diary: seq<Deed>, ci: real, start: Carry, log: seq<Tick>) {
    forall k {:trigger CarryAt(start, log, k)} :: 0 <= k < |log| && !log[k].wake ==>
      && log[k].entry < |diary|
      && diary[log[k].entry] == Slept(CarryAt(start, log, k).done, log[k].mono, PollInterval(ci))
  }

  lemma EmptyLog(diary: seq<Deed>, ci: real, start: Carry)
    ensures GoodLog(ci, start, []) && TimedBy(diary, ci, start, [])
  {
  }

  lemma LogAppend(ci: real, start: Carry, log: seq<Tick>, t: Tick)
    requires GoodLog(ci, start, log) && Follows(ci, CarryAt(start, log, |log|), t)
    ensures GoodLog(ci, start, log + [t])
  {
    forall k | 0 <= k < |log + [t]| ensures Follows(ci, CarryAt(start, log + [t], k), (log + [t])[k]) {
      assert CarryAt(start, log + [t], k) == CarryAt(start, log, k);
    }
  }

  lemma TimedOn(diary: seq<Deed>, more: seq<Deed>, ci: real, start: Carry, log: seq<Tick>)
    requires TimedBy(diary, ci, start, log) && diary <= more
    ensures TimedBy(more, ci, start, log)
  {
    hide PollInterval;
    forall k | 0 <= k < |log| && !log[k].wake
      ensures log[k].entry < |more|
      ensures more[log[k].entry] == Slept(CarryAt(start, log, k).done, log[k].mono, PollInterval(ci))
    {
      var carry := CarryAt(start, log, k);
      assert log[k].entry < |diary| && diary[log[k].entry] == more[log[k].entry];
    }
  }

  lemma TimedAppend(diary: seq<Deed>, more: seq<Deed>, ci: real, start: Carry, log: seq<Tick>, t: Tick)
    requires TimedBy(diary, ci, start, log) && diary <= more
    requires !t.wake ==> t.entry < |more| && more[t.entry] == Slept(CarryAt(start, log, |log|).done, t.mono, PollInterval(ci))
    ensures TimedBy(more, ci, start, log + [t])
  {
    forall k | 0 <= k < |log + [t]| && !(log + [t])[k].wake
      ensures (log + [t])[k].entry < |more|
      ensures more[(log + [t])[k].entry] == Slept(CarryAt(start, log + [t], k).done, (log + [t])[k].mono, PollInterval(ci))
    {
      assert CarryAt(start, log + [t], k) == CarryAt(start, log, k);
    }
  }

  // ── A resume is not forgotten ──────────────────────────────────────────

  /** The iteration has answered the question a resume raises, or the supervisor is going down. */
  predicate Settles(t: Tick) {
    t.check == Checked(Valid) || t.check == Checked(Invalid) || t.check == VpnDead || t.stopped
  }

  /** How far the wall clock fell behind the monotonic one between the tops of two iterations. */
  function Lag(a: Tick, b: Tick): real {
    (b.mono - a.mono) - (b.wall - a.wall)
  }

  /** The lag the loop puts up with: a retry window and a poll, less the suspend threshold. */
  function Slack(ci: real): real {
    RETRY_WINDOW + PollInterval(ci) - SuspendThreshold(PollInterval(ci))
  }

  /** A forced check that gives up on the network makes the next iteration forced again, unless the
      wall clock has lost the slack meanwhile. */
  lemma {:induction false} ForcedAgain(ci: real, start: Carry, log: seq<Tick>, k: nat)
    requires ci >= 1.0 && GoodLog(ci, start, log) && k + 1 < |log|
    requires log[k].forced && !Settles(log[k]) && Lag(log[k], log[k + 1]) < Slack(ci)
    ensures log[k + 1].forced
  {
    assert Follows(ci, CarryAt(start, log, k), log[k]);
    assert Follows(ci, CarryAt(start, log, k + 1), log[k + 1]);
  }

  /** So once an iteration is forced, every later one is, up to and including the first that settles
      the question, whatever the network does meanwhile. */
  lemma {:induction false} ResumeIsNotForgotten(ci: real, start: Carry, log: seq<Tick>, i: nat, j: nat)
    requires ci >= 1.0 && GoodLog(ci, start, log) && i <= j < |log|
    requires log[i].forced
    requires forall k :: i <= k < j ==> !Settles(log[k]) && Lag(log[k], log[k + 1]) < Slack(ci)
    ensures log[j].forced && log[j].check != NotDue
  {
    assert Follows(ci, CarryAt(start, log, j), log[j]);
    if i < j {
      ResumeIsNotForgotten(ci, start, log, i, j - 1);
      ForcedAgain(ci, start, log, j - 1);
    }
  }

  /** Two consecutive iterations in which a resume is forgotten: the first was forced and settled
      nothing, and the second, no longer forced, finds the cookie valid, which replaces no tunnel. */
  ghost predicate Forgets(ci: real, lag: real, start: Carry, a: Tick, b: Tick) {
    && GoodLog(ci, start, [a, b])
    && a.forced && !Settles(a) && Lag(a, b) == lag && !b.forced && b.check == Checked(Valid)
  }

  lemma ForgottenAt(ci: real, lag: real) returns (start: Carry, a: Tick, b: Tick)
    requires ci >= 1.0 && lag >= Slack(ci)
    ensures Forgets(ci, lag, start, a, b)
  {
    var poll := PollInterval(ci);
    var gaveUp := poll + RETRY_WINDOW;
    var now := gaveUp + poll;
    start := Carry(0.0, 0.0, poll - ci);
    a := Tick(poll, 100.0, true, true, Checked(NetworkError), gaveUp, false, poll - ci, 0);
    b := Tick(now, 100.0 + RETRY_WINDOW + poll - lag, false, false, Checked(Valid), now, false, now, 0);
    assert Follows(ci, start, a) && Follows(ci, CarryOf(a), b);
    assert [a, b][0] == a && [a, b][1] == b;
  }

  /** The slack is positive, at least a poll, and it is exact: for every interval and every lag, a
      resume can be forgotten if and only if the wall clock falls behind by at least the slack. */
  lemma {:induction false} ForgetsIff(ci: real, lag: real)
    requires ci >= 1.0
    ensures Slack(ci) >= PollInterval(ci) >= 1.0
    ensures (exists start, a, b :: Forgets(ci, lag, start, a, b)) <==> lag >= Slack(ci)
  {
    if lag >= Slack(ci) {
      var start, a, b := ForgottenAt(ci, lag);
    }
    if exists start, a, b :: Forgets(ci, lag, start, a, b) {
      var start, a, b :| Forgets(ci, lag, start, a, b);
      if lag < Slack(ci) { ForcedAgain(ci, start, [a, b], 0); }
    }
  }

  // ── Spacing of cookie checks ───────────────────────────────────────────

  predicate IsCheck(t: Tick) {
    t.check != NotDue
  }

  /** The scheduler is prompt: a wait lasts at most a poll, a loop body at most `d`. */
  ghost predicate Prompt(ci: real, start: Carry, log: seq<Tick>, d: real) {
    forall k {:trigger CarryAt(start, log, k)} :: 0 <= k < |log| ==>
      log[k].mono <= CarryAt(start, log, k).done + PollInterval(ci) && log[k].done <= log[k].mono + d
  }

  /** It is, if no timer in the diary fires late, a wake comes before the timer and no body takes longer. */
  lemma {:induction false} PromptTimers(diary: seq<Deed>, ci: real, start: Carry, log: seq<Tick>, d: real)
    requires TimedBy(diary, ci, start, log)
    requires forall i :: 0 <= i < |diary| && diary[i].Slept? ==> diary[i].done <= diary[i].start + diary[i].planned
    requires forall k {:trigger CarryAt(start, log, k)} :: 0 <= k < |log| && log[k].wake ==>
               log[k].mono <= CarryAt(start, log, k).done + PollInterval(ci)
    requires forall k :: 0 <= k < |log| ==> log[k].done <= log[k].mono + d
    ensures Prompt(ci, start, log, d)
  {
  }

  lemma {:induction false} LastCheckBefore(ci: real, start: Carry, log: seq<Tick>, k: nat)
    requires GoodLog(ci, start, log) && start.lastCheck <= start.done && k <= |log|
    ensures CarryAt(start, log, k).lastCheck <= CarryAt(start, log, k).done
  {
    if k > 0 {
      LastCheckBefore(ci, start, log, k - 1);
      assert Follows(ci, CarryAt(start, log, k - 1), log[k - 1]);
    }
  }

  /** `last_check` is never later than the latest iteration that checked. */
  lemma {:induction false} LastCheckLags(ci: real, start: Carry, log: seq<Tick>, i: nat, k: nat)
    requires GoodLog(ci, start, log) && start.lastCheck <= start.done
    requires i <= k < |log| && forall m :: i < m <= k ==> !IsCheck(log[m])
    ensures log[k].lastCheck <= log[i].mono
  {
    assert Follows(ci, CarryAt(start, log, k), log[k]);
    if i < k {
      LastCheckLags(ci, start, log, i, k - 1);
    } else if k > 0 {
      LastCheckBefore(ci, start, log, k);
    }
  }

  /** Two successive checks start at most one interval, one poll and one loop body apart. */
  lemma {:induction false} ChecksAreSpaced(ci: real, start: Carry, log: seq<Tick>, d: real, i: nat, j: nat)
    requires ci >= 1.0 && d >= 0.0
    requires GoodLog(ci, start, log) && start.lastCheck <= start.done && Prompt(ci, start, log, d)
    requires i < j < |log| && IsCheck(log[i]) && IsCheck(log[j])
    requires forall m :: i < m < j ==> !IsCheck(log[m])
    ensures log[j].mono - log[i].mono <= ci + PollInterval(ci) + d
  {
    assert log[j].mono <= CarryAt(start, log, j).done + PollInterval(ci);
    assert CarryAt(start, log, j - 1).done <= log[j - 1].done <= log[j - 1].mono + d;
    if i < j - 1 {
      LastCheckLags(ci, start, log, i, j - 2);
      assert Follows(ci, CarryAt(start, log, j - 1), log[j - 1]);
    }
  }

  /** And no stretch without a check gets longer: every iteration is a check or less than one
      interval after the last decisive one. */
  lemma {:induction false} NoStaleTick(ci: real, start: Carry, log: seq<Tick>, k: nat)
    requires GoodLog(ci, start, log) && k < |log|
    ensures IsCheck(log[k]) || log[k].mono < log[k].lastCheck + ci
  {
    assert Follows(ci, CarryAt(start, log, k), log[k]);
  }

  /** After a periodic check that failed on the network, the very next iteration checks again, one
      poll and one loop body later at most. */
  lemma {:induction false} NetworkErrorRetriesSoon(ci: real, start: Carry, log: seq<Tick>, d: real, k: nat)
    requires ci >= 1.0 && GoodLog(ci, start, log) && Prompt(ci, start, log, d)
    requires k + 1 < |log| && !log[k].forced && log[k].check == Checked(NetworkError)
    ensures IsCheck(log[k + 1]) && log[k + 1].mono - log[k].mono <= PollInterval(ci) + d
  {
    assert Follows(ci, CarryAt(start, log, k), log[k]);
    assert Follows(ci, CarryAt(start, log, k + 1), log[k + 1]);
    assert log[k + 1].mono <= CarryAt(start, log, k + 1).done + PollInterval(ci);
  }

  /** The iteration has settled what the cookie is worth, or has done what it could about a dead tunnel. */
  predicate IsDecisive(t: Tick) {
    t.check == VpnDead || t.check == Checked(Valid) || t.check == Checked(Invalid)
  }

  lemma {:induction false} LastCheckHolds(ci: real, start: Carry, log: seq<Tick>, i: nat, k: nat)
    requires GoodLog(ci, start, log) && start.lastCheck <= start.done && i <= k < |log| && IsDecisive(log[i])
    ensures log[k].lastCheck >= log[i].mono
  {
    assert Follows(ci, CarryAt(start, log, k), log[k]);
    if i < k {
      LastCheckHolds(ci, start, log, i, k - 1);
      LastCheckBefore(ci, start, log, k);
    }
  }

  /** And none comes too soon: after a decisive iteration no later one that was not forced checks the
      cookie before a whole interval has passed. */
  lemma {:induction false} ChecksAreNotTooSoon(ci: real, start: Carry, log: seq<Tick>, i: nat, j: nat)
    requires GoodLog(ci, start, log) && start.lastCheck <= start.done
    requires i < j < |log| && IsDecisive(log[i]) && log[j].check.Checked? && !log[j].forced
    ensures log[j].mono - log[i].mono >= ci
  {
    LastCheckHolds(ci, start, log, i, j - 1);
    assert Follows(ci, CarryAt(start, log, j), log[j]);
  }

  /** A signalled resume, and a jump of the wall clock by more than the interval kept between 30 and 60
      seconds, is looked into in the very iteration that notices it. */
  lemma {:induction false} ResumeIsNoticed(ci: real, start: Carry, log: seq<Tick>, k: nat)
    requires ci >= 1.0 && GoodLog(ci, start, log) && k < |log|
    requires log[k].wake || log[k].wall - CarryAt(start, log, k).wall > Max(30.0, Min(ci, 60.0))
    ensures log[k].forced && log[k].check != NotDue
  {
    FourPolls(ci);
    assert Follows(ci, CarryAt(start, log, k), log[k]);
  }

  /** Nothing else forces a check. */
  lemma {:induction false} OnlyAResumeForces(ci: real, start: Carry, log: seq<Tick>, k: nat)
    requires ci >= 1.0 && GoodLog(ci, start, log) && k < |log| && log[k].forced
    ensures log[k].wake || log[k].wall - CarryAt(start, log, k).wall > Max(30.0, Min(ci, 60.0))
  {
    FourPolls(ci);
    assert Follows(ci, CarryAt(start, log, k), log[k]);
  }
}
