/** The exponential backoff of a forced check: what a run of it looks like, deed by deed. */
module Backoff {
  import opened Bytes
  import opened Trace
  import opened Timing
  import opened Diary

  /** The delay planned after the (k+1)-st probe. */
  function Delay(k: nat): (d: real)
    ensures 1.0 <= d <= 10.0
  {
    if k == 0 then 1.0 else Min(Delay(k - 1) * 1.5, 10.0)
  }

  /** How long k undisturbed delays take. */
  function Planned(k: nat): (d: real)
    ensures d >= k as real
  {
    if k == 0 then 0.0 else Planned(k - 1) + Delay(k - 1)
  }

  lemma TenDelaysFillTheWindow()
    ensures Planned(9) < RETRY_WINDOW < Planned(10)
  {
    assert Planned(5) == 13.1875;
    assert Delay(5) == 7.59375;
    assert Planned(7) == 30.78125;
    assert Planned(9) == 50.78125;
  }

  // ── Runs of the retry loop ─────────────────────────────────────────────

  function EndOf(d: Deed): real {
    match d
    case Asked(_, done, _, _) => done
    case Slept(_, done, _) => done
    case _ => 0.0
  }

  function BeginOf(start: real, log: seq<Deed>, i: nat): real
    requires i <= |log|
  {
    if i == 0 then start else EndOf(log[i - 1])
  }

  /** Probe and sleep by turns, each as soon as the one before it is over. Only a probe that found no
      network before the deadline is followed by a sleep, and the sleep is the next delay, cut short so
      that it ends by the deadline. */
  ghost predicate RetryDeed(start: real, maxWait: real, log: seq<Deed>, i: nat)
    requires i < |log|
  {
    var begun := BeginOf(start, log, i);
    if i % 2 == 0 then
      && log[i].Asked? && log[i].start == begun <= log[i].done
      && (i + 1 < |log| ==> log[i].answer == Unreachable && log[i].done < start + maxWait)
    else
      && log[i].Slept? && log[i].start == begun && begun + log[i].planned <= log[i].done
      && log[i].planned == Min(Delay(i / 2), start + maxWait - begun)
  }

  ghost predicate RetryRun(start: real, maxWait: real, log: seq<Deed>) {
    forall i :: 0 <= i < |log| ==> RetryDeed(start, maxWait, log, i)
  }

  lemma NothingRetried(start: real, maxWait: real)
    ensures RetryRun(start, maxWait, []) && Delay(0) == 1.0 && Planned(0) == 0.0
  {
  }

  lemma DeedBefore(start: real, maxWait: real, log: seq<Deed>, d: Deed, i: nat)
    requires i < |log| && RetryDeed(start, maxWait, log, i)
    requires i == |log| - 1 && log[i].Asked? ==> log[i].answer == Unreachable && log[i].done < start + maxWait
    ensures RetryDeed(start, maxWait, log + [d], i)
  {
    hide Delay;
    assert (log + [d])[i] == log[i] && BeginOf(start, log + [d], i) == BeginOf(start, log, i);
  }

  lemma {:induction false} ProbeFollows(start: real, maxWait: real, log: seq<Deed>, d: Deed)
    requires RetryRun(start, maxWait, log) && |log| % 2 == 0
    requires d.Asked? && d.start == BeginOf(start, log, |log|) <= d.done
    ensures RetryRun(start, maxWait, log + [d])
  {
    hide Delay;
    forall i | 0 <= i < |log + [d]| ensures RetryDeed(start, maxWait, log + [d], i) {
      if i < |log| { DeedBefore(start, maxWait, log, d, i); }
    }
  }

  lemma {:induction false} SleepFollows(start: real, maxWait: real, log: seq<Deed>, d: Deed)
    requires RetryRun(start, maxWait, log) && |log| % 2 == 1
    requires log[|log| - 1].Asked? && log[|log| - 1].answer == Unreachable && log[|log| - 1].done < start + maxWait
    requires d.Slept? && d.start == log[|log| - 1].done && d.start + d.planned <= d.done
    requires d.planned == Min(Delay(|log| / 2), start + maxWait - d.start)
    ensures RetryRun(start, maxWait, log + [d])
  {
    hide Delay;
    forall i | 0 <= i < |log + [d]| ensures RetryDeed(start, maxWait, log + [d], i) {
      if i < |log| { DeedBefore(start, maxWait, log, d, i); }
    }
  }

  /** The (k+1)-st probe starts once k whole delays have passed, or at the deadline. */
  lemma {:induction false} NotTooEarly(start: real, maxWait: real, log: seq<Deed>, k: nat)
    requires RetryRun(start, maxWait, log) && 2 * k < |log|
    ensures log[2 * k].Asked?
    ensures log[2 * k].start >= start + maxWait || log[2 * k].start >= start + Planned(k)
  {
    hide Delay;
    assert RetryDeed(start, maxWait, log, 2 * k);
    if k > 0 {
      NotTooEarly(start, maxWait, log, k - 1);
      assert RetryDeed(start, maxWait, log, 2 * k - 2) && RetryDeed(start, maxWait, log, 2 * k - 1);
    }
  }

  lemma ByTurns(start: real, maxWait: real, log: seq<Deed>, i: nat)
    requires i < |log| && RetryDeed(start, maxWait, log, i)
    ensures log[i].Asked? == (i % 2 == 0) && (log[i].Asked? && i + 1 < |log| ==> log[i].answer == Unreachable)
  {
  }

  lemma {:induction false} CountProbes(log: seq<Deed>)
    requires forall i :: 0 <= i < |log| ==> log[i].Asked? == (i % 2 == 0)
    ensures |Verdicts(log)| == (|log| + 1) / 2
    ensures forall k :: 0 <= k < |Verdicts(log)| ==> log[2 * k].Asked? && Verdicts(log)[k] == StatusOf(log[2 * k].answer)
  {
    hide StatusOf;
    if log != [] {
      var front, last := log[..|log| - 1], log[|log| - 1];
      assert log == front + [last];
      CountProbes(front);
      VerdictsAppend(front, last);
      forall k | 0 <= k < |Verdicts(log)| ensures log[2 * k].Asked? && Verdicts(log)[k] == StatusOf(log[2 * k].answer) {
        if k < |Verdicts(front)| { assert log[2 * k] == front[2 * k]; }
      }
    }
  }

  /** A run probes every other time, and every probe but the last found no network. */
  lemma {:induction false} ProbesOf(start: real, maxWait: real, log: seq<Deed>)
    requires RetryRun(start, maxWait, log)
    ensures |Verdicts(log)| == (|log| + 1) / 2
    ensures forall k :: 0 <= k < |Verdicts(log)| && 2 * k + 1 < |log| ==> Verdicts(log)[k] == NetworkError
  {
    hide RetryDeed;
    forall i | 0 <= i < |log|
      ensures log[i].Asked? == (i % 2 == 0) && (log[i].Asked? && i + 1 < |log| ==> log[i].answer == Unreachable)
    {
      ByTurns(start, maxWait, log, i);
    }
    CountProbes(log);
  }

  /** In its window of a minute a run probes at most eleven times. */
  lemma {:induction false} ElevenProbes(start: real, log: seq<Deed>)
    requires RetryRun(start, RETRY_WINDOW, log)
    ensures |Verdicts(log)| <= 11 && |log| <= 21
  {
    hide Delay, Planned, Verdicts;
    ProbesOf(start, RETRY_WINDOW, log);
    TenDelaysFillTheWindow();
    assert |log| >= 22 ==> RetryDeed(start, RETRY_WINDOW, log, 20);
    if |log| >= 22 { NotTooEarly(start, RETRY_WINDOW, log, 10); }
  }

  /** A probe takes at most `d`, and no sleep oversleeps. */
  ghost predicate Prompt(log: seq<Deed>, d: real) {
    forall i :: 0 <= i < |log| ==>
      match log[i]
      case Asked(start, done, _, _) => done <= start + d
      case Slept(start, done, planned) => done <= start + planned
      case _ => true
  }

  lemma OneTurn(start: real, maxWait: real, log: seq<Deed>, d: real, i: nat)
    requires RetryRun(start, maxWait, log) && Prompt(log, d) && i + 2 < |log| && i % 2 == 0
    ensures log[i].Asked? && log[i + 2].Asked?
    ensures log[i + 2].start <= log[i].start + d + Delay(i / 2) && log[i + 2].start <= start + maxWait
  {
    hide Delay;
    assert RetryDeed(start, maxWait, log, i) && RetryDeed(start, maxWait, log, i + 1) && RetryDeed(start, maxWait, log, i + 2);
  }

  /** Nor is the loop late: unless an earlier probe settled it, the (k+1)-st starts no later than k
      delays and k probes after the start, and no later than the deadline once there is a first. */
  lemma {:induction false} NotTooLate(start: real, maxWait: real, log: seq<Deed>, d: real, k: nat)
    requires RetryRun(start, maxWait, log) && Prompt(log, d) && 2 * k < |log|
    ensures log[2 * k].Asked? && log[2 * k].start <= start + Planned(k) + k as real * d
    ensures k > 0 ==> log[2 * k].start <= start + maxWait
  {
    hide Delay;
    if k == 0 {
      assert RetryDeed(start, maxWait, log, 0);
    } else {
      hide RetryRun, RetryDeed, Prompt;
      NotTooLate(start, maxWait, log, d, k - 1);
      OneTurn(start, maxWait, log, d, 2 * (k - 1));
      assert (k - 1) as real * d + d == k as real * d;
    }
  }

  /** A run that ended on its own: its last probe found the network, or the window was used up. */
  ghost predicate RanItsCourse(start: real, maxWait: real, log: seq<Deed>) {
    && |log| % 2 == 1 && log[|log| - 1].Asked?
    && (log[|log| - 1].answer == Unreachable ==> log[|log| - 1].done >= start + maxWait)
  }

  /** A network that comes back in time is noticed: if it answers every probe from `back` on, and is
      back a probe's length before the deadline, the check gets an answer, and gets it within two
      probes and the longest delay of that moment. */
  lemma {:induction false} NetworkIsNoticed(start: real, maxWait: real, log: seq<Deed>, d: real, back: real)
    requires RetryRun(start, maxWait, log) && RanItsCourse(start, maxWait, log) && Prompt(log, d) && d >= 0.0
    requires start <= back < start + maxWait - d
    requires forall i :: 0 <= i < |log| && log[i].Asked? && log[i].start >= back ==> log[i].answer != Unreachable
    ensures log[|log| - 1].answer != Unreachable && log[|log| - 1].done <= back + 10.0 + 2.0 * d
  {
    var last := |log| - 1;
    assert RetryDeed(start, maxWait, log, last);
    if last > 0 {
      assert RetryDeed(start, maxWait, log, last - 1) && RetryDeed(start, maxWait, log, last - 2);
    }
  }
}
