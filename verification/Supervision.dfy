/** The supervisor: the child slot, the monitor loop and its backoff, over any behaviour of the world.
    What its methods emit and count is what `Life` says for the ghost scripts they return. */
module Supervision {
  import opened Bytes
  import opened Trace
  import opened Diary
  import opened World
  import opened Vpn
  import opened Timing
  import opened Backoff
  import opened Cookie
  import Http
  import Life
  import Mfa

  lemma BackoffStep(k: nat)
    ensures Delay(k + 1) == Min(Delay(k) * 1.5, 10.0) && Planned(k + 1) == Planned(k) + Delay(k)
  {
  }

  lemma ProbesAppend(verdicts: seq<CookieStatus>, st: CookieStatus)
    ensures Life.ProbeEvents(verdicts + [st]) == Life.ProbeEvents(verdicts) + [Probed(Monitor, st)]
  {
  }

  lemma NothingProbed()
    ensures Life.ProbeEvents([]) == [] && Verdicts([]) == []
  {
  }

  /** The sleep between two probes, which a stop request cuts short. */
  method SleepUnlessStopped(w: World, duration: real) returns (cancelled: bool)
    requires w.Valid() && duration >= 0.0
    modifies w
    ensures w.Valid() && w.nextPid == old(w.nextPid) && w.waitFailed == old(w.waitFailed) && w.running <= old(w.running)
    ensures w.trace == old(w.trace) && (old(w.stop) ==> w.stop) && w.mono >= old(w.mono)
    ensures if cancelled then w.stop && w.diary == old(w.diary)
            else w.mono >= old(w.mono) + duration && w.diary == old(w.diary) + [Slept(old(w.mono), w.mono, duration)]
  {
    w.TouchCookieFile();
    var slept := w.Doze(duration, false);
    cancelled := !slept;
  }

  /** The verdicts of a forced check: those of its probes, and one more if it ends with a file about which
      nobody was asked. */
  predicate FromProbes(verdicts: seq<CookieStatus>, log: seq<Deed>, unasked: bool) {
    verdicts == Verdicts(log) + if unasked then [Invalid] else []
  }

  lemma AnswerMatters(a: HttpAnswer)
    ensures StatusOf(a) == NetworkError <==> a == Unreachable
  {
  }

  /** One probe of a retry: at most one more deed, and its verdict. */
  method RetryProbe(w: World, ghost start: real, ghost maxWait: real, ghost log: seq<Deed>)
    returns (last: CookieStatus, ghost added: seq<Deed>)
    requires w.Valid() && RetryRun(start, maxWait, log) && |log| % 2 == 0 && w.mono == BeginOf(start, log, |log|)
    modifies w
    ensures w.Valid() && OnlyTimePassed(w) && w.diary == old(w.diary) + added && w.trace == old(w.trace) + [Probed(Monitor, last)]
    ensures RetryRun(start, maxWait, log + added) && FromProbes(Verdicts(log) + [last], log + added, added == [])
    ensures if added == [] then last == Invalid && !IsProbed(w.cookieFile)
            else |added| == 1 && added[0].Asked? && added[0].done == w.mono && (last == NetworkError <==> added[0].answer == Unreachable)
    ensures last == Valid ==> HasCookie(w.cookieFile)
  {
    hide StatusOf, RetryRun, Verdicts, Http.Trim;
    ghost var a;
    last, a := ValidateFile(w, Monitor);
    added := [];
    if a.Some? {
      ghost var probe := Asked(old(w.mono), w.mono, Http.Trim(w.cookieFile.value), a.value);
      ProbeFollows(start, maxWait, log, probe);
      VerdictsAppend(log, probe);
      AnswerMatters(a.value);
      added := [probe];
    } else {
      assert log + added == log;
    }
  }

  /** `validate_cookie_with_retry`. For any probe durations and any oversleeping its deeds are those of a
      `RetryRun`, probes and sleeps and nothing else. It returns its last probe's verdict, Invalid once
      there is nothing to ask about, or NetworkError if stop kept it from probing at all; and unless stop
      came it has run its course. */
  method ValidateCookieWithRetry(w: World, maxWait: real)
    returns (last: CookieStatus, ghost verdicts: seq<CookieStatus>, ghost log: seq<Deed>, ghost unasked: bool)
    requires w.Valid() && maxWait >= 0.0
    modifies w
    ensures w.Valid() && w.nextPid == old(w.nextPid) && w.waitFailed == old(w.waitFailed) && w.running <= old(w.running)
    ensures w.mono >= old(w.mono) && (old(w.stop) ==> w.stop)
    ensures w.diary == old(w.diary) + log && RetryRun(old(w.mono), maxWait, log)
    ensures FromProbes(verdicts, log, unasked) && (unasked ==> |log| % 2 == 0 && !IsProbed(w.cookieFile))
    ensures (log == [] && !unasked) == old(w.stop)
    ensures unasked || RanItsCourse(old(w.mono), maxWait, log) || (w.stop && last == NetworkError)
    ensures w.trace == old(w.trace) + Life.ProbeEvents(verdicts) && last == Life.LastVerdict(verdicts)
    ensures last == Valid ==> HasCookie(w.cookieFile)
    ensures last == NetworkError && !w.stop ==> w.mono >= old(w.mono) + maxWait
  {
    hide Life.ProbeEvents, Delay, Planned, IsProbed, RetryRun, Verdicts, StatusOf, Http.Trim;
    NothingRetried(w.mono, maxWait);
    NothingProbed();
    var deadline := w.mono + maxWait;
    var delay := 1.0;
    ghost var start, attempts := w.mono, 0;
    last, verdicts, log, unasked := NetworkError, [], [], false;
    while !w.stop
      invariant w.Valid() && w.nextPid == old(w.nextPid) && w.waitFailed == old(w.waitFailed) && w.running <= old(w.running)
      invariant w.mono >= start && (old(w.stop) ==> w.stop && log == []) && (log == [] ==> w.stop == old(w.stop))
      invariant w.diary == old(w.diary) + log && RetryRun(start, maxWait, log) && |log| == 2 * attempts
      invariant w.mono == BeginOf(start, log, |log|) && delay == Delay(attempts)
      invariant last == NetworkError == Life.LastVerdict(verdicts) && verdicts == Verdicts(log) && !unasked
      invariant w.mono >= deadline || w.mono >= start + Planned(attempts)
      invariant attempts >= 1 ==> Planned(attempts - 1) < maxWait
      invariant w.trace == old(w.trace) + Life.ProbeEvents(verdicts)
      decreases maxWait.Floor + 1 - attempts
    {
      BackoffStep(attempts);
      ghost var probe;
      last, probe := RetryProbe(w, start, maxWait, log);
      ProbesAppend(verdicts, last);
      verdicts, log, unasked := verdicts + [last], log + probe, probe == [];
      if last != NetworkError { return; }
      if w.mono >= deadline { return; }
      var remaining := deadline - w.mono;
      var sleepFor := Min(delay, remaining);
      ghost var before := w.mono;
      var cancelled := SleepUnlessStopped(w, sleepFor);
      if cancelled { return; }
      ghost var sleep := Slept(before, w.mono, sleepFor);
      SleepFollows(start, maxWait, log, sleep);
      VerdictsAppend(log, sleep);
      log, attempts := log + [sleep], attempts + 1;
      delay := Min(delay * 1.5, 10.0);
    }
  }

  lemma OneProbe(log: seq<Deed>, st: CookieStatus)
    requires |log| == 1 ==> log[0].Asked? && StatusOf(log[0].answer) == st
    ensures Life.ProbeEvents([st]) == [Probed(Monitor, st)] && Life.LastVerdict([st]) == st && Life.CanProbe(false, [st])
    ensures Verdicts([]) == [] && (|log| == 1 ==> Verdicts(log) == [st])
  {
    if |log| == 1 {
      assert [] + log == log;
      VerdictsAppend([], log[0]);
    }
  }

  /** In its window of a minute the loop probes at most eleven times, and goes on after network errors
      only. */
  lemma {:induction false} RetryIsPossible(start: real, verdicts: seq<CookieStatus>, log: seq<Deed>, unasked: bool)
    requires RetryRun(start, RETRY_WINDOW, log) && FromProbes(verdicts, log, unasked)
    requires unasked ==> |log| % 2 == 0
    ensures Life.CanProbe(true, verdicts)
  {
    hide RetryRun, Verdicts;
    ElevenProbes(start, log);
    ProbesOf(start, RETRY_WINDOW, log);
  }

  const TERM_TIMEOUT: real := 10.0

  /** How a run stands: the first spawn failed, the loop is still going, or it has been shut down. */
  datatype RunEnd = Failed | Monitoring | ShutDown

  /** The branch an iteration took, as `Timing` sees it. */
  function CheckOf(it: Life.Iteration): Check {
    match it
    case Uneventful => NotDue
    case Revival(_, _) => VpnDead
    case CookieCheck(_, verdicts, _, _, _) => Checked(Life.LastVerdict(verdicts))
  }

  predicate Matches(t: Tick, it: Life.Iteration) {
    t.check == CheckOf(it) && (it.CookieCheck? ==> it.forced == t.forced)
  }

  lemma TickFollows(ci: real, c: Carry, t: Tick)
    requires t.mono >= c.done && (!t.wake ==> t.mono >= c.done + PollInterval(ci)) && t.done >= t.mono
    requires t.forced <==> t.wake || WallDelta(c.wall, t.wall) > SuspendThreshold(PollInterval(ci))
    requires match t.check
             case VpnDead => t.lastCheck == t.mono
             case NotDue => !t.forced && t.mono - c.lastCheck < ci && t.lastCheck == c.lastCheck
             case Checked(st) =>
               && (t.forced || t.mono - c.lastCheck >= ci)
               && t.lastCheck == (if st == NetworkError then c.lastCheck else t.mono)
               && (t.forced && st == NetworkError && !t.stopped ==> t.done >= t.mono + RETRY_WINDOW)
    ensures Follows(ci, c, t)
  {
  }

  lemma CookieIsThere(file: Option<Text>)
    requires HasCookie(file)
    ensures file.Some? && file != Some([])
  {
  }

  lemma UneventfulIsPossible()
    ensures Life.CanIterate(Life.Uneventful)
  {
  }

  lemma NothingIterated(headless: bool, attempts: nat)
    ensures Life.Iterations(headless, attempts, []) == Life.Part([], attempts, true)
  {
  }

  class Supervisor {
    const headless: bool
    const interval: real
    const w: World
    const budget: Mfa.MfaAttemptBudget
    var vpn: VpnProcess?
    /** The iterations of the monitor loop so far. */
    ghost var log: seq<Tick>

    /** `no_headless` and missing credentials both make every refresh headed. */
    constructor (noHeadless: bool, hasCredentials: bool, configured: real, w: World)
      requires w.Valid() && w.running == {} && !w.waitFailed
      ensures Valid() && this.w == w && vpn == null && log == [] && budget.attempts == 0 && fresh(budget)
      ensures interval == CheckInterval(configured) && (headless <==> hasCredentials && !noHeadless)
    {
      this.w := w;
      headless := hasCredentials && !noHeadless;
      interval := CheckInterval(configured);
      budget := new Mfa.MfaAttemptBudget();
      vpn := null;
      log := [];
    }

    ghost function Repr(): set<object>
      reads this
    {
      {this, w, budget} + (if vpn == null then {} else {vpn})
    }

    /** The only child that can be alive is the one in the slot. */
    ghost predicate OneChild()
      reads `vpn, w, vpn
    {
      && (vpn != null ==> vpn.pid < w.nextPid && (vpn.reaped ==> vpn.pid !in w.running))
      && (!w.waitFailed ==> w.running <= (if vpn == null then {} else {vpn.pid}))
    }

    ghost predicate Valid()
      reads Repr()
    {
      w.Valid() && OneChild() && interval >= 1.0
    }

    /** What every method keeps: its world only moves forward. */
    twostate predicate Onwards()
      reads this, w
    {
      && w.mono >= old(w.mono) && (old(w.stop) ==> w.stop) && (old(w.waitFailed) ==> w.waitFailed)
      && old(w.diary) <= w.diary
    }

    /** The tunnel of before is gone; what runs now, if anything, was spawned since. */
    twostate predicate Replaced()
      reads Repr()
    {
      && (vpn != null ==> fresh(vpn))
      && (!w.waitFailed ==> forall p :: p in w.running ==> p >= old(w.nextPid))
    }

    /** The last thing that was done is a spawn attempt, and it turned out as `sp` says. */
    ghost predicate Attempted(sp: Life.Spawn)
      reads w
    {
      && w.trace != []
      && match sp
         case AlreadyRunning => false
         case Started => w.trace[|w.trace| - 1] == Spawned && w.diary != [] && w.diary[|w.diary| - 1] == SpawnTried(None)
         case Rejected(e) =>
           && w.trace[|w.trace| - 1] == SpawnFailed(e)
           && if e == CookieMissing then w.cookieFile == None
              else if e == CookieEmpty then w.cookieFile == Some([])
              else w.diary != [] && w.diary[|w.diary| - 1] == SpawnTried(Some(e))
    }

    /** A live child is left alone; otherwise one spawn attempt is made. */
    method StartVpn() returns (ok: bool, ghost sp: Life.Spawn)
      requires Valid()
      modifies Repr()
      ensures Valid() && fresh(Repr() - old(Repr())) && Onwards() && log == old(log)
      ensures w.cookieFile == old(w.cookieFile) && w.nextPid >= old(w.nextPid) && budget.attempts == old(budget.attempts)
      ensures w.trace == old(w.trace) + Life.SpawnEvents(sp)
      ensures (sp == Life.Rejected(CookieMissing) <==> !sp.AlreadyRunning? && w.cookieFile.None?)
           && (sp == Life.Rejected(CookieEmpty) <==> !sp.AlreadyRunning? && w.cookieFile == Some([]))
      ensures ok <==> !sp.Rejected?
      ensures w.diary == old(w.diary)
                         + if sp.AlreadyRunning? || !HasCookie(w.cookieFile) then []
                           else [SpawnTried(if sp.Rejected? then Some(sp.error) else None)]
      ensures ok ==> vpn != null && vpn.pid in w.running
      ensures !sp.AlreadyRunning? ==> Attempted(sp)
      ensures if sp == Life.Started then fresh(vpn) && vpn.pid == old(w.nextPid) else vpn == old(vpn)
      ensures old(vpn) == null ==> !sp.AlreadyRunning?
      ensures !w.waitFailed ==> (sp.AlreadyRunning? <==> old(vpn) != null && old(vpn.pid in w.running))
    {
      if vpn != null {
        var alive := vpn.IsAlive(w);
        if alive {
          w.Emit(Kept);
          return true, Life.AlreadyRunning;
        }
      }
      var r := Start(w);
      match r
      case Ok(p) =>
        w.Emit(Spawned);
        vpn := p;
        ok, sp := true, Life.Started;
      case Err(e) =>
        w.Emit(SpawnFailed(e));
        ok, sp := false, Life.Rejected(e);
    }

    /** The slot is emptied whether or not the child could be waited for. */
    method StopVpn(shutdown: bool)
      requires Valid()
      modifies Repr()
      ensures Valid() && Onwards() && log == old(log) && vpn == null
      ensures w.cookieFile == old(w.cookieFile) && w.nextPid == old(w.nextPid) && budget.attempts == old(budget.attempts)
      ensures w.trace == old(w.trace) + (if old(vpn) == null then [] else [Stopped(shutdown)])
      ensures w.diary == old(w.diary)
              || (old(vpn) != null
                  && w.diary == old(w.diary) + [Slept(old(w.mono), w.mono, TERM_TIMEOUT), Killed(old(vpn.pid))])
      ensures !w.waitFailed ==> w.running == {}
    {
      if vpn != null {
        var proc := vpn;
        vpn := null;
        w.Emit(Stopped(shutdown));
        var stopped := proc.Stop(w, TERM_TIMEOUT);
      }
    }

    method RestartVpn() returns (ghost had: bool, ghost sp: Life.Spawn)
      requires Valid()
      modifies Repr()
      ensures Valid() && fresh(Repr() - old(Repr())) && Onwards() && log == old(log)
      ensures w.cookieFile == old(w.cookieFile) && budget.attempts == old(budget.attempts) && Replaced()
      ensures w.trace == old(w.trace) + Life.RestartEvents(had, sp) && had == (old(vpn) != null) && Attempted(sp)
      ensures !sp.AlreadyRunning? && (HasCookie(w.cookieFile) ==> Life.CanSpawn(sp))
    {
      had := vpn != null;
      StopVpn(false);
      var ok;
      ok, sp := StartVpn();
    }

    method VpnAlive() returns (alive: bool)
      requires Valid()
      modifies Repr()
      ensures Valid() && vpn == old(vpn) && Onwards() && log == old(log) && w.trace == old(w.trace)
      ensures w.mono == old(w.mono) && w.wall == old(w.wall) && w.cookieFile == old(w.cookieFile)
      ensures w.running == old(w.running) && budget.attempts == old(budget.attempts)
      ensures w.diary == old(w.diary)
      ensures !w.waitFailed ==> (alive <==> w.running != {})
    {
      if vpn == null {
        alive := false;
      } else {
        alive := vpn.IsAlive(w);
      }
    }

    /** The branch for a dead tunnel: the cookie decides whether a spawn is attempted, and a valid one
        supplied by hand brings the tunnel back however many pushes were spent. */
    method ReviveVpn() returns (ghost it: Life.Iteration)
      requires Valid()
      modifies Repr()
      ensures Valid() && fresh(Repr() - old(Repr())) && Onwards() && log == old(log)
      ensures it.Revival? && Life.CanIterate(it)
      ensures var p := Life.Iterated(headless, old(budget.attempts), it);
              w.trace == old(w.trace) + p.events && budget.attempts == p.attempts
              && if p.ok then it.spawn.AlreadyRunning? || Attempted(it.spawn) else vpn == old(vpn)
      ensures match it.ensuring.verdict
              case Valid => budget.attempts == 0 && (it.spawn.AlreadyRunning? || Attempted(it.spawn))
              case NetworkError => budget.attempts == old(budget.attempts) && (it.spawn.AlreadyRunning? || Attempted(it.spawn))
              case Invalid => old(budget.attempts) >= LIMIT ==> vpn == old(vpn) && budget.attempts == old(budget.attempts)
      ensures !old(w.waitFailed) && !w.waitFailed && old(w.running) == {} ==> !it.spawn.AlreadyRunning?
    {
      hide Life.Ensured, HasCookie;
      var usable: bool;
      ghost var e;
      usable, e := EnsureValidCookie(w, budget, headless);
      it := Life.Revival(e, Life.Started);
      if usable {
        CookieIsThere(w.cookieFile);
        var ok;
        ghost var sp;
        ok, sp := StartVpn();
        it := Life.Revival(e, sp);
      }
    }

    /** A valid cookie clears the budget, and replaces the tunnel if the check was forced or pushes
        had been spent. */
    method OnValid(force: bool) returns (ghost had: bool, ghost sp: Life.Spawn)
      requires Valid() && HasCookie(w.cookieFile)
      modifies Repr()
      ensures Valid() && fresh(Repr() - old(Repr())) && Onwards() && log == old(log)
      ensures budget.attempts == 0 && Life.CanSpawn(sp) && !sp.AlreadyRunning?
      ensures var restart := force || old(budget.attempts) > 0;
              && w.trace == old(w.trace) + ([BudgetReset] + if restart then Life.RestartEvents(had, sp) else [])
              && if restart then Replaced() && Attempted(sp) else vpn == old(vpn)
    {
      var recovered := budget.attempts > 0;
      budget.Reset();
      w.Emit(BudgetReset);
      had, sp := false, Life.Started;
      if force || recovered { had, sp := RestartVpn(); }
    }

    /** An invalid cookie leaves the tunnel running until a refresh has succeeded. */
    method OnInvalid() returns (ghost r: Life.Refresh, ghost had: bool, ghost sp: Life.Spawn)
      requires Valid()
      modifies Repr()
      ensures Valid() && fresh(Repr() - old(Repr())) && Onwards() && log == old(log)
      ensures Life.CanSpawn(sp) && !sp.AlreadyRunning?
      ensures var p := Life.Refreshing(headless, old(budget.attempts), r);
              && budget.attempts == p.attempts
              && w.trace == old(w.trace) + (p.events + if p.ok then Life.RestartEvents(had, sp) else [])
              && if p.ok then Replaced() && Attempted(sp) else vpn == old(vpn)
    {
      hide Life.Refreshing;
      var ok;
      ok, r := RefreshCookie(w, budget, headless);
      had, sp := false, Life.Started;
      if ok { had, sp := RestartVpn(); }
    }

    /** A periodic check: one probe, if there is anything to ask about. */
    method ProbeOnce() returns (st: CookieStatus, ghost verdicts: seq<CookieStatus>, ghost deeds: seq<Deed>)
      requires Valid()
      modifies w
      ensures Valid() && Onwards() && w.nextPid == old(w.nextPid)
      ensures st == Life.LastVerdict(verdicts) && Life.CanProbe(false, verdicts)
      ensures w.trace == old(w.trace) + Life.ProbeEvents(verdicts) && w.diary == old(w.diary) + deeds
      ensures Verdicts(deeds) == if IsProbed(w.cookieFile) then [st] else []
      ensures |deeds| <= 1 && (|deeds| == 0 ==> st == Invalid)
      ensures st == CookieStatus.Valid ==> HasCookie(w.cookieFile)
    {
      hide Life.ProbeEvents, Life.CanProbe, Verdicts, StatusOf, Http.Trim;
      ghost var a;
      st, a := ValidateFile(w, Monitor);
      verdicts, deeds := [st], if a.None? then [] else [Asked(old(w.mono), w.mono, Http.Trim(w.cookieFile.value), a.value)];
      OneProbe(deeds, st);
    }

    /** The monitor's verdict: one probe, or as many as fit into the retry window of a forced check. It
        leaves tunnel and budget as they are. */
    method JudgeCookie(force: bool)
      returns (st: CookieStatus, ghost verdicts: seq<CookieStatus>, ghost deeds: seq<Deed>)
      requires Valid()
      modifies w
      ensures Valid() && Onwards() && w.nextPid == old(w.nextPid)
      ensures st == Life.LastVerdict(verdicts) && Life.CanProbe(force, verdicts)
      ensures w.trace == old(w.trace) + Life.ProbeEvents(verdicts) && w.diary == old(w.diary) + deeds
      ensures if force then
                && RetryRun(old(w.mono), RETRY_WINDOW, deeds)
                && (st == Invalid || w.stop || RanItsCourse(old(w.mono), RETRY_WINDOW, deeds))
              else |deeds| <= 1 && Verdicts(deeds) == if IsProbed(w.cookieFile) then [st] else []
      ensures force && st == NetworkError && !w.stop ==> w.mono >= old(w.mono) + RETRY_WINDOW
      ensures st == CookieStatus.Valid ==> HasCookie(w.cookieFile)
    {
      hide RetryRun, RanItsCourse, Life.ProbeEvents, Life.CanProbe, Verdicts, StatusOf, IsProbed, Http.Trim;
      if force {
        ghost var unasked;
        st, verdicts, deeds, unasked := ValidateCookieWithRetry(w, RETRY_WINDOW);
        RetryIsPossible(old(w.mono), verdicts, deeds, unasked);
      } else {
        st, verdicts, deeds := ProbeOnce();
      }
    }

    /** The branch for a check that is due or forced. On a network error the tunnel and the budget are
        left as they are. */
    method CheckCookie(force: bool) returns (st: CookieStatus, ghost it: Life.Iteration)
      requires Valid()
      modifies Repr()
      ensures Valid() && fresh(Repr() - old(Repr())) && Onwards() && log == old(log)
      ensures it.CookieCheck? && it.forced == force && Life.CanIterate(it) && st == Life.LastVerdict(it.verdicts)
      ensures var p := Life.Iterated(headless, old(budget.attempts), it);
              w.trace == old(w.trace) + p.events && budget.attempts == p.attempts
      ensures force && st == NetworkError && !w.stop ==> w.mono >= old(w.mono) + RETRY_WINDOW
      ensures match st
              case NetworkError => vpn == old(vpn) && budget.attempts == old(budget.attempts)
              case Valid =>
                budget.attempts == 0 && if force || old(budget.attempts) > 0 then Replaced() && Attempted(it.spawn) else vpn == old(vpn)
              case Invalid =>
                if Life.Refreshing(headless, old(budget.attempts), it.refresh).ok then Replaced() && Attempted(it.spawn)
                else vpn == old(vpn)
    {
      hide Life.Refreshing, Life.ProbeEvents, Life.RestartEvents, Life.CanProbe, HasCookie, OneChild;
      hide RetryRun, RanItsCourse, Verdicts, IsProbed, Attempted, Http.Trim;
      ghost var verdicts, deeds;
      st, verdicts, deeds := JudgeCookie(force);
      ghost var r, had, sp := Life.NO_REFRESH, false, Life.Started;
      match st {
        case Valid => had, sp := OnValid(force);
        case NetworkError =>
        case Invalid => r, had, sp := OnInvalid();
      }
      it := Life.CookieCheck(force, verdicts, r, had, sp);
    }

    /** What the loop does between two waits, woken at `now`. */
    method Inspect(force: bool, now: real, lastCheck: real) returns (checkedAt: real, ghost it: Life.Iteration)
      requires Valid() && now == w.mono
      modifies Repr()
      ensures Valid() && fresh(Repr() - old(Repr())) && Onwards() && log == old(log)
      ensures Life.CanIterate(it) && (it.CookieCheck? ==> it.forced == force)
      ensures var p := Life.Iterated(headless, old(budget.attempts), it);
              w.trace == old(w.trace) + p.events && budget.attempts == p.attempts
      ensures match CheckOf(it)
              case VpnDead => checkedAt == now
              case NotDue =>
                && !force && now - lastCheck < interval && checkedAt == lastCheck
                && vpn == old(vpn) && w.mono == now && w.diary == old(w.diary)
              case Checked(st) =>
                && (force || now - lastCheck >= interval)
                && checkedAt == (if st == NetworkError then lastCheck else now)
                && (force && st == NetworkError && !w.stop ==> w.mono >= now + RETRY_WINDOW)
      ensures !w.waitFailed ==> (it.Revival? <==> old(w.running) == {})
    {
      hide Life.Refreshing, Life.Ensured, Life.ProbeEvents, Life.RestartEvents, Life.CanIterate, OneChild;
      checkedAt, it := lastCheck, Life.Uneventful;
      var alive := VpnAlive();
      if !alive {
        it := ReviveVpn();
        checkedAt := now;
      } else if force || now - lastCheck >= interval {
        var st;
        st, it := CheckCookie(force);
        if st != NetworkError { checkedAt := now; }
      } else {
        UneventfulIsPossible();
      }
    }

    // ── The loop and the life cycle ────────────────────────────────────────

    /** The wait between two iterations changes nothing of the supervisor's own. */
    method NextTick(poll: real) returns (r: WaitResult)
      requires Valid() && poll >= 0.0
      modifies w
      ensures Valid() && Onwards() && w.trace == old(w.trace)
      ensures w.mono >= old(w.mono) && (r == Stop ==> w.stop)
      ensures if r == Timeout then w.mono >= old(w.mono) + poll && w.diary == old(w.diary) + [Slept(old(w.mono), w.mono, poll)]
              else w.diary == old(w.diary)
    {
      r := WaitForStopOrWake(w, poll);
    }

    /** One turn of the loop, from the wait on; `lastCheck` and `lastWall` are its two variables. */
    method Turn(poll: real, lastCheck: real, lastWall: real)
      returns (stopped: bool, checkedAt: real, wall: real, ghost tick: Tick, ghost it: Life.Iteration)
      requires Valid() && poll == PollInterval(interval) >= 1.0
      modifies Repr()
      ensures Valid() && fresh(Repr() - old(Repr())) && Onwards() && log == old(log)
      ensures stopped ==> w.stop && w.trace == old(w.trace) && budget.attempts == old(budget.attempts)
      ensures !stopped ==>
                && Follows(interval, Carry(lastWall, old(w.mono), lastCheck), tick)
                && CarryOf(tick) == Carry(wall, w.mono, checkedAt)
                && Matches(tick, it) && Life.CanIterate(it)
                && (!tick.wake ==> tick.entry < |w.diary| && w.diary[tick.entry] == Slept(old(w.mono), tick.mono, poll))
                && var p := Life.Iterated(headless, old(budget.attempts), it);
                   w.trace == old(w.trace) + p.events && budget.attempts == p.attempts
    {
      hide SuspendThreshold, WallDelta, PollInterval, Follows, CheckOf, Life.Iterated, Life.CanIterate, OneChild;
      var waited := NextTick(poll);
      var now;
      now, wall := w.mono, w.wall;
      if waited == Stop {
        return true, lastCheck, wall, Tick(now, wall, false, false, NotDue, now, true, lastCheck, 0), Life.Uneventful;
      }
      var suspended := WallDelta(lastWall, wall) > SuspendThreshold(poll);
      var force := waited == Wake || suspended;
      stopped := false;
      checkedAt, it := Inspect(force, now, lastCheck);
      tick := Tick(now, wall, waited == Wake, force, CheckOf(it), w.mono, w.stop, checkedAt, |old(w.diary)|);
      TickFollows(interval, Carry(lastWall, old(w.mono), lastCheck), tick);
    }

    /** `monitor_loop`, up to `steps` iterations: what holds of every finite part of a run holds for
        any number of them. Its clocks are recorded in `log`, which is a run in the sense of `GoodLog`;
        its events are those of the iterations `its`, branch by branch the same. */
    method MonitorLoop(steps: nat) returns (stopped: bool, ghost start: Carry, ghost its: seq<Life.Iteration>)
      requires Valid()
      modifies Repr()
      ensures Valid() && fresh(Repr() - old(Repr())) && Onwards()
      ensures GoodLog(interval, start, log) && start == Carry(old(w.wall), old(w.mono), old(w.mono))
      ensures TimedBy(w.diary, interval, start, log)
      ensures |its| == |log| && forall k :: 0 <= k < |its| ==> Matches(log[k], its[k]) && Life.CanIterate(its[k])
      ensures var p := Life.Iterations(headless, old(budget.attempts), its);
              w.trace == old(w.trace) + p.events && budget.attempts == p.attempts
      ensures if stopped then w.stop && |log| <= steps else |log| == steps
    {
      hide SuspendThreshold, PollInterval, Follows, GoodLog, TimedBy, Matches, Life.Iterated, Life.Iterations, Life.CanIterate, OneChild;
      PollBounds(interval);
      var poll := PollInterval(interval);
      var lastCheck, lastWall := w.mono, w.wall;
      start := Carry(lastWall, w.mono, lastCheck);
      log, its, stopped := [], [], false;
      EmptyLog(w.diary, interval, start);
      NothingIterated(headless, budget.attempts);
      var i := 0;
      while i < steps
        invariant Valid() && fresh(Repr() - old(Repr())) && Onwards()
        invariant |its| == |log| == i <= steps && GoodLog(interval, start, log) && TimedBy(w.diary, interval, start, log)
        invariant forall k :: 0 <= k < i ==> Matches(log[k], its[k]) && Life.CanIterate(its[k])
        invariant w.trace == old(w.trace) + Life.Iterations(headless, old(budget.attempts), its).events
        invariant budget.attempts == Life.Iterations(headless, old(budget.attempts), its).attempts
        invariant CarryAt(start, log, |log|) == Carry(lastWall, w.mono, lastCheck)
      {
        ghost var tick, it;
        ghost var before := w.diary;
        stopped, lastCheck, lastWall, tick, it := Turn(poll, lastCheck, lastWall);
        TimedOn(before, w.diary, interval, start, log);
        if stopped { return; }
        LogAppend(interval, start, log, tick);
        TimedAppend(before, w.diary, interval, start, log, tick);
        Life.IterationsAppend(headless, old(budget.attempts), its, it);
        log, its := log + [tick], its + [it];
        i := i + 1;
      }
    }

    /** Services aside, `shutdown` stops the child in the slot. */
    method Shutdown()
      requires Valid()
      modifies Repr()
      ensures Valid() && Onwards() && log == old(log) && vpn == null && budget.attempts == old(budget.attempts)
      ensures w.trace == old(w.trace) + (if old(vpn) == null then [] else [Stopped(true)])
      ensures !w.waitFailed ==> w.running == {}
    {
      StopVpn(true);
    }

    /** The first cookie, and the tunnel if it is usable. */
    method Begin() returns (failed: bool, ghost e: Life.Ensuring, ghost sp: Life.Spawn)
      requires Valid() && vpn == null && budget.attempts == 0
      modifies Repr()
      ensures Valid() && fresh(Repr() - old(Repr())) && Onwards() && log == old(log)
      ensures var script, p := Life.Script(e, sp, [], false), Life.Ensured(headless, 0, e);
              && failed == Life.StartupFails(headless, script)
              && w.trace == old(w.trace) + Life.Startup(headless, script).events
              && budget.attempts == Life.Startup(headless, script).attempts
              && (p.ok ==> Attempted(sp))
      ensures Life.CanSpawn(sp) && sp != Life.AlreadyRunning
      ensures failed ==> vpn == null && (!w.waitFailed ==> w.running == {})
    {
      hide Life.Ensured, HasCookie;
      var usable;
      sp, failed := Life.Started, false;
      usable, e := EnsureValidCookie(w, budget, headless);
      if usable {
        var ok;
        CookieIsThere(w.cookieFile);
        ok, sp := StartVpn();
        failed := !ok;
      }
    }

    /** `run`: a first cookie, a tunnel if it is usable, the loop, and the shutdown once stop has been
        requested. It fails only when the first spawn does, and then, as after a shutdown, no child
        is left behind. Whatever the environment did, the events are those of a possible life, and so
        safe, and the iterations a run. */
    method Run(steps: nat) returns (end: RunEnd, ghost start: Carry, ghost script: Life.Script)
      requires Valid() && vpn == null && w.trace == [] && budget.attempts == 0
      requires !w.waitFailed ==> w.running == {}
      modifies Repr()
      ensures Valid() && Life.Possible(script) && w.trace == Life.Events(headless, script) && Safe(w.trace)
      ensures end == Failed <==> Life.StartupFails(headless, script)
      ensures end != Failed ==> GoodLog(interval, start, log) && TimedBy(w.diary, interval, start, log) && start.lastCheck == start.done
      ensures end != Failed ==>
                |script.iterations| == |log| && forall k :: 0 <= k < |log| ==> Matches(log[k], script.iterations[k])
      ensures end != Monitoring && !w.waitFailed ==> w.running == {}
      ensures end == ShutDown ==> w.stop && vpn == null
    {
      hide Life.Ensured, Life.Iterations, Life.CanIterate, GoodLog, TimedBy, Replay, Attempted, OneChild;
      start := Carry(w.wall, w.mono, w.mono);
      var failed;
      ghost var e, sp;
      failed, e, sp := Begin();
      script := Life.Script(e, sp, [], false);
      if failed {
        Life.EveryLifeIsSafe(headless, script);
        return Failed, start, script;
      }
      ghost var startup := Life.Startup(headless, script);
      var stopped;
      ghost var its;
      stopped, start, its := MonitorLoop(steps);
      script := script.(iterations := its);
      assert w.trace == startup.events + Life.Iterations(headless, startup.attempts, its).events;
      end := Monitoring;
      if stopped {
        script := script.(stops := vpn != null);
        ghost var before := w.diary;
        Shutdown();
        TimedOn(before, w.diary, interval, start, log);
        end := ShutDown;
      }
      Life.EveryLifeIsSafe(headless, script);
    }
  }

}
