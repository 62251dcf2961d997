/** The supervisor as a function of what happens to it. A script says what the environment does: the
    screens of each browser session, the endpoint's verdicts, how each spawn turns out. The events of a
    whole life follow from it, and the methods of `Cookie` and `Supervision` are proved to emit
    exactly these. What holds of every script therefore holds of every run. */
module Life {
  import opened Trace
  import opened Mfa

  // ── Browser sessions ───────────────────────────────────────────────────

  function ScreenEvents(headless: bool, s: Session, o: Screen): seq<Event> {
    match o
    case Jar(status) => [Probed(Browser, status)]
    case Picker(_) => if ClicksNow(headless, s, o) then [Pushed(true), Counted] else []
    case _ =>
      if ShowsNewPush(s.state, o) then [Pushed(false), if s.attempts < LIMIT then Counted else Refused] else []
  }

  function SessionEvents(headless: bool, attempts: nat, seen: seq<Screen>): seq<Event> {
    if seen == [] then []
    else
      var front, o := seen[..|seen| - 1], seen[|seen| - 1];
      var s := Run(headless, attempts, front);
      SessionEvents(headless, attempts, front) + (if s.ending == Open then ScreenEvents(headless, s, o) else [])
  }

  lemma SessionAppend(headless: bool, attempts: nat, seen: seq<Screen>, o: Screen)
    requires Run(headless, attempts, seen).ending == Open
    ensures Run(headless, attempts, seen + [o]) == Observe(headless, Run(headless, attempts, seen), o)
    ensures SessionEvents(headless, attempts, seen + [o])
            == SessionEvents(headless, attempts, seen) + ScreenEvents(headless, Run(headless, attempts, seen), o)
  {
    assert (seen + [o])[..|seen|] == seen;
  }

  // ── A refresh ──────────────────────────────────────────────────────────

  /** The visible browser that takes over when a headless session needs one: stop came first, it did not
      come up, or it did and showed something. */
  datatype Second = NotTried | DidNotOpen | Showed(screens: seq<Screen>)

  /** Whether a browser came up, what it showed, what became of the visible one if that was needed, and
      whether the captured cookie could be written. */
  datatype Refresh = Refresh(launched: bool, first: seq<Screen>, second: Second, written: bool)

  const NO_REFRESH := Refresh(false, [], NotTried, false)

  datatype Sessions = Sessions(events: seq<Event>, last: Session)

  /** The one or two sessions of `fetch`: the visible one goes on with what is left of the budget. */
  function Browse(headless: bool, attempts: nat, r: Refresh): Sessions {
    var s := Run(headless, attempts, r.first);
    var events := SessionEvents(headless, attempts, r.first);
    if s.ending != NeedsHeaded then Sessions(events, s)
    else
      match r.second
      case NotTried => Sessions(events, s)
      case DidNotOpen => Sessions(events + [LaunchFailed], s)
      case Showed(screens) => Sessions(events + SessionEvents(false, s.attempts, screens), Run(false, s.attempts, screens))
  }

  /** What a part of a life emits, the attempts it leaves in the budget, and whether it succeeded. */
  datatype Part = Part(events: seq<Event>, attempts: nat, ok: bool)

  /** `refresh_cookie`. */
  function Refreshing(headless: bool, attempts: nat, r: Refresh): Part {
    if attempts >= LIMIT then Part([FetchEnds(false)], attempts, false)
    else if !r.launched then Part([LaunchFailed, FetchEnds(false)], attempts, false)
    else
      var b := Browse(headless, attempts, r);
      if b.last.ending != Captured then Part([FetchBegins] + b.events + [FetchEnds(false)], b.last.attempts, false)
      else if r.written then Part([FetchBegins] + b.events + [BudgetReset, FetchEnds(true)], 0, true)
      else Part([FetchBegins] + b.events + [SaveFailed, FetchEnds(false)], b.last.attempts, false)
  }

  lemma {:induction false} RunOnlyAdds(headless: bool, attempts: nat, seen: seq<Screen>)
    ensures Run(headless, attempts, seen).attempts >= attempts
  {
    if seen != [] { RunOnlyAdds(headless, attempts, seen[..|seen| - 1]); }
  }

  /** Sessions only add to what has been counted. */
  lemma {:induction false} BrowseOnlyAdds(headless: bool, attempts: nat, r: Refresh)
    ensures Browse(headless, attempts, r).last.attempts >= attempts
  {
    hide Run;
    RunOnlyAdds(headless, attempts, r.first);
    if r.second.Showed? { RunOnlyAdds(false, Run(headless, attempts, r.first).attempts, r.second.screens); }
  }

  datatype Ensuring = Ensuring(verdict: CookieStatus, refresh: Refresh)

  /** `ensure_valid_cookie`. */
  function Ensured(headless: bool, attempts: nat, e: Ensuring): Part {
    match e.verdict
    case Valid => Part([Probed(Ensure, Valid), BudgetReset], 0, true)
    case NetworkError => Part([Probed(Ensure, NetworkError)], attempts, true)
    case Invalid =>
      var r := Refreshing(headless, attempts, e.refresh);
      r.(events := [Probed(Ensure, Invalid)] + r.events)
  }

  lemma EnsuredIs(headless: bool, attempts: nat, e: Ensuring)
    ensures var p := Ensured(headless, attempts, e);
            match e.verdict
            case Valid => p == Part([Probed(Ensure, Valid), BudgetReset], 0, true)
            case NetworkError => p == Part([Probed(Ensure, NetworkError)], attempts, true)
            case Invalid =>
              var r := Refreshing(headless, attempts, e.refresh);
              p == Part([Probed(Ensure, Invalid)] + r.events, r.attempts, r.ok)
  {
  }

  // ── The supervisor ─────────────────────────────────────────────────────

  datatype Spawn = AlreadyRunning | Started | Rejected(error: SpawnError)

  function SpawnEvents(sp: Spawn): seq<Event> {
    match sp
    case AlreadyRunning => [Kept]
    case Started => [Spawned]
    case Rejected(e) => [SpawnFailed(e)]
  }

  /** `restart_vpn`: the child in the slot, if there is one, is stopped first. */
  function RestartEvents(had: bool, sp: Spawn): seq<Event> {
    (if had then [Stopped(false)] else []) + SpawnEvents(sp)
  }

  /** One iteration of the monitor loop: nothing is due, the tunnel is down, or the cookie is checked,
      with the verdicts of all the probes the check made. */
  datatype Iteration =
    | Uneventful
    | Revival(ensuring: Ensuring, spawn: Spawn)
    | CookieCheck(forced: bool, verdicts: seq<CookieStatus>, refresh: Refresh, had: bool, spawn: Spawn)

  function ProbeEvents(verdicts: seq<CookieStatus>): (events: seq<Event>)
    ensures |events| == |verdicts|
  {
    seq(|verdicts|, i requires 0 <= i < |verdicts| => Probed(Monitor, verdicts[i]))
  }

  /** The verdict a check acts on; one that stop kept from probing counts as unreachable. */
  function LastVerdict(verdicts: seq<CookieStatus>): CookieStatus {
    if verdicts == [] then NetworkError else verdicts[|verdicts| - 1]
  }

  function Iterated(headless: bool, attempts: nat, it: Iteration): Part {
    match it
    case Uneventful => Part([], attempts, true)
    case Revival(e, sp) =>
      var p := Ensured(headless, attempts, e);
      if p.ok then p.(events := p.events + SpawnEvents(sp)) else p
    case CookieCheck(forced, verdicts, r, had, sp) =>
      var probes := ProbeEvents(verdicts);
      match LastVerdict(verdicts)
      case NetworkError => Part(probes, attempts, true)
      case Valid =>
        var restart := if forced || attempts > 0 then RestartEvents(had, sp) else [];
        Part(probes + ([BudgetReset] + restart), 0, true)
      case Invalid =>
        var p := Refreshing(headless, attempts, r);
        p.(events := probes + (p.events + (if p.ok then RestartEvents(had, sp) else [])))
  }

  function Iterations(headless: bool, attempts: nat, its: seq<Iteration>): Part {
    if its == [] then Part([], attempts, true)
    else
      var before := Iterations(headless, attempts, its[..|its| - 1]);
      var p := Iterated(headless, before.attempts, its[|its| - 1]);
      p.(events := before.events + p.events)
  }

  lemma IterationsAppend(headless: bool, attempts: nat, its: seq<Iteration>, it: Iteration)
    ensures var before := Iterations(headless, attempts, its);
            var p := Iterated(headless, before.attempts, it);
            Iterations(headless, attempts, its + [it]) == p.(events := before.events + p.events)
  {
    assert (its + [it])[..|its|] == its;
  }

  /** A life: the cookie and the tunnel at startup, the monitor's iterations, and at the end the stop
      of whatever is in the slot, if anything is. */
  datatype Script = Script(startup: Ensuring, spawn: Spawn, iterations: seq<Iteration>, stops: bool)

  function Startup(headless: bool, script: Script): Part {
    var p := Ensured(headless, 0, script.startup);
    if p.ok then p.(events := p.events + SpawnEvents(script.spawn)) else p
  }

  /** Only a rejected first spawn ends `run` before the loop. */
  predicate StartupFails(headless: bool, script: Script) {
    Ensured(headless, 0, script.startup).ok && script.spawn.Rejected?
  }

  function Events(headless: bool, script: Script): seq<Event> {
    var p := Startup(headless, script);
    if StartupFails(headless, script) then p.events
    else
      p.events + Iterations(headless, p.attempts, script.iterations).events
      + (if script.stops then [Stopped(true)] else [])
  }

  // ── Scripts that can happen ────────────────────────────────────────────

  /** The cookie file was there when the verdict fell, so it is not what a spawn fails for. */
  predicate CanSpawn(sp: Spawn) {
    sp != Rejected(CookieMissing) && sp != Rejected(CookieEmpty)
  }

  const MAX_PROBES: nat := 11

  /** A periodic check probes once; a forced one repeats itself on network errors only, at most
      eleven times. */
  predicate CanProbe(forced: bool, verdicts: seq<CookieStatus>) {
    && |verdicts| <= MAX_PROBES && (!forced ==> |verdicts| == 1)
    && forall i :: 0 <= i < |verdicts| - 1 ==> verdicts[i] == NetworkError
  }

  predicate CanIterate(it: Iteration) {
    match it
    case Uneventful => true
    case Revival(_, sp) => CanSpawn(sp)
    case CookieCheck(forced, verdicts, _, _, sp) => CanProbe(forced, verdicts) && CanSpawn(sp) && sp != AlreadyRunning
  }

  predicate Possible(script: Script) {
    && CanSpawn(script.spawn) && script.spawn != AlreadyRunning
    && forall i :: 0 <= i < |script.iterations| ==> CanIterate(script.iterations[i])
  }

  // ── Every life is safe ─────────────────────────────────────────────────

  /** Between two parts of a life the books are closed but for what is due. */
  ghost predicate Waits(l: Ledger, attempts: nat, due: Due) {
    l.safe && l.browsing == NoBrowser && l.due == due && l.attempts == attempts <= LIMIT
  }

  ghost predicate Rests(l: Ledger, attempts: nat) {
    Waits(l, attempts, NothingDue)
  }

  lemma AfterTwo(l: Ledger, a: Event, b: Event)
    ensures After(l, [a, b]) == Post(Post(l, a), b)
  {
    AfterConcat(l, [a], [b]);
    AfterOne(l, a);
    AfterOne(Post(l, a), b);
    assert [a] + [b] == [a, b];
  }

  ghost predicate Browses(l: Ledger) {
    l.safe && l.browsing == InSession && l.due == NothingDue && l.attempts <= LIMIT
  }

  /** The books of a session that has got to `s`. */
  ghost predicate InStep(l: Ledger, s: Session, permit: Permit) {
    && l.safe && l.attempts == s.attempts <= LIMIT && l.permit == permit
    && l.browsing == (if s.ending == LimitReached(true) then Halted else InSession)
    && l.due == (if s.ending == Captured then KeepDue else NothingDue)
    && (s.ending == Captured ==> l.validSeen)
  }

  lemma ScreenBooks(l: Ledger, headless: bool, s: Session, o: Screen)
    requires InStep(l, s, l.permit) && s.ending == Open
    ensures InStep(After(l, ScreenEvents(headless, s, o)), Observe(headless, s, o), l.permit)
  {
    hide After;
    AfterOne(l, FetchBegins);
    var e := ScreenEvents(headless, s, o);
    if o.Jar? {
      AfterOne(l, Probed(Browser, o.status));
    } else if e != [] {
      assert e == [e[0], e[1]];
      AfterTwo(l, e[0], e[1]);
    }
  }

  lemma {:induction false} SessionBooks(l: Ledger, headless: bool, seen: seq<Screen>)
    requires Browses(l)
    ensures InStep(After(l, SessionEvents(headless, l.attempts, seen)), Run(headless, l.attempts, seen), l.permit)
  {
    hide Post, Observe, ScreenEvents;
    if seen == [] {
      AfterOne(l, FetchBegins);
    } else {
      var front, o := seen[..|seen| - 1], seen[|seen| - 1];
      var events := SessionEvents(headless, l.attempts, front);
      var s := Run(headless, l.attempts, front);
      SessionBooks(l, headless, front);
      if s.ending == Open {
        ScreenBooks(After(l, events), headless, s, o);
        AfterConcat(l, events, ScreenEvents(headless, s, o));
      } else {
        assert events + [] == events;
      }
    }
  }

  lemma LaunchHalts(l: Ledger)
    requires Browses(l)
    ensures Post(l, LaunchFailed) == l.(browsing := Halted)
  {
  }

  lemma {:induction false} BrowseBooks(l: Ledger, headless: bool, r: Refresh)
    requires Browses(l)
    ensures var b := Browse(headless, l.attempts, r);
            var a := After(l, b.events);
            && a.safe && a.attempts == b.last.attempts <= LIMIT && a.browsing != NoBrowser
            && (if b.last.ending == Captured then a.due == KeepDue && a.validSeen && a.browsing == InSession
                else a.due == NothingDue)
  {
    hide Post, After, SessionEvents, Run;
    SessionBooks(l, headless, r.first);
    var s := Run(headless, l.attempts, r.first);
    var first := SessionEvents(headless, l.attempts, r.first);
    if s.ending == NeedsHeaded {
      match r.second
      case NotTried =>
      case DidNotOpen =>
        AfterConcat(l, first, [LaunchFailed]);
        AfterOne(After(l, first), LaunchFailed);
        LaunchHalts(After(l, first));
      case Showed(screens) =>
        SessionBooks(After(l, first), false, screens);
        AfterConcat(l, first, SessionEvents(false, s.attempts, screens));
    }
  }

  /** How a refresh that has begun ends, once its sessions are over. */
  lemma EndBooks(l: Ledger, captured: bool, written: bool)
    requires l.safe && l.attempts <= LIMIT && l.browsing != NoBrowser
    requires if captured then l.due == KeepDue && l.validSeen && l.browsing == InSession else l.due == NothingDue
    ensures !captured ==> Rests(After(l, [FetchEnds(false)]), l.attempts)
    ensures captured && written ==> Waits(After(l, [BudgetReset, FetchEnds(true)]), 0, TunnelDue)
                                    && After(l, [BudgetReset, FetchEnds(true)]).permit == Anything
    ensures captured && !written ==> Rests(After(l, [SaveFailed, FetchEnds(false)]), l.attempts)
  {
    hide After;
    AfterOne(l, FetchEnds(false));
    AfterTwo(l, BudgetReset, FetchEnds(true));
    AfterTwo(l, SaveFailed, FetchEnds(false));
  }

  lemma {:induction false} RefreshBooks(l: Ledger, headless: bool, r: Refresh)
    requires Waits(l, l.attempts, RefreshDue)
    ensures var p := Refreshing(headless, l.attempts, r);
            var a := After(l, p.events);
            if p.ok then Waits(a, 0, TunnelDue) && p.attempts == 0 && a.permit == Anything else Rests(a, p.attempts)
  {
    hide After, Browse;
    if l.attempts >= LIMIT {
      AfterOne(l, FetchEnds(false));
    } else if !r.launched {
      AfterTwo(l, LaunchFailed, FetchEnds(false));
    } else {
      AfterOne(l, FetchBegins);
      var begun := Post(l, FetchBegins);
      BrowseBooks(begun, headless, r);
      var b := Browse(headless, l.attempts, r);
      AfterConcat(l, [FetchBegins], b.events);
      EndBooks(After(begun, b.events), b.last.ending == Captured, r.written);
      AfterConcat(l, [FetchBegins] + b.events, [FetchEnds(false)]);
      AfterConcat(l, [FetchBegins] + b.events, [BudgetReset, FetchEnds(true)]);
      AfterConcat(l, [FetchBegins] + b.events, [SaveFailed, FetchEnds(false)]);
    }
  }

  lemma {:induction false} EnsureBooks(l: Ledger, headless: bool, e: Ensuring)
    requires Rests(l, l.attempts)
    ensures var p := Ensured(headless, l.attempts, e);
            var a := After(l, p.events);
            if p.ok then Waits(a, p.attempts, TunnelDue) && a.permit != Nothing else Rests(a, p.attempts)
  {
    hide After, Refreshing;
    AfterOne(l, Probed(Ensure, e.verdict));
    match e.verdict
    case Valid => AfterTwo(l, Probed(Ensure, Valid), BudgetReset);
    case NetworkError =>
    case Invalid =>
      RefreshBooks(Post(l, Probed(Ensure, Invalid)), headless, e.refresh);
      AfterConcat(l, [Probed(Ensure, Invalid)], Refreshing(headless, l.attempts, e.refresh).events);
  }

  lemma SpawnBooks(l: Ledger, sp: Spawn)
    requires Waits(l, l.attempts, l.due) && l.due in {NothingDue, TunnelDue, SpawnDue}
    requires l.permit != Nothing && CanSpawn(sp) && (sp == AlreadyRunning ==> l.due == TunnelDue)
    ensures Rests(After(l, SpawnEvents(sp)), l.attempts)
  {
    hide After;
    match sp
    case AlreadyRunning => AfterOne(l, Kept);
    case Started => AfterOne(l, Spawned);
    case Rejected(e) => AfterOne(l, SpawnFailed(e));
  }

  lemma RestartBooks(l: Ledger, had: bool, sp: Spawn)
    requires Waits(l, l.attempts, l.due) && l.due in {NothingDue, TunnelDue}
    requires l.permit == Anything && CanSpawn(sp) && sp != AlreadyRunning
    ensures Rests(After(l, RestartEvents(had, sp)), l.attempts)
  {
    hide After, SpawnEvents;
    AfterOne(l, Stopped(false));
    if had {
      SpawnBooks(Post(l, Stopped(false)), sp);
      AfterConcat(l, [Stopped(false)], SpawnEvents(sp));
    } else {
      SpawnBooks(l, sp);
      assert [] + SpawnEvents(sp) == SpawnEvents(sp);
    }
  }

  lemma {:induction false} ProbeBooks(l: Ledger, verdicts: seq<CookieStatus>)
    requires Rests(l, l.attempts)
    requires forall i :: 0 <= i < |verdicts| - 1 ==> verdicts[i] == NetworkError
    ensures var a, last := After(l, ProbeEvents(verdicts)), LastVerdict(verdicts);
            && Waits(a, l.attempts, DueFor(Monitor, last, l.attempts > 0))
            && (verdicts != [] ==> a.permit == Worth(Monitor, last))
            && (last == Valid ==> a.validSeen)
  {
    if verdicts == [] {
      AfterOne(l, FetchBegins);
    } else {
      var front := verdicts[..|verdicts| - 1];
      ProbeBooks(l, front);
      assert ProbeEvents(verdicts)[..|verdicts| - 1] == ProbeEvents(front);
    }
  }

  lemma ResetBooks(l: Ledger)
    requires Waits(l, l.attempts, ResetDue(l.attempts > 0)) && l.validSeen && l.permit == Anything
    ensures Waits(After(l, [BudgetReset]), 0, if l.attempts > 0 then TunnelDue else NothingDue)
    ensures After(l, [BudgetReset]).permit == Anything
  {
    AfterOne(l, BudgetReset);
  }

  lemma {:induction false} CheckBooks(l: Ledger, headless: bool, it: Iteration)
    requires Rests(l, l.attempts) && CanIterate(it) && it.CookieCheck?
    ensures var p := Iterated(headless, l.attempts, it);
            Rests(After(l, p.events), p.attempts)
  {
    hide After, Refreshing, ProbeEvents, RestartEvents;
    var CookieCheck(forced, verdicts, r, had, sp) := it;
    ProbeBooks(l, verdicts);
    var probes := ProbeEvents(verdicts);
    var probed := After(l, probes);
    match LastVerdict(verdicts)
    case NetworkError =>
    case Valid =>
      var restart := if forced || l.attempts > 0 then RestartEvents(had, sp) else [];
      ResetBooks(probed);
      AfterConcat(l, probes, [BudgetReset] + restart);
      AfterConcat(probed, [BudgetReset], restart);
      AfterOne(After(probed, [BudgetReset]), FetchBegins);
      if restart != [] || l.attempts > 0 { RestartBooks(After(probed, [BudgetReset]), had, sp); }
    case Invalid =>
      RefreshBooks(probed, headless, r);
      var p := Refreshing(headless, l.attempts, r);
      var restart := if p.ok then RestartEvents(had, sp) else [];
      AfterConcat(l, probes, p.events + restart);
      AfterConcat(probed, p.events, restart);
      AfterOne(After(probed, p.events), FetchBegins);
      if p.ok { RestartBooks(After(probed, p.events), had, sp); }
  }

  lemma {:induction false} IterationBooks(l: Ledger, headless: bool, it: Iteration)
    requires Rests(l, l.attempts) && CanIterate(it)
    ensures var p := Iterated(headless, l.attempts, it);
            Rests(After(l, p.events), p.attempts)
  {
    hide After, Refreshing, Ensured, ProbeEvents, RestartEvents, SpawnEvents;
    match it
    case Uneventful => AfterOne(l, FetchBegins);
    case Revival(e, sp) =>
      EnsureBooks(l, headless, e);
      var p := Ensured(headless, l.attempts, e);
      if p.ok {
        SpawnBooks(After(l, p.events), sp);
        AfterConcat(l, p.events, SpawnEvents(sp));
      }
    case CookieCheck(_, _, _, _, _) => CheckBooks(l, headless, it);
  }

  lemma {:induction false} IterationsBooks(l: Ledger, headless: bool, its: seq<Iteration>)
    requires Rests(l, l.attempts) && forall i :: 0 <= i < |its| ==> CanIterate(its[i])
    ensures var p := Iterations(headless, l.attempts, its);
            Rests(After(l, p.events), p.attempts)
  {
    hide After, Iterated, CanIterate;
    if its == [] {
      AfterOne(l, FetchBegins);
    } else {
      var front, it := its[..|its| - 1], its[|its| - 1];
      IterationsBooks(l, headless, front);
      var before := Iterations(headless, l.attempts, front);
      IterationBooks(After(l, before.events), headless, it);
      AfterConcat(l, before.events, Iterated(headless, before.attempts, it).events);
    }
  }

  lemma {:induction false} StartupBooks(headless: bool, script: Script)
    requires CanSpawn(script.spawn)
    ensures var p := Startup(headless, script);
            Rests(After(EMPTY, p.events), p.attempts)
  {
    hide After, Ensured, SpawnEvents;
    EnsureBooks(EMPTY, headless, script.startup);
    var p := Ensured(headless, 0, script.startup);
    if p.ok {
      SpawnBooks(After(EMPTY, p.events), script.spawn);
      AfterConcat(EMPTY, p.events, SpawnEvents(script.spawn));
    }
  }

  ghost predicate AllDone(l: Ledger) {
    l.due == NothingDue && l.browsing == NoBrowser
  }

  /** Every life that can happen is safe in every event, begins with the verdict on the cookie, and ends
      with nothing left to be done. */
  lemma {:induction false} EveryLifeIsSafe(headless: bool, script: Script)
    requires Possible(script)
    ensures Safe(Events(headless, script)) && AllDone(Replay(Events(headless, script)))
    ensures Events(headless, script) != [] && Events(headless, script)[0] == Probed(Ensure, script.startup.verdict)
  {
    hide After, Iterations, Refreshing, CanIterate;
    StartupBooks(headless, script);
    var p := Startup(headless, script);
    if !StartupFails(headless, script) {
      var l := After(EMPTY, p.events);
      IterationsBooks(l, headless, script.iterations);
      var its := Iterations(headless, p.attempts, script.iterations);
      AfterConcat(EMPTY, p.events, its.events);
      var m := After(l, its.events);
      AfterConcat(EMPTY, p.events + its.events, [Stopped(true)]);
      AfterOne(m, Stopped(true));
      assert p.events + its.events + [] == p.events + its.events;
    }
  }

  lemma {:induction false} NothingAskedLast(tr: seq<Event>)
    requires Safe(tr) && AllDone(Replay(tr)) && tr != []
    ensures !Asks(tr[|tr| - 1])
  {
    LastAllowed(tr);
  }

  /** In every life every verdict is acted on at once: whatever asks for something is followed by what it
      asks for. A valid cookie opens the budget again, an invalid one is refreshed, and a tunnel that is
      down is started as soon as the cookie is usable. */
  lemma {:induction false} EveryVerdictIsActedOn(headless: bool, script: Script, k: nat)
    requires Possible(script) && k < |Events(headless, script)| && Asks(Events(headless, script)[k])
    ensures k + 1 < |Events(headless, script)| && Meets(Events(headless, script)[k], Events(headless, script)[k + 1])
  {
    hide Events, Possible, Asks, Meets, Safe, AllDone, Replay;
    var tr := Events(headless, script);
    EveryLifeIsSafe(headless, script);
    NothingAskedLast(tr);
    AskedIsMet(tr, k);
  }

  // ── More than three pushes in one process ──────────────────────────────

  /** What holds of the pushes of one process: without a reset there are four at most, and three at
      most exactly when none is shown after three have been counted; every reset allows four more. */
  lemma {:induction false} PushesOfALife(headless: bool, script: Script)
    requires Possible(script)
    ensures var tr := Events(headless, script);
            && PushesIn(tr) <= (LIMIT + 1) * (1 + Count(tr, BudgetReset))
            && Count(tr, Pushed(true)) <= LIMIT * (1 + Count(tr, BudgetReset))
            && (NoReset(tr) ==> (PushesIn(tr) <= LIMIT <==> forall k: nat :: !PushedWhenSpent(tr, k)))
  {
    hide Count, PushesIn, Events, PushedWhenSpent;
    EveryLifeIsSafe(headless, script);
    PushesPerReset(Events(headless, script));
    if NoReset(Events(headless, script)) { ThreePushesIff(Events(headless, script)); }
  }

  lemma ScreenPushes(headless: bool, s: Session, o: Screen)
    ensures PushesIn(ScreenEvents(headless, s, o)) == if ClicksNow(headless, s, o) || ShowsNewPush(s.state, o) then 1 else 0
    ensures NoReset(ScreenEvents(headless, s, o))
  {
    hide Count, PushesIn;
    CountOne(Pushed(true));
    CountOne(Pushed(false));
    CountOne(Counted);
    CountOne(Refused);
    var e := ScreenEvents(headless, s, o);
    if o.Jar? {
      CountOne(Probed(Browser, o.status));
    } else if e != [] {
      assert e == [e[0]] + [e[1]];
      CountConcat([e[0]], [e[1]]);
    }
  }

  lemma {:induction false} SessionPushes(headless: bool, attempts: nat, seen: seq<Screen>)
    ensures PushesIn(SessionEvents(headless, attempts, seen)) == Pushes(headless, attempts, seen)
    ensures NoReset(SessionEvents(headless, attempts, seen))
  {
    hide Count, PushesIn, Observe;
    CountOne(FetchBegins);
    if seen != [] {
      var front, o := seen[..|seen| - 1], seen[|seen| - 1];
      SessionPushes(headless, attempts, front);
      var e := ScreenEvents(headless, Run(headless, attempts, front), o);
      CountConcat(SessionEvents(headless, attempts, front), e);
      ScreenPushes(headless, Run(headless, attempts, front), o);
      assert SessionEvents(headless, attempts, front) + [] == SessionEvents(headless, attempts, front);
    }
  }

  lemma NoPushes(tr: seq<Event>)
    requires forall e :: e in tr ==> !e.Pushed?
    ensures PushesIn(tr) == 0
  {
    assert Pushed(true) !in tr && Pushed(false) !in tr;
  }

  /** A cookie found invalid, a browser that shows what `first` says and then, if a visible one is
      needed, what `second` says, and no login. */
  function Unanswered(first: seq<Screen>, second: seq<Screen>): Script {
    Script(Ensuring(Invalid, Refresh(true, first, Showed(second), false)), Started, [], false)
  }

  lemma {:induction false} UnansweredPushes(headless: bool, first: seq<Screen>, second: seq<Screen>)
    requires Run(headless, 0, first).ending == LimitReached(true) || Run(headless, 0, first).ending == NeedsHeaded
    ensures Possible(Unanswered(first, second)) && NoReset(Events(headless, Unanswered(first, second)))
    ensures PushesIn(Events(headless, Unanswered(first, second)))
            == Pushes(headless, 0, first)
               + if Run(headless, 0, first).ending == NeedsHeaded then
                   Pushes(false, Run(headless, 0, first).attempts, second)
                 else 0
  {
    hide Count, PushesIn, Run, SessionEvents, Mfa.Pushes;
    var script := Unanswered(first, second);
    var r := script.startup.refresh;
    var s := Run(headless, 0, first);
    SessionPushes(headless, 0, first);
    SessionPushes(false, s.attempts, second);
    CountConcat(SessionEvents(headless, 0, first), SessionEvents(false, s.attempts, second));
    var b := Browse(headless, 0, r).events;
    var front := [Probed(Ensure, Invalid)] + [FetchBegins];
    var back := if Browse(headless, 0, r).last.ending == Captured then [SaveFailed, FetchEnds(false)] else [FetchEnds(false)];
    assert Refreshing(headless, 0, r).events == [FetchBegins] + b + back;
    assert Events(headless, script) == front + b + back;
    CountConcat(front + b, back);
    CountConcat(front, b);
    NoPushes(front);
    NoPushes(back);
  }

  /** Every number that differs from the one before it is counted, while the budget lasts. */
  lemma {:induction false} NumbersCount(headless: bool, numbers: seq<Screen>, n: nat)
    requires n <= |numbers| && n <= LIMIT
    requires forall i :: 0 <= i < |numbers| ==> numbers[i].NumberMatch?
    requires forall i :: 0 < i < |numbers| ==> numbers[i - 1] != numbers[i]
    ensures Run(headless, 0, numbers[..n])
            == Session(if n == 0 then Idle else Number(numbers[n - 1].number), n, Open)
  {
    hide Run;
    if n == 0 {
      assert numbers[..0] == [];
      RunNothing(headless, 0);
    } else {
      NumbersCount(headless, numbers, n - 1);
      RunAppend(headless, 0, numbers[..n - 1], numbers[n - 1]);
      assert numbers[..n] == numbers[..n - 1] + [numbers[n - 1]];
    }
  }

  const NUMBERS: seq<Screen> := [NumberMatch([49]), NumberMatch([50]), NumberMatch([51]), NumberMatch([52])]

  /** Without any login, and so without a reset, there can still be a fourth push, because a session
      shows one number after another ... */
  lemma {:induction false} FourthNumber(headless: bool)
    ensures var script := Unanswered(NUMBERS, []);
            && Possible(script) && NoReset(Events(headless, script))
            && PushesIn(Events(headless, script)) == LIMIT + 1
  {
    hide Events, Possible, PushesIn, Run;
    NumbersCount(headless, NUMBERS, 3);
    assert NUMBERS == NUMBERS[..3] + [NumberMatch([52])];
    RunAppend(headless, 0, NUMBERS[..3], NumberMatch([52]));
    PushesAreCounted(headless, 0, NUMBERS);
    UnansweredPushes(headless, NUMBERS, []);
  }

  /** ... or because a visible browser takes over from a headless one that has used the budget up, and
      shows a push of its own. */
  lemma {:induction false} FourthAfterRelaunch()
    ensures var script := Unanswered(NUMBERS[..3] + [InteractivePrompt], [ApprovalPending]);
            && Possible(script) && NoReset(Events(true, script)) && PushesIn(Events(true, script)) == LIMIT + 1
            && Run(true, 0, script.startup.refresh.first) == Session(Number([51]), LIMIT, NeedsHeaded)
  {
    hide Events, Possible, PushesIn, Run;
    var first := NUMBERS[..3] + [InteractivePrompt];
    NumbersCount(true, NUMBERS, 3);
    RunAppend(true, 0, NUMBERS[..3], InteractivePrompt);
    PushesAreCounted(true, 0, first);
    RunNothing(false, LIMIT);
    RunAppend(false, LIMIT, [], ApprovalPending);
    assert [] + [ApprovalPending] == [ApprovalPending];
    PushesAreCounted(false, LIMIT, [ApprovalPending]);
    UnansweredPushes(true, first, [ApprovalPending]);
  }

  const LOGIN: seq<Screen> := [ApprovalPending, Jar(Valid)]

  /** The cookie has expired, one push renews it, and the tunnel is replaced. */
  const RENEWAL: Iteration := CookieCheck(false, [Invalid], Refresh(true, LOGIN, NotTried, true), true, Started)

  lemma LoginEvents(headless: bool)
    ensures Run(headless, 0, LOGIN) == Session(Triggered, 1, Captured)
    ensures SessionEvents(headless, 0, LOGIN) == [Pushed(false), Counted, Probed(Browser, Valid)]
  {
    SessionAppend(headless, 0, [], ApprovalPending);
    SessionAppend(headless, 0, [] + [ApprovalPending], Jar(Valid));
    assert LOGIN == [] + [ApprovalPending] + [Jar(Valid)];
  }

  lemma RenewalParts(headless: bool) returns (front: seq<Event>, login: seq<Event>, back: seq<Event>)
    ensures Iterated(headless, 0, RENEWAL) == Part(front + login + back, 0, true)
    ensures front == [Probed(Monitor, Invalid)] + [FetchBegins] && login == [Pushed(false), Counted, Probed(Browser, Valid)]
    ensures back == [BudgetReset, FetchEnds(true)] + [Stopped(false), Spawned]
  {
    hide Run, SessionEvents;
    LoginEvents(headless);
    assert ProbeEvents([Invalid]) == [Probed(Monitor, Invalid)];
    assert RestartEvents(true, Started) == [Stopped(false), Spawned];
    front, login := [Probed(Monitor, Invalid)] + [FetchBegins], [Pushed(false), Counted, Probed(Browser, Valid)];
    back := [BudgetReset, FetchEnds(true)] + [Stopped(false), Spawned];
    assert Refreshing(headless, 0, RENEWAL.refresh) == Part([FetchBegins] + login + [BudgetReset, FetchEnds(true)], 0, true);
    assert Iterated(headless, 0, RENEWAL).events == front + login + back;
  }

  lemma RenewalEvents(headless: bool)
    ensures CanIterate(RENEWAL) && Iterated(headless, 0, RENEWAL).attempts == 0
    ensures var events := Iterated(headless, 0, RENEWAL).events;
            PushesIn(events) == 1 && Refused !in events
  {
    hide Run, SessionEvents, Refreshing, Count, PushesIn, RestartEvents;
    var front, login, back := RenewalParts(headless);
    CountConcat(front + login, back);
    CountConcat(front, login);
    NoPushes(front);
    NoPushes(back);
    CountConcat([Pushed(false)], [Counted, Probed(Browser, Valid)]);
    assert [Pushed(false)] + [Counted, Probed(Browser, Valid)] == login;
    CountOne(Pushed(false));
    NoPushes([Counted, Probed(Browser, Valid)]);
  }

  lemma {:induction false} RenewalsPush(headless: bool, its: seq<Iteration>)
    requires forall i :: 0 <= i < |its| ==> its[i] == RENEWAL
    ensures var p := Iterations(headless, 0, its);
            p.attempts == 0 && PushesIn(p.events) == |its| && Refused !in p.events
  {
    hide Count, PushesIn, Iterated;
    CountOne(Spawned);
    if its != [] {
      var front := its[..|its| - 1];
      RenewalsPush(headless, front);
      RenewalEvents(headless);
      CountConcat(Iterations(headless, 0, front).events, Iterated(headless, 0, RENEWAL).events);
    }
  }

  /** With logins in between there is no limit at all to the pushes of one process, and the budget
      refuses none of them. */
  lemma {:induction false} LoginsLiftTheLimit(headless: bool, n: nat)
    ensures exists script ::
              && Possible(script) && Refused !in Events(headless, script)
              && PushesIn(Events(headless, script)) == n
  {
    hide Count, PushesIn, Iterations, CanIterate, Iterated;
    var its := seq(n, i => RENEWAL);
    var script := Script(Ensuring(Valid, NO_REFRESH), Started, its, false);
    RenewalsPush(headless, its);
    RenewalEvents(headless);
    var start, events := [Probed(Ensure, Valid), BudgetReset] + [Spawned], Iterations(headless, 0, its).events;
    assert Events(headless, script) == start + events;
    CountConcat(start, events);
    NoPushes(start);
  }
}
