/** Cookie validation and the browser refresh, with the push budget it spends. What the methods do to
    the list of events and to the budget is what `Life` says for the ghost scripts they return. */
module Cookie {
  import opened Bytes
  import opened Trace
  import opened Diary
  import opened World
  import opened Polls
  import Http
  import Life
  import Mfa

  // ── Validation ─────────────────────────────────────────────────────────

  /** Whether the endpoint is asked about the file at all. */
  predicate IsProbed(file: Option<Text>) {
    file.Some? && ValidUtf8(file.value) && Http.Trim(file.value) != []
  }

  /** Anything that can be read and is not blank is asked about. */
  lemma IsProbedIff(file: Option<Text>)
    ensures IsProbed(file)
            <==> file.Some? && !Http.AllSpace(file.value) && exists cs: seq<scalar> :: file.value == Utf8All(cs)
  {
    hide Http.Trim, Http.AllSpace, ValidUtf8, Utf8All;
    if file.Some? {
      Http.BlankIff(file.value);
      ValidUtf8Iff(file.value);
    }
  }

  twostate predicate OnlyTimePassed(w: World)
    reads w
  {
    && w.cookieFile == old(w.cookieFile) && w.nextPid == old(w.nextPid) && w.waitFailed == old(w.waitFailed)
    && w.running <= old(w.running) && w.mono >= old(w.mono) && (old(w.stop) ==> w.stop) && old(w.diary) <= w.diary
  }

  /** `validate_cookie`: the endpoint is asked about this cookie, and its answer decides. */
  method ValidateCookie(w: World, cookie: Text, ghost site: Site) returns (st: CookieStatus, ghost a: HttpAnswer)
    requires w.Valid()
    modifies w
    ensures w.Valid() && OnlyTimePassed(w)
    ensures st == StatusOf(a) && w.diary == old(w.diary) + [Asked(old(w.mono), w.mono, cookie, a)]
    ensures w.trace == old(w.trace) + [Probed(site, st)]
  {
    var answer := w.Ask(cookie);
    a := answer;
    st := StatusOf(answer);
    w.Emit(Probed(site, st));
  }

  lemma TrimsNothing()
    ensures Http.Trim([]) == []
  {
  }

  /** `validate_file`: a missing, unreadable or blank file is invalid without asking anyone, any other is
      asked about without the white space around it. */
  method ValidateFile(w: World, ghost site: Site) returns (st: CookieStatus, ghost a: Option<HttpAnswer>)
    requires w.Valid()
    modifies w
    ensures w.Valid() && OnlyTimePassed(w)
    ensures a.Some? <==> IsProbed(w.cookieFile)
    ensures if a.Some? then
              && st == StatusOf(a.value)
              && w.diary == old(w.diary) + [Asked(old(w.mono), w.mono, Http.Trim(w.cookieFile.value), a.value)]
            else st == Invalid && w.diary == old(w.diary)
    ensures w.trace == old(w.trace) + [Probed(site, st)]
    ensures st != Invalid ==> HasCookie(w.cookieFile)
  {
    hide Http.Trim;
    if !IsProbed(w.cookieFile) {
      st, a := Invalid, None;
      w.Emit(Probed(site, Invalid));
    } else {
      TrimsNothing();
      ghost var answer;
      st, answer := ValidateCookie(w, Http.Trim(w.cookieFile.value), site);
      a := Some(answer);
    }
  }

  // ── One browser session ────────────────────────────────────────────────

  datatype FetchOutcome =
    | Captured(value: Text)
    | InteractionRequired
    | Interrupted
    | LimitReached
    | TimedOut

  ghost function SecondsLeft(deadline: real, now: real): nat {
    if now >= deadline then 0 else (deadline - now).Floor + 1
  }

  lemma SecondsRunDown(deadline: real, before: real, after: real)
    requires after >= before + 1.0 && before < deadline
    ensures SecondsLeft(deadline, after) < SecondsLeft(deadline, before)
  {
    if after < deadline {
      var x, y := deadline - before, deadline - after;
      assert y <= x - 1.0;
      assert y.Floor as real <= y && x < x.Floor as real + 1.0;
    }
  }

  /** What a session started from. */
  datatype Origin = Origin(headless: bool, attempts: nat, deadline: real, events: seq<Event>, deeds: seq<Deed>)

  /** A session that has done the deeds of `log`: they are in the diary and in order, and its state, its
      ending, the budget and the events are what `Mfa` and `Life` say for what it has seen. */
  ghost predicate InStep(w: World, b: Mfa.MfaAttemptBudget, from: Origin, log: seq<Deed>,
                         state: Mfa.MfaAttemptState, ending: Mfa.Ending)
    reads w`diary, w`trace, b
  {
    && w.diary == from.deeds + log && PollRun(from.headless, from.attempts, from.deadline, log)
    && Mfa.Run(from.headless, from.attempts, Seen(log)) == Mfa.Session(state, b.attempts, ending)
    && w.trace == from.events + Life.SessionEvents(from.headless, from.attempts, Seen(log))
  }

  /** The loop is where an iteration starts, and at the page. */
  predicate AtTop(log: seq<Deed>) {
    log == [] || (log[|log| - 1].Slept? && log[|log| - 1].planned != LINGER)
  }

  predicate JarDone(log: seq<Deed>) {
    log != []
    && match log[|log| - 1]
       case JarRead(found) => !found.Some? || found.value == []
       case Asked(_, _, _, a) => StatusOf(a) != Valid
       case _ => false
  }

  lemma SessionStart(from: Origin)
    ensures Mfa.Run(from.headless, from.attempts, Seen([])) == Mfa.Session(Mfa.Idle, from.attempts, Mfa.Open)
    ensures Life.SessionEvents(from.headless, from.attempts, Seen([])) == []
    ensures PollRun(from.headless, from.attempts, from.deadline, []) && Looks([]) == 0
  {
    NothingLogged();
  }

  lemma JarMayBeRead(from: Origin, log: seq<Deed>, found: Option<Text>)
    requires AtTop(log)
    ensures Next(from.headless, from.attempts, from.deadline, log, JarRead(found))
  {
  }

  lemma PageMayBeRead(from: Origin, log: seq<Deed>, d: Deed)
    requires JarDone(log) && AtPage(from.headless, log, d)
    ensures Next(from.headless, from.attempts, from.deadline, log, d)
  {
  }

  lemma CookieMayBeAsked(from: Origin, log: seq<Deed>, d: Deed)
    requires log != [] && log[|log| - 1].JarRead? && d.Asked? && d.cookie != [] && log[|log| - 1].found == Some(d.cookie)
    ensures Next(from.headless, from.attempts, from.deadline, log, d)
  {
  }

  /** Reading an empty jar, or sleeping, changes nothing the session knows. */
  lemma DeedUnseen(from: Origin, log: seq<Deed>, d: Deed)
    requires !d.Asked? && !d.PageRead?
    ensures Seen(log + [d]) == Seen(log)
    ensures Looks(log + [d]) == if d.Slept? && d.planned == RELOAD then 0 else Looks(log)
  {
    LogAppend(log, d);
  }

  lemma JarSeen(from: Origin, log: seq<Deed>, d: Deed)
    requires d.Asked? && Mfa.Run(from.headless, from.attempts, Seen(log)).ending == Mfa.Open
    ensures var s := Mfa.Run(from.headless, from.attempts, Seen(log));
            Mfa.Run(from.headless, from.attempts, Seen(log + [d]))
            == if StatusOf(d.answer) == CookieStatus.Valid then s.(ending := Mfa.Captured) else s
    ensures Life.SessionEvents(from.headless, from.attempts, Seen(log + [d]))
            == Life.SessionEvents(from.headless, from.attempts, Seen(log)) + [Probed(Browser, StatusOf(d.answer))]
  {
    hide StatusOf;
    LogAppend(log, d);
    Life.SessionAppend(from.headless, from.attempts, Seen(log), Mfa.Jar(StatusOf(d.answer)));
  }

  /** The jar holds what was captured, and the endpoint has just accepted it. */
  predicate JustAccepted(log: seq<Deed>, cookie: Text) {
    && cookie != [] && |log| >= 2 && log[|log| - 2] == JarRead(Some(cookie))
    && var d := log[|log| - 1]; d.Asked? && d.cookie == cookie && StatusOf(d.answer) == CookieStatus.Valid
  }

  /** The first non-empty session cookie in the browser's jar, if the endpoint accepts it. */
  method CheckJar(w: World, ghost b: Mfa.MfaAttemptBudget, ghost from: Origin, ghost log: seq<Deed>,
                  ghost state: Mfa.MfaAttemptState)
    returns (cookie: Option<Text>, ghost log': seq<Deed>)
    requires w.Valid() && InStep(w, b, from, log, state, Mfa.Open) && AtTop(log)
    modifies w
    ensures w.Valid() && OnlyTimePassed(w) && Looks(log') == Looks(log)
    ensures InStep(w, b, from, log', state, if cookie.Some? then Mfa.Captured else Mfa.Open)
    ensures cookie.Some? ==> JustAccepted(log', cookie.value)
    ensures cookie.None? ==> JarDone(log')
  {
    hide Mfa.Run, Mfa.Observe, Life.SessionEvents, Life.ScreenEvents, Next, PollRun, StatusOf, Seen, Looks;
    var found := w.ReadJar();
    JarMayBeRead(from, log, found);
    PollAppend(from.headless, from.attempts, from.deadline, log, JarRead(found));
    DeedUnseen(from, log, JarRead(found));
    log' := log + [JarRead(found)];
    if found.Some? && found.value != [] {
      ghost var before := w.mono;
      var st;
      ghost var a;
      st, a := ValidateCookie(w, found.value, Browser);
      ghost var d := Asked(before, w.mono, found.value, a);
      CookieMayBeAsked(from, log', d);
      PollAppend(from.headless, from.attempts, from.deadline, log', d);
      LogAppend(log', d);
      JarSeen(from, log', d);
      log' := log' + [d];
      if st == Valid { return found, log'; }
    }
    cookie := None;
  }

  /** The match on the detected MFA phase. */
  method OnScreen(w: World, b: Mfa.MfaAttemptBudget, headless: bool, state: Mfa.MfaAttemptState, screen: Mfa.Screen)
    returns (next: Mfa.MfaAttemptState, ending: Mfa.Ending)
    requires w.Valid() && !screen.Jar?
    modifies w, b
    ensures w.Valid() && OnlyTimePassed(w)
    ensures var s := Mfa.Session(state, old(b.attempts), Mfa.Open);
            && Mfa.Session(next, b.attempts, ending) == Mfa.Observe(headless, s, screen)
            && w.trace == old(w.trace) + Life.ScreenEvents(headless, s, screen)
            && w.diary == old(w.diary) + if Lingers(headless, s, screen) then [Slept(old(w.mono), w.mono, LINGER)] else []
    ensures ending != Mfa.Captured && (ending == Mfa.NeedsHeaded ==> headless)
    ensures ending.LimitReached? ==> b.attempts >= LIMIT
  {
    next, ending := state, Mfa.Open;
    match screen
    case Blank =>
    case Picker(clicks) =>
      if headless && Mfa.PickerIsLive(state) {
        if b.IsExhausted() { return state, Mfa.LimitReached(false); }
        if clicks {
          w.Emit(Pushed(true));
          var attempt := b.TryRecordAttempt();
          w.Emit(Counted);
          next := Mfa.Triggered;
        }
        w.Sleep(LINGER);
      }
    case NumberMatch(n) =>
      if Mfa.IsNewPush(state, n) {
        w.Emit(Pushed(false));
        var attempt := b.TryRecordAttempt();
        w.Emit(if attempt.Some? then Counted else Refused);
        if attempt.None? { return state, Mfa.LimitReached(true); }
      }
      next := Mfa.Number(n);
    case ApprovalPending =>
      if state.Idle? {
        w.Emit(Pushed(false));
        var attempt := b.TryRecordAttempt();
        w.Emit(if attempt.Some? then Counted else Refused);
        if attempt.None? { return state, Mfa.LimitReached(true); }
        next := Mfa.Triggered;
      }
    case InteractivePrompt =>
      if headless { ending := Mfa.NeedsHeaded; }
  }

  /** Nothing but the pause is left of the iteration. */
  ghost predicate PageDone(from: Origin, log: seq<Deed>) {
    forall d :: IsPause(from.deadline, d) ==> Next(from.headless, from.attempts, from.deadline, log, d)
  }

  /** A page read with session `s` before it, and the sleep some pages are followed by. */
  lemma PageSeen(from: Origin, log: seq<Deed>, screen: Mfa.Screen, start: real, done: real)
    returns (log': seq<Deed>)
    requires PollRun(from.headless, from.attempts, from.deadline, log) && JarDone(log) && !screen.Jar?
    requires Mfa.Run(from.headless, from.attempts, Seen(log)).ending == Mfa.Open
    ensures var s := Mfa.Run(from.headless, from.attempts, Seen(log));
            var t := Mfa.Observe(from.headless, s, screen);
            && log' == log + [PageRead(screen)] + (if Lingers(from.headless, s, screen) then [Slept(start, done, LINGER)] else [])
            && PollRun(from.headless, from.attempts, from.deadline, log')
            && Mfa.Run(from.headless, from.attempts, Seen(log')) == t
            && Life.SessionEvents(from.headless, from.attempts, Seen(log'))
               == Life.SessionEvents(from.headless, from.attempts, Seen(log)) + Life.ScreenEvents(from.headless, s, screen)
            && Looks(log') == Looks(log) + 1
            && (t.ending == Mfa.Open ==> PageDone(from, log'))
  {
    hide Mfa.Run, Life.SessionEvents, Life.ScreenEvents, PollRun, StatusOf;
    var s := Mfa.Run(from.headless, from.attempts, Seen(log));
    Life.SessionAppend(from.headless, from.attempts, Seen(log), screen);
    PageMayBeRead(from, log, PageRead(screen));
    PollAppend(from.headless, from.attempts, from.deadline, log, PageRead(screen));
    LogAppend(log, PageRead(screen));
    log' := log + [PageRead(screen)];
    if Lingers(from.headless, s, screen) {
      var d := Slept(start, done, LINGER);
      assert Next(from.headless, from.attempts, from.deadline, log', d);
      PollAppend(from.headless, from.attempts, from.deadline, log', d);
      DeedUnseen(from, log', d);
      log' := log' + [d];
    }
  }

  /** One look at the page. */
  method PollPage(w: World, b: Mfa.MfaAttemptBudget, ghost from: Origin, headless: bool, ghost log: seq<Deed>,
                  state: Mfa.MfaAttemptState)
    returns (next: Mfa.MfaAttemptState, ending: Mfa.Ending, ghost log': seq<Deed>)
    requires w.Valid() && InStep(w, b, from, log, state, Mfa.Open) && JarDone(log) && headless == from.headless
    modifies w, b
    ensures w.Valid() && OnlyTimePassed(w) && Looks(log') == Looks(log) + 1
    ensures InStep(w, b, from, log', next, ending) && (ending == Mfa.Open ==> PageDone(from, log'))
    ensures log' != [] && !log'[|log'| - 1].Asked?
    ensures ending != Mfa.Captured && (ending == Mfa.NeedsHeaded ==> headless)
    ensures ending.LimitReached? ==> b.attempts >= LIMIT
  {
    hide Mfa.Run, Mfa.Observe, Life.SessionEvents, Life.ScreenEvents, Next, PollRun, PageDone, StatusOf, Seen, Looks;
    var screen := w.LookAtPage();
    ghost var before := w.mono;
    next, ending := OnScreen(w, b, headless, state, screen);
    log' := PageSeen(from, log, screen, before, w.mono);
  }

  lemma PauseMayCome(from: Origin, log: seq<Deed>, d: Deed)
    requires PageDone(from, log) && IsPause(from.deadline, d)
    ensures Next(from.headless, from.attempts, from.deadline, log, d)
  {
  }

  /** The page does not move on: it is loaded again. */
  method Reload(w: World, ghost b: Mfa.MfaAttemptBudget, ghost from: Origin, ghost log: seq<Deed>,
                ghost state: Mfa.MfaAttemptState)
    returns (ghost log': seq<Deed>)
    requires w.Valid() && InStep(w, b, from, log, state, Mfa.Open) && JarDone(log)
    requires from.headless && Looks(log) >= STUCK_LIMIT - 1
    modifies w
    ensures w.Valid() && OnlyTimePassed(w) && w.mono >= old(w.mono) + RELOAD
    ensures InStep(w, b, from, log', state, Mfa.Open) && AtTop(log') && Looks(log') == 0
  {
    hide Mfa.Run, Life.SessionEvents, Next, PollRun, Seen, Looks;
    w.Sleep(RELOAD);
    ghost var d := Slept(old(w.mono), w.mono, RELOAD);
    PageMayBeRead(from, log, d);
    PollAppend(from.headless, from.attempts, from.deadline, log, d);
    DeedUnseen(from, log, d);
    log' := log + [d];
  }

  /** The pause between two polls, which stop cuts short. */
  method Pause(w: World, ghost b: Mfa.MfaAttemptBudget, ghost from: Origin, ghost log: seq<Deed>,
               ghost state: Mfa.MfaAttemptState)
    returns (slept: bool, ghost log': seq<Deed>)
    requires w.Valid() && InStep(w, b, from, log, state, Mfa.Open) && PageDone(from, log) && w.mono < from.deadline
    modifies w
    ensures w.Valid() && OnlyTimePassed(w) && InStep(w, b, from, log', state, Mfa.Open)
    ensures if slept then w.mono >= old(w.mono) + PAUSE && AtTop(log') && Looks(log') == Looks(log) else w.stop && log' == log
  {
    hide Mfa.Run, Life.SessionEvents, Next, PollRun, Seen, Looks, PageDone;
    log' := log;
    slept := w.Doze(PAUSE, false);
    if slept {
      ghost var d := Slept(old(w.mono), w.mono, PAUSE);
      PauseMayCome(from, log, d);
      PollAppend(from.headless, from.attempts, from.deadline, log, d);
      DeedUnseen(from, log, d);
      log' := log + [d];
    }
  }

  /** How an outcome goes with the session's ending. */
  predicate Fits(headless: bool, attempts: nat, log: seq<Deed>, ending: Mfa.Ending, out: FetchOutcome) {
    && (out.Captured? <==> ending == Mfa.Captured) && (out.Captured? ==> out.value != [] && JustAccepted(log, out.value))
    && (out == InteractionRequired <==> ending == Mfa.NeedsHeaded) && (out == InteractionRequired ==> headless)
    && (ending.LimitReached? ==> out == LimitReached) && (out == LimitReached ==> attempts >= LIMIT)
  }

  /** One poll: the jar, then the page, or a reload if the page has not moved on. */
  method Poll(w: World, b: Mfa.MfaAttemptBudget, ghost from: Origin, headless: bool, ghost log: seq<Deed>,
              state: Mfa.MfaAttemptState, stuckCount: nat, lastUrl: Text)
    returns (out: Option<FetchOutcome>, reloaded: bool, next: Mfa.MfaAttemptState, stuck: nat, url: Text,
             ghost log': seq<Deed>, ghost ending: Mfa.Ending)
    requires w.Valid() && InStep(w, b, from, log, state, Mfa.Open) && AtTop(log) && stuckCount <= Looks(log)
    requires headless == from.headless
    modifies w, b
    ensures w.Valid() && OnlyTimePassed(w) && InStep(w, b, from, log', next, ending)
    ensures out.Some? ==> Fits(headless, b.attempts, log', ending, out.value) && ending != Mfa.Open
    ensures out.None? ==> ending == Mfa.Open && stuck <= Looks(log')
    ensures out.None? && reloaded ==> AtTop(log') && w.mono >= old(w.mono) + RELOAD && stuckCount + 1 >= STUCK_LIMIT && stuck == 0
    ensures out.None? && !reloaded ==> PageDone(from, log')
  {
    hide Mfa.Run, Life.SessionEvents, PollRun, Next, StatusOf, Seen, Looks, PageDone, InStep;
    out, reloaded, next, stuck, url := None, false, state, stuckCount, lastUrl;
    var cookie;
    cookie, log' := CheckJar(w, b, from, log, state);
    ending := if cookie.Some? then Mfa.Captured else Mfa.Open;
    if cookie.Some? { return Some(Captured(cookie.value)), false, state, stuckCount, lastUrl, log', ending; }

    var current: Text, deviceAuth: bool := *, *;
    if current == lastUrl {
      stuck := stuckCount + 1;
    } else {
      stuck := 0;
      url := current;
    }
    if headless && stuck >= STUCK_LIMIT && deviceAuth {
      log' := Reload(w, b, from, log', state);
      reloaded, stuck := true, 0;
    } else {
      var e;
      next, e, log' := PollPage(w, b, from, headless, log', state);
      ending := e;
      if e.LimitReached? { out := Some(LimitReached); }
      if e == Mfa.NeedsHeaded { out := Some(InteractionRequired); }
    }
  }

  /** The poll loop of `fetch_inner`. Whatever the pages, the cookies and the clock do, it comes to an
      end, and its deeds are those of a `PollRun`; what it emits and counts is what `Life.SessionEvents`
      and `Mfa.Run` say for what it saw. It captures a value only when the endpoint has just accepted it. */
  method FetchInner(w: World, b: Mfa.MfaAttemptBudget, maxWait: real, headless: bool)
    returns (out: FetchOutcome, ghost log: seq<Deed>)
    requires w.Valid() && maxWait >= 0.0
    modifies w, b
    ensures w.Valid() && OnlyTimePassed(w)
    ensures w.diary == old(w.diary) + log && PollRun(headless, old(b.attempts), old(w.mono) + maxWait, log)
    ensures b.attempts == Mfa.Run(headless, old(b.attempts), Seen(log)).attempts
    ensures w.trace == old(w.trace) + Life.SessionEvents(headless, old(b.attempts), Seen(log))
    ensures Fits(headless, b.attempts, log, Mfa.Run(headless, old(b.attempts), Seen(log)).ending, out)
    ensures out == FetchOutcome.TimedOut ==> b.attempts < LIMIT && w.mono >= old(w.mono) + maxWait
    ensures if old(w.stop) then out == Interrupted && log == [] else out == Interrupted ==> w.stop
  {
    hide Mfa.Run, Life.SessionEvents, PollRun, Next, StatusOf, Seen, Looks, PageDone, JustAccepted;
    var deadline := w.mono + maxWait;
    ghost var from := Origin(headless, b.attempts, deadline, w.trace, w.diary);
    SessionStart(from);
    var state := Mfa.Idle;
    var stuckCount: nat := 0;
    var lastUrl: Text := [];
    log := [];
    while true
      invariant w.Valid() && OnlyTimePassed(w)
      invariant InStep(w, b, from, log, state, Mfa.Open) && AtTop(log) && stuckCount <= Looks(log)
      invariant old(w.stop) ==> log == []
      decreases SecondsLeft(deadline, w.mono), if stuckCount + 1 >= STUCK_LIMIT then 1 else 0
    {
      ghost var top := w.mono;
      if w.stop { out := Interrupted; break; }
      w.Pass(0.0);
      var cancelled: bool := *;
      if cancelled && w.stop { out := Interrupted; break; }

      var over, reloaded;
      ghost var ending;
      over, reloaded, state, stuckCount, lastUrl, log, ending := Poll(w, b, from, headless, log, state, stuckCount, lastUrl);
      if over.Some? { out := over.value; break; }
      if reloaded {
        if top < deadline { SecondsRunDown(deadline, top, w.mono); }
        continue;
      }

      if w.mono >= deadline {
        out := if b.IsExhausted() then LimitReached else FetchOutcome.TimedOut;
        break;
      }
      var slept;
      slept, log := Pause(w, b, from, log, state);
      if !slept { out := Interrupted; break; }
      SecondsRunDown(deadline, top, w.mono);
    }
  }

  // ── Refresh ────────────────────────────────────────────────────────────

  const MAX_WAIT: real := 300.0

  /** Time passes and the cookie file may be written; the children are left alone. */
  twostate predicate OnlyFileWritten(w: World)
    reads w
  {
    && w.nextPid == old(w.nextPid) && w.waitFailed == old(w.waitFailed) && w.running <= old(w.running)
    && w.mono >= old(w.mono) && (old(w.stop) ==> w.stop) && old(w.diary) <= w.diary
  }

  /** The deeds of the one or two sessions of a refresh, and when the second one began. */
  datatype Tries = Tries(first: seq<Deed>, second: seq<Deed>, again: real)

  /** What a refresh claims to have seen is what its sessions did see, each of them watched to its end
      within its own time. */
  ghost predicate Witnessed(headless: bool, attempts: nat, begun: real, r: Life.Refresh, t: Tries) {
    && (r.launched ==> r.first == Seen(t.first) && PollRun(headless, attempts, begun + MAX_WAIT, t.first))
    && (!r.launched ==> t.first == [])
    && match r.second
       case Showed(screens) =>
         && screens == Seen(t.second) && begun <= t.again
         && PollRun(false, Mfa.Run(headless, attempts, r.first).attempts, t.again + MAX_WAIT, t.second)
       case _ => t.second == []
  }

  /** Why a refresh that began can fail: stop, the limit, the time, or the browser or the file system. */
  ghost predicate HasCause(w: World, b: Mfa.MfaAttemptBudget, headless: bool, attempts: nat, begun: real, r: Life.Refresh)
    reads w, b
  {
    || w.stop || b.attempts >= LIMIT || w.mono >= begun + MAX_WAIT || r.second == Life.DidNotOpen
    || (Life.Browse(headless, attempts, r).last.ending == Mfa.Captured && !r.written)
  }

  /** The visible browser that takes over from a headless one, unless stop comes first. */
  method Relaunch(w: World, b: Mfa.MfaAttemptBudget)
    returns (out: Option<FetchOutcome>, ghost second: Life.Second, ghost log: seq<Deed>, ghost again: real)
    requires w.Valid()
    modifies w, b
    ensures w.Valid() && OnlyTimePassed(w) && w.diary == old(w.diary) + log && old(w.mono) <= again
    ensures match second
            case NotTried => out == None && w.stop && log == [] && w.trace == old(w.trace) && b.attempts == old(b.attempts)
            case DidNotOpen => out == None && log == [] && w.trace == old(w.trace) + [LaunchFailed] && b.attempts == old(b.attempts)
            case Showed(screens) =>
              var s := Mfa.Run(false, old(b.attempts), screens);
              && out.Some? && screens == Seen(log) && PollRun(false, old(b.attempts), again + MAX_WAIT, log)
              && b.attempts == s.attempts && w.trace == old(w.trace) + Life.SessionEvents(false, old(b.attempts), screens)
              && Fits(false, b.attempts, log, s.ending, out.value)
              && (out.value == FetchOutcome.TimedOut ==> w.mono >= old(w.mono) + MAX_WAIT)
              && (out.value == Interrupted ==> w.stop)
  {
    hide Mfa.Run, Life.SessionEvents, PollRun, Seen, JustAccepted;
    out, second, log, again := None, Life.NotTried, [], w.mono;
    if w.stop { return; }
    var relaunched := w.OpenBrowser(true);
    second := Life.DidNotOpen;
    if !relaunched { return; }
    var outcome;
    outcome, log := FetchInner(w, b, MAX_WAIT, false);
    out, second := Some(outcome), Life.Showed(Seen(log));
  }

  /** `fetch`: the budget is only looked at on entry; a headed relaunch goes on with what is left of
      it. The branch the source calls unreachable is. On success the captured value is in the file. */
  method Fetch(w: World, b: Mfa.MfaAttemptBudget, headless: bool) returns (ok: bool, ghost r: Life.Refresh, ghost t: Tries)
    requires w.Valid()
    modifies w, b
    ensures w.Valid() && OnlyFileWritten(w)
    ensures w.diary == old(w.diary) + t.first + t.second && Witnessed(headless, old(b.attempts), old(w.mono), r, t)
    ensures if old(b.attempts) >= LIMIT then !ok && w.trace == old(w.trace) && b.attempts == old(b.attempts)
            else if !r.launched then !ok && w.trace == old(w.trace) + [LaunchFailed] && b.attempts == old(b.attempts)
            else
              var tried := Life.Browse(headless, old(b.attempts), r);
              var captured := tried.last.ending == Mfa.Captured;
              && w.trace == old(w.trace) + [FetchBegins] + tried.events + (if captured && !r.written then [SaveFailed] else [])
              && b.attempts == tried.last.attempts && (ok <==> captured && r.written)
    ensures !ok && old(b.attempts) < LIMIT && r.launched ==> HasCause(w, b, headless, old(b.attempts), old(w.mono), r)
    ensures ok ==> HasCookie(w.cookieFile)
  {
    hide Mfa.Run, Life.SessionEvents, PollRun, Seen, JustAccepted;
    r, t := Life.NO_REFRESH, Tries([], [], w.mono);
    if b.IsExhausted() { return false, r, t; }
    var launched := w.OpenBrowser(false);
    if !launched { return false, r, t; }
    var out;
    ghost var log;
    out, log := FetchInner(w, b, MAX_WAIT, headless);
    r, t := r.(launched := true, first := Seen(log)), t.(first := log);
    if out == InteractionRequired {
      var visible;
      ghost var second, again;
      visible, second, log, again := Relaunch(w, b);
      r, t := r.(second := second), t.(second := log, again := again);
      if visible.None? { return false, r, t; }
      out := visible.value;
      assert out != InteractionRequired;
    }
    if !out.Captured? { return false, r, t; }
    ok := w.SaveCookie(out.value);
    r := r.(written := ok);
  }

  /** `refresh_cookie`: refused when the budget is used up, and the budget starts again on success. One
      that began fails for a cause only. */
  method RefreshCookie(w: World, b: Mfa.MfaAttemptBudget, headless: bool) returns (ok: bool, ghost r: Life.Refresh)
    requires w.Valid()
    modifies w, b
    ensures w.Valid() && OnlyFileWritten(w)
    ensures var p := Life.Refreshing(headless, old(b.attempts), r);
            ok == p.ok && b.attempts == p.attempts && w.trace == old(w.trace) + p.events
    ensures if ok then b.attempts == 0 && HasCookie(w.cookieFile)
            else
              && b.attempts >= old(b.attempts)
              && (old(b.attempts) < LIMIT && r.launched ==> HasCause(w, b, headless, old(b.attempts), old(w.mono), r))
    ensures old(b.attempts) >= LIMIT ==> !ok && b.attempts == old(b.attempts) && w.diary == old(w.diary)
  {
    hide Life.Browse, PollRun, Seen;
    if b.IsExhausted() {
      w.Emit(FetchEnds(false));
      return false, Life.NO_REFRESH;
    }
    ghost var t;
    ok, r, t := Fetch(w, b, headless);
    assert b.attempts >= old(b.attempts) by { Life.BrowseOnlyAdds(headless, old(b.attempts), r); }
    if ok {
      b.Reset();
      w.Emit(BudgetReset);
    }
    w.Emit(FetchEnds(ok));
  }

  /** `ensure_valid_cookie`: usable is a valid cookie, one nobody could be asked about, or a freshly
      captured one. With the budget used up the file is still looked at, and a valid cookie supplied
      by hand is accepted and opens the budget again. */
  method EnsureValidCookie(w: World, b: Mfa.MfaAttemptBudget, headless: bool)
    returns (usable: bool, ghost e: Life.Ensuring)
    requires w.Valid()
    modifies w, b
    ensures w.Valid() && OnlyFileWritten(w)
    ensures var p := Life.Ensured(headless, old(b.attempts), e);
            usable == p.ok && b.attempts == p.attempts && w.trace == old(w.trace) + p.events
    ensures match e.verdict
            case Valid => usable && b.attempts == 0 && w.trace == old(w.trace) + [Probed(Ensure, Valid), BudgetReset]
            case NetworkError => usable && b.attempts == old(b.attempts) && w.trace == old(w.trace) + [Probed(Ensure, NetworkError)]
            case Invalid =>
              && old(w.trace) + [Probed(Ensure, Invalid)] <= w.trace && (usable ==> b.attempts == 0)
              && (old(b.attempts) >= LIMIT ==> !usable && b.attempts == old(b.attempts))
    ensures usable ==> HasCookie(w.cookieFile)
  {
    hide Life.Refreshing, Life.Ensured, IsProbed, HasCause, StatusOf, HasCookie, Http.Trim;
    var st;
    ghost var a;
    st, a := ValidateFile(w, Ensure);
    ghost var r := Life.NO_REFRESH;
    match st {
      case Valid =>
        b.Reset();
        w.Emit(BudgetReset);
        usable := true;
        assert w.trace == old(w.trace) + [Probed(Ensure, Valid), BudgetReset];
      case NetworkError =>
        usable := true;
      case Invalid =>
        usable, r := RefreshCookie(w, b, headless);
        assert w.trace == old(w.trace) + ([Probed(Ensure, Invalid)] + Life.Refreshing(headless, old(b.attempts), r).events);
    }
    e := Life.Ensuring(st, r);
    Life.EnsuredIs(headless, old(b.attempts), e);
  }
}
