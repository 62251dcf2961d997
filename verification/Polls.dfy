/** The poll loop of a browser session, deed by deed: what it looks at, and how long it pauses. */
module Polls {
  import opened Bytes
  import opened Trace
  import opened Diary
  import opened Mfa

  const STUCK_LIMIT: nat := 5

  const PAUSE: real := 1.0
  const LINGER: real := 2.0
  const RELOAD: real := 3.0

  /** What a session has seen: the endpoint's verdicts on the jar's cookies, and the pages. */
  function Seen(log: seq<Deed>): seq<Screen> {
    if log == [] then []
    else
      var last := log[|log| - 1];
      Seen(log[..|log| - 1])
      + match last
        case Asked(_, _, _, a) => [Jar(StatusOf(a))]
        case PageRead(screen) => [screen]
        case _ => []
  }

  /** The pages looked at since the last reload. */
  function Looks(log: seq<Deed>): nat {
    if log == [] then 0
    else
      var last, before := log[|log| - 1], Looks(log[..|log| - 1]);
      match last
      case PageRead(_) => before + 1
      case Slept(_, _, planned) => if planned == RELOAD then 0 else before
      case _ => before
  }

  lemma LogAppend(log: seq<Deed>, d: Deed)
    ensures Seen(log + [d]) == Seen(log) + match d
                                           case Asked(_, _, _, a) => [Jar(StatusOf(a))]
                                           case PageRead(screen) => [screen]
                                           case _ => []
    ensures Looks(log + [d]) == match d
                                case PageRead(_) => Looks(log) + 1
                                case Slept(_, _, planned) => if planned == RELOAD then 0 else Looks(log)
                                case _ => Looks(log)
    ensures (log + [d])[..|log|] == log
  {
  }

  lemma NothingLogged()
    ensures Seen([]) == [] && Looks([]) == 0
  {
  }

  /** Whether the session gives a page it has just dealt with time to change. */
  predicate Lingers(headless: bool, s: Session, screen: Screen) {
    headless && screen.Picker? && PickerIsLive(s.state) && s.attempts < LIMIT
  }

  /** With the jar's cookie dealt with, the page is next, unless the session is headless, has looked at
      the same page often enough, and loads it again. */
  predicate AtPage(headless: bool, log: seq<Deed>, d: Deed) {
    d.PageRead? || (headless && d.Slept? && d.planned == RELOAD && Looks(log) >= STUCK_LIMIT - 1)
  }

  predicate IsPause(deadline: real, d: Deed) {
    d.Slept? && d.planned == PAUSE && d.start < deadline
  }

  /** `d` can be the next deed of a session that began with `attempts` counted. */
  predicate Next(headless: bool, attempts: nat, deadline: real, log: seq<Deed>, d: Deed) {
    if log == [] then d.JarRead?
    else
      var front, last := log[..|log| - 1], log[|log| - 1];
      match last
      case JarRead(found) =>
        if found.Some? && found.value != [] then d.Asked? && d.cookie == found.value else AtPage(headless, log, d)
      case Asked(_, _, _, a) => StatusOf(a) != Valid && AtPage(headless, log, d)
      case PageRead(screen) =>
        && Run(headless, attempts, Seen(log)).ending == Open
        && if Lingers(headless, Run(headless, attempts, Seen(front)), screen) then d.Slept? && d.planned == LINGER
           else IsPause(deadline, d)
      case Slept(_, _, planned) => if planned == LINGER then IsPause(deadline, d) else d.JarRead?
      case _ => false
  }

  ghost predicate PollRun(headless: bool, attempts: nat, deadline: real, log: seq<Deed>) {
    forall i :: 0 <= i < |log| ==> Next(headless, attempts, deadline, log[..i], log[i])
  }

  lemma {:induction false} PollAppend(headless: bool, attempts: nat, deadline: real, log: seq<Deed>, d: Deed)
    requires PollRun(headless, attempts, deadline, log) && Next(headless, attempts, deadline, log, d)
    ensures PollRun(headless, attempts, deadline, log + [d])
  {
    hide Next;
    var more := log + [d];
    forall i | 0 <= i < |more| ensures Next(headless, attempts, deadline, more[..i], more[i]) {
      assert more[..i] == log[..i];
      assert log[..|log|] == log;
    }
  }

  lemma NothingPolled(headless: bool, attempts: nat, deadline: real)
    ensures PollRun(headless, attempts, deadline, [])
  {
  }

  // ── The session is never blind ─────────────────────────────────────────

  /** Deeds since the page was last looked at, and the sleep they planned. */
  function Since(log: seq<Deed>): nat {
    if log == [] || log[|log| - 1].PageRead? then 0 else 1 + Since(log[..|log| - 1])
  }

  function Drowsed(log: seq<Deed>): real {
    if log == [] || log[|log| - 1].PageRead? then 0.0
    else Drowsed(log[..|log| - 1]) + if log[|log| - 1].Slept? then log[|log| - 1].planned else 0.0
  }

  /** How many deeds, and how much sleep, can still come before the next look. */
  function Ahead(log: seq<Deed>): (nat, real) {
    var again := Looks(log) >= STUCK_LIMIT - 1;
    if log == [] then (2, 0.0)
    else
      match log[|log| - 1]
      case PageRead(_) => (7, 6.0)
      case Slept(_, _, planned) =>
        if planned == LINGER then (6, 4.0) else if again then (5, 3.0) else (2, 0.0)
      case JarRead(_) => if again then (4, 3.0) else (1, 0.0)
      case _ => if again then (3, 3.0) else (0, 0.0)
  }

  lemma AheadShrinks(headless: bool, attempts: nat, deadline: real, log: seq<Deed>, d: Deed)
    requires Next(headless, attempts, deadline, log, d) && !d.PageRead?
    ensures Ahead(log + [d]).0 + 1 <= Ahead(log).0
    ensures Ahead(log + [d]).1 + (if d.Slept? then d.planned else 0.0) <= Ahead(log).1
  {
    hide Run, Seen, Lingers;
    LogAppend(log, d);
    NothingLogged();
  }

  lemma {:induction false} StepsAhead(headless: bool, attempts: nat, deadline: real, log: seq<Deed>)
    requires PollRun(headless, attempts, deadline, log)
    ensures Since(log) + Ahead(log).0 <= 7 && Drowsed(log) + Ahead(log).1 <= 6.0
  {
    hide Next, Looks;
    if log != [] && !log[|log| - 1].PageRead? {
      var front, d := log[..|log| - 1], log[|log| - 1];
      assert log == front + [d];
      assert forall i :: 0 <= i < |front| ==> front[..i] == log[..i];
      StepsAhead(headless, attempts, deadline, front);
      AheadShrinks(headless, attempts, deadline, front, d);
    }
  }

  lemma AheadIsPositive(log: seq<Deed>)
    ensures Ahead(log).1 >= 0.0
  {
  }

  /** At every point of every session the page was looked at within the last seven deeds, and the loop
      has asked for six seconds of sleep at most since. */
  lemma {:induction false} NeverBlind(headless: bool, attempts: nat, deadline: real, log: seq<Deed>)
    requires PollRun(headless, attempts, deadline, log)
    ensures Since(log) <= 7 && Drowsed(log) <= 6.0
  {
    hide Since, Drowsed, Ahead;
    StepsAhead(headless, attempts, deadline, log);
    assert Ahead(log).1 >= 0.0 by { AheadIsPositive(log); }
  }

  /** And no look at the page without a look into the jar right before it; a cookie that was in there
      has been asked about, and was not accepted. */
  lemma {:induction false} JarComesFirst(headless: bool, attempts: nat, deadline: real, log: seq<Deed>, i: nat)
    requires PollRun(headless, attempts, deadline, log) && i < |log| && log[i].PageRead?
    ensures i > 0
    ensures match log[i - 1]
            case JarRead(found) => found == None || found == Some([])
            case Asked(_, _, cookie, a) => i > 1 && log[i - 2] == JarRead(Some(cookie)) && StatusOf(a) != Valid
            case _ => false
  {
    assert Next(headless, attempts, deadline, log[..i], log[i]);
    if i > 0 {
      assert log[..i][|log[..i]| - 1] == log[i - 1];
      assert Next(headless, attempts, deadline, log[..i - 1], log[i - 1]);
      if i > 1 { assert log[..i - 1][|log[..i - 1]| - 1] == log[i - 2]; }
    }
  }
}
