/** What the supervisor does, as a list of events, and the ledger that says which lists are safe. */
module Trace {
  import opened Bytes

  datatype CookieStatus = Valid | Invalid | NetworkError

  /** Who asked: the browser session about a captured value, `ensure_valid_cookie` at startup or
      with the VPN dead, or the monitor's check. */
  datatype Site = Browser | Ensure | Monitor

  datatype SpawnError = CookieMissing | CookieEmpty | ToolMissing | SpawnRefused

  datatype Event =
    | Probed(site: Site, status: CookieStatus)
    | FetchBegins                       // a browser refresh starts
    | LaunchFailed                      // a browser does not come up
    | Pushed(clicked: bool)             // a push is out: the option was clicked, or the page shows one the session did not know of
    | Counted                           // that push is recorded in the budget
    | Refused                           // the budget has no room for that push: the session is over
    | BudgetReset
    | SaveFailed                        // the captured cookie cannot be written
    | FetchEnds(ok: bool)               // a refresh is over, or was not started (not ok)
    | Kept                              // a child that is alive after all is left alone
    | Spawned
    | SpawnFailed(error: SpawnError)
    | Stopped(shutdown: bool)           // the child in the slot is told to stop

  const LIMIT: nat := 3

  /** What the latest word on the cookie allows: anything, starting a tunnel only, or nothing. */
  datatype Permit = Anything | StartOnly | Nothing

  datatype Browsing = NoBrowser | InSession | Halted

  /** What the last event asks for: a push asks for the budget's verdict on it, a verdict on the cookie
      or the end of a refresh for what is to be done about it. */
  datatype Due =
    | NothingDue
    | ClickDue
    | SightDue
    | ResetDue(start: bool)    // a valid cookie: the budget opens again, and then the tunnel may have to start
    | KeepDue                  // a captured one: it is written and the budget opens again, or it is not written
    | EndDue                   // it has been: the refresh is over
    | RefreshDue               // an invalid cookie: a refresh
    | TunnelDue                // a good cookie for a tunnel that is down, or that has the old one
    | SpawnDue                 // the old child has been stopped

  predicate IsSpawnAttempt(e: Event) {
    e == Spawned || e.SpawnFailed?
  }

  predicate Answers(due: Due, e: Event) {
    match due
    case NothingDue => true
    case ClickDue => e == Counted || e == Refused
    case SightDue => e == Counted || e == Refused
    case ResetDue(_) => e == BudgetReset
    case KeepDue => e == BudgetReset || e == SaveFailed
    case EndDue => e == FetchEnds(true)
    case RefreshDue => e == FetchBegins || e == LaunchFailed || e == FetchEnds(false)
    case TunnelDue => IsSpawnAttempt(e) || e == Kept || e == Stopped(false)
    case SpawnDue => IsSpawnAttempt(e)
  }

  predicate PushDue(due: Due) {
    due == ClickDue || due == SightDue
  }

  /** The first four tallies run since the last reset. */
  datatype Ledger = Ledger(
    attempts: nat, pushes: nat, clicks: nat, refusals: nat,
    due: Due, browsing: Browsing, validSeen: bool, permit: Permit, safe: bool)

  const EMPTY := Ledger(0, 0, 0, 0, NothingDue, NoBrowser, false, Nothing, true)

  /** Whether `e` may happen next. */
  predicate Allowed(l: Ledger, e: Event) {
    && Answers(l.due, e)
    && (l.browsing == Halted ==> e == FetchEnds(false))
    && match e
       case Probed(site, _) => site == Browser <==> l.browsing == InSession
       case FetchBegins => l.browsing == NoBrowser && l.due == RefreshDue && l.attempts < LIMIT
       case LaunchFailed => l.browsing == NoBrowser ==> l.due == RefreshDue && l.attempts < LIMIT
       case Pushed(clicked) => l.browsing == InSession && (clicked ==> l.attempts < LIMIT)
       case Counted => PushDue(l.due) && l.attempts < LIMIT
       case Refused => PushDue(l.due) && l.attempts >= LIMIT
       case BudgetReset => l.validSeen && (l.due.ResetDue? || l.due == KeepDue)
       case SaveFailed => l.due == KeepDue
       case FetchEnds(ok) =>
         if ok then l.due == EndDue
         else l.browsing == NoBrowser ==> l.due == RefreshDue && l.attempts >= LIMIT
       case Kept => l.browsing == NoBrowser && l.permit != Nothing && l.due == TunnelDue
       case Spawned => l.browsing == NoBrowser && l.permit != Nothing
       case SpawnFailed(err) =>
         l.browsing == NoBrowser && l.permit != Nothing && err != CookieMissing && err != CookieEmpty
       case Stopped(shutdown) => l.browsing == NoBrowser && (shutdown || l.permit == Anything)
  }

  function Worth(site: Site, status: CookieStatus): Permit {
    match status
    case Valid => Anything
    case Invalid => Nothing
    case NetworkError => if site == Ensure then StartOnly else Nothing
  }

  /** What a verdict outside the browser asks for; `spent` says whether pushes have been counted. */
  function DueFor(site: Site, status: CookieStatus, spent: bool): Due {
    match status
    case Valid => ResetDue(site == Ensure || spent)
    case Invalid => RefreshDue
    case NetworkError => if site == Ensure then TunnelDue else NothingDue
  }

  /** A spawn attempt uses the permit up: the next one needs a new word on the cookie. */
  function Post(l: Ledger, e: Event): Ledger {
    var due := l.due;
    var l := l.(safe := l.safe && Allowed(l, e), due := NothingDue);
    match e
    case Probed(Browser, status) =>
      l.(validSeen := l.validSeen || status == Valid, due := if status == Valid then KeepDue else NothingDue)
    case Probed(site, status) =>
      l.(validSeen := l.validSeen || status == Valid, permit := Worth(site, status), due := DueFor(site, status, l.attempts > 0))
    case FetchBegins => l.(browsing := InSession)
    case LaunchFailed => l.(browsing := Halted)
    case Pushed(clicked) =>
      l.(pushes := l.pushes + 1, clicks := l.clicks + (if clicked then 1 else 0), due := if clicked then ClickDue else SightDue)
    case Counted => l.(attempts := l.attempts + 1)
    case Refused => l.(refusals := l.refusals + 1, browsing := Halted)
    case BudgetReset =>
      l.(attempts := 0, pushes := 0, clicks := 0, refusals := 0, validSeen := false,
         due := if due == KeepDue then EndDue else if due == ResetDue(true) then TunnelDue else NothingDue)
    case SaveFailed => l.(browsing := Halted)
    case FetchEnds(ok) =>
      l.(browsing := NoBrowser, permit := if ok then Anything else Nothing, due := if ok then TunnelDue else NothingDue)
    case Kept => l
    case Spawned => l.(permit := Nothing)
    case SpawnFailed(_) => l.(permit := Nothing)
    case Stopped(shutdown) => l.(due := if shutdown then NothingDue else SpawnDue)
  }

  function After(l: Ledger, tr: seq<Event>): Ledger {
    if tr == [] then l else Post(After(l, tr[..|tr| - 1]), tr[|tr| - 1])
  }

  function Replay(tr: seq<Event>): Ledger {
    After(EMPTY, tr)
  }

  predicate Safe(tr: seq<Event>) {
    Replay(tr).safe
  }

  lemma {:induction false} AfterConcat(l: Ledger, a: seq<Event>, b: seq<Event>)
    ensures After(l, a + b) == After(After(l, a), b)
  {
    if b == [] {
      assert a + b == a;
    } else {
      AfterConcat(l, a, b[..|b| - 1]);
      assert (a + b)[..|a + b| - 1] == a + b[..|b| - 1];
    }
  }

  lemma AfterOne(l: Ledger, e: Event)
    ensures After(l, [e]) == Post(l, e) && After(l, []) == l
  {
    assert [e][..0] == [];
  }

  lemma ReplayNothing()
    ensures Replay([]) == EMPTY
  {
  }

  lemma ReplayFrom(tr: seq<Event>, i: nat)
    requires i <= |tr|
    ensures Replay(tr) == After(Replay(tr[..i]), tr[i..])
  {
    AfterConcat(EMPTY, tr[..i], tr[i..]);
    assert tr[..i] + tr[i..] == tr;
  }

  // ── What safety means event by event ───────────────────────────────────

  lemma LastAllowed(tr: seq<Event>)
    requires Safe(tr) && tr != []
    ensures Safe(tr[..|tr| - 1]) && Allowed(Replay(tr[..|tr| - 1]), tr[|tr| - 1])
    ensures Replay(tr) == Post(Replay(tr[..|tr| - 1]), tr[|tr| - 1])
  {
  }

  /** Safety of a list is safety of all its prefixes, each next event being allowed. */
  lemma {:induction false} SafePrefix(tr: seq<Event>, k: nat)
    requires Safe(tr) && k <= |tr|
    ensures Safe(tr[..k])
    ensures k < |tr| ==> Allowed(Replay(tr[..k]), tr[k])
  {
    hide Post, Allowed;
    if k < |tr| {
      var front := tr[..|tr| - 1];
      LastAllowed(tr);
      if k < |front| {
        SafePrefix(front, k);
        assert front[..k] == tr[..k];
      } else {
        assert tr[..k] == front;
      }
    } else {
      assert tr[..k] == tr;
    }
  }

  ghost function Count(tr: seq<Event>, e: Event): nat {
    multiset(tr)[e]
  }

  /** All the pushes the program gets to know of, its own and others. */
  ghost function PushesIn(tr: seq<Event>): nat {
    Count(tr, Pushed(true)) + Count(tr, Pushed(false))
  }

  lemma CountConcat(a: seq<Event>, b: seq<Event>)
    ensures forall e :: Count(a + b, e) == Count(a, e) + Count(b, e)
    ensures PushesIn(a + b) == PushesIn(a) + PushesIn(b)
  {
  }

  lemma CountOne(e: Event)
    ensures forall x :: Count([e], x) == if x == e then 1 else 0
    ensures forall x :: Count([], x) == 0
    ensures PushesIn([e]) == (if e.Pushed? then 1 else 0) && PushesIn([]) == 0
  {
  }

  predicate NoReset(tr: seq<Event>) {
    BudgetReset !in tr
  }

  /** The ledger's tallies count their events since the last reset. */
  lemma {:induction false} Tallies(l: Ledger, tr: seq<Event>)
    requires NoReset(tr)
    ensures var r := After(l, tr);
            && r.attempts == l.attempts + Count(tr, Counted)
            && r.refusals == l.refusals + Count(tr, Refused)
            && r.clicks == l.clicks + Count(tr, Pushed(true))
            && r.pushes == l.pushes + PushesIn(tr)
  {
    hide Allowed, Count, PushesIn;
    CountOne(Refused);
    if tr != [] {
      var front, last := tr[..|tr| - 1], tr[|tr| - 1];
      assert tr == front + [last];
      CountConcat(front, [last]);
      CountOne(last);
      Tallies(l, front);
    }
  }

  /** Every push is counted, refused, or about to be one of the two; the budget refuses at most one,
      and only when it is used up; a push it refuses ends the session. */
  ghost predicate InOrder(l: Ledger) {
    && l.attempts <= LIMIT
    && l.pushes == l.attempts + l.refusals + (if PushDue(l.due) then 1 else 0)
    && l.clicks <= l.attempts + (if l.due == ClickDue then 1 else 0)
    && (l.due == ClickDue ==> l.attempts < LIMIT)
    && (PushDue(l.due) ==> l.browsing == InSession)
    && l.refusals <= 1
    && (l.refusals == 1 ==> l.attempts == LIMIT && l.browsing != InSession)
  }

  lemma {:induction false} PushesAreSettled(tr: seq<Event>)
    requires Safe(tr)
    ensures InOrder(Replay(tr))
  {
    hide Replay;
    if tr != [] {
      LastAllowed(tr);
      PushesAreSettled(tr[..|tr| - 1]);
    } else {
      ReplayNothing();
    }
  }

  /** Between two resets, wherever one starts looking: at most three pushes are clicked for, at most
      three are counted, and at most one more is noticed, which the budget refuses. */
  lemma {:induction false} FourPushes(tr: seq<Event>, i: nat, j: nat)
    requires Safe(tr) && i <= j <= |tr| && NoReset(tr[i..j])
    ensures Count(tr[i..j], Pushed(true)) <= LIMIT && Count(tr[i..j], Counted) <= LIMIT
    ensures Count(tr[i..j], Refused) <= 1 && PushesIn(tr[i..j]) <= LIMIT + 1
  {
    hide Replay, Count, PushesIn;
    SafePrefix(tr, j);
    var front := tr[..j];
    assert front[i..] == tr[i..j] && front[..i] == tr[..i];
    ReplayFrom(front, i);
    Tallies(Replay(tr[..i]), tr[i..j]);
    PushesAreSettled(front);
  }

  /** Over a whole run: three clicks and four pushes for the start, and as many again for every reset. */
  lemma {:induction false} PushesPerReset(tr: seq<Event>)
    requires Safe(tr)
    ensures Count(tr, Pushed(true)) <= LIMIT * Count(tr, BudgetReset) + Replay(tr).clicks
    ensures PushesIn(tr) <= (LIMIT + 1) * Count(tr, BudgetReset) + Replay(tr).pushes
    ensures Count(tr, Pushed(true)) <= LIMIT * (1 + Count(tr, BudgetReset))
    ensures PushesIn(tr) <= (LIMIT + 1) * (1 + Count(tr, BudgetReset))
  {
    hide Replay, Count, PushesIn, Allowed;
    PushesAreSettled(tr);
    CountOne(Refused);
    if tr != [] {
      var front, last := tr[..|tr| - 1], tr[|tr| - 1];
      assert tr == front + [last];
      CountConcat(front, [last]);
      CountOne(last);
      LastAllowed(tr);
      PushesPerReset(front);
      PushesAreSettled(front);
    }
  }

  /** `tr[k]` is a push that comes when three have been counted. */
  ghost predicate PushedWhenSpent(tr: seq<Event>, k: nat) {
    k < |tr| && tr[k].Pushed? && Count(tr[..k], Counted) >= LIMIT
  }

  lemma {:induction false} UnresetTallies(tr: seq<Event>)
    requires Safe(tr) && NoReset(tr)
    ensures InOrder(Replay(tr)) && Replay(tr).attempts == Count(tr, Counted) && Replay(tr).pushes == PushesIn(tr)
  {
    hide Count, PushesIn;
    PushesAreSettled(tr);
    Tallies(EMPTY, tr);
  }

  /** A fourth push in one process comes about in two ways only: the budget had been reset before
      it, or it was shown when three had been counted. */
  lemma {:induction false} FourthPush(tr: seq<Event>) returns (k: nat)
    requires Safe(tr) && PushesIn(tr) > LIMIT
    ensures k < |tr| && tr[k].Pushed? && PushesIn(tr[..k]) == LIMIT
    ensures BudgetReset in tr[..k] || PushedWhenSpent(tr, k)
  {
    hide Replay, Count, PushesIn;
    CountOne(Refused);
    var front, last := tr[..|tr| - 1], tr[|tr| - 1];
    assert tr == front + [last];
    CountConcat(front, [last]);
    CountOne(last);
    LastAllowed(tr);
    if PushesIn(front) > LIMIT {
      k := FourthPush(front);
      assert front[..k] == tr[..k];
    } else {
      k := |front|;
      if NoReset(front) { UnresetTallies(front); }
    }
  }

  /** So as long as nothing resets the budget, the limit of three pushes is kept if and only if none
      is shown when three have been counted. */
  lemma {:induction false} ThreePushesIff(tr: seq<Event>)
    requires Safe(tr) && NoReset(tr)
    ensures PushesIn(tr) <= LIMIT <==> forall k: nat :: !PushedWhenSpent(tr, k)
  {
    hide Replay, Count, PushesIn;
    if PushesIn(tr) > LIMIT {
      var k := FourthPush(tr);
    }
    forall k: nat | PushedWhenSpent(tr, k) ensures PushesIn(tr) > LIMIT {
      SafePrefix(tr, k);
      UnresetTallies(tr[..k]);
      CountConcat(tr[..k], tr[k..]);
      assert tr[..k] + tr[k..] == tr;
      CountConcat([tr[k]], tr[k + 1..]);
      assert [tr[k]] + tr[k + 1..] == tr[k..];
      CountOne(tr[k]);
    }
  }

  lemma {:induction false} ValidSeen(tr: seq<Event>) returns (i: nat, site: Site)
    requires Replay(tr).validSeen
    ensures i < |tr| && tr[i] == Probed(site, Valid) && NoReset(tr[i..])
  {
    hide Allowed;
    var front, last := tr[..|tr| - 1], tr[|tr| - 1];
    if last.Probed? && last.status == Valid {
      i, site := |tr| - 1, last.site;
      assert tr[i..] == [last];
    } else {
      i, site := ValidSeen(front);
      assert tr[i..] == front[i..] + [last];
    }
  }

  /** Every reset rests on a Valid verdict obtained since the reset before it. */
  lemma {:induction false} ResetNeedsValid(tr: seq<Event>, k: nat)
    requires Safe(tr) && k < |tr| && tr[k] == BudgetReset
    ensures exists i, site :: 0 <= i < k && tr[i] == Probed(site, Valid) && NoReset(tr[i..k])
  {
    SafePrefix(tr, k);
    var i, site := ValidSeen(tr[..k]);
    assert tr[i..k] == tr[..k][i..];
    assert tr[i] == Probed(site, Valid);
  }

  lemma {:induction false} StillSpent(tr: seq<Event>, i: nat, k: nat, j: nat)
    requires i <= k <= j <= |tr| && NoReset(tr[i..j])
    ensures Replay(tr[..k]).attempts >= Replay(tr[..i]).attempts
    ensures k == j ==> Replay(tr[..j]).pushes == Replay(tr[..i]).pushes + PushesIn(tr[i..j])
  {
    hide Replay, Count, PushesIn;
    var front := tr[..k];
    assert front[..i] == tr[..i];
    assert front[i..] == tr[i..j][..k - i];
    assert k == j ==> front[i..] == tr[i..j];
    ReplayFrom(front, i);
    Tallies(Replay(tr[..i]), front[i..]);
  }

  /** Once the budget is used up, no refresh starts, nothing is clicked and nothing is counted until it
      is reset, and at most one more push is noticed. */
  lemma {:induction false} ExhaustedMeansPaused(tr: seq<Event>, i: nat, j: nat)
    requires Safe(tr) && i <= j <= |tr| && NoReset(tr[i..j])
    requires Replay(tr[..i]).attempts >= LIMIT
    ensures FetchBegins !in tr[i..j] && Pushed(true) !in tr[i..j] && Counted !in tr[i..j]
    ensures PushesIn(tr[i..j]) <= 1
  {
    hide Replay, Count, PushesIn;
    forall k | i <= k < j ensures tr[k] != FetchBegins && tr[k] != Pushed(true) && tr[k] != Counted {
      SafePrefix(tr, k);
      StillSpent(tr, i, k, j);
    }
    StillSpent(tr, i, j, j);
    SafePrefix(tr, j);
    PushesAreSettled(tr[..j]);
    SafePrefix(tr, i);
    PushesAreSettled(tr[..i]);
  }

  /** An event that says what the cookie is worth to the tunnel. */
  predicate IsOutcome(e: Event) {
    e.FetchEnds? || (e.Probed? && e.site != Browser)
  }

  function Permits(e: Event): Permit
    requires IsOutcome(e)
  {
    match e
    case FetchEnds(ok) => if ok then Anything else Nothing
    case Probed(site, status) => Worth(site, status)
  }

  /** `tr[i]` is the latest word on the cookie before `k`, and no spawn attempt has used it yet. */
  predicate LatestOutcome(tr: seq<Event>, i: nat, k: nat) {
    i < k <= |tr| && IsOutcome(tr[i]) && forall j :: i < j < k ==> !IsOutcome(tr[j]) && !IsSpawnAttempt(tr[j])
  }

  lemma {:induction false} FindOutcome(tr: seq<Event>, k: nat) returns (i: nat)
    requires k <= |tr| && Replay(tr[..k]).permit != Nothing
    ensures LatestOutcome(tr, i, k) && Permits(tr[i]) == Replay(tr[..k]).permit
  {
    hide Allowed;
    assert tr[..k][..k - 1] == tr[..k - 1];
    if IsOutcome(tr[k - 1]) {
      i := k - 1;
    } else {
      i := FindOutcome(tr, k - 1);
    }
  }

  /** Every spawn attempt follows a latest cookie outcome that permits it and that no other attempt
      has used, and none fails for want of a cookie. */
  lemma {:induction false} SpawnIsPermitted(tr: seq<Event>, k: nat)
    requires Safe(tr) && k < |tr| && IsSpawnAttempt(tr[k])
    ensures exists i: nat :: LatestOutcome(tr, i, k) && Permits(tr[i]) != Nothing
    ensures tr[k] != SpawnFailed(CookieMissing) && tr[k] != SpawnFailed(CookieEmpty)
  {
    hide Replay, LatestOutcome;
    SafePrefix(tr, k);
    var i := FindOutcome(tr, k);
  }

  /** Outside shutdown a child is only ever stopped on a valid cookie: never on a network error, an
      invalid cookie or a failed refresh. */
  lemma {:induction false} StopNeedsGoodCookie(tr: seq<Event>, k: nat)
    requires Safe(tr) && k < |tr| && tr[k] == Stopped(false)
    ensures exists i: nat :: LatestOutcome(tr, i, k) && (tr[i] == FetchEnds(true) || (tr[i].Probed? && tr[i].status == Valid))
  {
    hide Replay;
    SafePrefix(tr, k);
    var i := FindOutcome(tr, k);
  }

  // ── What must come next ────────────────────────────────────────────────

  /** Something must be done at once about a verdict on the cookie, a push, a refresh that succeeded or
      could not go on, and a child that has been stopped. */
  predicate Asks(e: Event) {
    match e
    case Probed(Browser, status) => status == Valid
    case Probed(Ensure, _) => true
    case Probed(Monitor, status) => status != NetworkError
    case Pushed(_) => true
    case Refused => true
    case LaunchFailed => true
    case SaveFailed => true
    case FetchEnds(ok) => ok
    case Stopped(shutdown) => !shutdown
    case _ => false
  }

  /** `next` is what `e` asks for. */
  predicate Meets(e: Event, next: Event) {
    match e
    case Probed(Browser, Valid) => next == BudgetReset || next == SaveFailed
    case Probed(_, Valid) => next == BudgetReset
    case Probed(Ensure, NetworkError) => IsSpawnAttempt(next) || next == Kept
    case Probed(_, Invalid) => next == FetchBegins || next == LaunchFailed || next == FetchEnds(false)
    case Pushed(_) => next == Counted || next == Refused
    case FetchEnds(_) => IsSpawnAttempt(next) || next == Kept || next == Stopped(false)
    case Stopped(_) => IsSpawnAttempt(next)
    case _ => next == FetchEnds(false)
  }

  lemma AskedFor(l: Ledger, e: Event, next: Event)
    requires Asks(e) && Allowed(l, e) && Allowed(Post(l, e), next)
    ensures Meets(e, next)
  {
  }

  /** Whatever asks for something gets it as the very next event: a valid cookie opens the budget again, an
      invalid one brings a refresh, a usable one at a dead tunnel, a fresh one or a stopped child brings a
      spawn attempt. */
  lemma {:induction false} AskedIsMet(tr: seq<Event>, k: nat)
    requires Safe(tr) && k + 1 < |tr| && Asks(tr[k])
    ensures Meets(tr[k], tr[k + 1])
  {
    hide Allowed, Meets, Asks, Post;
    SafePrefix(tr, k + 1);
    var front := tr[..k + 1];
    assert front[..k] == tr[..k];
    LastAllowed(front);
    AskedFor(Replay(tr[..k]), tr[k], tr[k + 1]);
  }

  lemma ResetLeads(l: Ledger, site: Site, next: Event, last: Event)
    requires site != Browser && Allowed(l, Probed(site, Valid)) && Allowed(Post(l, Probed(site, Valid)), next)
    requires Allowed(Post(Post(l, Probed(site, Valid)), next), last)
    ensures next == BudgetReset
    ensures site == Ensure || l.attempts > 0 ==> IsSpawnAttempt(last) || last == Kept || last == Stopped(false)
  {
  }

  /** A valid cookie opens the budget again, and right after that the tunnel is started if it was down,
      and replaced if pushes had been counted. */
  lemma {:induction false} ValidReopens(tr: seq<Event>, k: nat, site: Site)
    requires Safe(tr) && k + 2 < |tr| && site != Browser && tr[k] == Probed(site, Valid)
    ensures tr[k + 1] == BudgetReset
    ensures site == Ensure || Replay(tr[..k]).attempts > 0 ==>
              IsSpawnAttempt(tr[k + 2]) || tr[k + 2] == Kept || tr[k + 2] == Stopped(false)
  {
    hide Allowed, Post;
    SafePrefix(tr, k + 2);
    var front := tr[..k + 2];
    assert front[..k + 1] == tr[..k + 1] && tr[..k + 1][..k] == tr[..k];
    LastAllowed(front);
    LastAllowed(tr[..k + 1]);
    ResetLeads(Replay(tr[..k]), site, tr[k + 1], tr[k + 2]);
  }

  /** An invalid cookie is refreshed: with pushes left, a browser is launched. */
  lemma {:induction false} InvalidIsRefreshed(tr: seq<Event>, k: nat, site: Site)
    requires Safe(tr) && k + 1 < |tr| && site != Browser && tr[k] == Probed(site, Invalid)
    ensures if Replay(tr[..k]).attempts < LIMIT then tr[k + 1] == FetchBegins || tr[k + 1] == LaunchFailed
            else tr[k + 1] == FetchEnds(false)
  {
    SafePrefix(tr, k + 1);
    var front := tr[..k + 1];
    assert front[..k] == tr[..k];
    LastAllowed(front);
  }
}
