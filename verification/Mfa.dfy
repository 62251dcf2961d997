/** The MFA push budget and how one browser session spends it. */
module Mfa {
  import opened Bytes
  import Trace

  /** `MfaAttemptBudget`: one counter shared by every refresh of a supervisor. */
  class MfaAttemptBudget {
    var attempts: nat

    constructor ()
      ensures attempts == 0
    {
      attempts := 0;
    }

    predicate IsExhausted()
      reads this
    {
      attempts >= Trace.LIMIT
    }

    method TryRecordAttempt() returns (r: Option<nat>)
      modifies this
      ensures if old(attempts) < Trace.LIMIT then attempts == old(attempts) + 1 && r == Some(attempts)
              else attempts == old(attempts) && r == None
    {
      if attempts < Trace.LIMIT {
        attempts := attempts + 1;
        r := Some(attempts);
      } else {
        r := None;
      }
    }

    method Reset()
      modifies this
      ensures attempts == 0
    {
      attempts := 0;
    }
  }

  datatype MfaAttemptState = Idle | Triggered | Number(shown: Text)

  /** What one poll finds: a cookie in the jar and the endpoint's verdict on it, or a phase of the
      page. `Picker` carries what clicking the option would do. */
  datatype Screen =
    | Jar(status: Trace.CookieStatus)
    | Blank
    | Picker(clicks: bool)
    | NumberMatch(number: Text)
    | ApprovalPending
    | InteractivePrompt

  /** A session that reaches the limit has either met the picker with the budget used up, and sent
      nothing, or been shown a push the budget has no room for. */
  datatype Ending = Open | Captured | LimitReached(pushed: bool) | NeedsHeaded

  datatype Session = Session(state: MfaAttemptState, attempts: nat, ending: Ending)

  predicate PickerIsLive(state: MfaAttemptState) {
    state.Idle? || state.Number?
  }

  predicate IsNewPush(state: MfaAttemptState, number: Text) {
    match state
    case Idle => true
    case Triggered => false
    case Number(previous) => previous != number
  }

  function Record(s: Session, next: MfaAttemptState): Session {
    if s.attempts < Trace.LIMIT then Session(next, s.attempts + 1, Open) else s.(ending := LimitReached(true))
  }

  /** One poll of `fetch_inner`. */
  function Observe(headless: bool, s: Session, o: Screen): Session {
    match o
    case Jar(status) => if status == Trace.Valid then s.(ending := Captured) else s
    case Blank => s
    case Picker(clicks) =>
      if headless && PickerIsLive(s.state) then
        if s.attempts >= Trace.LIMIT then s.(ending := LimitReached(false))
        else if clicks then Record(s, Triggered)
        else s
      else s
    case NumberMatch(n) =>
      if IsNewPush(s.state, n) then Record(s, Number(n)) else s.(state := Number(n))
    case ApprovalPending => if s.state.Idle? then Record(s, Triggered) else s
    case InteractivePrompt => if headless then s.(ending := NeedsHeaded) else s
  }

  /** A session that starts with `attempts` already counted, up to its ending. */
  function Run(headless: bool, attempts: nat, seen: seq<Screen>): Session {
    if seen == [] then Session(Idle, attempts, Open)
    else
      var s := Run(headless, attempts, seen[..|seen| - 1]);
      if s.ending == Open then Observe(headless, s, seen[|seen| - 1]) else s
  }

  lemma RunNothing(headless: bool, attempts: nat)
    ensures Run(headless, attempts, []) == Session(Idle, attempts, Open)
  {
  }

  lemma RunAppend(headless: bool, attempts: nat, seen: seq<Screen>, o: Screen)
    ensures var s := Run(headless, attempts, seen);
            Run(headless, attempts, seen + [o]) == if s.ending == Open then Observe(headless, s, o) else s
  {
    assert (seen + [o])[..|seen|] == seen;
  }

  // ── Pushes, counted or not ─────────────────────────────────────────────

  /** The page shows a push this session did not know of. */
  predicate ShowsNewPush(state: MfaAttemptState, o: Screen) {
    (o.NumberMatch? && IsNewPush(state, o.number)) || (o == ApprovalPending && state.Idle?)
  }

  predicate ClicksNow(headless: bool, s: Session, o: Screen) {
    o.Picker? && o.clicks && headless && PickerIsLive(s.state) && s.attempts < Trace.LIMIT
  }

  /** All the pushes a session gets to know of, whether or not the budget has room for them. */
  function Pushes(headless: bool, attempts: nat, seen: seq<Screen>): nat {
    if seen == [] then 0
    else
      var front, o := seen[..|seen| - 1], seen[|seen| - 1];
      var s := Run(headless, attempts, front);
      Pushes(headless, attempts, front)
      + (if s.ending == Open && (ClicksNow(headless, s, o) || ShowsNewPush(s.state, o)) then 1 else 0)
  }

  /** Every push is counted but for one the budget has no room for, which ends the session. */
  lemma {:induction false} PushesAreCounted(headless: bool, attempts: nat, seen: seq<Screen>)
    ensures var s := Run(headless, attempts, seen);
            attempts + Pushes(headless, attempts, seen) == s.attempts + (if s.ending == LimitReached(true) then 1 else 0)
  {
    if seen != [] { PushesAreCounted(headless, attempts, seen[..|seen| - 1]); }
  }

  // ── How a session ends ─────────────────────────────────────────────────

  /** Which screen ends an open session, and how. */
  predicate EndsAs(headless: bool, s: Session, o: Screen, ending: Ending) {
    match ending
    case Open => false
    case Captured => o == Jar(Trace.Valid)
    case NeedsHeaded => headless && o == InteractivePrompt
    case LimitReached(pushed) =>
      && s.attempts >= Trace.LIMIT
      && if pushed then ShowsNewPush(s.state, o) else headless && o.Picker? && PickerIsLive(s.state)
  }

  /** The session is open when it sees the screen at `k`, which ends it so. */
  predicate EndsAt(headless: bool, attempts: nat, seen: seq<Screen>, k: nat, ending: Ending) {
    k < |seen| && Run(headless, attempts, seen[..k]).ending == Open
    && EndsAs(headless, Run(headless, attempts, seen[..k]), seen[k], ending)
  }

  lemma StepEndsIff(headless: bool, s: Session, o: Screen, ending: Ending)
    requires s.ending == Open && ending != Open
    ensures Observe(headless, s, o).ending == ending <==> EndsAs(headless, s, o, ending)
  {
  }

  /** Every session and every ending: it has ended so exactly when it was open at a screen that ends it
      so: an accepted cookie, an interactive prompt in a headless session, whatever its state, or, with
      the budget used up, a new push or a picker it would have clicked. */
  lemma {:induction false} EndingIff(headless: bool, attempts: nat, seen: seq<Screen>, ending: Ending)
    requires ending != Open
    ensures Run(headless, attempts, seen).ending == ending
            <==> exists k: nat :: EndsAt(headless, attempts, seen, k, ending)
  {
    hide Observe, EndsAs;
    if seen != [] {
      var front := seen[..|seen| - 1];
      EndingIff(headless, attempts, front, ending);
      if Run(headless, attempts, front).ending == Open {
        StepEndsIff(headless, Run(headless, attempts, front), seen[|front|], ending);
      }
      assert seen[..|front|] == front;
      forall k: nat | k < |front|
        ensures EndsAt(headless, attempts, front, k, ending) <==> EndsAt(headless, attempts, seen, k, ending)
      {
        assert front[..k] == seen[..k];
      }
      if Run(headless, attempts, front).ending == ending {
        var k: nat :| EndsAt(headless, attempts, front, k, ending);
        assert EndsAt(headless, attempts, seen, k, ending);
      } else if Run(headless, attempts, seen).ending == ending {
        assert EndsAt(headless, attempts, seen, |front|, ending);
      }
      if exists k: nat :: EndsAt(headless, attempts, seen, k, ending) {
        var k: nat :| EndsAt(headless, attempts, seen, k, ending);
        assert k < |front| ==> EndsAt(headless, attempts, front, k, ending);
      }
    }
  }

  lemma {:induction false} StaysWithinLimit(headless: bool, attempts: nat, seen: seq<Screen>)
    requires attempts <= Trace.LIMIT
    ensures var s := Run(headless, attempts, seen);
            s.attempts <= Trace.LIMIT && (s.ending == LimitReached(true) ==> s.attempts == Trace.LIMIT)
  {
    if seen != [] { StaysWithinLimit(headless, attempts, seen[..|seen| - 1]); }
  }

  /** A session takes the pushes past the limit exactly when a screen shows it a new one with the
      budget used up, and then by one. */
  lemma {:induction false} PastTheLimitIff(headless: bool, attempts: nat, seen: seq<Screen>)
    requires attempts <= Trace.LIMIT
    ensures Run(headless, attempts, seen).attempts <= Trace.LIMIT
    ensures attempts + Pushes(headless, attempts, seen) > Trace.LIMIT
            <==> exists k: nat :: EndsAt(headless, attempts, seen, k, LimitReached(true))
    ensures attempts + Pushes(headless, attempts, seen) <= Trace.LIMIT + 1
  {
    PushesAreCounted(headless, attempts, seen);
    StaysWithinLimit(headless, attempts, seen);
    EndingIff(headless, attempts, seen, LimitReached(true));
  }

  // ── The closed form ────────────────────────────────────────────────────

  /** What the session noticed: its own clicks, the numbers displayed, pending screens. */
  datatype Mark = Click | Shown(number: Text) | Pending

  function MarkOf(headless: bool, s: Session, o: Screen): seq<Mark> {
    match o
    case Picker(_) => if ClicksNow(headless, s, o) then [Click] else []
    case NumberMatch(n) => [Shown(n)]
    case ApprovalPending => [Pending]
    case _ => []
  }

  function Marks(headless: bool, attempts: nat, seen: seq<Screen>): seq<Mark> {
    if seen == [] then []
    else
      var front := seen[..|seen| - 1];
      var s := Run(headless, attempts, front);
      Marks(headless, attempts, front) + (if s.ending == Open then MarkOf(headless, s, seen[|seen| - 1]) else [])
  }

  function Clicks(ms: seq<Mark>): nat {
    if ms == [] then 0 else Clicks(ms[..|ms| - 1]) + (if ms[|ms| - 1] == Click then 1 else 0)
  }

  /** 1 if a push was under way before the session clicked anything. */
  function Unprompted(ms: seq<Mark>): nat {
    if ms != [] && ms[0] != Click then 1 else 0
  }

  function WithoutPending(ms: seq<Mark>): seq<Mark> {
    if ms == [] then []
    else WithoutPending(ms[..|ms| - 1]) + (if ms[|ms| - 1] == Pending then [] else [ms[|ms| - 1]])
  }

  /** Neighbours that show two different numbers. */
  function Changes(ms: seq<Mark>): nat {
    if |ms| < 2 then 0
    else
      var a, b := ms[|ms| - 2], ms[|ms| - 1];
      Changes(ms[..|ms| - 1]) + (if a.Shown? && b.Shown? && a != b then 1 else 0)
  }

  /** What the state remembers of the marks. */
  ghost predicate Remembers(state: MfaAttemptState, ms: seq<Mark>) {
    var shown := WithoutPending(ms);
    match state
    case Idle => ms == []
    case Triggered => ms != [] && (shown == [] || shown[|shown| - 1] == Click)
    case Number(n) => shown != [] && shown[|shown| - 1] == Shown(n)
  }

  ghost predicate Balanced(attempts: nat, s: Session, ms: seq<Mark>) {
    && s.attempts == attempts + Clicks(ms) + Unprompted(ms) + Changes(WithoutPending(ms))
    && Remembers(s.state, ms)
  }

  lemma NothingBalanced(attempts: nat)
    ensures Balanced(attempts, Session(Idle, attempts, Open), [])
  {
  }

  lemma OneMoreMark(ms: seq<Mark>, m: Mark)
    ensures Clicks(ms + [m]) == Clicks(ms) + (if m == Click then 1 else 0)
    ensures Unprompted(ms + [m]) == if ms == [] then (if m == Click then 0 else 1) else Unprompted(ms)
    ensures WithoutPending(ms + [m]) == WithoutPending(ms) + (if m == Pending then [] else [m])
    ensures var w := WithoutPending(ms);
            Changes(w + [m]) == Changes(w) + (if w != [] && w[|w| - 1].Shown? && m.Shown? && w[|w| - 1] != m then 1 else 0)
  {
    assert (ms + [m])[..|ms|] == ms;
    var w := WithoutPending(ms);
    assert (w + [m])[..|w|] == w;
  }

  lemma NoMarks()
    ensures Clicks([]) == 0 && Unprompted([]) == 0 && WithoutPending([]) == [] && Changes([]) == 0
  {
  }

  lemma {:induction false} StepBalanced(headless: bool, attempts: nat, s: Session, ms: seq<Mark>, o: Screen)
    requires s.ending == Open && Balanced(attempts, s, ms) && !Observe(headless, s, o).ending.LimitReached?
    ensures Balanced(attempts, Observe(headless, s, o), ms + MarkOf(headless, s, o))
  {
    hide Clicks, Unprompted, Changes, WithoutPending;
    var added := MarkOf(headless, s, o);
    if added == [] {
      assert ms + added == ms;
    } else {
      OneMoreMark(ms, added[0]);
      assert added == [added[0]];
      assert WithoutPending(ms) + [] == WithoutPending(ms);
    }
    NoMarks();
  }

  /** Every session, headed or headless, that has not run into the limit: the attempts it has recorded
      are its successful clicks, plus one if it found a push already under way before any click, plus the
      neighbouring pairs of different numbers with no click between them. */
  lemma {:induction false} ClosedForm(headless: bool, attempts: nat, seen: seq<Screen>)
    requires !Run(headless, attempts, seen).ending.LimitReached?
    ensures Balanced(attempts, Run(headless, attempts, seen), Marks(headless, attempts, seen))
  {
    hide Observe, Balanced;
    if seen == [] {
      NothingBalanced(attempts);
    } else {
      var front, o := seen[..|seen| - 1], seen[|seen| - 1];
      ClosedForm(headless, attempts, front);
      var s, ms := Run(headless, attempts, front), Marks(headless, attempts, front);
      if s.ending == Open { StepBalanced(headless, attempts, s, ms, o); } else { assert ms + [] == ms; }
    }
  }

  /** The numbers a session displays. */
  function Numbers(seen: seq<Screen>): seq<Mark> {
    if seen == [] then []
    else
      var last := seen[|seen| - 1];
      Numbers(seen[..|seen| - 1]) + (if last.NumberMatch? then [Shown(last.number)] else [])
  }

  predicate ShowsPush(seen: seq<Screen>) {
    exists i :: 0 <= i < |seen| && (seen[i].NumberMatch? || seen[i] == ApprovalPending)
  }

  lemma NoPush()
    ensures !ShowsPush([])
  {
  }

  lemma MorePush(front: seq<Screen>, o: Screen)
    ensures ShowsPush(front + [o]) <==> ShowsPush(front) || o.NumberMatch? || o == ApprovalPending
  {
    var seen := front + [o];
    assert seen[|front|] == o;
    if ShowsPush(front) {
      var i :| 0 <= i < |front| && (front[i].NumberMatch? || front[i] == ApprovalPending);
      assert seen[i] == front[i];
    }
  }

  lemma {:induction false} HeadedMarks(attempts: nat, seen: seq<Screen>)
    requires Run(false, attempts, seen).ending == Open
    ensures var ms := Marks(false, attempts, seen);
            && Click !in ms && Clicks(ms) == 0 && WithoutPending(ms) == Numbers(seen)
            && (ms != [] <==> ShowsPush(seen))
  {
    hide Clicks, WithoutPending, Observe, Run, ShowsPush;
    NoMarks();
    if seen == [] {
      NoPush();
    } else {
      var front, o := seen[..|seen| - 1], seen[|seen| - 1];
      assert seen == front + [o];
      RunAppend(false, attempts, front, o);
      HeadedMarks(attempts, front);
      MorePush(front, o);
      var ms, added := Marks(false, attempts, front), MarkOf(false, Run(false, attempts, front), o);
      if added == [] {
        assert ms + added == ms;
      } else {
        OneMoreMark(ms, added[0]);
        assert ms + added == ms + [added[0]];
      }
    }
  }

  /** A headed session, which never clicks: one attempt if any push screen was seen, and one for
      every change of the displayed number. */
  lemma {:induction false} HeadedClosedForm(attempts: nat, seen: seq<Screen>)
    requires Run(false, attempts, seen).ending == Open
    ensures Run(false, attempts, seen).attempts
            == attempts + (if ShowsPush(seen) then 1 else 0) + Changes(Numbers(seen))
  {
    ClosedForm(false, attempts, seen);
    HeadedMarks(attempts, seen);
  }

  /** If a click is among the marks and the last one that is not pending is a number, that number
      came after the click. */
  lemma {:induction false} LastShown(ms: seq<Mark>, i: nat) returns (k: nat)
    requires i < |ms| && ms[i] == Click
    requires var w := WithoutPending(ms); w != [] && w[|w| - 1].Shown?
    ensures i < k < |ms| && ms[k].Shown?
  {
    if ms[|ms| - 1] == Pending {
      k := LastShown(ms[..|ms| - 1], i);
    } else {
      k := |ms| - 1;
    }
  }

  /** Debounce: between any two clicks of one session a number was displayed. */
  lemma {:induction false} ClicksAreApart(headless: bool, attempts: nat, seen: seq<Screen>, i: nat, j: nat)
    requires i < j < |Marks(headless, attempts, seen)|
    requires Marks(headless, attempts, seen)[i] == Click && Marks(headless, attempts, seen)[j] == Click
    ensures exists k :: i < k < j && Marks(headless, attempts, seen)[k].Shown?
    decreases |seen|
  {
    var front, o := seen[..|seen| - 1], seen[|seen| - 1];
    var s, ms := Run(headless, attempts, front), Marks(headless, attempts, front);
    if j < |ms| {
      ClicksAreApart(headless, attempts, front, i, j);
      var k :| i < k < j && ms[k].Shown?;
      assert Marks(headless, attempts, seen)[k] == ms[k];
    } else {
      ClosedForm(headless, attempts, front);
      assert s.state.Number?;
      var k := LastShown(ms, i);
      assert Marks(headless, attempts, seen)[k] == ms[k];
    }
  }

  /** Screens that let a counted push be completed, up to the accepted cookie if there is one: one
      number at most, no picker once it is shown, nothing that needs a visible browser. */
  predicate Quiet(headless: bool, number: Option<Text>, seen: seq<Screen>)
    decreases |seen|
  {
    seen == []
    || match seen[0]
       case Jar(status) => status == Trace.Valid || Quiet(headless, number, seen[1..])
       case Blank => Quiet(headless, number, seen[1..])
       case ApprovalPending => Quiet(headless, number, seen[1..])
       case NumberMatch(n) => (number == None || number == Some(n)) && Quiet(headless, Some(n), seen[1..])
       case Picker(_) => (!headless || number == None) && Quiet(headless, number, seen[1..])
       case InteractivePrompt => !headless && Quiet(headless, number, seen[1..])
  }

  /** The session from a given point on. */
  function Continue(headless: bool, s: Session, seen: seq<Screen>): Session
    decreases |seen|
  {
    if seen == [] || s.ending != Open then s else Continue(headless, Observe(headless, s, seen[0]), seen[1..])
  }

  function ShownNumber(state: MfaAttemptState): Option<Text> {
    if state.Number? then Some(state.shown) else None
  }

  /** The third push can still be completed: with the budget used up, a session whose push is out
      stays open, or ends with a captured cookie, exactly when what it sees is quiet, and counts
      nothing more. */
  lemma {:induction false} LastPushCompletes(headless: bool, s: Session, seen: seq<Screen>)
    requires s.ending == Open && s.attempts == Trace.LIMIT && !s.state.Idle?
    ensures Continue(headless, s, seen).attempts == Trace.LIMIT
    ensures var ending := Continue(headless, s, seen).ending;
            ending == Open || ending == Captured <==> Quiet(headless, ShownNumber(s.state), seen)
    decreases |seen|
  {
    if seen != [] && Observe(headless, s, seen[0]).ending == Open {
      LastPushCompletes(headless, Observe(headless, s, seen[0]), seen[1..]);
    }
  }
}
