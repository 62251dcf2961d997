/** What the program does with the world outside, deed by deed: what it asks and what it is answered,
    and for how long it sleeps. */
module Diary {
  import opened Bytes
  import opened Trace
  import Mfa

  datatype HttpAnswer = Unreachable | Status(code: nat)

  /** The verdict of `validate_cookie`: only a redirect and 404 speak against the cookie. */
  function StatusOf(a: HttpAnswer): CookieStatus {
    match a
    case Unreachable => NetworkError
    case Status(code) => if 300 <= code < 400 || code == 404 then Invalid else Valid
  }

  /** The documented verdict: 2xx is valid, 3xx and 404 are invalid. It is silent on all other codes. */
  predicate Documented(a: HttpAnswer, st: CookieStatus) {
    match st
    case Valid => a.Status? && 200 <= a.code < 300
    case Invalid => a.Status? && (300 <= a.code < 400 || a.code == 404)
    case NetworkError => a.Unreachable?
  }

  /** The code gives the documented verdict wherever there is one, and takes every answer the
      documentation is silent on, refusals of the login and server errors included, for a valid cookie. */
  lemma UndocumentedIsValid(a: HttpAnswer)
    ensures Documented(a, StatusOf(a)) <==> exists st :: Documented(a, st)
    ensures (forall st :: !Documented(a, st))
            <==> a.Status? && StatusOf(a) == Valid && !(200 <= a.code < 300)
  {
    assert Documented(a, Valid) || !Documented(a, Valid);
    assert Documented(a, Invalid) || !Documented(a, Invalid);
    assert Documented(a, NetworkError) || !Documented(a, NetworkError);
  }

  /** Times are those of the monotonic clock. A sleep that stop or a wake cuts short is not entered. */
  datatype Deed =
    | Asked(start: real, done: real, cookie: Text, answer: HttpAnswer)
    | Slept(start: real, done: real, planned: real)
    | JarRead(found: Option<Text>)
    | PageRead(screen: Mfa.Screen)
    | SpawnTried(error: Option<SpawnError>)
    | Killed(pid: nat)

  /** The verdicts on the answers, in order. */
  function Verdicts(log: seq<Deed>): seq<CookieStatus> {
    if log == [] then []
    else
      var last := log[|log| - 1];
      Verdicts(log[..|log| - 1]) + if last.Asked? then [StatusOf(last.answer)] else []
  }

  lemma VerdictsAppend(log: seq<Deed>, d: Deed)
    ensures Verdicts(log + [d]) == Verdicts(log) + if d.Asked? then [StatusOf(d.answer)] else []
    ensures Verdicts([]) == []
  {
    assert (log + [d])[..|log|] == log;
  }
}
