/** The openconnect child: `VpnProcess` and the preconditions of `start`. */
module Vpn {
  import opened Bytes
  import opened Trace
  import opened Diary
  import opened World

  class VpnProcess {
    const pid: nat
    /** The exit status has been collected; `child.id()` is None from then on. */
    var reaped: bool

    constructor (pid: nat)
      ensures this.pid == pid && !reaped
    {
      this.pid := pid;
      reaped := false;
    }

    /** `try_wait`: a collected or finished child is dead, and so, to the caller, is one whose wait
        call fails. */
    method IsAlive(w: World) returns (alive: bool)
      requires reaped ==> pid !in w.running
      modifies this`reaped, w`waitFailed
      ensures old(w.waitFailed) ==> w.waitFailed
      ensures !w.waitFailed ==> (alive <==> pid in w.running)
      ensures alive ==> pid in w.running
      ensures reaped ==> pid !in w.running
    {
      if reaped { return false; }
      var error: bool := *;
      if error {
        w.waitFailed := true;
        return false;
      }
      alive := pid in w.running;
      reaped := !alive;
    }

    /** SIGTERM, up to `termTimeout` of patience, then SIGKILL and not before: unless a wait call fails,
        the child has been collected when this returns. */
    method Stop(w: World, termTimeout: real) returns (ok: bool)
      requires w.Valid() && termTimeout >= 0.0 && (reaped ==> pid !in w.running)
      modifies this`reaped, w`waitFailed, w`running, w`mono, w`wall, w`stop, w`wakePermit, w`resumes, w`diary
      ensures w.Valid() && w.running <= old(w.running) && w.mono >= old(w.mono)
      ensures (old(w.waitFailed) ==> w.waitFailed) && (old(w.stop) ==> w.stop)
      ensures !w.waitFailed ==> ok && pid !in w.running
      ensures reaped ==> pid !in w.running
      ensures w.diary == old(w.diary)
              || w.diary == old(w.diary) + [Slept(old(w.mono), w.mono, termTimeout), Killed(pid)]
    {
      if reaped { return true; }
      var r := w.AwaitExit(pid, termTimeout);
      if r == WaitFailed { return false; }
      reaped := true;
      if r == StillRunning { reaped := w.Kill(pid); }
      ok := true;
    }
  }

  /** `vpn::start`. It refuses a missing and an empty cookie file before it tries anything; otherwise it
      succeeds exactly when the system gives it a child. */
  method Start(w: World) returns (r: Result<VpnProcess, SpawnError>)
    requires w.Valid()
    modifies w`running, w`nextPid, w`diary
    ensures w.Valid()
    ensures r == Err(CookieMissing) <==> w.cookieFile.None?
    ensures r == Err(CookieEmpty) <==> w.cookieFile == Some([])
    ensures w.diary == old(w.diary) + if !HasCookie(w.cookieFile) then []
                                      else [SpawnTried(if r.Err? then Some(r.error) else None)]
    ensures r.Err? ==> w.running == old(w.running) && w.nextPid == old(w.nextPid)
    ensures r.Ok? ==>
              && fresh(r.value) && r.value.pid == old(w.nextPid) && !r.value.reaped
              && w.nextPid == old(w.nextPid) + 1 && w.running == old(w.running) + {r.value.pid}
  {
    if w.cookieFile.None? { return Err(CookieMissing); }
    if w.cookieFile.value == [] { return Err(CookieEmpty); }
    var error := w.TrySpawn();
    if error.Some? { return Err(error.value); }
    var p := new VpnProcess(w.nextPid - 1);
    r := Ok(p);
  }
}
