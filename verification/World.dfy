/** Everything outside the supervisor's control: two clocks, the stop token, the wake permit, the
    cookie file, the endpoint, the browser and the operating system's view of the children. Methods
    leave what the environment decides undetermined, so what is proved holds for every behaviour of it;
    what they were asked and what they answered goes into the diary. */
module World {
  import opened Bytes
  import opened Trace
  import opened Diary
  import Mfa

  predicate HasCookie(file: Option<Text>) {
    file.Some? && file.value != []
  }

  /** How waiting for a child turns out. */
  datatype Awaited = ChildExited | WaitFailed | StillRunning

  class World {
    var mono: real
    var wall: real
    var stop: bool
    /** `Notify` stores one wake permit, however many resumes were signalled; `resumes` counts them. */
    var wakePermit: bool
    ghost var resumes: nat
    var cookieFile: Option<Text>
    /** The children spawned by the supervisor that are alive. */
    var running: set<nat>
    var nextPid: nat
    /** Some wait call on a child has failed. */
    var waitFailed: bool
    ghost var diary: seq<Deed>
    ghost var trace: seq<Event>

    ghost predicate Valid()
      reads this
    {
      forall p :: p in running ==> p < nextPid
    }

    /** Time goes by, and with it whatever else happens on its own: the wall clock is moved, stop is
        requested, a resume is signalled, children die. */
    method Pass(atLeast: real)
      requires Valid() && atLeast >= 0.0
      modifies this`mono, this`wall, this`stop, this`wakePermit, this`resumes, this`running
      ensures Valid() && mono >= old(mono) + atLeast && running <= old(running)
      ensures (old(stop) ==> stop) && resumes >= old(resumes)
      ensures wakePermit <==> old(wakePermit) || resumes > old(resumes)
    {
      var late: real := *;
      mono := mono + atLeast + (if late > 0.0 then late else 0.0);
      wall := *;
      var cancelled: bool, resumed: bool := *, *;
      stop, wakePermit := stop || cancelled, wakePermit || resumed;
      resumes := resumes + if resumed then 1 else 0;
      var survivors: set<nat> := *;
      running := running * survivors;
    }

    /** A sleep nothing cuts short. */
    method Sleep(duration: real)
      requires Valid() && duration >= 0.0
      modifies this`mono, this`wall, this`stop, this`wakePermit, this`resumes, this`running, this`diary
      ensures Valid() && mono >= old(mono) + duration && running <= old(running) && (old(stop) ==> stop)
      ensures diary == old(diary) + [Slept(old(mono), mono, duration)]
    {
      Pass(duration);
      diary := diary + [Slept(old(mono), mono, duration)];
    }

    /** A sleep that stop, and a wake permit if `wakeable`, may cut short. */
    method Doze(duration: real, wakeable: bool) returns (slept: bool)
      requires Valid() && duration >= 0.0
      modifies this`mono, this`wall, this`stop, this`wakePermit, this`resumes, this`running, this`diary
      ensures Valid() && mono >= old(mono) && running <= old(running)
      ensures (old(stop) ==> stop) && resumes >= old(resumes)
      ensures wakePermit <==> old(wakePermit) || resumes > old(resumes)
      ensures slept ==> mono >= old(mono) + duration && diary == old(diary) + [Slept(old(mono), mono, duration)]
      ensures !slept ==> diary == old(diary) && (stop || (wakeable && wakePermit))
    {
      Pass(0.0);
      var timer: bool := *;
      slept := timer || !(stop || (wakeable && wakePermit));
      if slept {
        Pass(duration);
        diary := diary + [Slept(old(mono), mono, duration)];
      }
    }

    /** The endpoint is asked about a cookie. */
    method Ask(cookie: Text) returns (a: HttpAnswer)
      requires Valid()
      modifies this`mono, this`wall, this`stop, this`wakePermit, this`resumes, this`running, this`diary
      ensures Valid() && mono >= old(mono) && running <= old(running) && (old(stop) ==> stop)
      ensures diary == old(diary) + [Asked(old(mono), mono, cookie, a)]
    {
      Pass(0.0);
      a := *;
      diary := diary + [Asked(old(mono), mono, cookie, a)];
    }

    /** The session cookie in the browser's jar, if there is one. */
    method ReadJar() returns (found: Option<Text>)
      modifies this`diary
      ensures diary == old(diary) + [JarRead(found)]
    {
      found := *;
      diary := diary + [JarRead(found)];
    }

    /** The phase the page shows, and what clicking its picker would do. */
    method LookAtPage() returns (screen: Mfa.Screen)
      modifies this`diary
      ensures diary == old(diary) + [PageRead(screen)] && !screen.Jar?
    {
      screen := *;
      if screen.Jar? { screen := Mfa.Blank; }
      diary := diary + [PageRead(screen)];
    }

    /** A browser is launched for a configured url, or does not come up; `again` if one has been before. */
    method OpenBrowser(ghost again: bool) returns (ok: bool)
      modifies this`trace
      ensures trace == old(trace) + (if !ok then [LaunchFailed] else if again then [] else [FetchBegins])
    {
      ok := *;
      trace := trace + (if !ok then [LaunchFailed] else if again then [] else [FetchBegins]);
    }

    /** The user, or another command, may write or delete the cookie file. */
    method TouchCookieFile()
      modifies this`cookieFile
    {
      cookieFile := *;
    }

    /** The captured cookie is written to the file, or what is in the file is anybody's guess. */
    method SaveCookie(cookie: Text) returns (ok: bool)
      modifies this`cookieFile, this`trace
      ensures ok ==> cookieFile == Some(cookie)
      ensures trace == old(trace) + if ok then [] else [SaveFailed]
    {
      ok := *;
      if ok {
        cookieFile := Some(cookie);
      } else {
        TouchCookieFile();
        trace := trace + [SaveFailed];
      }
    }

    /** The tools are looked for and a child is spawned. */
    method TrySpawn() returns (error: Option<SpawnError>)
      requires Valid()
      modifies this`running, this`nextPid, this`diary
      ensures Valid() && diary == old(diary) + [SpawnTried(error)]
      ensures if error == None then nextPid == old(nextPid) + 1 && running == old(running) + {old(nextPid)}
              else error.value in {ToolMissing, SpawnRefused} && nextPid == old(nextPid) && running == old(running)
    {
      var toolsFound: bool, spawned: bool := *, *;
      error := if !toolsFound then Some(ToolMissing) else if !spawned then Some(SpawnRefused) else None;
      if error == None { running, nextPid := running + {nextPid}, nextPid + 1; }
      diary := diary + [SpawnTried(error)];
    }

    /** A child that has been told to stop is waited for, up to `patience`. */
    method AwaitExit(pid: nat, patience: real) returns (r: Awaited)
      requires Valid() && patience >= 0.0
      modifies this`mono, this`wall, this`stop, this`wakePermit, this`resumes, this`running, this`diary, this`waitFailed
      ensures Valid() && mono >= old(mono) && running <= old(running) && (old(stop) ==> stop)
      ensures waitFailed <==> old(waitFailed) || r == WaitFailed
      ensures r == ChildExited ==> pid !in running
      ensures diary == old(diary) + if r == StillRunning then [Slept(old(mono), mono, patience)] else []
    {
      Pass(0.0);
      var exits: bool, error: bool := *, *;
      if error {
        waitFailed := true;
        r := WaitFailed;
      } else if exits {
        running := running - {pid};
        r := ChildExited;
      } else {
        Pass(patience);
        diary := diary + [Slept(old(mono), mono, patience)];
        r := StillRunning;
      }
    }

    /** SIGKILL, and its exit is collected unless that fails. */
    method Kill(pid: nat) returns (collected: bool)
      requires Valid()
      modifies this`running, this`diary, this`waitFailed
      ensures Valid() && diary == old(diary) + [Killed(pid)] && (waitFailed <==> old(waitFailed) || !collected)
      ensures running == if collected then old(running) - {pid} else old(running)
    {
      collected := *;
      if collected { running := running - {pid}; } else { waitFailed := true; }
      diary := diary + [Killed(pid)];
    }

    ghost method Emit(e: Event)
      modifies this`trace
      ensures trace == old(trace) + [e]
    {
      trace := trace + [e];
    }
  }

  datatype WaitResult = Stop | Wake | Timeout

  /** `wait_for_stop_or_wake`: whichever is ready. A stop or a permit that is there already ends the
      wait at once, so nothing stored is ever slept through; a wake uses the stored permit up, and
      nothing else does. The timer runs for `timeout`, and for no other time. */
  method WaitForStopOrWake(w: World, timeout: real) returns (r: WaitResult)
    requires w.Valid() && timeout >= 0.0
    modifies w
    ensures w.Valid() && w.running <= old(w.running) && (old(w.stop) ==> w.stop)
    ensures w.trace == old(w.trace) && w.nextPid == old(w.nextPid) && w.waitFailed == old(w.waitFailed)
    ensures w.mono >= old(w.mono)
    ensures if r == Timeout then w.mono >= old(w.mono) + timeout && w.diary == old(w.diary) + [Slept(old(w.mono), w.mono, timeout)]
            else w.diary == old(w.diary)
    ensures r == Stop ==> w.stop
    ensures old(w.stop) ==> r == Stop || (r == Wake && old(w.wakePermit))
    ensures r == Wake ==> (old(w.wakePermit) || w.resumes > old(w.resumes)) && !w.wakePermit
    ensures old(w.wakePermit) ==> r == Wake || (r == Stop && old(w.stop))
    ensures r != Wake ==> (w.wakePermit <==> old(w.wakePermit) || w.resumes > old(w.resumes))
  {
    w.TouchCookieFile();
    var stopFirst: bool := *;
    if w.stop && (stopFirst || !w.wakePermit) { return Stop; }
    if w.wakePermit {
      w.wakePermit := false;
      return Wake;
    }
    var slept := w.Doze(timeout, true);
    if slept { return Timeout; }
    var pick: bool := *;
    if w.stop && (pick || !w.wakePermit) { return Stop; }
    w.wakePermit := false;
    r := Wake;
  }
}
