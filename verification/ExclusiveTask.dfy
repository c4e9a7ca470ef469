/** Exclusive tasks: a body that runs only while a named Redis lock could be taken, the lock expiring by itself
    after `timeout`, and the release that is attempted only when the body finished in time.

    Workers, probes (`is_acquired`), crashes and the passing of time are interleaved freely. Redis is assumed
    to give an expiring lock to one taker at a time and to release it only for the token that holds it. */
module ExclusiveTask {
  import opened Wrappers

  /** A lock as Redis keeps it: the token of its holder and the time at which it vanishes. */
  datatype Lock = Lock(token: nat, expiry: Option<int>)

  /** `acquired` is the time the lock was given, `started` the time the wrapper read afterwards and `stopped` the time it
      read behind the body. `ReleaseRaised` is the end of a call whose body is done but whose release found the lock
      gone or in other hands. */
  datatype Phase =
    | Running(token: nat, acquired: int, started: Option<int>, stopped: Option<int>)
    | Over
    | ReleaseRaised

  /** A wrapper call, or a probe that takes the lock only to see whether it is free. A timeout of 0 stands for
      none: both are false for the source and give a lock that does not expire. */
  datatype Worker = Worker(name: string, timeout: nat, probe: bool, phase: Phase)

  datatype State = State(now: int, locks: map<string, Lock>, nextToken: nat, workers: map<nat, Worker>)

  datatype Step =
    | Tick(seconds: nat)
    | Enter(id: nat, name: string, timeout: nat, blocking: bool)
    | Probe(id: nat, name: string)
    | StartClock(id: nat)
    | StopClock(id: nat)
    | Finish(id: nat)
    | Crash(id: nat)
    | CleanLocks

  predicate Held(s: State, name: string) {
    name in s.locks && (s.locks[name].expiry.Some? ==> s.now < s.locks[name].expiry.value)
  }

  function Expiry(acquired: int, timeout: nat): Option<int> {
    if timeout == 0 then None else Some(acquired + timeout)
  }

  function Take(s: State, id: nat, name: string, timeout: nat, probe: bool): State {
    State(s.now, s.locks[name := Lock(s.nextToken, Expiry(s.now, timeout))], s.nextToken + 1,
          s.workers[id := Worker(name, timeout, probe, Running(s.nextToken, s.now, None, None))])
  }

  predicate Owns(s: State, name: string, token: nat) {
    Held(s, name) && s.locks[name].token == token
  }

  /** The token-checked release. */
  function Release(s: State, name: string, token: nat): map<string, Lock> {
    if Owns(s, name, token) then s.locks - {name} else s.locks
  }

  function End(s: State, id: nat, phase: Phase): map<nat, Worker>
    requires id in s.workers
  {
    s.workers[id := s.workers[id].(phase := phase)]
  }

  /** The `finally` block can decide: the wrapper has read both times; a probe reads none. */
  predicate Done(w: Worker) {
    w.phase.Running? && (w.probe || (w.phase.started.Some? && w.phase.stopped.Some?))
  }

  /** The wrapper releases when it knows of no timeout or counts less time than the timeout; a probe always does. */
  predicate Releases(w: Worker)
    requires Done(w)
  {
    w.probe || w.timeout == 0 || w.phase.stopped.value - w.phase.started.value < w.timeout
  }

  /** One step; a step that is not enabled changes nothing. */
  function Next(s: State, step: Step): State {
    match step
    case Tick(seconds) => s.(now := s.now + seconds)
    case Enter(id, name, timeout, blocking) =>
      if id in s.workers then s
      else if !Held(s, name) then Take(s, id, name, timeout, false)
      else if blocking then s
      else s.(workers := s.workers[id := Worker(name, timeout, false, Over)])
    case Probe(id, name) =>
      if id in s.workers then s
      else if !Held(s, name) then Take(s, id, name, 1, true)
      else s.(workers := s.workers[id := Worker(name, 1, true, Over)])
    case StartClock(id) =>
      if id in s.workers && s.workers[id].phase.Running? && s.workers[id].phase.started.None?
      then s.(workers := s.workers[id := s.workers[id].(phase := s.workers[id].phase.(started := Some(s.now)))])
      else s
    case StopClock(id) =>
      if id in s.workers && s.workers[id].phase.Running? && s.workers[id].phase.started.Some?
         && s.workers[id].phase.stopped.None?
      then s.(workers := s.workers[id := s.workers[id].(phase := s.workers[id].phase.(stopped := Some(s.now)))])
      else s
    case Finish(id) =>
      if id in s.workers && Done(s.workers[id]) then
        var w := s.workers[id];
        if !Releases(w) then s.(workers := End(s, id, Over))
        else
          var raises := !w.probe && !Owns(s, w.name, w.phase.token);
          s.(workers := End(s, id, if raises then ReleaseRaised else Over), locks := Release(s, w.name, w.phase.token))
      else s
    case Crash(id) =>
      if id in s.workers && s.workers[id].phase.Running? then s.(workers := End(s, id, Over)) else s
    case CleanLocks => s.(locks := map[])
  }

  function Run(s: State, steps: seq<Step>): State {
    if steps == [] then s else Next(Run(s, steps[..|steps| - 1]), steps[|steps| - 1])
  }

  function Initial(now: int): State {
    State(now, map[], 0, map[])
  }

  // ---------------------------------------------------------------- exclusion

  predicate Busy(s: State, id: nat) {
    id in s.workers && s.workers[id].phase.Running?
  }

  /** The body runs and its lock's time is not over. */
  predicate InTime(s: State, id: nat) {
    Busy(s, id) && (s.workers[id].timeout == 0 || s.now < s.workers[id].phase.acquired + s.workers[id].timeout)
  }

  ghost predicate WorkerOk(s: State, id: nat)
    requires Busy(s, id)
  {
    var w := s.workers[id];
    && w.phase.token < s.nextToken
    && (w.name in s.locks ==> w.phase.token <= s.locks[w.name].token)
    && (w.name in s.locks && s.locks[w.name].token == w.phase.token ==>
          s.locks[w.name].expiry == Expiry(w.phase.acquired, w.timeout))
    && (InTime(s, id) ==>
          w.name in s.locks && s.locks[w.name] == Lock(w.phase.token, Expiry(w.phase.acquired, w.timeout)))
  }

  ghost predicate Inv(s: State) {
    && (forall id :: Busy(s, id) ==> WorkerOk(s, id))
    && (forall name :: name in s.locks ==> s.locks[name].token < s.nextToken)
    && forall a, b :: Busy(s, a) && Busy(s, b) && s.workers[a].phase.token == s.workers[b].phase.token ==> a == b
  }

  lemma NextKeepsWorker(s: State, step: Step, id: nat)
    requires Inv(s) && step != CleanLocks && Busy(Next(s, step), id)
    ensures WorkerOk(Next(s, step), id)
  {
    if Busy(s, id) {
      assert WorkerOk(s, id);
    }
    if step.Finish? && Busy(s, step.id) {
      assert WorkerOk(s, step.id);
    }
  }

  /** A token is given to one worker only. */
  lemma NextKeepsTokens(s: State, step: Step, a: nat, b: nat)
    requires Inv(s) && Busy(Next(s, step), a) && Busy(Next(s, step), b)
    requires Next(s, step).workers[a].phase.token == Next(s, step).workers[b].phase.token
    ensures a == b
  {
    if Busy(s, a) {
      assert WorkerOk(s, a);
    }
    if Busy(s, b) {
      assert WorkerOk(s, b);
    }
  }

  lemma NextKeepsInv(s: State, step: Step)
    requires Inv(s) && step != CleanLocks
    ensures Inv(Next(s, step))
  {
    var t := Next(s, step);
    forall id | Busy(t, id) ensures WorkerOk(t, id) {
      NextKeepsWorker(s, step, id);
    }
    forall a, b | Busy(t, a) && Busy(t, b) && t.workers[a].phase.token == t.workers[b].phase.token ensures a == b {
      NextKeepsTokens(s, step, a, b);
    }
  }

  lemma {:induction false} RunKeepsInv(now: int, steps: seq<Step>)
    requires CleanLocks !in steps
    ensures Inv(Run(Initial(now), steps))
  {
    if steps != [] {
      var init, last := steps[..|steps| - 1], steps[|steps| - 1];
      assert last in steps;
      RunKeepsInv(now, init);
      NextKeepsInv(Run(Initial(now), init), last);
    }
  }

  /** For any name, any interleaving of workers, probes and crashes and any passing of time: at most one body is
      running within its timeout, and when two bodies of one name overlap, it is the earlier one that has
      overrun. */
  lemma {:induction false} AtMostOneInTime(now: int, steps: seq<Step>, a: nat, b: nat)
    requires CleanLocks !in steps
    ensures var s := Run(Initial(now), steps);
            && (InTime(s, a) && InTime(s, b) && s.workers[a].name == s.workers[b].name ==> a == b)
            && ((Busy(s, a) && Busy(s, b) && s.workers[a].name == s.workers[b].name
                 && s.workers[a].phase.token < s.workers[b].phase.token) ==> !InTime(s, a))
  {
    RunKeepsInv(now, steps);
    var s := Run(Initial(now), steps);
    if Busy(s, a) && Busy(s, b) {
      assert WorkerOk(s, a) && WorkerOk(s, b);
    }
  }

  /** In every run, a finisher, however late, leaves a lock that is now held by another worker where it is. */
  lemma {:induction false} FinishFreesOnlyItsOwn(now: int, steps: seq<Step>, a: nat, b: nat)
    requires CleanLocks !in steps && a != b
    ensures var s := Run(Initial(now), steps);
            InTime(s, b) ==>
              var t := Next(s, Finish(a));
              InTime(t, b) && Owns(t, s.workers[b].name, s.workers[b].phase.token)
  {
    RunKeepsInv(now, steps);
    var s := Run(Initial(now), steps);
    NextKeepsInv(s, Finish(a));
    if InTime(s, b) {
      assert WorkerOk(s, b);
      assert WorkerOk(Next(s, Finish(a)), b);
    }
  }

  /** A worker owns its lock in Redis exactly while it is within its timeout. */
  lemma {:induction false} OwnsExactlyInTime(now: int, steps: seq<Step>, id: nat)
    requires CleanLocks !in steps
    ensures var s := Run(Initial(now), steps);
            Busy(s, id) ==> (Owns(s, s.workers[id].name, s.workers[id].phase.token) <==> InTime(s, id))
  {
    RunKeepsInv(now, steps);
    var s := Run(Initial(now), steps);
    if Busy(s, id) {
      assert WorkerOk(s, id);
    }
  }

  /** The wrapper has read both times, and they are less than the timeout apart (or there is none). */
  predicate ReadsLessThanTimeout(w: Worker) {
    && w.phase.Running? && w.phase.started.Some? && w.phase.stopped.Some?
    && (w.timeout == 0 || w.phase.stopped.value - w.phase.started.value < w.timeout)
  }

  /** What a caller meets: a free lock becomes its own for the timeout, or for good without one; a held lock makes it
      return at once, or wait when it is blocking, and stays as it is. */
  lemma EnterExactly(s: State, id: nat, name: string, timeout: nat, blocking: bool, later: nat)
    ensures id in s.workers ==> Next(s, Enter(id, name, timeout, blocking)) == s
    ensures var t := Next(s, Enter(id, name, timeout, blocking));
            id !in s.workers ==>
            && (!Held(s, name) ==>
                  Busy(t, id) && (Owns(Next(t, Tick(later)), name, t.workers[id].phase.token) <==> timeout == 0 || later < timeout))
            && (Held(s, name) ==> t.locks == s.locks)
            && (Held(s, name) && blocking ==> t == s)
            && (Held(s, name) && !blocking ==> id in t.workers && t.workers[id].phase == Over)
  {
  }

  /** A probe takes a free lock for a second at most, and leaves locks as it found them. */
  lemma ProbeLeavesNoTrace(s: State, id: nat, name: string, other: string)
    ensures id in s.workers ==> Next(s, Probe(id, name)) == s
    ensures var t := Next(s, Probe(id, name));
            id !in s.workers ==>
            && id in t.workers && (Busy(t, id) <==> !Held(s, name))
            && (Held(Next(t, Tick(1)), name) ==> Held(Next(s, Tick(1)), name))
            && (Busy(t, id) ==> Held(t, name))
            && (Held(Next(t, Finish(id)), other) <==> Held(s, other))
  {
  }

  /** The life of a call that gets the lock and that nobody interferes with: whatever time the body and the way to the
      release take, the call is over then and the lock is free. */
  lemma Lifecycle(s: State, id: nat, name: string, timeout: nat, body: nat, delay: nat)
    requires id !in s.workers && !Held(s, name)
    ensures var entered := Next(s, Enter(id, name, timeout, false));
            var stopped := Next(Next(Next(entered, StartClock(id)), Tick(body)), StopClock(id));
            var late := Next(stopped, Tick(delay));
            var t := Next(late, Finish(id));
            && id in t.workers
            && (t.workers[id].phase == ReleaseRaised <==> timeout > 0 && body < timeout <= body + delay)
            && (t.workers[id].phase != ReleaseRaised ==> t.workers[id].phase == Over)
            && !Held(t, name)
  {
  }

  /** A worker that dies keeps its lock until it expires. */
  lemma DeathKeepsTheLock(s: State, id: nat)
    requires Busy(s, id)
    ensures var t := Next(s, Crash(id)); id in t.workers && t.workers[id].phase == Over && t.locks == s.locks && t.now == s.now
  {
  }

  /** A body whose release comes in time frees the lock, so the next caller gets it. */
  lemma {:induction false} PunctualFinishFrees(now: int, steps: seq<Step>, id: nat)
    requires CleanLocks !in steps
    ensures var s := Run(Initial(now), steps);
            InTime(s, id) && ReadsLessThanTimeout(s.workers[id]) ==> !Held(Next(s, Finish(id)), s.workers[id].name)
  {
    OwnsExactlyInTime(now, steps, id);
  }

  /** The release of a finished body raises exactly when the wrapper counts less time than the timeout, but at the moment
      of the release the lock has expired by Redis's clock, which starts at the acquisition. */
  lemma {:induction false} ReleaseRaisesExactly(now: int, steps: seq<Step>, id: nat)
    requires CleanLocks !in steps
    ensures var s := Run(Initial(now), steps);
            Busy(s, id) && !s.workers[id].probe && s.workers[id].phase.started.Some? && s.workers[id].phase.stopped.Some? ==>
              var w := s.workers[id];
              (Next(s, Finish(id)).workers[id].phase == ReleaseRaised <==>
               && w.timeout > 0 && w.phase.acquired + w.timeout <= s.now
               && w.phase.stopped.value - w.phase.started.value < w.timeout)
  {
    OwnsExactlyInTime(now, steps, id);
  }

  // ---------------------------------------------------------------- what the assumptions are for

  lemma RunOfThree(s: State, a: Step, b: Step, c: Step)
    ensures Run(s, [a, b, c]) == Next(Next(Next(s, a), b), c)
  {
    assert [a, b, c][..2] == [a, b] && [a, b][..1] == [a] && [a][..0] == [];
    assert Run(s, [a]) == Next(Run(s, [a][..0]), a);
    assert Run(s, [a, b]) == Next(Run(s, [a, b][..1]), b);
    assert Run(s, [a, b, c]) == Next(Run(s, [a, b, c][..2]), c);
  }

  /** Bodies of one name do overlap once the first overruns its timeout. */
  lemma OverrunOverlaps(timeout: nat)
    requires timeout > 0
    ensures var s := Run(Initial(0), [Enter(1, "t", timeout, false), Tick(timeout), Enter(2, "t", timeout, false)]);
            Busy(s, 1) && Busy(s, 2)
  {
    RunOfThree(Initial(0), Enter(1, "t", timeout, false), Tick(timeout), Enter(2, "t", timeout, false));
  }

  /** `clean_locks` during a run breaks exclusion at once. */
  lemma CleanLocksBreaksExclusion(timeout: nat)
    ensures var s := Run(Initial(0), [Enter(1, "t", timeout, false), CleanLocks, Enter(2, "t", timeout, false)]);
            InTime(s, 1) && InTime(s, 2)
  {
    RunOfThree(Initial(0), Enter(1, "t", timeout, false), CleanLocks, Enter(2, "t", timeout, false));
  }

  // ---------------------------------------------------------------- the workers, as the code runs them

  /** Redis and the workers that use it. */
  class Workers {
    var now: int
    var locks: map<string, Lock>
    var nextToken: nat
    var workers: map<nat, Worker>

    ghost function View(): State
      reads this
    {
      State(now, locks, nextToken, workers)
    }

    constructor (now: int)
      ensures View() == Initial(now)
    {
      this.now, locks, nextToken, workers := now, map[], 0, map[];
    }

    method IsHeld(name: string) returns (held: bool)
      ensures held <==> Held(View(), name)
    {
      held := false;
      if name in locks {
        held := locks[name].expiry.None? || now < locks[name].expiry.value;
      }
    }

    /** `lock.acquire`: a held lock is refused; a blocking caller stays where it is. */
    method Acquire(id: nat, name: string, timeout: nat, blocking: bool, probe: bool)
      requires id !in workers
      modifies this
      ensures View() == if !Held(old(View()), name) then Take(old(View()), id, name, timeout, probe)
                        else if blocking then old(View())
                        else old(View()).(workers := old(workers)[id := Worker(name, timeout, probe, Over)])
    {
      var held := IsHeld(name);
      if !held {
        var expiry := if timeout == 0 then None else Some(now + timeout);
        locks := locks[name := Lock(nextToken, expiry)];
        workers := workers[id := Worker(name, timeout, probe, Running(nextToken, now, None, None))];
        nextToken := nextToken + 1;
      } else if !blocking {
        workers := workers[id := Worker(name, timeout, probe, Over)];
      }
    }

    /** The `finally` block of the wrapper. */
    method Finish(id: nat)
      requires id in workers && Done(workers[id])
      modifies this
      ensures View() == Next(old(View()), Step.Finish(id))
    {
      var w := workers[id];
      var end := Over;
      if w.probe || w.timeout == 0 || w.phase.stopped.value - w.phase.started.value < w.timeout {
        var held := IsHeld(w.name);
        if held && locks[w.name].token == w.phase.token {
          locks := locks - {w.name};
        } else if !w.probe {
          end := ReleaseRaised;
        }
      }
      workers := workers[id := w.(phase := end)];
    }

    /** Any schedule of workers, probes, crashes and time. */
    method Execute(steps: seq<Step>)
      modifies this
      ensures View() == Run(old(View()), steps)
    {
      for i := 0 to |steps|
        invariant View() == Run(old(View()), steps[..i])
      {
        assert steps[..i + 1][..i] == steps[..i];
        Perform(steps[i]);
      }
      assert steps[..|steps|] == steps;
    }

    method Perform(step: Step)
      modifies this
      ensures View() == Next(old(View()), step)
    {
      match step
      case Tick(seconds) =>
        now := now + seconds;
      case Enter(id, name, timeout, blocking) =>
        if id !in workers {
          Acquire(id, name, timeout, blocking, false);
        }
      case Probe(id, name) =>
        if id !in workers {
          Acquire(id, name, 1, false, true);
        }
      case StartClock(id) =>
        if id in workers && workers[id].phase.Running? && workers[id].phase.started.None? {
          workers := workers[id := workers[id].(phase := workers[id].phase.(started := Some(now)))];
        }
      case StopClock(id) =>
        if id in workers && workers[id].phase.Running? && workers[id].phase.started.Some? {
          if workers[id].phase.stopped.None? {
            workers := workers[id := workers[id].(phase := workers[id].phase.(stopped := Some(now)))];
          }
        }
      case Finish(id) =>
        if id in workers && Done(workers[id]) {
          Finish(id);
        }
      case Crash(id) =>
        if id in workers && workers[id].phase.Running? {
          workers := workers[id := workers[id].(phase := Over)];
        }
      case CleanLocks =>
        locks := map[];
    }
  }
}
