/** The free public IP counter of a node: `increment_free_public_ip_count` reads the node object, adds its
    delta and writes the object back under optimistic concurrency control, retrying a bounded number of times
    while it holds a named lock.

    Many calls run interleaved with foreign writers (a scheduler, say) that do not know the lock. The API
    server refuses a write whose resource version is stale and applies any other. */
module NodeCounter {
  import opened Wrappers

  /** The node object: its resource version and the counter annotation, which may be missing. */
  datatype Server = Server(version: nat, count: Option<int>)

  function Value(count: Option<int>): int {
    if count.Some? then count.value else 0
  }

  datatype Phase =
    | Waiting
    | Trying(left: nat)
    | Fetched(left: nat, seen: nat, newCount: int, foreignThen: nat)
    | Returned
    | RaisedNegative
    | RaisedMissing
    | RaisedFetch
    | RaisedUpdateFailure

  /** One call; `since` is the number of foreign writes that preceded it. */
  datatype Call = Call(delta: int, maxRetries: nat, since: nat, phase: Phase)

  /** `foreign` counts the foreign writes and `foreignSum` adds up what they did to the counter; `written` lists
      the counts written by calls. */
  datatype State = State(server: Server, holder: Option<nat>, calls: map<nat, Call>,
                         foreign: nat, foreignSum: int, written: seq<int>)

  datatype Step =
    | Begin(id: nat, delta: int, maxRetries: nat)
    | Acquire(id: nat)
    | Fetch(id: nat)
    | FetchFails(id: nat)
    | Put(id: nat)
    | Foreign(count: Option<int>)

  predicate Active(p: Phase) {
    p.Trying? || p.Fetched?
  }

  function SetPhase(s: State, id: nat, p: Phase): State
    requires id in s.calls
  {
    s.(calls := s.calls[id := s.calls[id].(phase := p)])
  }

  /** A call ends: the lock is released in `finally`. */
  function End(s: State, id: nat, p: Phase): State
    requires id in s.calls
  {
    SetPhase(s, id, p).(holder := None)
  }

  /** The top of the retry loop with `left` rounds to go. */
  function Round(s: State, id: nat, left: nat): State
    requires id in s.calls
  {
    if left == 0 then End(s, id, RaisedUpdateFailure) else SetPhase(s, id, Trying(left))
  }

  /** One step; a step that is not enabled changes nothing. */
  function Next(s: State, step: Step): State {
    match step
    case Begin(id, delta, maxRetries) =>
      if id in s.calls then s else s.(calls := s.calls[id := Call(delta, maxRetries, s.foreign, Waiting)])
    case Acquire(id) =>
      if id in s.calls && s.calls[id].phase.Waiting? && s.holder.None?
      then Round(s.(holder := Some(id)), id, s.calls[id].maxRetries)
      else s
    case Fetch(id) =>
      if id in s.calls && s.calls[id].phase.Trying? then
        if s.server.count.None? then End(s, id, RaisedMissing)
        else
          var newCount := s.server.count.value + s.calls[id].delta;
          if newCount < 0 then End(s, id, RaisedNegative)
          else SetPhase(s, id, Fetched(s.calls[id].phase.left, s.server.version, newCount, s.foreign))
      else s
    case FetchFails(id) =>
      if id in s.calls && s.calls[id].phase.Trying? then End(s, id, RaisedFetch) else s
    case Put(id) =>
      if id in s.calls && s.calls[id].phase.Fetched? then
        var p := s.calls[id].phase;
        if p.seen == s.server.version then
          End(s, id, Returned).(server := Server(s.server.version + 1, Some(p.newCount)),
                                written := s.written + [p.newCount])
        else Round(s, id, if p.left == 0 then 0 else p.left - 1)
      else s
    case Foreign(count) =>
      s.(server := Server(s.server.version + 1, count), foreign := s.foreign + 1,
         foreignSum := s.foreignSum + Value(count) - Value(s.server.count))
  }

  function Run(s: State, steps: seq<Step>): State {
    if steps == [] then s else Next(Run(s, steps[..|steps| - 1]), steps[|steps| - 1])
  }

  function Initial(server: Server): State {
    State(server, None, map[], 0, 0, [])
  }

  // ---------------------------------------------------------------- the sum over returned calls

  function Contribution(c: Call): int {
    if c.phase.Returned? then c.delta else 0
  }

  ghost function ReturnedSum(calls: map<nat, Call>, ids: set<nat>): int
    requires ids <= calls.Keys
  {
    if ids == {} then 0
    else
      var id :| id in ids;
      Contribution(calls[id]) + ReturnedSum(calls, ids - {id})
  }

  lemma {:induction false} ReturnedSumTakes(calls: map<nat, Call>, ids: set<nat>, id: nat)
    requires id in ids && ids <= calls.Keys
    ensures ReturnedSum(calls, ids) == Contribution(calls[id]) + ReturnedSum(calls, ids - {id})
    decreases |ids|
  {
    var j :| j in ids && ReturnedSum(calls, ids) == Contribution(calls[j]) + ReturnedSum(calls, ids - {j});
    if j != id {
      ReturnedSumTakes(calls, ids - {j}, id);
      ReturnedSumTakes(calls, ids - {id}, j);
      assert ids - {j} - {id} == ids - {id} - {j};
    }
  }

  lemma {:induction false} ReturnedSumAgrees(a: map<nat, Call>, b: map<nat, Call>, ids: set<nat>)
    requires ids <= a.Keys && ids <= b.Keys && forall i :: i in ids ==> a[i] == b[i]
    ensures ReturnedSum(a, ids) == ReturnedSum(b, ids)
    decreases |ids|
  {
    if ids != {} {
      var id :| id in ids;
      ReturnedSumTakes(a, ids, id);
      ReturnedSumTakes(b, ids, id);
      ReturnedSumAgrees(a, b, ids - {id});
    }
  }

  ghost function Total(s: State): int {
    ReturnedSum(s.calls, s.calls.Keys)
  }

  /** Changing or adding one call changes the total by what that call contributes. */
  lemma TotalUpdate(s: State, id: nat, c: Call)
    ensures ReturnedSum(s.calls[id := c], s.calls[id := c].Keys) ==
            Total(s) + Contribution(c) - if id in s.calls then Contribution(s.calls[id]) else 0
  {
    var t := s.calls[id := c];
    ReturnedSumTakes(t, t.Keys, id);
    ReturnedSumAgrees(t, s.calls, s.calls.Keys - {id});
    assert t.Keys - {id} == s.calls.Keys - {id};
    if id in s.calls {
      ReturnedSumTakes(s.calls, s.calls.Keys, id);
    } else {
      assert s.calls.Keys - {id} == s.calls.Keys;
    }
  }

  // ---------------------------------------------------------------- the invariant

  /** What a call that has fetched may rely on: its version is at most the server's; if it is the server's, the
      new count is the current one plus the delta; the versions it missed are foreign writes. */
  ghost predicate FetchedOk(s: State, c: Call) {
    c.phase.Fetched? ==>
      && c.phase.newCount >= 0 && 0 < c.phase.left <= c.maxRetries
      && c.phase.seen <= s.server.version
      && (c.phase.seen == s.server.version ==>
            s.server.count.Some? && c.phase.newCount == s.server.count.value + c.delta)
      && s.server.version - c.phase.seen == s.foreign - c.phase.foreignThen
      && c.phase.foreignThen - c.since >= c.maxRetries - c.phase.left
  }

  ghost predicate CallOk(s: State, id: nat)
    requires id in s.calls
  {
    var c := s.calls[id];
    && c.since <= s.foreign
    && (Active(c.phase) <==> s.holder == Some(id))
    && (c.phase.Trying? ==> 0 < c.phase.left <= c.maxRetries && s.foreign - c.since >= c.maxRetries - c.phase.left)
    && FetchedOk(s, c)
    && (c.phase.RaisedUpdateFailure? ==> s.foreign - c.since >= c.maxRetries)
  }

  ghost predicate Inv(s: State, start: int) {
    && (forall id :: id in s.calls ==> CallOk(s, id))
    && (s.holder.Some? ==> s.holder.value in s.calls)
    && (forall i :: 0 <= i < |s.written| ==> s.written[i] >= 0)
    && Value(s.server.count) == start + Total(s) + s.foreignSum
  }

  /** A foreign write keeps every call. */
  lemma ForeignKeepsCall(s: State, count: Option<int>, id: nat)
    requires id in s.calls && CallOk(s, id)
    ensures CallOk(Next(s, Foreign(count)), id)
  {
  }

  /** A step of one call keeps the others: while it is active they are not, for lack of the lock. */
  lemma OtherKeepsCall(s: State, step: Step, start: int, id: nat)
    requires Inv(s, start) && !step.Foreign? && step.id != id && id in s.calls
    ensures CallOk(Next(s, step), id)
  {
    assert CallOk(s, id);
    if step.id in s.calls {
      assert CallOk(s, step.id);
    }
  }

  lemma StartKeepsCall(s: State, step: Step, start: int)
    requires Inv(s, start) && (step.Begin? || step.Acquire?) && step.id in Next(s, step).calls
    ensures CallOk(Next(s, step), step.id)
  {
    if step.id in s.calls {
      assert CallOk(s, step.id);
    }
    if s.holder.Some? {
      assert CallOk(s, s.holder.value);
    }
  }

  lemma FetchKeepsCall(s: State, step: Step, start: int)
    requires Inv(s, start) && (step.Fetch? || step.FetchFails?) && step.id in s.calls
    ensures CallOk(Next(s, step), step.id)
  {
    assert CallOk(s, step.id);
  }

  lemma PutKeepsCall(s: State, id: nat, start: int)
    requires Inv(s, start) && id in s.calls
    ensures CallOk(Next(s, Put(id)), id)
  {
    assert CallOk(s, id);
  }

  lemma NextKeepsCalls(s: State, step: Step, start: int, id: nat)
    requires Inv(s, start) && id in Next(s, step).calls
    ensures CallOk(Next(s, step), id)
  {
    if step.Foreign? {
      ForeignKeepsCall(s, step.count, id);
    } else if step.id != id {
      OtherKeepsCall(s, step, start, id);
    } else if step.Begin? || step.Acquire? {
      StartKeepsCall(s, step, start);
    } else if step.Put? {
      PutKeepsCall(s, id, start);
    } else {
      FetchKeepsCall(s, step, start);
    }
  }

  lemma NextKeepsTotal(s: State, step: Step, start: int)
    requires Inv(s, start)
    ensures var t := Next(s, step); Value(t.server.count) == start + Total(t) + t.foreignSum
  {
    var t := Next(s, step);
    if step.Foreign? {
      assert Total(t) == Total(s);
    } else {
      var id := step.id;
      if id in t.calls {
        TotalUpdate(s, id, t.calls[id]);
        if id in s.calls {
          assert CallOk(s, id);
        }
        assert t.calls == s.calls[id := t.calls[id]];
      }
    }
  }

  lemma NextKeepsInv(s: State, step: Step, start: int)
    requires Inv(s, start)
    ensures Inv(Next(s, step), start)
  {
    var t := Next(s, step);
    forall id | id in t.calls ensures CallOk(t, id) {
      NextKeepsCalls(s, step, start, id);
    }
    NextKeepsTotal(s, step, start);
    if !step.Foreign? && step.id in s.calls {
      assert CallOk(s, step.id);
    }
  }

  /** For every interleaving of calls and foreign writers: the counter is its start plus the deltas of exactly
      the calls that returned plus what the foreign writers did; no call ever wrote a negative count; and a
      call that gave up saw at least `maxRetries` foreign writes while it ran. */
  lemma {:induction false} CounterIsConserved(server: Server, steps: seq<Step>)
    ensures var s := Run(Initial(server), steps);
            && Value(s.server.count) == Value(server.count) + Total(s) + s.foreignSum
            && (forall i :: 0 <= i < |s.written| ==> s.written[i] >= 0)
            && (forall id :: id in s.calls && s.calls[id].phase.RaisedUpdateFailure? ==>
                               s.foreign - s.calls[id].since >= s.calls[id].maxRetries)
  {
    RunKeepsInv(server, steps);
    var s := Run(Initial(server), steps);
    forall id | id in s.calls && s.calls[id].phase.RaisedUpdateFailure?
      ensures s.foreign - s.calls[id].since >= s.calls[id].maxRetries
    {
      assert CallOk(s, id);
    }
  }

  /** In every interleaving a write that is applied puts the count of the moment plus the delta of its call, and never a
      negative one; it is noted. */
  lemma WritesAreRight(server: Server, steps: seq<Step>, id: nat)
    ensures var s := Run(Initial(server), steps);
            var t := Next(s, Put(id));
            t.server != s.server ==>
              && id in s.calls && s.server.count.Some? && t.server.count == Some(s.server.count.value + s.calls[id].delta)
              && t.server.count.value >= 0 && t.written == s.written + [t.server.count.value]
              && t.calls[id].phase == Returned
  {
    RunKeepsInv(server, steps);
    var s := Run(Initial(server), steps);
    if id in s.calls {
      assert CallOk(s, id);
    }
  }

  lemma {:induction false} RunKeepsInv(server: Server, steps: seq<Step>)
    ensures Inv(Run(Initial(server), steps), Value(server.count))
  {
    if steps != [] {
      var init := steps[..|steps| - 1];
      RunKeepsInv(server, init);
      NextKeepsInv(Run(Initial(server), init), steps[|steps| - 1], Value(server.count));
    }
  }

  // ---------------------------------------------------------------- one call, as the code runs it

  datatype Outcome = Done | NegativeCount | CounterMissing | FetchFailure | UpdateFailure

  /** What the environment does in one round of the retry loop: foreign writes before the node is fetched, a failure
      of the fetch, foreign writes between the fetch and the write. */
  datatype Interference = Interference(beforeFetch: seq<Option<int>>, fetchFails: bool, beforePut: seq<Option<int>>)

  /** The annotation after foreign writes. */
  function After(count: Option<int>, writes: seq<Option<int>>): Option<int> {
    if writes == [] then count else writes[|writes| - 1]
  }

  /** The annotation as foreign writers alone leave it after `i` whole rounds. */
  function LeftBy(count: Option<int>, env: seq<Interference>, i: nat): Option<int>
    requires i <= |env|
    decreases i, 0
  {
    if i == 0 then count
    else After(ReadIn(count, env, i - 1), env[i - 1].beforePut)
  }

  /** What round `i` reads. */
  function ReadIn(count: Option<int>, env: seq<Interference>, i: nat): Option<int>
    requires i < |env|
    decreases i, 1
  {
    After(LeftBy(count, env, i), env[i].beforeFetch)
  }

  // ---------------------------------------------------------------- the call as a run of the interleaved machine

  function Foreigns(writes: seq<Option<int>>): seq<Step> {
    if writes == [] then [] else Foreigns(writes[..|writes| - 1]) + [Foreign(writes[|writes| - 1])]
  }

  lemma {:induction false} RunConcat(s: State, a: seq<Step>, b: seq<Step>)
    ensures Run(s, a + b) == Run(Run(s, a), b)
    decreases |b|
  {
    if b == [] {
      assert a + b == a;
    } else {
      assert (a + b)[..|a + b| - 1] == a + b[..|b| - 1];
      RunConcat(s, a, b[..|b| - 1]);
    }
  }

  lemma RunSnoc(s: State, steps: seq<Step>, step: Step)
    ensures Run(s, steps + [step]) == Next(Run(s, steps), step)
  {
    assert (steps + [step])[..|steps|] == steps;
  }

  lemma {:induction false} RunForeigns(s: State, writes: seq<Option<int>>)
    ensures var t := Run(s, Foreigns(writes));
            && t.server == Server(s.server.version + |writes|, After(s.server.count, writes))
            && t.holder == s.holder && t.calls == s.calls
  {
    if writes != [] {
      var init, last := writes[..|writes| - 1], writes[|writes| - 1];
      RunForeigns(s, init);
      RunSnoc(s, Foreigns(init), Foreign(last));
    }
  }

  function PhaseOf(outcome: Outcome): Phase {
    match outcome
    case Done => Returned
    case NegativeCount => RaisedNegative
    case CounterMissing => RaisedMissing
    case FetchFailure => RaisedFetch
    case UpdateFailure => RaisedUpdateFailure
  }

  /** The call is at the top of a round with `left` rounds to go, or has given up. */
  ghost predicate AtRound(s: State, others: map<nat, Call>, id: nat, c: Call, left: nat) {
    && s.calls == others[id := c.(phase := if left == 0 then RaisedUpdateFailure else Trying(left))]
    && s.holder == if left == 0 then None else Some(id)
  }

  /** The call is over and the lock is free. */
  ghost predicate AtEnd(s: State, others: map<nat, Call>, id: nat, c: Call, outcome: Outcome) {
    s.calls == others[id := c.(phase := PhaseOf(outcome))] && s.holder == None
  }

  /** One call as a run: begin, take the lock. */
  lemma Begins(s: State, id: nat, delta: int, maxRetries: nat)
    requires s.holder.None? && id !in s.calls
    ensures var t := Run(s, [Begin(id, delta, maxRetries), Acquire(id)]);
            && t.server == s.server
            && AtRound(t, s.calls, id, Call(delta, maxRetries, s.foreign, Waiting), maxRetries)
  {
    var b := [Begin(id, delta, maxRetries)];
    assert b[..0] == [] && Run(s, b) == Next(Run(s, b[..0]), b[0]);
    RunSnoc(s, b, Acquire(id));
    assert b + [Acquire(id)] == [Begin(id, delta, maxRetries), Acquire(id)];
  }

  /** The steps of one round. */
  function RoundSteps(id: nat, e: Interference, count: Option<int>, delta: int): seq<Step> {
    var read := After(count, e.beforeFetch);
    if e.fetchFails then Foreigns(e.beforeFetch) + [FetchFails(id)]
    else if read.None? || read.value + delta < 0 then Foreigns(e.beforeFetch) + [Fetch(id)]
    else Foreigns(e.beforeFetch) + [Fetch(id)] + Foreigns(e.beforePut) + [Put(id)]
  }

  /** The call has fetched version `seen` and is about to write `newCount`. */
  ghost predicate AtPut(s: State, others: map<nat, Call>, id: nat, c: Call, left: nat, seen: nat, newCount: int, since: nat) {
    s.calls == others[id := c.(phase := Fetched(left, seen, newCount, since))] && s.holder == Some(id)
  }

  lemma FetchRaises(s: State, others: map<nat, Call>, id: nat, c: Call, left: nat, fails: bool, outcome: Outcome)
    requires left > 0 && AtRound(s, others, id, c, left)
    requires || (fails && outcome == FetchFailure)
             || (!fails && s.server.count.None? && outcome == CounterMissing)
             || (!fails && s.server.count.Some? && s.server.count.value + c.delta < 0 && outcome == NegativeCount)
    ensures var t := Next(s, if fails then FetchFails(id) else Fetch(id));
            AtEnd(t, others, id, c, outcome) && t.server == s.server
  {
  }

  lemma FetchReads(s: State, others: map<nat, Call>, id: nat, c: Call, left: nat)
    requires left > 0 && AtRound(s, others, id, c, left)
    requires s.server.count.Some? && s.server.count.value + c.delta >= 0
    ensures var t := Next(s, Fetch(id));
            && AtPut(t, others, id, c, left, s.server.version, s.server.count.value + c.delta, s.foreign)
            && t.server == s.server
  {
  }

  lemma PutWrites(s: State, others: map<nat, Call>, id: nat, c: Call, left: nat, seen: nat, newCount: int, since: nat)
    requires left > 0 && AtPut(s, others, id, c, left, seen, newCount, since)
    ensures var t := Next(s, Put(id));
            if seen == s.server.version
            then AtEnd(t, others, id, c, Done) && t.server == Server(s.server.version + 1, Some(newCount))
            else AtRound(t, others, id, c, left - 1) && t.server == s.server
  {
  }

  /** A round that raises. */
  lemma RoundRaises(s: State, others: map<nat, Call>, id: nat, c: Call, left: nat, e: Interference, outcome: Outcome)
    requires left > 0 && AtRound(s, others, id, c, left)
    requires var read := After(s.server.count, e.beforeFetch);
             || (e.fetchFails && outcome == FetchFailure)
             || (!e.fetchFails && read.None? && outcome == CounterMissing)
             || (!e.fetchFails && read.Some? && read.value + c.delta < 0 && outcome == NegativeCount)
    ensures var t := Run(s, RoundSteps(id, e, s.server.count, c.delta));
            && AtEnd(t, others, id, c, outcome)
            && t.server == Server(s.server.version + |e.beforeFetch|, After(s.server.count, e.beforeFetch))
  {
    RunForeigns(s, e.beforeFetch);
    RunSnoc(s, Foreigns(e.beforeFetch), if e.fetchFails then FetchFails(id) else Fetch(id));
    FetchRaises(Run(s, Foreigns(e.beforeFetch)), others, id, c, left, e.fetchFails, outcome);
  }

  lemma RoundRun(s: State, a: seq<Step>, fetch: Step, b: seq<Step>, put: Step)
    ensures Run(s, a + [fetch] + b + [put]) == Next(Run(Next(Run(s, a), fetch), b), put)
  {
    RunSnoc(s, a, fetch);
    RunConcat(s, a + [fetch], b);
    RunSnoc(s, a + [fetch] + b, put);
  }

  /** After the fetch of a round. */
  lemma RoundFetches(s: State, others: map<nat, Call>, id: nat, c: Call, left: nat, e: Interference) returns (since: nat)
    requires left > 0 && AtRound(s, others, id, c, left)
    requires After(s.server.count, e.beforeFetch).Some? && After(s.server.count, e.beforeFetch).value + c.delta >= 0
    ensures var f := Next(Run(s, Foreigns(e.beforeFetch)), Fetch(id));
            var read := After(s.server.count, e.beforeFetch);
            && f.server == Server(s.server.version + |e.beforeFetch|, read)
            && AtPut(f, others, id, c, left, f.server.version, read.value + c.delta, since)
  {
    var r := Run(s, Foreigns(e.beforeFetch));
    RunForeigns(s, e.beforeFetch);
    FetchReads(r, others, id, c, left);
    since := r.foreign;
  }

  /** From there to the end of the round. */
  lemma RoundPuts(f: State, others: map<nat, Call>, id: nat, c: Call, left: nat, newCount: int, since: nat,
                  writes: seq<Option<int>>)
    requires left > 0 && AtPut(f, others, id, c, left, f.server.version, newCount, since)
    ensures var t := Next(Run(f, Foreigns(writes)), Put(id));
            if writes == [] then AtEnd(t, others, id, c, Done) && t.server == Server(f.server.version + 1, Some(newCount))
            else AtRound(t, others, id, c, left - 1)
                 && t.server == Server(f.server.version + |writes|, After(f.server.count, writes))
  {
    RunForeigns(f, writes);
    PutWrites(Run(f, Foreigns(writes)), others, id, c, left, f.server.version, newCount, since);
  }

  lemma WholeRound(s: State, id: nat, e: Interference, count: Option<int>, delta: int)
    requires !e.fetchFails && After(count, e.beforeFetch).Some? && After(count, e.beforeFetch).value + delta >= 0
    ensures Run(s, RoundSteps(id, e, count, delta))
            == Next(Run(Next(Run(s, Foreigns(e.beforeFetch)), Fetch(id)), Foreigns(e.beforePut)), Put(id))
  {
    RoundRun(s, Foreigns(e.beforeFetch), Fetch(id), Foreigns(e.beforePut), Put(id));
  }

  /** A round that reaches its write: applied exactly if no foreign write came in between. */
  lemma RoundWrites(s: State, others: map<nat, Call>, id: nat, c: Call, left: nat, e: Interference)
    requires left > 0 && AtRound(s, others, id, c, left) && !e.fetchFails
    requires After(s.server.count, e.beforeFetch).Some? && After(s.server.count, e.beforeFetch).value + c.delta >= 0
    ensures var t := Run(s, RoundSteps(id, e, s.server.count, c.delta));
            var read := After(s.server.count, e.beforeFetch);
            var v := s.server.version + |e.beforeFetch|;
            if e.beforePut == [] then AtEnd(t, others, id, c, Done) && t.server == Server(v + 1, Some(read.value + c.delta))
            else AtRound(t, others, id, c, left - 1) && t.server == Server(v + |e.beforePut|, After(read, e.beforePut))
  {
    WholeRound(s, id, e, s.server.count, c.delta);
    var since := RoundFetches(s, others, id, c, left, e);
    var f, newCount := Next(Run(s, Foreigns(e.beforeFetch)), Fetch(id)), After(s.server.count, e.beforeFetch).value + c.delta;
    RoundPuts(f, others, id, c, left, newCount, since, e.beforePut);
  }

  /** A run that has brought the call to the top of a round, and one that has ended it. */
  ghost predicate BringsToRound(s0: State, steps: seq<Step>, server: Server, id: nat, c: Call, left: nat) {
    Run(s0, steps).server == server && AtRound(Run(s0, steps), s0.calls, id, c, left)
  }

  ghost predicate BringsToEnd(s0: State, steps: seq<Step>, server: Server, id: nat, c: Call, outcome: Outcome) {
    Run(s0, steps).server == server && AtEnd(Run(s0, steps), s0.calls, id, c, outcome)
  }

  /** The node object on the API server. */
  class ApiServer {
    var version: nat
    var count: Option<int>

    constructor (count: Option<int>)
      ensures this.version == 0 && this.count == count
    {
      this.version, this.count := 0, count;
    }

    /** Foreign writes, one after the other. */
    method Interfere(writes: seq<Option<int>>)
      modifies this
      ensures version == old(version) + |writes|
      ensures count == After(old(count), writes)
    {
      for i := 0 to |writes|
        invariant version == old(version) + i
        invariant count == if i == 0 then old(count) else writes[i - 1]
      {
        version, count := version + 1, writes[i];
      }
    }

    /** PUT: refused (409) when the version is stale. */
    method Put(seen: nat, newCount: int) returns (ok: bool)
      modifies this
      ensures ok <==> seen == old(version)
      ensures ok ==> version == old(version) + 1 && count == Some(newCount)
      ensures !ok ==> version == old(version) && count == old(count)
    {
      ok := seen == version;
      if ok {
        version, count := version + 1, Some(newCount);
      }
    }

    /** One round of the retry loop; None is a conflict. It is a run of the interleaved machine. */
    method Round(delta: int, e: Interference, ghost s0: State, ghost steps: seq<Step>, ghost id: nat, ghost c: Call,
                 ghost left: nat)
      returns (outcome: Option<Outcome>)
      requires left > 0 && c.delta == delta && BringsToRound(s0, steps, Server(version, count), id, c, left)
      modifies this
      ensures var read := After(old(count), e.beforeFetch);
              if e.fetchFails then outcome == Some(FetchFailure) && count == read
              else if read.None? then outcome == Some(CounterMissing) && count == read
              else if read.value + delta < 0 then outcome == Some(NegativeCount) && count == read
              else if e.beforePut == [] then outcome == Some(Done) && count == Some(read.value + delta)
              else outcome == None && count == After(read, e.beforePut)
      ensures var more := steps + RoundSteps(id, e, old(count), delta);
              && (outcome.None? ==> BringsToRound(s0, more, Server(version, count), id, c, left - 1))
              && (outcome.Some? ==> BringsToEnd(s0, more, Server(version, count), id, c, outcome.value))
    {
      ghost var s := Run(s0, steps);
      RunConcat(s0, steps, RoundSteps(id, e, count, delta));
      Interfere(e.beforeFetch);
      if e.fetchFails {
        RoundRaises(s, s0.calls, id, c, left, e, FetchFailure);
        return Some(FetchFailure);
      }
      var seen, read := version, count;
      if read.None? {
        RoundRaises(s, s0.calls, id, c, left, e, CounterMissing);
        return Some(CounterMissing);
      }
      var newCount := read.value + delta;
      if newCount < 0 {
        RoundRaises(s, s0.calls, id, c, left, e, NegativeCount);
        return Some(NegativeCount);
      }
      RoundWrites(s, s0.calls, id, c, left, e);
      Interfere(e.beforePut);
      var ok := Put(seen, newCount);
      outcome := if ok then Some(Done) else None;
    }

    /** The retry loop, under the lock. Every round before the last met a foreign write between its fetch and its
        write, and changed nothing; the last one read what foreign writers left and added `delta` to it, or raised
        and changed nothing. Giving up takes such a foreign write in every round. The call and its interference are a
        run of the interleaved machine from any state in which the lock is free. */
    method Increment(delta: int, maxRetries: nat, env: seq<Interference>, ghost s0: State, ghost id: nat)
      returns (outcome: Outcome, conflicts: nat, ghost steps: seq<Step>)
      requires |env| == maxRetries
      requires s0.server == Server(version, count) && s0.holder.None? && id !in s0.calls
      modifies this
      ensures conflicts <= maxRetries && forall i :: 0 <= i < conflicts ==> env[i].beforePut != []
      ensures outcome.UpdateFailure? <==> conflicts == maxRetries
      ensures outcome.UpdateFailure? ==> count == LeftBy(old(count), env, maxRetries)
      ensures !outcome.UpdateFailure? ==>
                var read := ReadIn(old(count), env, conflicts);
                if env[conflicts].fetchFails then outcome.FetchFailure? && count == read
                else if read.None? then outcome.CounterMissing? && count == read
                else if read.value + delta < 0 then outcome.NegativeCount? && count == read
                else outcome.Done? && env[conflicts].beforePut == [] && count == Some(read.value + delta)
      ensures BringsToEnd(s0, steps, Server(version, count), id, Call(delta, maxRetries, s0.foreign, Waiting), outcome)
    {
      conflicts := 0;
      ghost var c := Call(delta, maxRetries, s0.foreign, Waiting);
      steps := [Begin(id, delta, maxRetries), Acquire(id)];
      Begins(s0, id, delta, maxRetries);
      for i := 0 to maxRetries
        invariant conflicts == i && count == LeftBy(old(count), env, i)
        invariant forall j :: 0 <= j < i ==> env[j].beforePut != []
        invariant BringsToRound(s0, steps, Server(version, count), id, c, maxRetries - i)
      {
        ghost var round := RoundSteps(id, env[i], count, delta);
        var r := Round(delta, env[i], s0, steps, id, c, maxRetries - i);
        steps := steps + round;
        if r.Some? {
          return r.value, conflicts, steps;
        }
        conflicts := conflicts + 1;
      }
      outcome := UpdateFailure;
    }
  }
}
