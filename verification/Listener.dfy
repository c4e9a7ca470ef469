/** The resumable watch listener: a cursor kept in Redis, a retry budget, the skip of an event that keeps
    failing, and the reset of the cursor when the server has forgotten it.

    The environment chooses every fault: refused connections, lost connections, handlers that raise, a cursor
    write that raises after the handler's transaction was committed, and a process that dies at any point and is
    started again. The theorems are about every run. */
module Listener {
  import opened Wrappers

  const MAX_ATTEMPTS: nat := 10
  const MAX_ETCD_VERSIONS: int := 1000

  /** An event of the watched resource; `filtered` is the verdict of `filter_event`. */
  datatype Event = Event(version: int, filtered: bool)

  /** All events ever, in the order in which the server streams them. */
  ghost predicate IsLog(log: seq<Event>) {
    forall i, j :: 0 <= i < j < |log| ==> log[i].version < log[j].version
  }

  datatype Connection = Closed | Open(pos: int)

  /** What happened: the transaction of a handler was committed, an event was skipped, the cursor moved past
      an event, an exception reached the outer loop (out of the handler of that version, or elsewhere), the cursor
      was reset because the server had forgotten it, or the process was started again. */
  datatype Note =
    | Committed(version: int)
    | Skipped(version: int)
    | Passed(version: int)
    | Raised(handler: Option<int>)
    | Rewound
    | Restarted

  /** `start` is the first value the cursor had. */
  datatype State = State(cursor: Option<int>, start: Option<int>, conn: Connection, retry: nat, history: seq<Note>)

  /** What the environment does while an event is handled. `BodyRaises` covers the handler, its commit, and
      the notification of a skip; `Dies` is the end of the process after the commit and before the cursor write. */
  datatype Outcome = Fine | BodyRaises | CursorWriteRaises | Dies

  datatype Step =
    | Connect(listed: int)
    | ConnectRefused
    | ConnectRaises
    | Receive(outcome: Outcome)
    | ReceiveRaises
    | Forgotten(listed: int)
    | Restart

  /** The first event after version `pos`. */
  function NextEvent(log: seq<Event>, pos: int): Option<Event> {
    if log == [] then None
    else if log[0].version > pos then Some(log[0])
    else NextEvent(log[1..], pos)
  }

  function RaisedAt(s: State, notes: seq<Note>, handler: Option<int>): State {
    s.(conn := Closed, retry := s.retry + 1, history := s.history + notes + [Raised(handler)])
  }

  /** The cursor reset. */
  function RewoundTo(s: State, cursor: int): State {
    s.(cursor := Some(cursor), conn := Closed, history := s.history + [Rewound])
  }

  /** A new process: only the cursor survives. A transaction in progress is rolled back by the database. */
  function RestartedAt(s: State, notes: seq<Note>): State {
    s.(conn := Closed, retry := 0, history := s.history + notes + [Restarted])
  }

  /** The body of the inner loop for one unfiltered event. */
  function Handle(s: State, v: int, outcome: Outcome): State {
    var s := s.(conn := Open(v));
    if v <= (if s.cursor.Some? then s.cursor.value else 0) then s.(retry := 0)
    else
      var attempt := s.retry < MAX_ATTEMPTS;
      if outcome.BodyRaises? then RaisedAt(s, [], if attempt then Some(v) else None)
      else
        var note := if attempt then Committed(v) else Skipped(v);
        if outcome.CursorWriteRaises? then RaisedAt(s, [note], None)
        else if outcome.Dies? then RestartedAt(s, [note])
        else s.(cursor := Some(v), retry := 0, history := s.history + [note, Passed(v)])
  }

  /** One step; a step that is not enabled changes nothing. */
  function Next(s: State, step: Step, log: seq<Event>): State {
    match step
    case Connect(listed) =>
      if s.conn.Open? then s
      else
        var c := if s.cursor.Some? then s.cursor.value else listed;
        s.(cursor := Some(c), start := if s.start.Some? then s.start else Some(c), conn := Open(c))
    case ConnectRefused => s
    case ConnectRaises => if s.conn.Open? then s else RaisedAt(s, [], None)
    case ReceiveRaises => if s.conn.Closed? then s else RaisedAt(s, [], None)
    case Forgotten(listed) =>
      if s.conn.Closed? then s else RewoundTo(s, listed - MAX_ETCD_VERSIONS)
    case Restart => RestartedAt(s, [])
    case Receive(outcome) =>
      if s.conn.Closed? || NextEvent(log, s.conn.pos).None? then s
      else
        var e := NextEvent(log, s.conn.pos).value;
        if e.filtered then s.(conn := Open(e.version)) else Handle(s, e.version, outcome)
  }

  function Run(s: State, steps: seq<Step>, log: seq<Event>): State {
    if steps == [] then s else Next(Run(s, steps[..|steps| - 1], log), steps[|steps| - 1], log)
  }

  function Initial(cursor: Option<int>): State {
    State(cursor, cursor, Closed, 0, [])
  }

  // ---------------------------------------------------------------- reading the history

  /** Exceptions since the cursor last passed an event, in the life of the present process. */
  function ExceptionsSince(h: seq<Note>): nat {
    if h == [] then 0
    else
      match h[|h| - 1]
      case Passed(_) => 0
      case Restarted => 0
      case Raised(_) => 1 + ExceptionsSince(h[..|h| - 1])
      case _ => ExceptionsSince(h[..|h| - 1])
  }

  /** How often the handler was called for `v` and raised, in the life of the present process. */
  function Attempts(h: seq<Note>, v: int): nat {
    if h == [] || h[|h| - 1] == Restarted then 0
    else Attempts(h[..|h| - 1], v) + if h[|h| - 1] == Raised(Some(v)) then 1 else 0
  }

  ghost predicate SkipsJustified(h: seq<Note>) {
    forall i :: 0 <= i < |h| && h[i].Skipped? ==> ExceptionsSince(h[..i]) >= MAX_ATTEMPTS
  }

  ghost predicate Accounted(h: seq<Note>, v: int) {
    Committed(v) in h || Skipped(v) in h
  }

  /** An unfiltered event of the log. */
  ghost predicate Unfiltered(log: seq<Event>, v: int) {
    Event(v, false) in log
  }

  /** Every unfiltered event from the starting cursor to the cursor was committed or skipped. */
  ghost predicate NoSilentLoss(s: State, log: seq<Event>) {
    s.start.Some? && s.cursor.Some? ==>
      forall v :: Unfiltered(log, v) && s.start.value < v <= s.cursor.value ==> Accounted(s.history, v)
  }

  // ---------------------------------------------------------------- small steps on histories

  lemma Snoc(h: seq<Note>, n: Note)
    ensures ExceptionsSince(h + [n]) ==
            (match n
             case Passed(_) => 0
             case Restarted => 0
             case Raised(_) => 1 + ExceptionsSince(h)
             case _ => ExceptionsSince(h))
    ensures forall v :: Attempts(h + [n], v) ==
              if n == Restarted then 0 else Attempts(h, v) + if n == Raised(Some(v)) then 1 else 0
    ensures SkipsJustified(h) && (n.Skipped? ==> ExceptionsSince(h) >= MAX_ATTEMPTS) ==> SkipsJustified(h + [n])
  {
    assert (h + [n])[..|h|] == h;
    assert forall i :: 0 <= i < |h| ==> (h + [n])[..i] == h[..i];
  }

  lemma {:induction false} NextEventIsNext(log: seq<Event>, pos: int)
    requires IsLog(log)
    ensures NextEvent(log, pos).Some? ==>
              var e := NextEvent(log, pos).value;
              e in log && pos < e.version && forall x :: x in log && pos < x.version ==> e.version < x.version || x == e
    ensures NextEvent(log, pos).None? ==> forall x :: x in log ==> x.version <= pos
  {
    if log != [] {
      NextEventIsNext(log[1..], pos);
    }
  }

  // ---------------------------------------------------------------- what every step keeps

  /** Facts about the position in the stream that hold in every run. */
  ghost predicate Positioned(s: State, log: seq<Event>) {
    && (s.start.Some? <==> s.cursor.Some?)
    && (s.conn.Open? ==>
          && s.cursor.Some? && s.cursor.value <= s.conn.pos
          && forall v :: Unfiltered(log, v) && s.cursor.value < v ==> s.conn.pos < v)
  }

  ghost predicate Safe(s: State, log: seq<Event>) {
    && Positioned(s, log)
    && s.retry == ExceptionsSince(s.history)
    && SkipsJustified(s.history)
  }

  /** Two notes, the first of which says what became of an event. */
  lemma SnocTwo(h: seq<Note>, note: Note, last: Note)
    requires SkipsJustified(h) && (note.Committed? || (note.Skipped? && ExceptionsSince(h) >= MAX_ATTEMPTS))
    requires last == Raised(None) || last.Passed? || last.Restarted?
    ensures var t := h + [note, last];
            && SkipsJustified(t) && h <= t && t[|h|] == note
            && ExceptionsSince(t) == (if last.Raised? then 1 + ExceptionsSince(h) else 0)
            && forall u :: Attempts(t, u) == if last.Restarted? then 0 else Attempts(h, u)
  {
    Snoc(h, note);
    Snoc(h + [note], last);
    assert h + [note, last] == h + [note] + [last];
  }

  /** What becomes of an event that is not lost in its handler. */
  function Fate(s: State, v: int): Note {
    if s.retry < MAX_ATTEMPTS then Committed(v) else Skipped(v)
  }

  function After(v: int, outcome: Outcome): Note {
    match outcome
    case CursorWriteRaises => Raised(None)
    case Dies => Restarted
    case _ => Passed(v)
  }

  function Cause(s: State, v: int): Option<int> {
    if s.retry < MAX_ATTEMPTS then Some(v) else None
  }

  /** Handling one new event, field by field. */
  lemma HandleShape(s: State, v: int, outcome: Outcome)
    requires s.cursor.Some? && s.cursor.value < v
    ensures var t := Handle(s, v, outcome);
            if outcome.BodyRaises? then
              t.history == s.history + [Raised(Cause(s, v))] && t.retry == s.retry + 1 && t.cursor == s.cursor
            else
              && t.history == s.history + [Fate(s, v), After(v, outcome)]
              && t.retry == (if outcome.CursorWriteRaises? then s.retry + 1 else 0)
              && t.cursor == (if outcome.Fine? then Some(v) else s.cursor)
  {
    var h := s.history;
    assert h + [] == h;
    assert h + [Fate(s, v)] + [After(v, outcome)] == h + [Fate(s, v), After(v, outcome)];
  }

  /** How handling one new event changes the history. */
  lemma HandleHistory(s: State, v: int, outcome: Outcome)
    requires s.retry == ExceptionsSince(s.history) && SkipsJustified(s.history)
    requires s.cursor.Some? && s.cursor.value < v
    ensures var t := Handle(s, v, outcome);
            && t.retry == ExceptionsSince(t.history) && SkipsJustified(t.history)
            && (forall u :: Attempts(t.history, u) ==
                  if outcome.Dies? then 0
                  else Attempts(s.history, u) + if outcome.BodyRaises? && s.retry < MAX_ATTEMPTS && u == v then 1 else 0)
            && s.history <= t.history
            && (outcome == Fine ==> Accounted(t.history, v))
  {
    HandleShape(s, v, outcome);
    if outcome.BodyRaises? {
      Snoc(s.history, Raised(Cause(s, v)));
    } else {
      SnocTwo(s.history, Fate(s, v), After(v, outcome));
    }
  }

  /** The first unfiltered event after version `c`. */
  ghost predicate FirstUp(log: seq<Event>, c: int, v: int) {
    Unfiltered(log, v) && c < v && forall u :: Unfiltered(log, u) && c < u ==> v <= u
  }

  lemma FirstPending(s: State, v: int, log: seq<Event>)
    requires IsLog(log) && Positioned(s, log) && s.conn.Open?
    requires NextEvent(log, s.conn.pos) == Some(Event(v, false))
    ensures FirstUp(log, s.cursor.value, v)
  {
    NextEventIsNext(log, s.conn.pos);
    forall u | Unfiltered(log, u) && s.cursor.value < u ensures v <= u {
      assert s.conn.pos < u;
    }
  }

  /** The step hands an unfiltered event to the handler or skips it. */
  predicate IsTurn(s: State, step: Step, log: seq<Event>) {
    && step.Receive? && s.conn.Open?
    && NextEvent(log, s.conn.pos).Some? && !NextEvent(log, s.conn.pos).value.filtered
  }

  /** The version it is about. */
  function Turned(s: State, step: Step, log: seq<Event>): int
    requires IsTurn(s, step, log)
  {
    NextEvent(log, s.conn.pos).value.version
  }

  /** A turn handles the first event after the cursor. */
  lemma TurnShape(s: State, step: Step, log: seq<Event>)
    requires IsLog(log) && Safe(s, log) && IsTurn(s, step, log)
    ensures s.cursor.Some? && FirstUp(log, s.cursor.value, Turned(s, step, log))
    ensures Next(s, step, log) == Handle(s, Turned(s, step, log), step.outcome)
  {
    var e := NextEvent(log, s.conn.pos).value;
    assert e == Event(e.version, false);
    FirstPending(s, e.version, log);
  }

  /** What any other step notes. */
  function Quiet(s: State, step: Step): seq<Note> {
    match step
    case ConnectRaises => if s.conn.Closed? then [Raised(None)] else []
    case ReceiveRaises => if s.conn.Open? then [Raised(None)] else []
    case Forgotten(_) => if s.conn.Open? then [Rewound] else []
    case Restart => [Restarted]
    case _ => []
  }

  lemma QuietShape(s: State, step: Step, log: seq<Event>)
    requires !IsTurn(s, step, log)
    ensures var t := Next(s, step, log);
            && t.history == s.history + Quiet(s, step)
            && t.retry == (if Quiet(s, step) == [Raised(None)] then s.retry + 1
                           else if Quiet(s, step) == [Restarted] then 0 else s.retry)
            && (s.cursor.Some? && Quiet(s, step) != [Rewound] ==> t.cursor == s.cursor)
            && (Quiet(s, step) == [Rewound] ==> t.cursor == Some(step.listed - MAX_ETCD_VERSIONS))
            && (s.cursor.None? && t.cursor.Some? ==> Quiet(s, step) == [] || Quiet(s, step) == [Rewound])
  {
    assert s.history + [] == s.history;
  }

  lemma HandleKeepsSafe(s: State, v: int, outcome: Outcome, log: seq<Event>)
    requires IsLog(log) && Safe(s, log) && s.conn.Open?
    requires NextEvent(log, s.conn.pos) == Some(Event(v, false))
    ensures Safe(Handle(s, v, outcome), log) && s.cursor.value < v
    ensures NoSilentLoss(s, log) ==> NoSilentLoss(Handle(s, v, outcome), log)
  {
    FirstPending(s, v, log);
    HandleHistory(s, v, outcome);
    AccountedGrows(s.history, Handle(s, v, outcome).history);
  }

  lemma AccountedGrows(h: seq<Note>, g: seq<Note>)
    requires h <= g
    ensures forall u :: Accounted(h, u) ==> Accounted(g, u)
  {
    assert forall n :: n in h ==> n in g;
  }

  /** No step other than a rewind loses an event, skips one early, or miscounts exceptions. */
  lemma NextKeepsSafe(s: State, step: Step, log: seq<Event>)
    requires IsLog(log) && Safe(s, log)
    ensures Safe(Next(s, step, log), log)
    ensures NoSilentLoss(s, log) && !step.Forgotten? ==> NoSilentLoss(Next(s, step, log), log)
  {
    if step.Receive? && s.conn.Open? && NextEvent(log, s.conn.pos).Some? {
      NextEventIsNext(log, s.conn.pos);
      var e := NextEvent(log, s.conn.pos).value;
      if e.filtered {
        forall v | Unfiltered(log, v) && s.cursor.value < v ensures e.version < v {
          assert s.conn.pos < v;
        }
      } else {
        assert e == Event(e.version, false);
        HandleKeepsSafe(s, e.version, step.outcome, log);
      }
    } else if step.ConnectRaises? || step.ReceiveRaises? {
      RaiseKeeps(s, log);
    } else if step.Restart? {
      RestartKeeps(s, log);
    } else if step.Forgotten? && s.conn.Open? {
      RewindKeeps(s, step.listed - MAX_ETCD_VERSIONS, log);
    }
  }

  lemma InitialIsSafe(cursor: Option<int>, log: seq<Event>)
    ensures Safe(Initial(cursor), log) && NoSilentLoss(Initial(cursor), log)
  {
  }

  lemma {:induction false} RunKeepsSafe(cursor: Option<int>, steps: seq<Step>, log: seq<Event>)
    requires IsLog(log)
    ensures Safe(Run(Initial(cursor), steps, log), log)
    ensures (forall i :: 0 <= i < |steps| ==> !steps[i].Forgotten?) ==>
              NoSilentLoss(Run(Initial(cursor), steps, log), log)
  {
    InitialIsSafe(cursor, log);
    if steps != [] {
      var init, last := steps[..|steps| - 1], steps[|steps| - 1];
      RunKeepsSafe(cursor, init, log);
      NextKeepsSafe(Run(Initial(cursor), init, log), last, log);
    }
  }

  /** Where a run starts: at the saved cursor, or at the version listed for its first connection. */
  ghost predicate StartsAt(cursor: Option<int>, steps: seq<Step>, c: int) {
    if cursor.Some? then cursor.value == c
    else exists i :: 0 <= i < |steps| && steps[i] == Connect(c) && forall j :: 0 <= j < i ==> !steps[j].Connect?
  }

  /** A start is remembered once there is one, and there is one as soon as there was a connection. */
  lemma {:induction false} StartIsRight(cursor: Option<int>, steps: seq<Step>, log: seq<Event>)
    ensures var s := Run(Initial(cursor), steps, log);
            && (s.start.Some? ==> s.cursor.Some? && StartsAt(cursor, steps, s.start.value))
            && (s.start.None? ==> s == Initial(None).(retry := s.retry, history := s.history) && cursor.None?
                                  && forall j :: 0 <= j < |steps| ==> !steps[j].Connect?)
  {
    if steps != [] {
      var init, step := steps[..|steps| - 1], steps[|steps| - 1];
      StartIsRight(cursor, init, log);
      assert forall j :: 0 <= j < |init| ==> init[j] == steps[j];
      StartStays(Run(Initial(cursor), init, log), step, log);
    }
  }

  lemma StartStays(s: State, step: Step, log: seq<Event>)
    requires s.start.Some? ==> s.cursor.Some?
    requires s.start.None? ==> s.cursor.None? && s.conn.Closed?
    ensures var t := Next(s, step, log);
            && (s.start.Some? ==> t.start == s.start && t.cursor.Some?)
            && (s.start.None? && step.Connect? ==> t.start == t.cursor == Some(step.listed))
            && (s.start.None? && !step.Connect? ==> t.start.None? && t.cursor.None? && t.conn.Closed?)
  {
  }

  lemma StartIsUnique(cursor: Option<int>, steps: seq<Step>, c: int, d: int)
    requires StartsAt(cursor, steps, c) && StartsAt(cursor, steps, d)
    ensures c == d
  {
  }

  /** No silent loss: in every run without a rewind, every unfiltered event from the saved cursor on, or from the
      version listed for the first connection when none was saved, up to the cursor was committed or skipped; and in
      every run whatsoever a skip comes only after at least MAX_ATTEMPTS exceptions of the same process since the cursor
      last moved past an event. */
  lemma NoSilentLossInAnyRun(cursor: Option<int>, steps: seq<Step>, log: seq<Event>)
    requires IsLog(log)
    ensures var s := Run(Initial(cursor), steps, log);
            && SkipsJustified(s.history)
            && ((forall i :: 0 <= i < |steps| ==> !steps[i].Forgotten?) ==>
                  forall c, v :: StartsAt(cursor, steps, c) && Unfiltered(log, v) && c < v ==>
                    s.cursor.Some? && (v <= s.cursor.value ==> Accounted(s.history, v)))
  {
    var s := Run(Initial(cursor), steps, log);
    RunKeepsSafe(cursor, steps, log);
    StartIsRight(cursor, steps, log);
    forall c | StartsAt(cursor, steps, c) ensures s.start == Some(c) {
      if s.start.Some? {
        StartIsUnique(cursor, steps, c, s.start.value);
      }
    }
  }

  /** The exceptions that justify a skip need not come from the handler: ten lost connections are enough to
      skip an event whose handler was never called. */
  lemma SkipWithoutAnyAttempt(n: nat)
    requires n >= 10
    ensures var log := [Event(7, false)];
            var steps := Repeat([Connect(5), ReceiveRaises], n) + [Connect(5), Receive(Fine)];
            var s := Run(Initial(Some(5)), steps, log);
            Skipped(7) in s.history && Attempts(s.history, 7) == 0 && Committed(7) !in s.history
  {
    var log := [Event(7, false)];
    var lost := Repeat([Connect(5), ReceiveRaises], n);
    var s := Run(Initial(Some(5)), lost, log);
    LostConnections(n, log);
    RunConcat(Initial(Some(5)), lost, [Connect(5), Receive(Fine)], log);
    RunKeepsSafe(Some(5), lost, log);
    LastTurnSkips(s);
  }

  lemma LastTurnSkips(s: State)
    requires s.cursor == Some(5) && s.conn == Closed && s.retry >= MAX_ATTEMPTS
    requires Safe(s, [Event(7, false)]) && Attempts(s.history, 7) == 0 && Committed(7) !in s.history
    ensures var t := Run(s, [Connect(5), Receive(Fine)], [Event(7, false)]);
            Skipped(7) in t.history && Attempts(t.history, 7) == 0 && Committed(7) !in t.history
  {
    SevenTurn(s, Fine, [Event(7, false)]);
    SnocTwo(s.history, Skipped(7), Passed(7));
  }

  lemma RunOfTwo(s: State, a: Step, b: Step, log: seq<Event>)
    ensures Run(s, [a, b], log) == Next(Next(s, a, log), b, log)
  {
    assert [a, b][..1] == [a] && [a][..0] == [];
    assert Run(s, [a], log) == Next(Run(s, [a][..0], log), a, log);
    assert Run(s, [a, b], log) == Next(Run(s, [a, b][..1], log), b, log);
  }

  function Repeat(steps: seq<Step>, n: nat): seq<Step> {
    if n == 0 then [] else steps + Repeat(steps, n - 1)
  }

  lemma {:induction false} RunConcat(s: State, a: seq<Step>, b: seq<Step>, log: seq<Event>)
    ensures Run(s, a + b, log) == Run(Run(s, a, log), b, log)
    decreases |b|
  {
    if b == [] {
      assert a + b == a;
    } else {
      var init := b[..|b| - 1];
      assert (a + b)[..|a + b| - 1] == a + init;
      RunConcat(s, a, init, log);
    }
  }

  lemma {:induction false} RepeatSnoc(steps: seq<Step>, n: nat)
    ensures Repeat(steps, n) + steps == Repeat(steps, n + 1)
  {
    if n == 0 {
      assert Repeat(steps, 1) == steps + Repeat(steps, 0);
    } else {
      RepeatSnoc(steps, n - 1);
    }
  }

  lemma LostTurn(s: State, log: seq<Event>)
    requires s.cursor == Some(5) && s.conn == Closed
    ensures var t := Run(s, [Connect(5), ReceiveRaises], log);
            && t.cursor == Some(5) && t.conn == Closed && t.retry == s.retry + 1
            && Attempts(t.history, 7) == Attempts(s.history, 7) && (Committed(7) in t.history ==> Committed(7) in s.history)
  {
    RunOfTwo(s, Connect(5), ReceiveRaises, log);
    QuietShape(Next(s, Connect(5), log), ReceiveRaises, log);
    Snoc(s.history, Raised(None));
  }

  /** Each lost connection costs one retry and nothing else. */
  lemma {:induction false} LostConnections(n: nat, log: seq<Event>)
    ensures var s := Run(Initial(Some(5)), Repeat([Connect(5), ReceiveRaises], n), log);
            && s.cursor == Some(5) && s.conn == Closed && s.retry == n
            && Attempts(s.history, 7) == 0 && Committed(7) !in s.history
  {
    if n > 0 {
      var lost := [Connect(5), ReceiveRaises];
      LostConnections(n - 1, log);
      RepeatSnoc(lost, n - 1);
      RunConcat(Initial(Some(5)), Repeat(lost, n - 1), lost, log);
      LostTurn(Run(Initial(Some(5)), Repeat(lost, n - 1), log), log);
    }
  }

  // ---------------------------------------------------------------- progress and single commit

  /** A rewind is forward when the server says 401 only to a cursor more than MAX_ETCD_VERSIONS behind. */
  predicate Forward(s: State, step: Step) {
    step.Forgotten? && s.cursor.Some? ==> step.listed - MAX_ETCD_VERSIONS > s.cursor.value
  }

  predicate NoFaultAfterCommit(step: Step) {
    step.Receive? ==> !step.outcome.CursorWriteRaises? && !step.outcome.Dies?
  }

  /** The cursor does not move back from `s` to `t`. */
  predicate Onward(s: State, t: State) {
    s.cursor.Some? ==> t.cursor.Some? && s.cursor.value <= t.cursor.value
  }

  lemma NextIsOnward(s: State, step: Step, log: seq<Event>)
    requires IsLog(log) && Safe(s, log) && Forward(s, step)
    ensures Onward(s, Next(s, step, log))
  {
    if IsTurn(s, step, log) {
      TurnShape(s, step, log);
      HandleShape(s, Turned(s, step, log), step.outcome);
    } else {
      QuietShape(s, step, log);
    }
  }

  /** No unfiltered event lies between version `c` and `v`. */
  ghost predicate NoneBefore(log: seq<Event>, c: int, v: int) {
    forall u :: Unfiltered(log, u) && c < u ==> v <= u
  }

  lemma NoneBeforeOnward(log: seq<Event>, c: int, d: int, v: int)
    requires c <= d && NoneBefore(log, c, v)
    ensures NoneBefore(log, d, v)
  {
  }

  /** Attempts on an event are bounded by the retry counter while it is pending, and only the first pending
      event has any. */
  ghost predicate BoundedAt(s: State, log: seq<Event>, v: int) {
    && Attempts(s.history, v) <= MAX_ATTEMPTS
    && (s.cursor.None? ==> Attempts(s.history, v) == 0)
    && (s.cursor.Some? && v > s.cursor.value && Attempts(s.history, v) > 0 ==>
          Attempts(s.history, v) <= s.retry && NoneBefore(log, s.cursor.value, v))
  }

  ghost predicate Bounded(s: State, log: seq<Event>) {
    forall v :: BoundedAt(s, log, v)
  }

  ghost predicate CommitsBehindCursor(s: State) {
    && (forall v :: Committed(v) in s.history ==> s.cursor.Some? && v <= s.cursor.value)
    && CommittedOnce(s.history)
  }

  ghost predicate CommittedOnce(h: seq<Note>) {
    forall i, j :: 0 <= i < j < |h| && h[i].Committed? ==> h[i] != h[j]
  }

  lemma TurnKeepsBoundedAt(s: State, v: int, outcome: Outcome, log: seq<Event>, u: int)
    requires s.retry == ExceptionsSince(s.history) && SkipsJustified(s.history)
    requires s.cursor.Some? && FirstUp(log, s.cursor.value, v) && BoundedAt(s, log, u) && BoundedAt(s, log, v)
    ensures BoundedAt(Handle(s, v, outcome), log, u)
  {
    var t := Handle(s, v, outcome);
    HandleShape(s, v, outcome);
    HandleHistory(s, v, outcome);
    assert NoneBefore(log, s.cursor.value, v);
    assert u == v || Attempts(t.history, u) <= Attempts(s.history, u);
    assert outcome.BodyRaises? && s.retry < MAX_ATTEMPTS ==> Attempts(t.history, v) <= t.retry;
    assert outcome.Fine? && u > v ==> Attempts(s.history, u) == 0;
  }

  lemma QuietKeepsBoundedAt(s: State, t: State, n: Note, log: seq<Event>, u: int)
    requires BoundedAt(s, log, u) && Onward(s, t) && t.history == s.history + [n]
    requires n == Raised(None) || n == Rewound || n == Restarted
    requires t.retry >= s.retry || n == Restarted
    ensures BoundedAt(t, log, u)
  {
    Snoc(s.history, n);
    if s.cursor.Some? && NoneBefore(log, s.cursor.value, u) {
      NoneBeforeOnward(log, s.cursor.value, t.cursor.value, u);
    }
  }

  lemma NextKeepsBoundedAt(s: State, step: Step, log: seq<Event>, u: int)
    requires IsLog(log) && Safe(s, log) && Bounded(s, log) && Forward(s, step)
    ensures BoundedAt(Next(s, step, log), log, u)
  {
    var t := Next(s, step, log);
    assert BoundedAt(s, log, u);
    NextIsOnward(s, step, log);
    if IsTurn(s, step, log) {
      TurnShape(s, step, log);
      var v := Turned(s, step, log);
      assert BoundedAt(s, log, v);
      TurnKeepsBoundedAt(s, v, step.outcome, log, u);
    } else {
      QuietShape(s, step, log);
      if Quiet(s, step) == [] {
        assert t.history == s.history;
      } else {
        QuietKeepsBoundedAt(s, t, Quiet(s, step)[0], log, u);
      }
    }
  }

  lemma NextKeepsBounded(s: State, step: Step, log: seq<Event>)
    requires IsLog(log) && Safe(s, log) && Bounded(s, log) && Forward(s, step)
    ensures Bounded(Next(s, step, log), log) && Onward(s, Next(s, step, log))
  {
    NextIsOnward(s, step, log);
    forall u ensures BoundedAt(Next(s, step, log), log, u) {
      NextKeepsBoundedAt(s, step, log, u);
    }
  }

  lemma RaiseKeeps(s: State, log: seq<Event>)
    requires Safe(s, log)
    ensures Safe(RaisedAt(s, [], None), log)
    ensures NoSilentLoss(s, log) ==> NoSilentLoss(RaisedAt(s, [], None), log)
  {
    var h := s.history;
    assert h + [] == h;
    Snoc(h, Raised(None));
    AccountedGrows(h, h + [Raised(None)]);
  }

  lemma RestartKeeps(s: State, log: seq<Event>)
    requires Safe(s, log)
    ensures Safe(RestartedAt(s, []), log)
    ensures NoSilentLoss(s, log) ==> NoSilentLoss(RestartedAt(s, []), log)
  {
    var h := s.history;
    assert h + [] == h;
    Snoc(h, Restarted);
    AccountedGrows(h, h + [Restarted]);
  }

  lemma RewindKeeps(s: State, cursor: int, log: seq<Event>)
    requires Safe(s, log) && s.cursor.Some?
    ensures Safe(RewoundTo(s, cursor), log)
  {
    Snoc(s.history, Rewound);
  }

  lemma CommitsSnoc(h: seq<Note>, n: Note)
    requires CommittedOnce(h) && (n.Committed? ==> n !in h)
    ensures CommittedOnce(h + [n])
    ensures forall v :: Committed(v) in h + [n] <==> Committed(v) in h || n == Committed(v)
  {
  }

  lemma QuietKeepsCommits(s: State, t: State, notes: seq<Note>)
    requires CommitsBehindCursor(s) && Onward(s, t) && t.history == s.history + notes
    requires notes == [] || (|notes| == 1 && !notes[0].Committed?)
    ensures CommitsBehindCursor(t)
  {
    if notes == [] {
      assert t.history == s.history;
    } else {
      CommitsSnoc(s.history, notes[0]);
    }
  }

  lemma HandleKeepsCommits(s: State, v: int, outcome: Outcome)
    requires CommitsBehindCursor(s) && s.cursor.Some? && s.cursor.value < v
    requires !outcome.CursorWriteRaises? && !outcome.Dies?
    ensures CommitsBehindCursor(Handle(s, v, outcome))
  {
    var h := s.history;
    HandleShape(s, v, outcome);
    assert Committed(v) !in h;
    if outcome.BodyRaises? {
      QuietKeepsCommits(s, Handle(s, v, outcome), [Raised(Cause(s, v))]);
    } else {
      CommitsSnoc(h, Fate(s, v));
      CommitsSnoc(h + [Fate(s, v)], Passed(v));
      assert h + [Fate(s, v), Passed(v)] == h + [Fate(s, v)] + [Passed(v)];
    }
  }

  lemma NextKeepsCommits(s: State, step: Step, log: seq<Event>)
    requires IsLog(log) && Safe(s, log) && CommitsBehindCursor(s) && Forward(s, step) && NoFaultAfterCommit(step)
    ensures CommitsBehindCursor(Next(s, step, log))
  {
    if IsTurn(s, step, log) {
      TurnShape(s, step, log);
      HandleKeepsCommits(s, Turned(s, step, log), step.outcome);
    } else {
      NextIsOnward(s, step, log);
      QuietShape(s, step, log);
      QuietKeepsCommits(s, Next(s, step, log), Quiet(s, step));
    }
  }

  /** All steps of a run satisfy a condition that may depend on the state they start in. */
  ghost predicate ForwardRun(s: State, steps: seq<Step>, log: seq<Event>) {
    forall i :: 0 <= i < |steps| ==> Forward(Run(s, steps[..i], log), steps[i])
  }

  lemma ForwardPrefix(s: State, steps: seq<Step>, log: seq<Event>)
    requires steps != [] && ForwardRun(s, steps, log)
    ensures ForwardRun(s, steps[..|steps| - 1], log)
    ensures Forward(Run(s, steps[..|steps| - 1], log), steps[|steps| - 1])
  {
    var init := steps[..|steps| - 1];
    assert forall i :: 0 <= i < |init| ==> init[..i] == steps[..i] && init[i] == steps[i];
  }

  ghost predicate NoFaultRun(steps: seq<Step>) {
    forall i :: 0 <= i < |steps| ==> NoFaultAfterCommit(steps[i])
  }

  /** In every run whose rewinds are forward, the cursor never moves back and a handler that keeps raising is
      called at most MAX_ATTEMPTS times for one event by one process; if moreover no fault falls between a commit and
      the cursor write, no event is committed twice. */
  lemma {:induction false} BoundedAttemptsAndSingleCommit(cursor: Option<int>, steps: seq<Step>, log: seq<Event>)
    requires IsLog(log) && ForwardRun(Initial(cursor), steps, log)
    ensures var s := Run(Initial(cursor), steps, log);
            && Bounded(s, log)
            && (cursor.Some? ==> s.cursor.Some? && cursor.value <= s.cursor.value)
            && (NoFaultRun(steps) ==> CommitsBehindCursor(s))
  {
    if steps != [] {
      var init, last := steps[..|steps| - 1], steps[|steps| - 1];
      ForwardPrefix(Initial(cursor), steps, log);
      BoundedAttemptsAndSingleCommit(cursor, init, log);
      RunKeepsSafe(cursor, init, log);
      var s := Run(Initial(cursor), init, log);
      NextKeepsBounded(s, last, log);
      if NoFaultRun(steps) {
        NextKeepsCommits(s, last, log);
      }
    }
  }

  /** The note behind a commit when the cursor was not written. */
  predicate IsFault(n: Note) {
    n == Raised(None) || n.Restarted?
  }

  /** Behind every commit there is a fault, or the cursor has passed the event. */
  ghost predicate Settled(s: State) {
    forall i :: 0 <= i < |s.history| ==> SettledAt(s, i)
  }

  ghost predicate SettledAt(s: State, i: int)
    requires 0 <= i < |s.history|
  {
    var h := s.history;
    h[i].Committed? ==> i + 1 < |h| && (IsFault(h[i + 1]) || (s.cursor.Some? && h[i].version <= s.cursor.value))
  }

  /** An event is committed again only behind a fault. */
  ghost predicate RepeatsAreFaulted(h: seq<Note>) {
    forall i, j :: 0 <= i < j < |h| ==> RepeatIsFaulted(h, i, j)
  }

  ghost predicate RepeatIsFaulted(h: seq<Note>, i: int, j: int)
    requires 0 <= i < j < |h|
  {
    h[i].Committed? && h[i] == h[j] ==> IsFault(h[i + 1])
  }

  lemma QuietKeepsSettled(s: State, t: State, notes: seq<Note>)
    requires Settled(s) && RepeatsAreFaulted(s.history) && Onward(s, t)
    requires t.history == s.history + notes && forall i :: 0 <= i < |notes| ==> !notes[i].Committed?
    ensures Settled(t) && RepeatsAreFaulted(t.history)
  {
    var h, g := s.history, t.history;
    forall i | 0 <= i < |g| ensures SettledAt(t, i) {
      if i < |h| {
        assert SettledAt(s, i);
      }
    }
    forall i, j | 0 <= i < j < |g| ensures RepeatIsFaulted(g, i, j) {
      if j < |h| {
        assert RepeatIsFaulted(h, i, j);
      }
    }
  }

  lemma CommitKeepsSettled(s: State, t: State, v: int, last: Note)
    requires Settled(s) && RepeatsAreFaulted(s.history) && Onward(s, t) && s.cursor.Some? && s.cursor.value < v
    requires t.history == s.history + [Committed(v), last]
    requires IsFault(last) || (last == Passed(v) && t.cursor == Some(v))
    ensures Settled(t) && RepeatsAreFaulted(t.history)
  {
    var h, g := s.history, t.history;
    forall i | 0 <= i < |g| ensures SettledAt(t, i) {
      if i < |h| {
        assert SettledAt(s, i);
      }
    }
    forall i, j | 0 <= i < j < |g| ensures RepeatIsFaulted(g, i, j) {
      if j < |h| {
        assert RepeatIsFaulted(h, i, j);
      } else if i < |h| {
        assert SettledAt(s, i);
      }
    }
  }

  lemma TurnKeepsSettled(s: State, v: int, outcome: Outcome)
    requires Settled(s) && RepeatsAreFaulted(s.history) && s.cursor.Some? && s.cursor.value < v
    ensures Settled(Handle(s, v, outcome)) && RepeatsAreFaulted(Handle(s, v, outcome).history)
  {
    var t := Handle(s, v, outcome);
    HandleShape(s, v, outcome);
    if outcome.BodyRaises? {
      QuietKeepsSettled(s, t, [Raised(Cause(s, v))]);
    } else if s.retry < MAX_ATTEMPTS {
      CommitKeepsSettled(s, t, v, After(v, outcome));
    } else {
      QuietKeepsSettled(s, t, [Skipped(v), After(v, outcome)]);
    }
  }

  lemma NextKeepsSettled(s: State, step: Step, log: seq<Event>)
    requires IsLog(log) && Safe(s, log) && Forward(s, step) && Settled(s) && RepeatsAreFaulted(s.history)
    ensures Settled(Next(s, step, log)) && RepeatsAreFaulted(Next(s, step, log).history)
  {
    if IsTurn(s, step, log) {
      TurnShape(s, step, log);
      TurnKeepsSettled(s, Turned(s, step, log), step.outcome);
    } else {
      NextIsOnward(s, step, log);
      QuietShape(s, step, log);
      QuietKeepsSettled(s, Next(s, step, log), Quiet(s, step));
    }
  }

  /** In every run with forward rewinds, an event is committed again only if the cursor was not written behind its
      earlier commit. */
  lemma {:induction false} RepeatNeedsFault(cursor: Option<int>, steps: seq<Step>, log: seq<Event>)
    requires IsLog(log) && ForwardRun(Initial(cursor), steps, log)
    ensures var s := Run(Initial(cursor), steps, log); Settled(s) && RepeatsAreFaulted(s.history)
  {
    if steps != [] {
      var init := steps[..|steps| - 1];
      ForwardPrefix(Initial(cursor), steps, log);
      RepeatNeedsFault(cursor, init, log);
      RunKeepsSafe(cursor, init, log);
      NextKeepsSettled(Run(Initial(cursor), init, log), steps[|steps| - 1], log);
    }
  }

  /** A committed event that the cursor has not passed is the next one to be handed out. */
  ghost predicate NextIfOpen(s: State, log: seq<Event>, v: int) {
    Committed(v) in s.history ==> s.cursor.Some? && (s.cursor.value < v ==> FirstUp(log, s.cursor.value, v))
  }

  lemma QuietKeepsOpen(s: State, t: State, notes: seq<Note>, log: seq<Event>, v: int)
    requires NextIfOpen(s, log, v) && Onward(s, t) && t.history == s.history + notes && Committed(v) !in notes
    ensures NextIfOpen(t, log, v)
  {
  }

  lemma TurnKeepsOpen(s: State, u: int, outcome: Outcome, log: seq<Event>, v: int)
    requires NextIfOpen(s, log, v) && s.cursor.Some? && FirstUp(log, s.cursor.value, u)
    ensures NextIfOpen(Handle(s, u, outcome), log, v)
  {
    var t := Handle(s, u, outcome);
    HandleShape(s, u, outcome);
    if v != u {
      QuietKeepsOpen(s, t, if outcome.BodyRaises? then [Raised(Cause(s, u))] else [Fate(s, u), After(u, outcome)], log, v);
    }
  }

  lemma {:induction false} RunKeepsOpen(cursor: Option<int>, steps: seq<Step>, log: seq<Event>, v: int)
    requires IsLog(log) && ForwardRun(Initial(cursor), steps, log)
    ensures NextIfOpen(Run(Initial(cursor), steps, log), log, v)
  {
    if steps != [] {
      var init, step := steps[..|steps| - 1], steps[|steps| - 1];
      ForwardPrefix(Initial(cursor), steps, log);
      RunKeepsOpen(cursor, init, log, v);
      RunKeepsSafe(cursor, init, log);
      var s := Run(Initial(cursor), init, log);
      if IsTurn(s, step, log) {
        TurnShape(s, step, log);
        TurnKeepsOpen(s, Turned(s, step, log), step.outcome, log, v);
      } else {
        NextIsOnward(s, step, log);
        QuietShape(s, step, log);
        QuietKeepsOpen(s, Next(s, step, log), Quiet(s, step), log, v);
      }
    }
  }

  /** The steps `more` commit `v` once more. */
  ghost predicate CommitsAgain(s: State, more: seq<Step>, log: seq<Event>, v: int) {
    var h, g := s.history, Run(s, more, log).history;
    exists i :: |h| <= i < |g| && g[i] == Committed(v)
  }

  lemma {:induction false} RunCons(s: State, step: Step, steps: seq<Step>, log: seq<Event>)
    ensures Run(s, [step] + steps, log) == Run(Next(s, step, log), steps, log)
  {
    RunConcat(s, [step], steps, log);
    assert [step][..0] == [];
    assert Run(s, [step], log) == Next(Run(s, [step][..0], log), step, log);
  }

  /** A connection reaches the first event after the cursor: it receives the filtered ones in front of it, and
      commits it. */
  lemma {:induction false} Reaches(s: State, v: int, log: seq<Event>) returns (more: seq<Step>)
    requires IsLog(log) && s.conn.Open? && s.cursor.Some? && s.retry < MAX_ATTEMPTS
    requires FirstUp(log, s.cursor.value, v) && s.cursor.value <= s.conn.pos < v
    ensures forall i :: 0 <= i < |more| ==> more[i] == Receive(Fine)
    ensures Run(s, more, log).history == s.history + [Committed(v), Passed(v)]
    decreases v - s.conn.pos
  {
    var pos := s.conn.pos;
    NextEventIsNext(log, pos);
    assert Event(v, false) in log;
    var e := NextEvent(log, pos).value;
    var t := Next(s, Receive(Fine), log);
    if e.filtered {
      assert e != Event(v, false);
      var rest := Reaches(t, v, log);
      more := [Receive(Fine)] + rest;
      RunCons(s, Receive(Fine), rest, log);
    } else {
      assert e == Event(e.version, false) && Unfiltered(log, e.version);
      HandleShape(s, v, Fine);
      more := [Receive(Fine)];
      RunCons(s, Receive(Fine), [], log);
      assert more == [Receive(Fine)] + [];
    }
  }

  /** After a restart the event is committed again. */
  lemma OpenIsCommittedAgain(s: State, v: int, log: seq<Event>) returns (more: seq<Step>)
    requires IsLog(log) && s.cursor.Some? && FirstUp(log, s.cursor.value, v)
    ensures NoFaultRun(more) && ForwardRun(s, more, log) && CommitsAgain(s, more, log, v)
  {
    var r := Next(s, Restart, log);
    var c := Next(r, Connect(0), log);
    var rest := Reaches(c, v, log);
    more := [Restart] + ([Connect(0)] + rest);
    RunCons(s, Restart, [Connect(0)] + rest, log);
    RunCons(r, Connect(0), rest, log);
    var g := Run(s, more, log).history;
    assert g == s.history + [] + [Restarted] + [Committed(v), Passed(v)];
    assert g[|s.history| + 1] == Committed(v);
  }

  /** Behind the cursor nothing is committed any more. */
  lemma {:induction false} PassedStaysPassed(s: State, more: seq<Step>, log: seq<Event>, v: int)
    requires IsLog(log) && Safe(s, log) && ForwardRun(s, more, log) && s.cursor.Some? && v <= s.cursor.value
    ensures var t := Run(s, more, log);
            && Safe(t, log) && t.cursor.Some? && v <= t.cursor.value
            && s.history <= t.history && !CommitsAgain(s, more, log, v)
  {
    if more != [] {
      var init, step := more[..|more| - 1], more[|more| - 1];
      ForwardPrefix(s, more, log);
      PassedStaysPassed(s, init, log, v);
      var t := Run(s, init, log);
      NextKeepsSafe(t, step, log);
      NextIsOnward(t, step, log);
      NextCommitsAhead(t, step, log, v);
    }
  }

  lemma NextCommitsAhead(t: State, step: Step, log: seq<Event>, v: int)
    requires IsLog(log) && Safe(t, log) && t.cursor.Some? && v <= t.cursor.value
    ensures var h, g := t.history, Next(t, step, log).history;
            h <= g && forall i :: |h| <= i < |g| ==> g[i] != Committed(v)
  {
    if IsTurn(t, step, log) {
      TurnShape(t, step, log);
      HandleShape(t, Turned(t, step, log), step.outcome);
    } else {
      QuietShape(t, step, log);
    }
  }

  /** Some continuation without rewinds backwards and without a fault behind a commit commits `v` once more. */
  ghost predicate CanCommitAgain(s: State, log: seq<Event>, v: int) {
    exists more :: NoFaultRun(more) && ForwardRun(s, more, log) && CommitsAgain(s, more, log, v)
  }

  /** A fault came right behind each commit of `v`. */
  ghost predicate CommitsAreFaulted(h: seq<Note>, v: int) {
    forall i :: 0 <= i < |h| ==> CommitIsFaulted(h, i, v)
  }

  ghost predicate CommitIsFaulted(h: seq<Note>, i: int, v: int)
    requires 0 <= i < |h|
  {
    h[i] == Committed(v) ==> i + 1 < |h| && IsFault(h[i + 1])
  }

  lemma OpenMeansFaulted(s: State, v: int)
    requires Settled(s) && (s.cursor.Some? ==> s.cursor.value < v)
    ensures CommitsAreFaulted(s.history, v)
  {
    forall i | 0 <= i < |s.history| ensures CommitIsFaulted(s.history, i, v) {
      assert SettledAt(s, i);
    }
  }

  lemma PassedIsNotCommittedAgain(s: State, log: seq<Event>, v: int)
    requires IsLog(log) && Safe(s, log) && s.cursor.Some? && v <= s.cursor.value
    ensures !CanCommitAgain(s, log, v)
  {
    forall more | ForwardRun(s, more, log) ensures !CommitsAgain(s, more, log, v) {
      PassedStaysPassed(s, more, log, v);
    }
  }

  /** When an event is committed twice, exactly: after any run with forward rewinds, a committed event can be committed
      again, without any further fault, if and only if the cursor is still in front of it; and then a fault came right
      behind each of its commits. */
  lemma CommitsAgainIff(cursor: Option<int>, steps: seq<Step>, log: seq<Event>, v: int)
    requires IsLog(log) && ForwardRun(Initial(cursor), steps, log)
    ensures var s := Run(Initial(cursor), steps, log);
            Committed(v) in s.history ==>
              && s.cursor.Some?
              && (CanCommitAgain(s, log, v) <==> s.cursor.value < v)
              && (s.cursor.value < v ==> CommitsAreFaulted(s.history, v))
  {
    var s := Run(Initial(cursor), steps, log);
    RunKeepsOpen(cursor, steps, log, v);
    RunKeepsSafe(cursor, steps, log);
    RepeatNeedsFault(cursor, steps, log);
    if Committed(v) in s.history {
      if s.cursor.value < v {
        var more := OpenIsCommittedAgain(s, v, log);
        OpenMeansFaulted(s, v);
      } else {
        PassedIsNotCommittedAgain(s, log, v);
      }
    }
  }

  /** One connection and one turn for event 7. */
  lemma SevenTurn(s: State, outcome: Outcome, log: seq<Event>)
    requires log != [] && log[0] == Event(7, false) && s.cursor == Some(5) && s.conn == Closed
    ensures var t := Run(s, [Connect(5), Receive(outcome)], log);
            && (outcome.BodyRaises? ==>
                  && t.history == s.history + [Raised(Cause(s, 7))] && t.retry == s.retry + 1
                  && t.cursor == Some(5) && t.conn == Closed)
            && (!outcome.BodyRaises? ==> t.history == s.history + [Fate(s, 7), After(7, outcome)])
            && (outcome.CursorWriteRaises? ==> t.retry == s.retry + 1 && t.cursor == Some(5) && t.conn == Closed)
  {
    RunOfTwo(s, Connect(5), Receive(outcome), log);
    HandleShape(Next(s, Connect(5), log), 7, outcome);
  }

  /** A run in which the fault leads to a second commit. */
  lemma FaultAfterCommitRepeats()
    ensures var log := [Event(7, false)];
            var steps := [Connect(5), Receive(CursorWriteRaises)] + [Connect(5), Receive(Fine)];
            Run(Initial(Some(5)), steps, log).history == [Committed(7), Raised(None), Committed(7), Passed(7)]
  {
    var log := [Event(7, false)];
    var s0 := Initial(Some(5));
    SevenTurn(s0, CursorWriteRaises, log);
    RunConcat(s0, [Connect(5), Receive(CursorWriteRaises)], [Connect(5), Receive(Fine)], log);
    SevenTurn(Run(s0, [Connect(5), Receive(CursorWriteRaises)], log), Fine, log);
  }

  /** A run in which it does not: behind a commit in the last attempt the event is skipped. */
  lemma FaultInTheLastAttemptSkips()
    ensures var log := [Event(7, false)];
            var fails := Repeat([Connect(5), Receive(BodyRaises)], 9);
            var steps := fails + ([Connect(5), Receive(CursorWriteRaises)] + [Connect(5), Receive(Fine)]);
            Run(Initial(Some(5)), steps, log).history ==
            Run(Initial(Some(5)), fails, log).history + [Committed(7), Raised(None)] + [Skipped(7), Passed(7)]
  {
    var log := [Event(7, false)];
    var fails := Repeat([Connect(5), Receive(BodyRaises)], MAX_ATTEMPTS - 1);
    var s := Run(Initial(Some(5)), fails, log);
    FailingHandler(MAX_ATTEMPTS - 1, log);
    var fault, fine := [Connect(5), Receive(CursorWriteRaises)], [Connect(5), Receive(Fine)];
    RunConcat(Initial(Some(5)), fails, fault + fine, log);
    RunConcat(s, fault, fine, log);
    SevenTurn(s, CursorWriteRaises, log);
    SevenTurn(Run(s, fault, log), Fine, log);
  }

  // ---------------------------------------------------------------- whose failures justify a skip

  /** Where the exceptions since the cursor last moved came from: the handler of a version, or elsewhere. */
  function Causes(h: seq<Note>): seq<Option<int>> {
    if h == [] then [] else CausesWith(Causes(h[..|h| - 1]), h[|h| - 1])
  }

  function CausesWith(causes: seq<Option<int>>, n: Note): seq<Option<int>> {
    if n.Raised? then causes + [n.handler]
    else if n.Passed? || n.Rewound? || n.Restarted? then []
    else causes
  }

  /** How many of them came from the handler of `v`. */
  function Own(causes: seq<Option<int>>, v: int): nat {
    if causes == [] then 0
    else Own(causes[..|causes| - 1], v) + if causes[|causes| - 1] == Some(v) then 1 else 0
  }

  /** What a skip of `v` after the history `h` says about its handler: it is the only one that failed since the cursor
      last moved, and it failed MAX_ATTEMPTS times if and only if the first MAX_ATTEMPTS exceptions since then all came
      from a handler. */
  ghost predicate SkipExplained(h: seq<Note>, v: int) {
    var c := Causes(h);
    && (forall k :: 0 <= k < |c| && c[k].Some? ==> c[k] == Some(v))
    && Own(c, v) <= MAX_ATTEMPTS
    && (Own(c, v) == MAX_ATTEMPTS <==> |c| >= MAX_ATTEMPTS && forall k :: 0 <= k < MAX_ATTEMPTS ==> c[k].Some?)
  }

  ghost predicate SkipsExplained(h: seq<Note>) {
    forall i :: 0 <= i < |h| && h[i].Skipped? ==> SkipExplained(h[..i], h[i].version)
  }

  /** Handlers are called within the budget, and only for the first event after the cursor. */
  ghost predicate Traced(s: State, log: seq<Event>) {
    var c := Causes(s.history);
    && |c| <= s.retry
    && (forall k :: 0 <= k < |c| && c[k].Some? ==>
          && s.retry - |c| + k < MAX_ATTEMPTS
          && s.cursor.Some? && FirstUp(log, s.cursor.value, c[k].value))
  }

  lemma {:induction false} OwnCount(c: seq<Option<int>>, v: int, m: nat)
    requires forall k :: m <= k < |c| ==> c[k].None?
    requires forall k :: 0 <= k < |c| && c[k].Some? ==> c[k] == Some(v)
    ensures Own(c, v) <= m && Own(c, v) <= |c|
    ensures Own(c, v) == m <==> |c| >= m && forall k :: 0 <= k < m ==> c[k].Some?
    decreases |c|
  {
    if c != [] {
      var init := c[..|c| - 1];
      if |c| > m {
        OwnCount(init, v, m);
      } else {
        OwnCount(init, v, |init|);
        assert forall k :: 0 <= k < |init| ==> init[k] == c[k];
      }
    }
  }

  /** In a traced state a skip of the first event after the cursor is explained. */
  lemma TracedExplains(s: State, v: int, log: seq<Event>)
    requires Traced(s, log) && s.cursor.Some? && FirstUp(log, s.cursor.value, v)
    ensures SkipExplained(s.history, v)
  {
    var c := Causes(s.history);
    forall k | 0 <= k < |c| && c[k].Some? ensures c[k] == Some(v) {
      assert FirstUp(log, s.cursor.value, c[k].value);
    }
    OwnCount(c, v, MAX_ATTEMPTS);
  }

  lemma CausesSnoc(h: seq<Note>, n: Note)
    ensures Causes(h + [n]) == CausesWith(Causes(h), n)
    ensures SkipsExplained(h) && (n.Skipped? ==> SkipExplained(h, n.version)) ==> SkipsExplained(h + [n])
  {
    var g := h + [n];
    assert g[..|h|] == h;
    forall i | SkipsExplained(h) && (n.Skipped? ==> SkipExplained(h, n.version)) && 0 <= i < |g| && g[i].Skipped?
      ensures SkipExplained(g[..i], g[i].version)
    {
      assert g[..i] == h[..i];
    }
  }

  lemma CausesTwo(h: seq<Note>, note: Note, last: Note)
    requires SkipsExplained(h) && (note.Committed? || (note.Skipped? && SkipExplained(h, note.version)))
    requires !last.Skipped?
    ensures Causes(h + [note, last]) == CausesWith(Causes(h), last) && SkipsExplained(h + [note, last])
  {
    CausesSnoc(h, note);
    CausesSnoc(h + [note], last);
    assert h + [note, last] == h + [note] + [last];
  }

  lemma HandleKeepsTrace(s: State, v: int, outcome: Outcome, log: seq<Event>)
    requires Traced(s, log) && SkipsExplained(s.history) && s.cursor.Some? && FirstUp(log, s.cursor.value, v)
    ensures Traced(Handle(s, v, outcome), log) && SkipsExplained(Handle(s, v, outcome).history)
  {
    HandleShape(s, v, outcome);
    if outcome.BodyRaises? {
      CausesSnoc(s.history, Raised(Cause(s, v)));
    } else {
      TracedExplains(s, v, log);
      CausesTwo(s.history, Fate(s, v), After(v, outcome));
    }
  }

  /** A step that moves no event: nothing, one more exception from elsewhere, a cursor reset or a new process. */
  lemma QuietKeepsTrace(s: State, t: State, notes: seq<Note>, log: seq<Event>)
    requires Traced(s, log) && SkipsExplained(s.history) && t.history == s.history + notes
    requires notes == [] || notes == [Raised(None)] || notes == [Rewound] || notes == [Restarted]
    requires notes == [] ==> t.retry == s.retry
    requires notes == [Raised(None)] ==> t.retry == s.retry + 1
    requires s.cursor.Some? && (notes == [] || notes == [Raised(None)]) ==> t.cursor == s.cursor
    ensures Traced(t, log) && SkipsExplained(t.history)
  {
    if notes == [] {
      assert t.history == s.history;
    } else {
      CausesSnoc(s.history, notes[0]);
    }
  }

  lemma NextKeepsTrace(s: State, step: Step, log: seq<Event>)
    requires IsLog(log) && Safe(s, log) && Traced(s, log) && SkipsExplained(s.history)
    ensures Traced(Next(s, step, log), log) && SkipsExplained(Next(s, step, log).history)
  {
    if IsTurn(s, step, log) {
      TurnShape(s, step, log);
      HandleKeepsTrace(s, Turned(s, step, log), step.outcome, log);
    } else {
      QuietShape(s, step, log);
      QuietKeepsTrace(s, Next(s, step, log), Quiet(s, step), log);
    }
  }

  /** In every run, every skip is explained: the event whose handler failed since the cursor last moved is the skipped
      one, and its handler failed MAX_ATTEMPTS times if and only if none of the first MAX_ATTEMPTS exceptions came from
      elsewhere. */
  lemma {:induction false} SkipsExplainedInAnyRun(cursor: Option<int>, steps: seq<Step>, log: seq<Event>)
    requires IsLog(log)
    ensures var s := Run(Initial(cursor), steps, log); Traced(s, log) && SkipsExplained(s.history)
  {
    if steps != [] {
      var init := steps[..|steps| - 1];
      SkipsExplainedInAnyRun(cursor, init, log);
      RunKeepsSafe(cursor, init, log);
      NextKeepsTrace(Run(Initial(cursor), init, log), steps[|steps| - 1], log);
    }
  }

  /** The step is no fault of the connection or of the cursor write, and no rewind. */
  predicate HandlerFaultsOnly(step: Step) {
    && !step.ConnectRaises? && !step.ReceiveRaises? && !step.Forgotten?
    && (step.Receive? ==> !step.outcome.CursorWriteRaises?)
  }

  /** Every skipped event had MAX_ATTEMPTS failures of its own handler. */
  ghost predicate SkipsEarned(h: seq<Note>) {
    forall i :: 0 <= i < |h| && h[i].Skipped? ==> Own(Causes(h[..i]), h[i].version) == MAX_ATTEMPTS
  }

  /** All exceptions within the budget came from handlers. */
  ghost predicate BudgetIsHandlers(s: State) {
    var c := Causes(s.history);
    |c| == s.retry && forall k :: 0 <= k < |c| && k < MAX_ATTEMPTS ==> c[k].Some?
  }

  lemma EarnedSnoc(h: seq<Note>, n: Note)
    requires SkipsEarned(h) && (n.Skipped? ==> Own(Causes(h), n.version) == MAX_ATTEMPTS)
    ensures SkipsEarned(h + [n])
  {
    var g := h + [n];
    forall i | 0 <= i < |g| && g[i].Skipped? ensures Own(Causes(g[..i]), g[i].version) == MAX_ATTEMPTS {
      assert g[..i] == h[..i] && h[..|h|] == h;
    }
  }

  lemma EarnedTwo(h: seq<Note>, note: Note, last: Note)
    requires SkipsEarned(h) && (note.Committed? || (note.Skipped? && Own(Causes(h), note.version) == MAX_ATTEMPTS))
    requires last.Passed? || last.Restarted?
    ensures SkipsEarned(h + [note, last]) && Causes(h + [note, last]) == []
  {
    EarnedSnoc(h, note);
    EarnedSnoc(h + [note], last);
    CausesSnoc(h + [note], last);
    assert h + [note, last] == h + [note] + [last];
  }

  lemma HandleKeepsEarned(s: State, v: int, outcome: Outcome, log: seq<Event>)
    requires Traced(s, log) && s.cursor.Some? && FirstUp(log, s.cursor.value, v)
    requires BudgetIsHandlers(s) && SkipsEarned(s.history) && !outcome.CursorWriteRaises?
    ensures BudgetIsHandlers(Handle(s, v, outcome)) && SkipsEarned(Handle(s, v, outcome).history)
  {
    var h := s.history;
    HandleShape(s, v, outcome);
    if outcome.BodyRaises? {
      CausesSnoc(h, Raised(Cause(s, v)));
      EarnedSnoc(h, Raised(Cause(s, v)));
    } else {
      TracedExplains(s, v, log);
      EarnedTwo(h, Fate(s, v), After(v, outcome));
    }
  }

  lemma QuietKeepsEarned(s: State, t: State, notes: seq<Note>)
    requires BudgetIsHandlers(s) && SkipsEarned(s.history) && t.history == s.history + notes
    requires (notes == [] && t.retry == s.retry) || (notes == [Restarted] && t.retry == 0)
    ensures BudgetIsHandlers(t) && SkipsEarned(t.history)
  {
    if notes == [] {
      assert t.history == s.history;
    } else {
      CausesSnoc(s.history, Restarted);
      EarnedSnoc(s.history, Restarted);
    }
  }

  lemma NextKeepsEarned(s: State, step: Step, log: seq<Event>)
    requires IsLog(log) && Safe(s, log) && Traced(s, log) && HandlerFaultsOnly(step)
    requires BudgetIsHandlers(s) && SkipsEarned(s.history)
    ensures BudgetIsHandlers(Next(s, step, log)) && SkipsEarned(Next(s, step, log).history)
  {
    if IsTurn(s, step, log) {
      TurnShape(s, step, log);
      HandleKeepsEarned(s, Turned(s, step, log), step.outcome, log);
    } else {
      QuietShape(s, step, log);
      QuietKeepsEarned(s, Next(s, step, log), Quiet(s, step));
    }
  }

  /** When only handlers fail (and processes die), an event is skipped only after MAX_ATTEMPTS failures of its own
      handler. */
  lemma {:induction false} HandlerFaultsEarnSkips(cursor: Option<int>, steps: seq<Step>, log: seq<Event>)
    requires IsLog(log) && forall i :: 0 <= i < |steps| ==> HandlerFaultsOnly(steps[i])
    ensures var s := Run(Initial(cursor), steps, log); BudgetIsHandlers(s) && SkipsEarned(s.history)
  {
    if steps != [] {
      var init := steps[..|steps| - 1];
      HandlerFaultsEarnSkips(cursor, init, log);
      SkipsExplainedInAnyRun(cursor, init, log);
      RunKeepsSafe(cursor, init, log);
      NextKeepsEarned(Run(Initial(cursor), init, log), steps[|steps| - 1], log);
    }
  }

  /** Rewinds have to be left out there: the failures of one event are counted against the event behind a forward
      rewind, which is skipped without a call of its handler. */
  lemma RewindCarriesTheBudget()
    ensures var log := [Event(7, false), Event(2000, false)];
            var steps := Repeat([Connect(5), Receive(BodyRaises)], 10)
                         + ([Connect(5), Forgotten(2500)] + [Connect(5), Receive(Fine)]);
            var s := Run(Initial(Some(5)), steps, log);
            Skipped(2000) in s.history && Attempts(s.history, 2000) == 0 && Attempts(s.history, 7) == 10
  {
    var log := [Event(7, false), Event(2000, false)];
    var fails := Repeat([Connect(5), Receive(BodyRaises)], MAX_ATTEMPTS);
    var rewind, skip := [Connect(5), Forgotten(2500)], [Connect(5), Receive(Fine)];
    var s := Run(Initial(Some(5)), fails, log);
    FailingHandler(MAX_ATTEMPTS, log);
    RunConcat(Initial(Some(5)), fails, rewind + skip, log);
    RunConcat(s, rewind, skip, log);
    RewindTurn(s, log);
    SkipTurn(Run(s, rewind, log), log);
  }

  lemma RewindTurn(s: State, log: seq<Event>)
    requires s.cursor.Some? && s.conn == Closed
    ensures var t := Run(s, [Connect(5), Forgotten(2500)], log);
            && t.cursor == Some(1500) && t.conn == Closed && t.retry == s.retry
            && forall v :: Attempts(t.history, v) == Attempts(s.history, v)
  {
    RunOfTwo(s, Connect(5), Forgotten(2500), log);
    Snoc(s.history, Rewound);
  }

  lemma SkipTurn(s: State, log: seq<Event>)
    requires log == [Event(7, false), Event(2000, false)]
    requires s.cursor == Some(1500) && s.conn == Closed && s.retry >= MAX_ATTEMPTS
    ensures var t := Run(s, [Connect(5), Receive(Fine)], log);
            Skipped(2000) in t.history && forall v :: Attempts(t.history, v) == Attempts(s.history, v)
  {
    SkipTurnHistory(s, log);
    SkipCostsNoAttempt(s.history, 2000);
    assert (s.history + [Skipped(2000)] + [Passed(2000)])[|s.history|] == Skipped(2000);
  }

  lemma SkipTurnHistory(s: State, log: seq<Event>)
    requires log == [Event(7, false), Event(2000, false)]
    requires s.cursor == Some(1500) && s.conn == Closed && s.retry >= MAX_ATTEMPTS
    ensures Run(s, [Connect(5), Receive(Fine)], log).history == s.history + [Skipped(2000)] + [Passed(2000)]
  {
    RunOfTwo(s, Connect(5), Receive(Fine), log);
    assert log[1..][0] == Event(2000, false) && NextEvent(log, 1500) == NextEvent(log[1..], 1500);
    HandleShape(Next(s, Connect(5), log), 2000, Fine);
  }

  lemma SkipCostsNoAttempt(h: seq<Note>, u: int)
    ensures forall v :: Attempts(h + [Skipped(u)] + [Passed(u)], v) == Attempts(h, v)
  {
    Snoc(h, Skipped(u));
    Snoc(h + [Skipped(u)], Passed(u));
  }

  lemma FailTurn(s: State, log: seq<Event>)
    requires log != [] && log[0] == Event(7, false)
    requires s.cursor == Some(5) && s.conn == Closed && s.retry < MAX_ATTEMPTS
    ensures var t := Run(s, [Connect(5), Receive(BodyRaises)], log);
            && t.cursor == Some(5) && t.conn == Closed && t.retry == s.retry + 1
            && forall v :: Attempts(t.history, v) == Attempts(s.history, v) + if v == 7 then 1 else 0
  {
    SevenTurn(s, BodyRaises, log);
    Snoc(s.history, Raised(Some(7)));
  }

  lemma {:induction false} FailingHandler(n: nat, log: seq<Event>)
    requires n <= MAX_ATTEMPTS && log != [] && log[0] == Event(7, false)
    ensures var s := Run(Initial(Some(5)), Repeat([Connect(5), Receive(BodyRaises)], n), log);
            && s.cursor == Some(5) && s.conn == Closed && s.retry == n
            && Attempts(s.history, 7) == n && Attempts(s.history, 2000) == 0
  {
    if n > 0 {
      var turn := [Connect(5), Receive(BodyRaises)];
      FailingHandler(n - 1, log);
      RepeatSnoc(turn, n - 1);
      RunConcat(Initial(Some(5)), Repeat(turn, n - 1), turn, log);
      FailTurn(Run(Initial(Some(5)), Repeat(turn, n - 1), log), log);
    }
  }

  // ---------------------------------------------------------------- the number of handling turns

  /** Unfiltered events after the cursor. */
  function Pending(log: seq<Event>, c: int): nat {
    if log == [] then 0
    else Pending(log[1..], c) + if !log[0].filtered && log[0].version > c then 1 else 0
  }

  /** Turns still possible: each pending event may cost MAX_ATTEMPTS failures and one pass. */
  function Potential(s: State, log: seq<Event>): nat {
    if s.cursor.None? then (MAX_ATTEMPTS + 1) * |log|
    else if Pending(log, s.cursor.value) == 0 then 0
    else (MAX_ATTEMPTS + 1) * Pending(log, s.cursor.value) - if s.retry < MAX_ATTEMPTS then s.retry else MAX_ATTEMPTS
  }

  function Turns(s: State, steps: seq<Step>, log: seq<Event>): nat {
    if steps == [] then 0
    else
      var init := steps[..|steps| - 1];
      Turns(s, init, log) + if IsTurn(Run(s, init, log), steps[|steps| - 1], log) then 1 else 0
  }

  /** Turns that a fault outside the handler may cost: a death forgets the retries, a failing cursor write repeats the
      turn, and so does a failing notification of a skip. */
  function Charge(s: State, step: Step, log: seq<Event>): nat {
    if step.Restart? then MAX_ATTEMPTS
    else if IsTurn(s, step, log) then TurnCharge(s, step.outcome)
    else 0
  }

  function TurnCharge(s: State, outcome: Outcome): nat {
    match outcome
    case Dies => MAX_ATTEMPTS + 1
    case CursorWriteRaises => 1
    case BodyRaises => if s.retry < MAX_ATTEMPTS then 0 else 1
    case Fine => 0
  }

  function Charges(s: State, steps: seq<Step>, log: seq<Event>): nat {
    if steps == [] then 0
    else
      var init := steps[..|steps| - 1];
      Charges(s, init, log) + Charge(Run(s, init, log), steps[|steps| - 1], log)
  }

  lemma TurnsSnoc(s: State, steps: seq<Step>, step: Step, log: seq<Event>)
    ensures Run(s, steps + [step], log) == Next(Run(s, steps, log), step, log)
    ensures Turns(s, steps + [step], log) == Turns(s, steps, log) + if IsTurn(Run(s, steps, log), step, log) then 1 else 0
    ensures Charges(s, steps + [step], log) == Charges(s, steps, log) + Charge(Run(s, steps, log), step, log)
  {
    assert (steps + [step])[..|steps|] == steps;
  }

  /** One failing turn after any run that leaves the listener in front of event 7. */
  lemma FailureIsATurn(s: State, steps: seq<Step>, log: seq<Event>)
    requires log != [] && log[0] == Event(7, false)
    requires var t := Run(s, steps, log); t.cursor == Some(5) && t.conn == Closed && t.retry < 10
    ensures var more := steps + [Connect(5), Receive(BodyRaises)];
            Turns(s, more, log) == Turns(s, steps, log) + 1 && Charges(s, more, log) == Charges(s, steps, log)
  {
    TurnsSnoc(s, steps, Connect(5), log);
    TurnsSnoc(s, steps + [Connect(5)], Receive(BodyRaises), log);
    assert steps + [Connect(5)] + [Receive(BodyRaises)] == steps + [Connect(5), Receive(BodyRaises)];
  }

  /** A handler that fails `n` times costs `n` turns and is charged to nobody else. */
  lemma {:induction false} FailuresAreTurns(n: nat, log: seq<Event>)
    requires n <= 10 && log != [] && log[0] == Event(7, false)
    ensures var steps := Repeat([Connect(5), Receive(BodyRaises)], n);
            && Turns(Initial(Some(5)), steps, log) == n && Charges(Initial(Some(5)), steps, log) == 0
            && forall i :: 0 <= i < |steps| ==> HandlerFaultsOnly(steps[i])
  {
    if n > 0 {
      var turn := [Connect(5), Receive(BodyRaises)];
      FailuresAreTurns(n - 1, log);
      FailingHandler(n - 1, log);
      RepeatSnoc(turn, n - 1);
      FailureIsATurn(Initial(Some(5)), Repeat(turn, n - 1), log);
    }
  }

  lemma {:induction false} PendingShrinks(log: seq<Event>, c: int, d: int)
    requires c <= d
    ensures Pending(log, d) <= Pending(log, c) <= |log|
    ensures (exists v :: Unfiltered(log, v) && c < v <= d) ==> Pending(log, d) < Pending(log, c)
    ensures (exists v :: Unfiltered(log, v) && c < v) ==> Pending(log, c) > 0
  {
    if log != [] {
      PendingShrinks(log[1..], c, d);
      assert forall v :: Unfiltered(log, v) <==> log[0] == Event(v, false) || Unfiltered(log[1..], v);
    }
  }

  lemma TurnUsesPotential(s: State, v: int, outcome: Outcome, log: seq<Event>)
    requires s.cursor.Some? && FirstUp(log, s.cursor.value, v)
    ensures Potential(Handle(s, v, outcome), log) + 1 <= Potential(s, log) + TurnCharge(s, outcome)
  {
    HandleShape(s, v, outcome);
    PendingShrinks(log, s.cursor.value, v);
    PendingShrinks(log, s.cursor.value, s.cursor.value);
  }

  lemma QuietUsesPotential(s: State, t: State, log: seq<Event>)
    requires Onward(s, t) && t.retry >= s.retry
    ensures Potential(t, log) <= Potential(s, log)
  {
    if t.cursor.Some? {
      var c := if s.cursor.Some? then s.cursor.value else t.cursor.value;
      PendingShrinks(log, c, t.cursor.value);
    }
  }

  lemma RestartUsesPotential(s: State, t: State, log: seq<Event>)
    requires t.cursor == s.cursor && t.retry == 0
    ensures Potential(t, log) <= Potential(s, log) + MAX_ATTEMPTS
  {
  }

  lemma NextUsesPotential(s: State, step: Step, log: seq<Event>)
    requires IsLog(log) && Safe(s, log) && Forward(s, step)
    ensures Potential(Next(s, step, log), log) + (if IsTurn(s, step, log) then 1 else 0)
            <= Potential(s, log) + Charge(s, step, log)
  {
    if IsTurn(s, step, log) {
      TurnShape(s, step, log);
      TurnUsesPotential(s, Turned(s, step, log), step.outcome, log);
    } else if step.Restart? {
      RestartUsesPotential(s, Next(s, step, log), log);
    } else {
      NextIsOnward(s, step, log);
      QuietShape(s, step, log);
      QuietUsesPotential(s, Next(s, step, log), log);
    }
  }

  /** Progress: over a whole run the listener hands out at most MAX_ATTEMPTS + 1 turns per pending event (per event of
      the log, when no cursor was saved yet), whatever handlers and connections do, and what restarts, failing cursor
      writes and failing notifications of a skip cost; so the cursor gets past an event that always fails. */
  lemma {:induction false} TurnsAreBounded(cursor: Option<int>, steps: seq<Step>, log: seq<Event>)
    requires IsLog(log) && ForwardRun(Initial(cursor), steps, log)
    ensures var s0 := Initial(cursor);
            Turns(s0, steps, log) + Potential(Run(s0, steps, log), log) <= Potential(s0, log) + Charges(s0, steps, log)
    ensures cursor.Some? ==> Potential(Initial(cursor), log) == (MAX_ATTEMPTS + 1) * Pending(log, cursor.value)
  {
    var s0 := Initial(cursor);
    if steps != [] {
      var init, last := steps[..|steps| - 1], steps[|steps| - 1];
      ForwardPrefix(s0, steps, log);
      TurnsAreBounded(cursor, init, log);
      RunKeepsSafe(cursor, init, log);
      NextUsesPotential(Run(s0, init, log), last, log);
    }
  }

  // ---------------------------------------------------------------- the process

  /** The listener process: Redis holds `cursor`, the rest is local to the process. */
  class Process {
    const log: seq<Event>
    var cursor: Option<int>
    var start: Option<int>
    var conn: Connection
    var retry: nat
    var history: seq<Note>

    ghost function View(): State
      reads this
    {
      State(cursor, start, conn, retry, history)
    }

    constructor (log: seq<Event>, cursor: Option<int>)
      ensures this.log == log && View() == Initial(cursor)
    {
      this.log, this.cursor, start, conn, retry, history := log, cursor, cursor, Closed, 0, [];
    }

    method Raise(handler: Option<int>)
      modifies this
      ensures View() == RaisedAt(old(View()), [], handler)
    {
      conn, retry := Closed, retry + 1;
      history := history + [] + [Raised(handler)];
    }

    /** The end of the process and the start of another one. */
    method Revive()
      modifies this
      ensures View() == RestartedAt(old(View()), [])
    {
      conn, retry := Closed, 0;
      history := history + [] + [Restarted];
    }

    method Take(v: int, outcome: Outcome)
      modifies this
      ensures View() == Handle(old(View()), v, outcome)
    {
      conn := Open(v);
      var saved := if cursor.Some? then cursor.value else 0;
      if v > saved {
        var attempt := retry < MAX_ATTEMPTS;
        if outcome.BodyRaises? {
          Raise(if attempt then Some(v) else None);
          return;
        }
        history := history + [if attempt then Committed(v) else Skipped(v)];
        if outcome.CursorWriteRaises? {
          Raise(None);
          return;
        }
        if outcome.Dies? {
          Revive();
          return;
        }
        cursor := Some(v);
        history := history + [Passed(v)];
      }
      retry := 0;
    }

    /** The start of the outer loop's body: the cursor, asked for when there is none, the connection, and the cursor
        saved again. */
    method Dial(listed: int)
      requires conn.Closed?
      modifies this
      ensures View() == Next(old(View()), Connect(listed), log)
    {
      if cursor.None? {
        cursor := Some(listed);
      }
      if start.None? {
        start := cursor;
      }
      conn := Open(cursor.value);
    }

    /** The inner loop, from position `i` of the environment's choices on. It is left by the break behind a reset of the
        cursor, or by whatever throws the process out of it. A choice that is about connecting means nothing here. */
    method Follow(steps: seq<Step>, i: nat) returns (j: nat)
      requires i <= |steps| && conn.Open?
      modifies this
      ensures i <= j <= |steps| && (j < |steps| ==> conn.Closed?)
      ensures View() == Run(old(View()), steps[i..j], log)
    {
      j := i;
      while j < |steps|
        invariant i <= j <= |steps| && conn.Open?
        invariant View() == Run(old(View()), steps[i..j], log)
      {
        RunSlice(old(View()), steps, i, j, log);
        var choice := steps[j];
        j := j + 1;
        match choice
        case ReceiveRaises =>
          Raise(None);
          break;
        case Restart =>
          Revive();
          break;
        case Forgotten(listed) =>
          cursor, conn := Some(listed - MAX_ETCD_VERSIONS), Closed;
          history := history + [Rewound];
          break;
        case Receive(outcome) =>
          var e := NextEvent(log, conn.pos);
          if e.Some? {
            if e.value.filtered {
              conn := Open(e.value.version);
              continue;
            }
            Take(e.value.version, outcome);
            if conn.Closed? {
              break;
            }
          }
        case _ =>
      }
    }

    /** The outer loop: connect, with `continue` when the connection is refused, then the inner loop; an exception from
        either comes back here. */
    method Listen(steps: seq<Step>)
      requires conn.Closed?
      modifies this
      ensures View() == Run(old(View()), steps, log)
    {
      var i := 0;
      while i < |steps|
        invariant i <= |steps| && (i < |steps| ==> conn.Closed?)
        invariant View() == Run(old(View()), steps[..i], log)
        decreases |steps| - i
      {
        assert steps[..i + 1][..i] == steps[..i];
        var choice := steps[i];
        i := i + 1;
        match choice
        case ConnectRefused =>
          continue;
        case ConnectRaises =>
          Raise(None);
        case Restart =>
          Revive();
        case Connect(listed) =>
          Dial(listed);
          var j := Follow(steps, i);
          RunConcat(old(View()), steps[..i], steps[i..j], log);
          assert steps[..i] + steps[i..j] == steps[..j];
          i := j;
        case _ =>
      }
      assert steps[..|steps|] == steps;
    }
  }

  lemma RunSlice(s: State, steps: seq<Step>, i: nat, j: nat, log: seq<Event>)
    requires i <= j < |steps|
    ensures Run(s, steps[i..j + 1], log) == Next(Run(s, steps[i..j], log), steps[j], log)
  {
    assert steps[i..j + 1][..j - i] == steps[i..j];
  }
}
