/** The multi-threaded run of search.c as a state machine: every step is one access to shared
    memory, and a run is any sequence of steps of any of the threads, of the polling main
    thread and of whoever cancels all searches. */
module SearchThreads {
  import opened Wrappers
  import opened SeedMix
  import opened Words

  /** The arguments of a run. `accept` is what probing a seed answers. */
  datatype Config = Config(
    n: nat, start: nat, perThread: nat, excluded: set<nat>, accept: nat -> bool, counter0: nat)
  {
    function Seed(t: nat, i: nat): nat {
      SeedOf(start, t, i, n)
    }

    predicate Excluded(t: nat, i: nat) {
      Seed(t, i) in excluded
    }

    predicate Accepted(t: nat, i: nat) {
      !Excluded(t, i) && accept(Seed(t, i))
    }

    /** Round i of thread t needs no further attention: its seed is excluded or was refused. */
    predicate Refused(t: nat, i: nat) {
      Excluded(t, i) || !accept(Seed(t, i))
    }
  }

  /** Where a worker thread stands: the three flag reads at the head of the loop, the probe, the
      periodic flush, the race for the found flag, the write of the result, and the way out. */
  datatype Pc = ReadCancel | ReadFound | ReadGlobal | Probe | Flush | Race | Write | Tally | AddFinal | Leave | Done

  /** A thread's round, its private tally, and for the record what it has added to the shared
      counter and how many probes it has made. */
  datatype Thread = Thread(pc: Pc, i: nat, local: nat, flushed: nat, probes: nat)

  datatype MainPc = PollFound | PollGlobal | PollActive | PollTime | Join | Finished

  datatype State = State(
    threads: seq<Thread>,
    cancel: bool,
    found: bool,
    global: bool,
    active: int,
    total: nat,
    result: Option<nat>,
    writes: nat,
    winner: Option<nat>,
    main: MainPc,
    outcome: int,
    exhausted: bool,
    tested: nat)

  datatype Move = Worker(t: nat) | Main(timeUp: bool) | CancelAll

  function Init(c: Config): State {
    State(seq(c.n, _ => Thread(ReadCancel, 0, 0, 0, 0)), false, false, false, c.n, c.counter0,
          None, 0, None, PollFound, 0, false, 0)
  }

  predicate AllDone(s: State) {
    forall t :: 0 <= t < |s.threads| ==> s.threads[t].pc.Done?
  }

  predicate Enabled(c: Config, s: State, m: Move) {
    match m
    case Worker(t) => t < |s.threads| && !s.threads[t].pc.Done?
    case Main(_) => !s.main.Finished? && (s.main.Join? ==> AllDone(s))
    case CancelAll => true
  }

  /** What one step of run_thread does to the thread itself. */
  function NextThread(c: Config, s: State, t: nat): Thread
    requires t < |s.threads|
  {
    var th := s.threads[t];
    match th.pc
    case ReadCancel => th.(pc := if th.i >= c.perThread || s.cancel then AddFinal else ReadFound)
    case ReadFound => th.(pc := if s.found then AddFinal else ReadGlobal)
    case ReadGlobal => th.(pc := if s.global then AddFinal else Probe)
    case Probe =>
      if c.Excluded(t, th.i) then th.(i := th.i + 1, pc := ReadCancel)
      else if c.accept(c.Seed(t, th.i)) then th.(pc := Race, probes := th.probes + 1)
      else if (th.local + 1) % 64 == 0 then th.(pc := Flush, local := th.local + 1, probes := th.probes + 1)
      else th.(i := th.i + 1, pc := ReadCancel, local := th.local + 1, probes := th.probes + 1)
    case Flush => th.(i := th.i + 1, pc := ReadCancel, local := 0, flushed := th.flushed + th.local)
    case Race => th.(pc := if s.found then Tally else Write)
    case Write => th.(pc := Tally)
    case Tally => th.(pc := AddFinal, local := th.local + 1)
    case AddFinal => th.(pc := Leave, local := 0, flushed := th.flushed + th.local)
    case Leave => th.(pc := Done)
    case Done => th
  }

  /** One step of run_thread, with what it does to the shared variables: the compare-and-swap
      on the found flag, the write of the result, and the two counters. */
  function WorkerStep(c: Config, s: State, t: nat): State
    requires t < |s.threads|
  {
    var th := s.threads[t];
    s.(threads := s.threads[t := NextThread(c, s, t)],
       found := s.found || th.pc.Race?,
       winner := if th.pc.Race? && !s.found then Some(t) else s.winner,
       result := if th.pc.Write? then Some(c.Seed(t, th.i)) else s.result,
       writes := if th.pc.Write? then s.writes + 1 else s.writes,
       total := if th.pc.Flush? || th.pc.AddFinal? then s.total + th.local else s.total,
       active := if th.pc.Leave? then s.active - 1 else s.active)
  }

  /** One step of the polling loop of search_run, and what follows the join. */
  function MainStep(s: State, timeUp: bool): State {
    match s.main
    case PollFound => if s.found then s.(outcome := 1, main := Join) else s.(main := PollGlobal)
    case PollGlobal => if s.global then s.(cancel := true, outcome := -1, main := Join) else s.(main := PollActive)
    case PollActive => if s.active == 0 then s.(outcome := 0, exhausted := true, main := Join) else s.(main := PollTime)
    case PollTime => if timeUp then s.(cancel := true, outcome := 0, main := Join) else s.(main := PollFound)
    case Join => s.(tested := s.total, main := Finished)
    case Finished => s
  }

  function Apply(c: Config, s: State, m: Move): State
    requires Enabled(c, s, m)
  {
    match m
    case Worker(t) => WorkerStep(c, s, t)
    case Main(timeUp) => MainStep(s, timeUp)
    case CancelAll => s.(global := true)
  }

  /** The states that some sequence of moves leads to. */
  ghost predicate Reaches(c: Config, moves: seq<Move>, s: State)
    decreases |moves|
  {
    if moves == [] then s == Init(c)
    else
      var k := |moves| - 1;
      exists s0 :: Reaches(c, moves[..k], s0) && Enabled(c, s0, moves[k]) && s == Apply(c, s0, moves[k])
  }

  // ----- sums over the threads

  function Flushed(threads: seq<Thread>): nat {
    if threads == [] then 0 else threads[0].flushed + Flushed(threads[1..])
  }

  function Probes(threads: seq<Thread>): nat {
    if threads == [] then 0 else threads[0].probes + Probes(threads[1..])
  }

  function Running(threads: seq<Thread>): nat {
    if threads == [] then 0 else (if threads[0].pc.Done? then 0 else 1) + Running(threads[1..])
  }

  lemma {:induction false} SumsUpdate(threads: seq<Thread>, t: nat, th: Thread)
    requires t < |threads|
    ensures Flushed(threads[t := th]) == Flushed(threads) - threads[t].flushed + th.flushed
    ensures Running(threads[t := th])
            == Running(threads) - (if threads[t].pc.Done? then 0 else 1) + (if th.pc.Done? then 0 else 1)
  {
    if t > 0 {
      SumsUpdate(threads[1..], t - 1, th);
      assert threads[t := th][1..] == threads[1..][t - 1 := th];
    }
  }

  lemma {:induction false} SumsDone(threads: seq<Thread>)
    requires forall t :: 0 <= t < |threads| ==> threads[t].pc.Done? && threads[t].flushed == threads[t].probes
    ensures Flushed(threads) == Probes(threads) && Running(threads) == 0
  {
    if threads != [] {
      SumsDone(threads[1..]);
    }
  }

  lemma {:induction false} NoneRunning(threads: seq<Thread>)
    requires Running(threads) == 0
    ensures forall t :: 0 <= t < |threads| ==> threads[t].pc.Done?
  {
    if threads != [] {
      NoneRunning(threads[1..]);
      assert forall t :: 1 <= t < |threads| ==> threads[t] == threads[1..][t - 1];
    }
  }

  lemma {:induction false} SumsInit(n: nat)
    ensures var s := seq(n, _ => Thread(ReadCancel, 0, 0, 0, 0)); Flushed(s) == 0 && Running(s) == n
  {
    var s := seq(n, _ => Thread(ReadCancel, 0, 0, 0, 0));
    if n > 0 {
      SumsInit(n - 1);
      assert s[1..] == seq(n - 1, _ => Thread(ReadCancel, 0, 0, 0, 0));
    }
  }

  // ----- the invariant

  predicate InLoop(pc: Pc) {
    pc.ReadFound? || pc.ReadGlobal? || pc.Probe? || pc.Flush? || pc.Race? || pc.Write? || pc.Tally?
  }

  /** What is true of one thread at any time. */
  ghost predicate ThreadInv(c: Config, s: State, t: nat)
    requires t < |s.threads|
  {
    var th := s.threads[t];
    && th.i <= c.perThread && (InLoop(th.pc) ==> th.i < c.perThread)
    && (forall k :: 0 <= k < th.i ==> c.Refused(t, k))
    && (th.pc.Race? || th.pc.Write? || th.pc.Tally? ==> c.Accepted(t, th.i))
    && (th.pc.Flush? ==> c.Refused(t, th.i))
    && th.probes == th.flushed + th.local + (if th.pc.Race? || th.pc.Write? || th.pc.Tally? then 1 else 0)
    && (th.pc.Leave? || th.pc.Done? ==> th.local == 0)
    && (th.pc.AddFinal? || th.pc.Leave? || th.pc.Done? ==> th.i == c.perThread || s.found || s.cancel || s.global)
    && (th.pc.Tally? ==> s.found)
    && (th.pc.Write? ==> s.winner == Some(t))
    && (c.perThread == 0 ==> th.probes == 0)
    && th.local <= (if th.pc.Flush? || th.pc.AddFinal? then 64 else 63) && (th.pc.Flush? ==> th.local == 64)
    && (th.pc.Leave? || th.pc.Done? || th.flushed % 64 == 0)
  }

  /** The result, once written, is the accepted seed of the round in which the winner stopped. */
  ghost predicate GoodResult(c: Config, s: State, seed: nat) {
    exists t, i :: IsRound(c, t, i) && seed == c.Seed(t, i) && c.Accepted(t, i)
  }

  predicate IsRound(c: Config, t: nat, i: nat) {
    t < c.n && i < c.perThread
  }

  ghost predicate Inv(c: Config, s: State) {
    && |s.threads| == c.n
    && (forall t :: 0 <= t < c.n ==> ThreadInv(c, s, t))
    && (s.found <==> s.winner.Some?)
    && (s.winner.Some? ==> s.winner.value < c.n && (s.result.Some? <==> !s.threads[s.winner.value].pc.Write?))
    && (s.result.Some? ==> s.winner.Some? && GoodResult(c, s, s.result.value))
    && s.writes == (if s.result.Some? then 1 else 0)
    && s.total == c.counter0 + Flushed(s.threads)
    && s.active == Running(s.threads)
    && (s.outcome == 1 ==> s.found)
    && (s.exhausted ==> AllDone(s) && !s.cancel)
    && (s.main.Finished? ==> AllDone(s) && s.tested == s.total)
    && (s.outcome == 0 && (s.main.Join? || s.main.Finished?) ==> s.exhausted || s.cancel)
    && (!s.main.Join? && !s.main.Finished? ==> s.outcome == 0 && !s.exhausted && !s.cancel)
  }

  lemma InitInv(c: Config)
    ensures Inv(c, Init(c))
  {
    SumsInit(c.n);
  }

  /** A worker's step keeps what is true of it and of every other thread. */
  lemma WorkerKeepsThread(c: Config, s: State, t: nat, u: nat)
    requires Inv(c, s) && t < |s.threads| && !s.threads[t].pc.Done? && u < |s.threads|
    ensures ThreadInv(c, WorkerStep(c, s, t), u)
  {
    hide SeedOf;
    hide Flushed;
    hide Running;
    assert ThreadInv(c, s, u);
    assert ThreadInv(c, s, t);
  }

  lemma WorkerKeepsResult(c: Config, s: State, t: nat)
    requires Inv(c, s) && t < |s.threads| && !s.threads[t].pc.Done?
    ensures
      var s' := WorkerStep(c, s, t);
      && (s'.winner.Some? ==> s'.winner.value < c.n && (s'.result.Some? <==> !s'.threads[s'.winner.value].pc.Write?))
      && (s'.result.Some? ==> s'.winner.Some? && GoodResult(c, s', s'.result.value))
      && s'.writes == (if s'.result.Some? then 1 else 0)
  {
    hide SeedOf;
    hide Flushed;
    hide Running;
    assert ThreadInv(c, s, t);
    var s' := WorkerStep(c, s, t);
    if s.threads[t].pc.Write? {
      assert IsRound(c, t, s.threads[t].i);
    } else if s.result.Some? {
      var t', i' :| IsRound(c, t', i') && s.result.value == c.Seed(t', i') && c.Accepted(t', i');
      assert IsRound(c, t', i');
    }
  }

  lemma WorkerKeepsInv(c: Config, s: State, t: nat)
    requires Inv(c, s) && t < |s.threads| && !s.threads[t].pc.Done?
    ensures Inv(c, WorkerStep(c, s, t))
  {
    hide SeedOf;
    hide GoodResult;
    var s' := WorkerStep(c, s, t);
    SumsUpdate(s.threads, t, s'.threads[t]);
    WorkerKeepsResult(c, s, t);
    assert !AllDone(s);
    forall u | 0 <= u < c.n
      ensures ThreadInv(c, s', u)
    {
      WorkerKeepsThread(c, s, t, u);
    }
    hide ThreadInv;
  }

  lemma SameResult(c: Config, s: State, s': State)
    requires s'.result == s.result && (s.result.Some? ==> GoodResult(c, s, s.result.value))
    ensures s'.result.Some? ==> GoodResult(c, s', s'.result.value)
  {
  }

  lemma MainKeepsInv(c: Config, s: State, timeUp: bool)
    requires Inv(c, s) && Enabled(c, s, Main(timeUp))
    ensures Inv(c, MainStep(s, timeUp))
  {
    hide SeedOf;
    hide GoodResult;
    hide Flushed;
    hide Running;
    var s' := MainStep(s, timeUp);
    assert s'.threads == s.threads && s'.winner == s.winner && s'.result == s.result;
    assert s'.result.Some? ==> GoodResult(c, s', s'.result.value) by {
      SameResult(c, s, s');
    }
    forall u | 0 <= u < c.n
      ensures ThreadInv(c, s', u)
    {
      assert ThreadInv(c, s, u);
    }
    if s.main.PollActive? && s.active == 0 {
      NoneRunning(s.threads);
    }
  }

  /** Every state of every run satisfies the invariant. */
  lemma {:induction false} RunInv(c: Config, moves: seq<Move>, s: State)
    requires Reaches(c, moves, s)
    ensures Inv(c, s)
    decreases |moves|
  {
    hide Inv, WorkerStep, MainStep;
    if moves == [] {
      InitInv(c);
    } else {
      var k := |moves| - 1;
      var s0 :| Reaches(c, moves[..k], s0) && Enabled(c, s0, moves[k]) && s == Apply(c, s0, moves[k]);
      RunInv(c, moves[..k], s0);
      match moves[k]
      case Worker(t) => WorkerKeepsInv(c, s0, t);
      case Main(timeUp) => MainKeepsInv(c, s0, timeUp);
      case CancelAll => CancelKeepsInv(c, s0);
    }
  }

  lemma CancelKeepsInv(c: Config, s: State)
    requires Inv(c, s)
    ensures Inv(c, s.(global := true))
  {
    hide Flushed, Running;
    var s' := s.(global := true);
    forall u | 0 <= u < c.n
      ensures ThreadInv(c, s', u)
    {
      assert ThreadInv(c, s, u);
    }
  }

  // ----- what every run guarantees

  /** At most one thread ever writes the result, and whatever is in it is an accepted,
      non-excluded seed of some thread's slice. */
  lemma OneWinner(c: Config, moves: seq<Move>, s: State)
    requires Reaches(c, moves, s)
    ensures s.writes <= 1
    ensures s.result.Some? ==> s.found && GoodResult(c, s, s.result.value)
  {
    RunInv(c, moves, s);
  }

  /** After the join: the outcome 1 comes with a result, the reported number of tested seeds is
      the number of probes made, and a run in which no flag was ever set refused everything. */
  lemma FinishedRun(c: Config, moves: seq<Move>, s: State)
    requires Reaches(c, moves, s) && s.main.Finished?
    ensures s.result.Some? <==> s.found
    ensures s.outcome == 1 ==> s.result.Some? && GoodResult(c, s, s.result.value)
    ensures s.tested == c.counter0 + Probes(s.threads)
    ensures !s.found && !s.cancel && !s.global ==> forall t, i :: IsRound(c, t, i) ==> c.Refused(t, i)
    ensures s.outcome == 0 && !s.cancel && !s.global ==>
      s.result.Some? || forall t, i :: IsRound(c, t, i) ==> c.Refused(t, i)
  {
    RunInv(c, moves, s);
    forall t | 0 <= t < c.n
      ensures s.threads[t].pc.Done? && s.threads[t].flushed == s.threads[t].probes
    {
      assert ThreadInv(c, s, t);
    }
    SumsDone(s.threads);
    if !s.found && !s.cancel && !s.global {
      forall t, i | IsRound(c, t, i)
        ensures c.Refused(t, i)
      {
        assert ThreadInv(c, s, t);
      }
    }
  }

  // ----- what the answer of a run says

  /** What can make the main thread stop waiting. */
  datatype Reason = SawFound | SawCancel | SawNoneActive | SawTimeUp

  predicate StopsFor(s: State, m: Move, r: Reason) {
    && m.Main?
    && match r
       case SawFound => s.main.PollFound? && s.found
       case SawCancel => s.main.PollGlobal? && s.global
       case SawNoneActive => s.main.PollActive? && s.active == 0
       case SawTimeUp => s.main.PollTime? && m.timeUp
  }

  /** At some point of the run the main thread stopped waiting for that reason. */
  ghost predicate Stopped(c: Config, moves: seq<Move>, r: Reason) {
    exists k, s :: 0 <= k < |moves| && Reaches(c, moves[..k], s) && StopsFor(s, moves[k], r)
  }

  /** A run leads to one state only. */
  lemma {:induction false} SameState(c: Config, moves: seq<Move>, a: State, b: State)
    requires Reaches(c, moves, a) && Reaches(c, moves, b)
    ensures a == b
    decreases |moves|
  {
    if moves != [] {
      var k := |moves| - 1;
      var a0 :| Reaches(c, moves[..k], a0) && Enabled(c, a0, moves[k]) && a == Apply(c, a0, moves[k]);
      var b0 :| Reaches(c, moves[..k], b0) && Enabled(c, b0, moves[k]) && b == Apply(c, b0, moves[k]);
      SameState(c, moves[..k], a0, b0);
    }
  }

  lemma StoppedNext(c: Config, moves: seq<Move>, s0: State, r: Reason)
    requires moves != [] && Reaches(c, moves[..|moves| - 1], s0)
    ensures Stopped(c, moves, r) <==> Stopped(c, moves[..|moves| - 1], r) || StopsFor(s0, moves[|moves| - 1], r)
  {
    hide Reaches, StopsFor;
    var n := |moves| - 1;
    var front := moves[..n];
    if Stopped(c, front, r) {
      var k, s :| 0 <= k < |front| && Reaches(c, front[..k], s) && StopsFor(s, front[k], r);
      assert front[..k] == moves[..k] && front[k] == moves[k];
    }
    if Stopped(c, moves, r) {
      var k, s :| 0 <= k < |moves| && Reaches(c, moves[..k], s) && StopsFor(s, moves[k], r);
      if k < n {
        assert front[..k] == moves[..k] && front[k] == moves[k];
      } else {
        SameState(c, front, s, s0);
      }
    }
  }

  predicate Waiting(s: State) {
    !s.main.Join? && !s.main.Finished?
  }

  /** What the outcome and the flags of a state say about the run so far. */
  ghost predicate Explained(c: Config, moves: seq<Move>, s: State) {
    && (s.outcome == 1 || s.outcome == 0 || s.outcome == -1)
    && (!Waiting(s) <==> Stopped(c, moves, SawFound) || Stopped(c, moves, SawCancel)
                         || Stopped(c, moves, SawNoneActive) || Stopped(c, moves, SawTimeUp))
    && (s.outcome == 1 <==> Stopped(c, moves, SawFound))
    && (s.outcome == -1 <==> Stopped(c, moves, SawCancel))
    && (!Waiting(s) && s.outcome == 0 <==> Stopped(c, moves, SawNoneActive) || Stopped(c, moves, SawTimeUp))
    && (s.exhausted <==> Stopped(c, moves, SawNoneActive))
    && (s.cancel <==> Stopped(c, moves, SawCancel) || Stopped(c, moves, SawTimeUp))
    && (s.global <==> CancelAll in moves)
  }

  lemma {:induction false} RunExplained(c: Config, moves: seq<Move>, s: State)
    requires Reaches(c, moves, s)
    ensures Explained(c, moves, s)
    decreases |moves|
  {
    if moves == [] {
    } else {
      var k := |moves| - 1;
      var s0 :| Reaches(c, moves[..k], s0) && Enabled(c, s0, moves[k]) && s == Apply(c, s0, moves[k]);
      RunExplained(c, moves[..k], s0);
      StepExplained(c, moves, s0, s);
    }
  }

  lemma StepExplained(c: Config, moves: seq<Move>, s0: State, s: State)
    requires moves != [] && Reaches(c, moves[..|moves| - 1], s0) && Explained(c, moves[..|moves| - 1], s0)
    requires Enabled(c, s0, moves[|moves| - 1]) && s == Apply(c, s0, moves[|moves| - 1])
    ensures Explained(c, moves, s)
  {
    hide Reaches, Stopped, NextThread;
    assert moves == moves[..|moves| - 1] + [moves[|moves| - 1]];
    StoppedNext(c, moves, s0, SawFound);
    StoppedNext(c, moves, s0, SawCancel);
    StoppedNext(c, moves, s0, SawNoneActive);
    StoppedNext(c, moves, s0, SawTimeUp);
    var m := moves[|moves| - 1];
    if m.Main? {
      assert CancelAll !in [m];
    } else {
      assert s.main == s0.main && s.outcome == s0.outcome && s.exhausted == s0.exhausted && s.cancel == s0.cancel;
    }
  }

  /** The three answers of search_run: found exactly if the main thread saw the found flag, cancelled
      exactly if it saw that all searches are cancelled, and not found exactly if it saw that no
      thread is left or that the time is up. */
  lemma Answer(c: Config, moves: seq<Move>, s: State)
    requires Reaches(c, moves, s) && s.main.Finished?
    ensures s.outcome == 1 || s.outcome == 0 || s.outcome == -1
    ensures s.outcome == 1 <==> Stopped(c, moves, SawFound)
    ensures s.outcome == -1 <==> Stopped(c, moves, SawCancel)
    ensures s.outcome == 0 <==> Stopped(c, moves, SawNoneActive) || Stopped(c, moves, SawTimeUp)
    ensures s.exhausted <==> Stopped(c, moves, SawNoneActive)
    ensures s.cancel <==> Stopped(c, moves, SawCancel) || Stopped(c, moves, SawTimeUp)
    ensures s.outcome == -1 ==> s.global && s.cancel && CancelAll in moves
    ensures Main(true) !in moves ==> (s.outcome == -1 <==> s.cancel)
  {
    hide Reaches;
    RunExplained(c, moves, s);
    RunInv(c, moves, s);
    if Stopped(c, moves, SawTimeUp) {
      var k, s0 :| 0 <= k < |moves| && Reaches(c, moves[..k], s0) && StopsFor(s0, moves[k], SawTimeUp);
      assert moves[k] == Main(true);
    }
    if Stopped(c, moves, SawCancel) {
      CancelSeen(c, moves, s);
    }
  }

  lemma CancelSeen(c: Config, moves: seq<Move>, s: State)
    requires Reaches(c, moves, s) && Stopped(c, moves, SawCancel)
    ensures CancelAll in moves
  {
    hide Reaches;
    var k, s0 :| 0 <= k < |moves| && Reaches(c, moves[..k], s0) && StopsFor(s0, moves[k], SawCancel);
    RunExplained(c, moves[..k], s0);
    assert CancelAll in moves[..k];
  }

  // ----- how soon a run ends

  predicate Told(s: State) {
    s.cancel || s.found || s.global
  }

  /** The states that some moves lead to from s. */
  ghost predicate Leads(c: Config, s: State, moves: seq<Move>, s': State)
    decreases |moves|
  {
    if moves == [] then s' == s
    else
      var k := |moves| - 1;
      exists s0 :: Leads(c, s, moves[..k], s0) && Enabled(c, s0, moves[k]) && s' == Apply(c, s0, moves[k])
  }

  /** How many steps a thread can still take, and probes it can still make, when a flag is set. */
  function StepsLeft(s: State, th: Thread): nat {
    match th.pc
    case ReadCancel => 5
    case ReadFound => if s.found || s.global then 4 else 9
    case ReadGlobal => if s.global then 3 else 8
    case Probe => 7
    case Flush => 6
    case Race => 5
    case Write => 4
    case Tally => 3
    case AddFinal => 2
    case Leave => 1
    case Done => 0
  }

  function ProbesLeft(s: State, th: Thread): nat {
    match th.pc
    case ReadFound => if s.found || s.global then 0 else 1
    case ReadGlobal => if s.global then 0 else 1
    case Probe => 1
    case _ => 0
  }

  function StepsOf(moves: seq<Move>, t: nat): nat {
    if moves == [] then 0 else StepsOf(moves[..|moves| - 1], t) + (if moves[|moves| - 1] == Worker(t) then 1 else 0)
  }

  lemma PromptStep(c: Config, s: State, m: Move, t: nat)
    requires Enabled(c, s, m) && Told(s) && t < |s.threads|
    ensures var s' := Apply(c, s, m);
            && Told(s') && |s'.threads| == |s.threads|
            && StepsLeft(s', s'.threads[t]) + (if m == Worker(t) then 1 else 0) <= StepsLeft(s, s.threads[t])
            && s'.threads[t].probes + ProbesLeft(s', s'.threads[t]) <= s.threads[t].probes + ProbesLeft(s, s.threads[t])
  {
    hide SeedOf;
    match m
    case Worker(u) =>
      if u == t {
        PromptOwn(c, s, t);
      } else {
        hide NextThread;
      }
    case _ =>
      hide NextThread, WorkerStep;
  }

  lemma PromptOwn(c: Config, s: State, t: nat)
    requires Enabled(c, s, Worker(t)) && Told(s) && t < |s.threads|
    ensures var s' := WorkerStep(c, s, t);
            && StepsLeft(s', s'.threads[t]) + 1 <= StepsLeft(s, s.threads[t])
            && s'.threads[t].probes + ProbesLeft(s', s'.threads[t]) <= s.threads[t].probes + ProbesLeft(s, s.threads[t])
  {
    hide SeedOf;
  }

  /** Once the found flag, the flag of the run or the flag of all runs is set, no thread takes more than nine
      further steps or makes more than one further probe, whatever the interleaving. */
  lemma {:induction false} Prompt(c: Config, s: State, moves: seq<Move>, s': State, t: nat)
    requires Leads(c, s, moves, s') && Told(s) && t < |s.threads|
    ensures Told(s') && |s'.threads| == |s.threads|
    ensures StepsOf(moves, t) + StepsLeft(s', s'.threads[t]) <= StepsLeft(s, s.threads[t]) <= 9
    ensures s'.threads[t].probes + ProbesLeft(s', s'.threads[t]) <= s.threads[t].probes + ProbesLeft(s, s.threads[t]) <= s.threads[t].probes + 1
    decreases |moves|
  {
    if moves != [] {
      var k := |moves| - 1;
      var s0 :| Leads(c, s, moves[..k], s0) && Enabled(c, s0, moves[k]) && s' == Apply(c, s0, moves[k]);
      Prompt(c, s, moves[..k], s0, t);
      PromptStep(c, s0, moves[k], t);
    }
  }

  // ----- the live counter

  lemma {:induction false} SumsBehind(threads: seq<Thread>)
    requires forall t :: 0 <= t < |threads| ==> threads[t].flushed <= threads[t].probes <= threads[t].flushed + 64
    ensures Flushed(threads) <= Probes(threads) <= Flushed(threads) + 64 * |threads|
  {
    if threads != [] {
      SumsBehind(threads[1..]);
    }
  }

  lemma {:induction false} SumsWhole(threads: seq<Thread>)
    requires forall t :: 0 <= t < |threads| ==> threads[t].flushed % 64 == 0
    ensures Flushed(threads) % 64 == 0
  {
    if threads != [] {
      SumsWhole(threads[1..]);
    }
  }

  /** At any time the shared counter has never more than the probes made so far, and lacks 64 of each thread
      at most; until a thread leaves it grows by 64 at a time. */
  lemma LiveCounter(c: Config, moves: seq<Move>, s: State)
    requires Reaches(c, moves, s)
    ensures s.total <= c.counter0 + Probes(s.threads) <= s.total + 64 * c.n
    ensures (forall t :: 0 <= t < |s.threads| ==> !s.threads[t].pc.Leave? && !s.threads[t].pc.Done?)
              ==> (s.total - c.counter0) % 64 == 0
  {
    hide Reaches;
    RunInv(c, moves, s);
    forall t | 0 <= t < |s.threads|
      ensures s.threads[t].flushed <= s.threads[t].probes <= s.threads[t].flushed + 64
      ensures s.threads[t].pc.Leave? || s.threads[t].pc.Done? || s.threads[t].flushed % 64 == 0
    {
      assert ThreadInv(c, s, t);
    }
    SumsBehind(s.threads);
    if forall t :: 0 <= t < |s.threads| ==> !s.threads[t].pc.Leave? && !s.threads[t].pc.Done? {
      SumsWhole(s.threads);
    }
  }

  // ----- when an exhausted search has found something all the same

  ghost predicate Reachable(c: Config, s: State) {
    exists moves :: Reaches(c, moves, s)
  }

  lemma ReachStart(c: Config)
    ensures Reachable(c, Init(c))
  {
    assert Reaches(c, [], Init(c));
  }

  lemma ReachOn(c: Config, s: State, m: Move)
    requires Reachable(c, s) && Enabled(c, s, m)
    ensures Reachable(c, Apply(c, s, m))
  {
    var moves :| Reaches(c, moves, s);
    assert (moves + [m])[..|moves|] == moves;
    assert Reaches(c, moves + [m], Apply(c, s, m));
  }

  /** The main thread stands between its reads of the found flag and of the number of threads. */
  predicate Between(c: Config, s: State) {
    |s.threads| == c.n && s.main.PollActive? && !s.cancel && !s.global && !s.exhausted
  }

  lemma WorkerOn(c: Config, s: State, t: nat) returns (s': State)
    requires Reachable(c, s) && Between(c, s) && t < c.n && !s.threads[t].pc.Done?
    ensures s' == WorkerStep(c, s, t) && Reachable(c, s') && Between(c, s')
  {
    hide Reachable;
    ReachOn(c, s, Worker(t));
    s' := WorkerStep(c, s, t);
  }

  /** Three reads of unset flags bring a thread to its probe. */
  lemma ToProbe(c: Config, s: State, t: nat) returns (s': State)
    requires Reachable(c, s) && Between(c, s) && t < c.n && !s.found
    requires s.threads[t].pc.ReadCancel? && s.threads[t].i < c.perThread
    ensures Reachable(c, s') && Between(c, s') && !s'.found
    ensures s'.threads == s.threads[t := s.threads[t].(pc := Probe)]
  {
    hide Reachable, SeedOf;
    var s1 := WorkerOn(c, s, t);
    var s2 := WorkerOn(c, s1, t);
    s' := WorkerOn(c, s2, t);
  }

  /** A thread gets past a round whose seed is refused. */
  lemma PastRound(c: Config, s: State, t: nat) returns (s': State)
    requires Reachable(c, s) && Between(c, s) && t < c.n && !s.found
    requires s.threads[t].pc.ReadCancel? && s.threads[t].i < c.perThread && c.Refused(t, s.threads[t].i)
    ensures Reachable(c, s') && Between(c, s') && !s'.found
    ensures s'.threads == s.threads[t := s'.threads[t]]
    ensures s'.threads[t].pc.ReadCancel? && s'.threads[t].i == s.threads[t].i + 1
  {
    hide Reachable, SeedOf;
    var s1 := ToProbe(c, s, t);
    s' := WorkerOn(c, s1, t);
    if s'.threads[t].pc.Flush? {
      s' := WorkerOn(c, s', t);
    }
  }

  /** A thread with an acceptable seed ahead of it comes to the first such seed. */
  lemma {:induction false} ToAccepted(c: Config, s: State, t: nat, i: nat) returns (s': State)
    requires Reachable(c, s) && Between(c, s) && t < c.n && !s.found
    requires s.threads[t].pc.ReadCancel? && s.threads[t].i <= i < c.perThread && c.Accepted(t, i)
    ensures Reachable(c, s') && Between(c, s') && !s'.found
    ensures s'.threads == s.threads[t := s'.threads[t]]
    ensures s'.threads[t].pc.Probe? && c.Accepted(t, s'.threads[t].i)
    decreases i - s.threads[t].i
  {
    hide Reachable, SeedOf;
    if c.Accepted(t, s.threads[t].i) {
      s' := ToProbe(c, s, t);
    } else {
      var s1 := PastRound(c, s, t);
      s' := ToAccepted(c, s1, t, i);
    }
  }

  /** From there it finds, reports and leaves. */
  lemma FindAndLeave(c: Config, s: State, t: nat) returns (s': State)
    requires Reachable(c, s) && Between(c, s) && t < c.n && !s.found
    requires s.threads[t].pc.Probe? && c.Accepted(t, s.threads[t].i)
    ensures Reachable(c, s') && Between(c, s') && s'.found && s'.result.Some?
    ensures s'.threads == s.threads[t := s'.threads[t]] && s'.threads[t].pc.Done?
  {
    hide Reachable, SeedOf;
    var s1 := WorkerOn(c, s, t);
    var s2 := WorkerOn(c, s1, t);
    var s3 := WorkerOn(c, s2, t);
    var s4 := WorkerOn(c, s3, t);
    var s5 := WorkerOn(c, s4, t);
    s' := WorkerOn(c, s5, t);
  }

  /** A thread at the head of its loop leaves when the found flag is set, or no rounds are left. */
  lemma LeaveAtHead(c: Config, s: State, t: nat) returns (s': State)
    requires Reachable(c, s) && Between(c, s) && t < c.n && s.threads[t].pc.ReadCancel?
    requires s.found || s.threads[t].i >= c.perThread
    ensures Reachable(c, s') && Between(c, s') && s'.found == s.found && s'.result == s.result
    ensures s'.threads == s.threads[t := s'.threads[t]] && s'.threads[t].pc.Done?
  {
    hide Reachable, SeedOf;
    var s1 := WorkerOn(c, s, t);
    var s2 := s1;
    if s1.threads[t].pc.ReadFound? {
      s2 := WorkerOn(c, s1, t);
    }
    var s3 := WorkerOn(c, s2, t);
    s' := WorkerOn(c, s3, t);
  }

  /** So do all the others, one after the other. */
  lemma {:induction false} AllLeave(c: Config, s: State, k: nat) returns (s': State)
    requires Reachable(c, s) && Between(c, s) && (s.found || c.perThread == 0) && k <= c.n
    requires forall t :: 0 <= t < k ==> s.threads[t].pc.Done?
    requires forall t :: k <= t < c.n ==> s.threads[t].pc.Done? || s.threads[t].pc.ReadCancel?
    ensures Reachable(c, s') && Between(c, s') && s'.found == s.found && s'.result == s.result && AllDone(s')
    decreases c.n - k
  {
    hide Reachable, WorkerStep;
    if k == c.n {
      s' := s;
    } else {
      var s1 := s;
      if !s.threads[k].pc.Done? {
        s1 := LeaveAtHead(c, s, k);
      }
      s' := AllLeave(c, s1, k + 1);
    }
  }

  /** When all threads are gone, the main thread reports an exhausted search. */
  lemma ReportExhausted(c: Config, s: State) returns (s': State)
    requires Reachable(c, s) && Between(c, s) && AllDone(s)
    ensures Reachable(c, s') && s'.main.Finished? && s'.exhausted && s'.outcome == 0 && !s'.global && !s'.cancel
    ensures s'.found == s.found && s'.result == s.result
  {
    hide Reachable, Inv;
    assert s.active == 0 by { NoneActive(c, s); }
    ReachOn(c, s, Main(false));
    var s1 := Apply(c, s, Main(false));
    ReachOn(c, s1, Main(false));
    s' := Apply(c, s1, Main(false));
  }

  lemma NoneActive(c: Config, s: State)
    requires Reachable(c, s) && AllDone(s)
    ensures s.active == 0
  {
    var moves :| Reaches(c, moves, s);
    RunInv(c, moves, s);
    forall t | 0 <= t < |s.threads|
      ensures s.threads[t].pc.Done? && s.threads[t].flushed == s.threads[t].probes
    {
      assert ThreadInv(c, s, t);
    }
    SumsDone(s.threads);
  }

  /** The main thread has read the flags for the first time, and no thread has done anything. */
  lemma FirstPoll(c: Config) returns (s: State)
    ensures Reachable(c, s) && Between(c, s) && !s.found && s.threads == Init(c).threads
  {
    hide Reachable;
    ReachStart(c);
    var m := Main(false);
    ReachOn(c, Init(c), m);
    var s1 := Apply(c, Init(c), m);
    ReachOn(c, s1, m);
    s := Apply(c, s1, m);
  }

  /** A search that ends because no thread is left, and is reported as exhausted, may have a result
      all the same: the main thread reads the found flag before it reads the number of threads,
      and misses whoever finds a seed and leaves in between. */
  lemma FoundButReportedExhausted(c: Config, t: nat, i: nat) returns (s: State)
    requires IsRound(c, t, i) && c.Accepted(t, i)
    ensures Reachable(c, s) && s.main.Finished? && s.exhausted && s.outcome == 0 && !s.global && s.result.Some?
  {
    hide Reachable, WorkerStep;
    var s2 := FirstPoll(c);
    var s3 := ToAccepted(c, s2, t, i);
    var s4 := FindAndLeave(c, s3, t);
    var s5 := AllLeave(c, s4, 0);
    s := ReportExhausted(c, s5);
  }

  lemma NothingGood(c: Config, s: State)
    requires forall t, i :: IsRound(c, t, i) ==> c.Refused(t, i)
    ensures forall seed :: !GoodResult(c, s, seed)
  {
  }

  /** The report of an exhausted search can be relied on exactly if there is nothing to find. */
  lemma ExhaustedIsReliable(c: Config)
    ensures (forall s :: Reachable(c, s) && s.main.Finished? && s.exhausted && !s.global ==> s.result.None?)
            <==> (forall t, i :: IsRound(c, t, i) ==> c.Refused(t, i))
  {
    hide Reaches, SeedOf, Inv;
    if forall t, i :: IsRound(c, t, i) ==> c.Refused(t, i) {
      forall s | Reachable(c, s)
        ensures s.result.None?
      {
        var moves :| Reaches(c, moves, s);
        OneWinner(c, moves, s);
        NothingGood(c, s);
      }
    } else {
      var t, i :| IsRound(c, t, i) && !c.Refused(t, i);
      var s := FoundButReportedExhausted(c, t, i);
    }
  }

  // ----- what an exhausted search has looked at

  /** Each of the first maxSeeds seeds is excluded or was refused. */
  ghost predicate AllRefused(c: Config, maxSeeds: nat) {
    forall k: nat :: k < maxSeeds ==> SeedRefused(c, k)
  }

  predicate SeedRefused(c: Config, k: nat) {
    var seed := Mixed(U64(c.start + k));
    seed in c.excluded || !c.accept(seed)
  }

  /** The run is over and no flag was ever set. */
  predicate RanOut(s: State) {
    s.main.Finished? && !s.found && !s.cancel && !s.global
  }

  /** With the slices of search_run, whose sum does not wrap, a run in which no flag was ever set has
      looked at the seed of every one of the first maxSeeds offsets. */
  lemma ExhaustedCoversAll(c: Config, moves: seq<Move>, s: State, maxSeeds: nat, k: nat)
    requires Reaches(c, moves, s) && RanOut(s)
    requires c.n > 0 && maxSeeds + c.n <= TWO64 && c.perThread == PerThread(maxSeeds, c.n) && k < maxSeeds
    ensures SeedRefused(c, k)
  {
    hide Reaches, PerThread, Offset, SeedRefused;
    FinishedRun(c, moves, s);
    RoundOf(maxSeeds, c.n, k);
    assert IsRound(c, k % c.n, k / c.n);
    RoundSeed(c, k % c.n, k / c.n, k);
  }

  lemma RoundSeed(c: Config, t: nat, i: nat, k: nat)
    requires Offset(t, i, c.n) == k
    ensures c.Refused(t, i) <==> SeedRefused(c, k)
  {
    hide Mixed;
  }

  /** Without rounds no run ever makes a probe, and there is one that ends. */
  lemma {:induction false} NothingProbed(threads: seq<Thread>)
    requires forall t :: 0 <= t < |threads| ==> threads[t].probes == 0
    ensures Probes(threads) == 0
  {
    if threads != [] {
      NothingProbed(threads[1..]);
    }
  }

  lemma NoRounds(c: Config, s: State)
    requires c.perThread == 0 && Reachable(c, s) && s.main.Finished?
    ensures s.tested == c.counter0 && s.result.None?
  {
    hide Reaches;
    var moves :| Reaches(c, moves, s);
    RunInv(c, moves, s);
    FinishedRun(c, moves, s);
    forall t | 0 <= t < |s.threads|
      ensures s.threads[t].probes == 0
    {
      assert ThreadInv(c, s, t);
    }
    NothingProbed(s.threads);
  }

  lemma EndsAtOnce(c: Config) returns (s: State)
    requires c.perThread == 0
    ensures Reachable(c, s) && RanOut(s) && s.exhausted && s.outcome == 0
  {
    hide Reachable, WorkerStep;
    var s1 := FirstPoll(c);
    var s2 := AllLeave(c, s1, 0);
    s := ReportExhausted(c, s2);
  }

  /** For max_seeds and a number of threads: a search that has run out has looked at all of the first
      max_seeds seeds, whatever the search, exactly if the sum in search_run does not wrap. */
  lemma RanOutCoversAll(maxSeeds: nat, n: nat)
    requires 0 < n < TWO64 && maxSeeds < TWO64
    ensures (forall c: Config, s: State ::
               c.n == n && c.perThread == PerThread(maxSeeds, n) && Reachable(c, s) && RanOut(s) ==> AllRefused(c, maxSeeds))
            <==> maxSeeds + n <= TWO64
  {
    hide Reaches, RanOut, SeedRefused;
    if maxSeeds + n <= TWO64 {
      forall c: Config, s: State | c.n == n && c.perThread == PerThread(maxSeeds, n) && Reachable(c, s) && RanOut(s)
        ensures AllRefused(c, maxSeeds)
      {
        var moves :| Reaches(c, moves, s);
        forall k: nat | k < maxSeeds
          ensures SeedRefused(c, k)
        {
          ExhaustedCoversAll(c, moves, s, maxSeeds, k);
        }
      }
    } else {
      WrappedRounds(maxSeeds, n);
      var c := Config(n, 0, PerThread(maxSeeds, n), {}, _ => true, 0);
      var s := EndsAtOnce(c);
      assert !SeedRefused(c, 0) by { Acceptable(c, 0); }
    }
  }

  lemma Acceptable(c: Config, k: nat)
    requires c.excluded == {} && forall seed :: c.accept(seed)
    ensures !SeedRefused(c, k)
  {
  }
}
