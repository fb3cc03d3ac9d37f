/** The first-come, first-served semaphore of concurrency.ts: a state machine over its calls, and
    the class that refines it. */
module SemaphoreRuns {
  /** A queued acquire. `listening` says that its abort handler is attached. */
  datatype Waiter = Waiter(id: nat, hasSignal: bool, onQueued: bool, onPosition: bool, listening: bool)

  /** An acquire is named by how many came before it. `told` is the last position reported to each. */
  datatype State = State(limit: nat, inFlight: int, waiters: seq<Waiter>, calls: nat,
                         granted: seq<nat>, rejected: set<nat>, released: nat, told: map<nat, nat>)

  /** `Queued` is the part of an acquire up to its callback, `Listen` the part after it: other calls
      can come between. `Abort` is the signal of an acquire firing. */
  datatype Event =
    | Acquire(hasSignal: bool, aborted: bool, onQueued: bool, onPosition: bool)
    | Listen(id: nat)
    | Abort(id: nat)
    | Release

  function Start(limit: nat): State {
    State(limit, 0, [], 0, [], {}, 0, map[])
  }

  /** What the waiters have been told after each was told its position, from place `k` on. */
  function Notified(told: map<nat, nat>, waiters: seq<Waiter>, k: nat): map<nat, nat>
    requires k <= |waiters|
    decreases |waiters| - k
  {
    if k == |waiters| then told
    else Notified(if waiters[k].onPosition then told[waiters[k].id := k + 1] else told, waiters, k + 1)
  }

  /** The place of a waiter in the queue, or its length. */
  function Place(waiters: seq<Waiter>, id: nat): (k: nat)
    ensures k <= |waiters| && (k < |waiters| ==> waiters[k].id == id) && forall j :: 0 <= j < k ==> waiters[j].id != id
  {
    if waiters == [] then 0 else if waiters[0].id == id then 0 else 1 + Place(waiters[1..], id)
  }

  function Cut(waiters: seq<Waiter>, k: nat): seq<Waiter>
    requires k < |waiters|
  {
    waiters[..k] + waiters[k + 1..]
  }

  function Acquired(s: State, hasSignal: bool, aborted: bool, onQueued: bool, onPosition: bool): State {
    if s.inFlight < s.limit then
      s.(inFlight := s.inFlight + 1, granted := s.granted + [s.calls], calls := s.calls + 1)
    else if hasSignal && aborted then
      s.(rejected := s.rejected + {s.calls}, calls := s.calls + 1)
    else
      s.(waiters := s.waiters + [Waiter(s.calls, hasSignal, onQueued, onPosition, false)], calls := s.calls + 1,
         told := if onQueued then s.told[s.calls := |s.waiters| + 1] else s.told)
  }

  function Listened(s: State, id: nat): State {
    var k := Place(s.waiters, id);
    if k < |s.waiters| && s.waiters[k].hasSignal then s.(waiters := s.waiters[k := s.waiters[k].(listening := true)]) else s
  }

  function Aborted(s: State, id: nat): State {
    var k := Place(s.waiters, id);
    if k < |s.waiters| && s.waiters[k].listening then
      var rest := Cut(s.waiters, k);
      s.(waiters := rest, rejected := s.rejected + {id}, told := Notified(s.told, rest, 0))
    else s
  }

  function Released(s: State): State {
    if s.waiters == [] then s.(inFlight := s.inFlight - 1, released := s.released + 1)
    else
      var next, rest := s.waiters[0], Cut(s.waiters, 0);
      s.(waiters := rest, granted := s.granted + [next.id], released := s.released + 1,
         told := Notified(if next.onPosition then s.told[next.id := 0] else s.told, rest, 0))
  }

  function Step(s: State, e: Event): State {
    match e
    case Acquire(hasSignal, aborted, onQueued, onPosition) => Acquired(s, hasSignal, aborted, onQueued, onPosition)
    case Listen(id) => Listened(s, id)
    case Abort(id) => Aborted(s, id)
    case Release => Released(s)
  }

  function Run(s: State, es: seq<Event>): State
    decreases |es|
  {
    if es == [] then s else Run(Step(s, es[0]), es[1..])
  }

  /** Only holders release. */
  predicate Balanced(s: State, es: seq<Event>)
    decreases |es|
  {
    es != [] ==> (es[0].Release? ==> s.released < |s.granted|) && Balanced(Step(s, es[0]), es[1..])
  }

  // ----- the invariant

  predicate Waiting(waiters: seq<Waiter>, id: nat) {
    exists k :: 0 <= k < |waiters| && waiters[k].id == id
  }

  predicate Rising(s: seq<nat>) {
    forall i, j :: 0 <= i < j < |s| ==> s[i] < s[j]
  }

  predicate Queue(waiters: seq<Waiter>) {
    forall i, j :: 0 <= i < j < |waiters| ==> waiters[i].id < waiters[j].id
  }

  /** The slots in use are the grants that were not released, at most `limit`; nobody waits while one is free. */
  predicate Slots(s: State) {
    && 0 <= s.inFlight <= s.limit && s.inFlight == |s.granted| - s.released
    && (s.waiters != [] ==> s.inFlight == s.limit)
  }

  /** Grants go out in the order of arrival, and before those of everybody still waiting. */
  ghost predicate InOrder(s: State) {
    && Rising(s.granted) && Queue(s.waiters)
    && forall g: nat, id: nat :: g in s.granted && Waiting(s.waiters, id) ==> g < id
  }

  /** Every acquire is in exactly one of the three places. */
  ghost predicate SettledOnce(s: State) {
    && (forall id: nat :: id < s.calls <==> id in s.granted || id in s.rejected || Waiting(s.waiters, id))
    && (forall id: nat :: id in s.rejected ==> id !in s.granted && !Waiting(s.waiters, id))
  }

  predicate ToldPlace(told: map<nat, nat>, w: Waiter, k: nat) {
    w.onQueued && w.onPosition ==> w.id in told && told[w.id] == k + 1
  }

  /** Who takes both callbacks knows his place, the first being 1. */
  predicate Told(told: map<nat, nat>, waiters: seq<Waiter>) {
    forall k :: 0 <= k < |waiters| ==> ToldPlace(told, waiters[k], k)
  }

  ghost predicate Inv(s: State) {
    Slots(s) && InOrder(s) && SettledOnce(s) && Told(s.told, s.waiters)
  }

  lemma {:induction false} NotifiedMeans(told: map<nat, nat>, waiters: seq<Waiter>, k: nat, id: nat)
    requires k <= |waiters| && Queue(waiters)
    ensures forall j :: k <= j < |waiters| && waiters[j].id == id && waiters[j].onPosition ==>
              id in Notified(told, waiters, k) && Notified(told, waiters, k)[id] == j + 1
    ensures (forall j :: k <= j < |waiters| ==> waiters[j].id != id || !waiters[j].onPosition)
      ==> ((id in Notified(told, waiters, k)) == (id in told) && (id in told ==> Notified(told, waiters, k)[id] == told[id]))
    decreases |waiters| - k
  {
    if k < |waiters| {
      NotifiedMeans(if waiters[k].onPosition then told[waiters[k].id := k + 1] else told, waiters, k + 1, id);
    }
  }

  lemma ToldAfter(told: map<nat, nat>, waiters: seq<Waiter>)
    requires Queue(waiters)
    ensures Told(Notified(told, waiters, 0), waiters)
  {
    hide Notified;
    forall k | 0 <= k < |waiters|
      ensures ToldPlace(Notified(told, waiters, 0), waiters[k], k)
    {
      NotifiedMeans(told, waiters, 0, waiters[k].id);
    }
  }

  // ----- each event keeps the invariant

  lemma CutAt(waiters: seq<Waiter>, k: nat, j: nat)
    requires k < |waiters| && j + 1 < |waiters|
    ensures |Cut(waiters, k)| == |waiters| - 1
    ensures Cut(waiters, k)[j] == waiters[if j < k then j else j + 1]
  {
  }

  lemma CutQueue(waiters: seq<Waiter>, k: nat)
    requires Queue(waiters) && k < |waiters|
    ensures Queue(Cut(waiters, k))
  {
    hide Cut;
    var rest := Cut(waiters, k);
    assert |rest| == |waiters| - 1 by { CutSize(waiters, k); }
    forall i, j | 0 <= i < j < |rest|
      ensures rest[i].id < rest[j].id
    {
      CutAt(waiters, k, i);
      CutAt(waiters, k, j);
    }
  }

  lemma CutSize(waiters: seq<Waiter>, k: nat)
    requires k < |waiters|
    ensures |Cut(waiters, k)| == |waiters| - 1
  {
  }

  /** Who is still in the queue when the place `k` has been cut out. */
  lemma CutWaiting(waiters: seq<Waiter>, k: nat, id: nat)
    requires Queue(waiters) && k < |waiters|
    ensures Waiting(Cut(waiters, k), id) <==> Waiting(waiters, id) && id != waiters[k].id
  {
    hide Cut;
    var rest := Cut(waiters, k);
    CutSize(waiters, k);
    if Waiting(waiters, id) && id != waiters[k].id {
      var j :| 0 <= j < |waiters| && waiters[j].id == id;
      CutAt(waiters, k, if j < k then j else j - 1);
      assert rest[if j < k then j else j - 1].id == id;
    }
    if Waiting(rest, id) {
      var j :| 0 <= j < |rest| && rest[j].id == id;
      CutAt(waiters, k, j);
      assert waiters[if j < k then j else j + 1].id == id;
    }
  }

  lemma AppendWaiting(waiters: seq<Waiter>, w: Waiter, id: nat)
    ensures Waiting(waiters + [w], id) <==> Waiting(waiters, id) || id == w.id
  {
    var more := waiters + [w];
    assert more[|waiters|] == w;
    if Waiting(waiters, id) {
      var k :| 0 <= k < |waiters| && waiters[k].id == id;
      assert more[k].id == id;
    }
  }

  lemma RisingNext(s: seq<nat>, v: nat)
    requires Rising(s) && forall x :: x in s ==> x < v
    ensures Rising(s + [v])
  {
    forall i | 0 <= i < |s|
      ensures s[i] < v
    {
      assert s[i] in s;
    }
  }

  lemma AppendQueue(waiters: seq<Waiter>, w: Waiter)
    requires Queue(waiters) && forall id: nat :: Waiting(waiters, id) ==> id < w.id
    ensures Queue(waiters + [w])
  {
    forall k | 0 <= k < |waiters|
      ensures waiters[k].id < w.id
    {
      assert Waiting(waiters, waiters[k].id);
    }
  }

  lemma AppendTold(told: map<nat, nat>, waiters: seq<Waiter>, w: Waiter)
    requires Told(told, waiters) && forall id: nat :: Waiting(waiters, id) ==> id < w.id
    ensures Told(if w.onQueued then told[w.id := |waiters| + 1] else told, waiters + [w])
  {
    var told1 := if w.onQueued then told[w.id := |waiters| + 1] else told;
    forall k | 0 <= k < |waiters + [w]|
      ensures ToldPlace(told1, (waiters + [w])[k], k)
    {
      if k < |waiters| {
        assert Waiting(waiters, waiters[k].id) && ToldPlace(told, waiters[k], k);
      }
    }
  }

  lemma AcquireKeeps(s: State, hasSignal: bool, aborted: bool, onQueued: bool, onPosition: bool)
    requires Inv(s)
    ensures Inv(Acquired(s, hasSignal, aborted, onQueued, onPosition))
  {
    hide Waiting, Told, Rising, Queue;
    if s.inFlight < s.limit {
      assert s.waiters == [];
      NobodyWaits(s.waiters);
      RisingNext(s.granted, s.calls);
    } else if !(hasSignal && aborted) {
      var w := Waiter(s.calls, hasSignal, onQueued, onPosition, false);
      AppendQueue(s.waiters, w);
      AppendTold(s.told, s.waiters, w);
      forall id: nat
        ensures Waiting(s.waiters + [w], id) <==> Waiting(s.waiters, id) || id == w.id
      {
        AppendWaiting(s.waiters, w, id);
      }
    }
  }

  lemma NobodyWaits(waiters: seq<Waiter>)
    ensures waiters == [] ==> forall id: nat :: !Waiting(waiters, id)
  {
  }

  lemma ListenKeeps(s: State, id: nat)
    requires Inv(s)
    ensures Inv(Listened(s, id))
  {
    hide Slots, Rising;
    var t := Listened(s, id);
    assert |t.waiters| == |s.waiters| && Slots(t) by { ListenSlots(s, id); }
    forall k | 0 <= k < |s.waiters|
      ensures t.waiters[k].id == s.waiters[k].id
      ensures ToldPlace(t.told, t.waiters[k], k)
    {
      assert ToldPlace(s.told, s.waiters[k], k);
    }
    forall i: nat
      ensures Waiting(t.waiters, i) <==> Waiting(s.waiters, i)
    {
      if Waiting(s.waiters, i) {
        var k :| 0 <= k < |s.waiters| && s.waiters[k].id == i;
        assert t.waiters[k].id == i;
      }
    }
  }

  lemma ListenSlots(s: State, id: nat)
    requires Slots(s)
    ensures Slots(Listened(s, id)) && |Listened(s, id).waiters| == |s.waiters|
  {
  }

  lemma AbortKeeps(s: State, id: nat)
    requires Inv(s)
    ensures Inv(Aborted(s, id))
  {
    hide Waiting, Told, Rising, Queue, Notified, Cut;
    var k := Place(s.waiters, id);
    if k < |s.waiters| && s.waiters[k].listening {
      CutSize(s.waiters, k);
      CutQueue(s.waiters, k);
      ToldAfter(s.told, Cut(s.waiters, k));
      HeadWaits(s.waiters, k);
      forall i: nat
        ensures Waiting(Cut(s.waiters, k), i) <==> Waiting(s.waiters, i) && i != id
      {
        CutWaiting(s.waiters, k, i);
      }
    }
  }

  lemma HeadWaits(waiters: seq<Waiter>, k: nat)
    requires k < |waiters|
    ensures Waiting(waiters, waiters[k].id)
    ensures Queue(waiters) ==> forall id: nat :: Waiting(waiters, id) ==> waiters[0].id <= id
  {
  }

  lemma ReleaseKeeps(s: State)
    requires Inv(s) && s.released < |s.granted|
    ensures Inv(Released(s))
  {
    hide Waiting, Told, Rising, Queue, Notified, Cut;
    if s.waiters != [] {
      var next := s.waiters[0];
      CutSize(s.waiters, 0);
      CutQueue(s.waiters, 0);
      ToldAfter(if next.onPosition then s.told[next.id := 0] else s.told, Cut(s.waiters, 0));
      HeadWaits(s.waiters, 0);
      RisingNext(s.granted, next.id);
      forall i: nat
        ensures Waiting(Cut(s.waiters, 0), i) <==> Waiting(s.waiters, i) && i != next.id
      {
        CutWaiting(s.waiters, 0, i);
      }
      var t := Released(s);
      forall i: nat
        ensures i in t.granted <==> i in s.granted || i == next.id
      {
      }
    }
  }

  lemma StartInv(limit: nat)
    ensures Inv(Start(limit))
  {
  }

  /** Every run of balanced calls keeps the invariant. */
  lemma {:induction false} RunKeeps(s: State, es: seq<Event>)
    requires Inv(s) && Balanced(s, es)
    ensures Inv(Run(s, es))
    decreases |es|
  {
    if es != [] {
      StepKeeps(s, es[0]);
      RunKeeps(Step(s, es[0]), es[1..]);
    }
  }

  lemma StepKeeps(s: State, e: Event)
    requires Inv(s) && (e.Release? ==> s.released < |s.granted|)
    ensures Inv(Step(s, e))
  {
    hide Inv, Acquired, Listened, Aborted, Released;
    match e
    case Acquire(hasSignal, aborted, onQueued, onPosition) => AcquireKeeps(s, hasSignal, aborted, onQueued, onPosition);
    case Listen(id) => ListenKeeps(s, id);
    case Abort(id) => AbortKeeps(s, id);
    case Release => ReleaseKeeps(s);
  }

  // ----- what the runs promise

  /** At most `limit` slots are in use, and as many as were granted and not released. */
  lemma NeverOverLimit(limit: nat, es: seq<Event>)
    requires Balanced(Start(limit), es)
    ensures var s := Run(Start(limit), es);
            && s.inFlight == |s.granted| - s.released && 0 <= s.inFlight <= s.limit
            && (s.waiters != [] ==> s.inFlight == s.limit)
            && Told(s.told, s.waiters)
  {
    hide InOrder, SettledOnce, Told, Run, Balanced;
    StartInv(limit);
    RunKeeps(Start(limit), es);
  }

  /** Of two acquires the earlier one is granted first, unless it was rejected. */
  lemma FirstComeFirstServed(limit: nat, es: seq<Event>, a: nat, b: nat)
    requires Balanced(Start(limit), es)
    requires a < b && b in Run(Start(limit), es).granted && a !in Run(Start(limit), es).rejected
    ensures exists i, j :: 0 <= i < j < |Run(Start(limit), es).granted|
                           && Run(Start(limit), es).granted[i] == a && Run(Start(limit), es).granted[j] == b
  {
    hide Slots, Told, Run, Balanced, Queue, Waiting;
    StartInv(limit);
    RunKeeps(Start(limit), es);
    var s := Run(Start(limit), es);
    assert b < s.calls;
    assert a in s.granted;
    var i :| 0 <= i < |s.granted| && s.granted[i] == a;
    var j :| 0 <= j < |s.granted| && s.granted[j] == b;
    assert i < j;
  }

  /** What is settled stays settled, and in the same way. */
  lemma {:induction false} SettledStays(s: State, es: seq<Event>, id: nat)
    requires Inv(s) && Balanced(s, es) && id < s.calls
    ensures id in s.granted ==> id in Run(s, es).granted && id !in Run(s, es).rejected
    ensures id in s.rejected ==> id in Run(s, es).rejected && id !in Run(s, es).granted
    ensures !Waiting(s.waiters, id) ==> !Waiting(Run(s, es).waiters, id)
    decreases |es|
  {
    hide Slots, Rising, Queue, Told, Step, Waiting;
    if es != [] {
      StepKeeps(s, es[0]);
      StepStays(s, es[0], id);
      SettledStays(Step(s, es[0]), es[1..], id);
    }
    RunKeeps(s, es);
  }

  lemma StepStays(s: State, e: Event, id: nat)
    ensures s.calls <= Step(s, e).calls
    ensures id in s.granted ==> id in Step(s, e).granted
    ensures id in s.rejected ==> id in Step(s, e).rejected
  {
    hide Notified, Cut;
  }

  function Releases(es: seq<Event>): nat {
    if es == [] then 0 else (if es[0].Release? then 1 else 0) + Releases(es[1..])
  }

  /** A waiter never moves back, and every release moves it forward. */
  lemma StepForward(s: State, e: Event, k: nat) returns (k': nat)
    requires Inv(s) && k < |s.waiters| && Waiting(Step(s, e).waiters, s.waiters[k].id)
    ensures k' < |Step(s, e).waiters| && Step(s, e).waiters[k'].id == s.waiters[k].id
    ensures k' <= k && (e.Release? ==> k' < k)
  {
    hide SettledOnce, Slots, Told, Notified, Waiting, Cut, Rising;
    var t := Step(s, e);
    k' := k;
    match e
    case Acquire(_, _, _, _) =>
    case Listen(_) =>
    case Abort(id) =>
      var m := Place(s.waiters, id);
      if m < |s.waiters| && s.waiters[m].listening {
        CutWaiting(s.waiters, m, s.waiters[k].id);
        CutSize(s.waiters, m);
        k' := if k < m then k else k - 1;
        CutAt(s.waiters, m, k');
      }
    case Release =>
      CutWaiting(s.waiters, 0, s.waiters[k].id);
      CutSize(s.waiters, 0);
      k' := k - 1;
      CutAt(s.waiters, 0, k');
  }

  /** The waiter in place k (the first being 0) is granted or rejected once k + 1 releases have come. */
  lemma {:induction false} BoundedWait(s: State, es: seq<Event>, k: nat)
    requires Inv(s) && Balanced(s, es) && k < |s.waiters| && Releases(es) > k
    ensures var id := s.waiters[k].id; id in Run(s, es).granted || id in Run(s, es).rejected
    decreases |es|
  {
    hide Slots, InOrder, Told, Step, Waiting;
    var id := s.waiters[k].id;
    var t := Step(s, es[0]);
    HeadWaits(s.waiters, k);
    assert id < s.calls;
    StepKeeps(s, es[0]);
    StepStays(s, es[0], id);
    if Waiting(t.waiters, id) {
      var k' := StepForward(s, es[0], k);
      BoundedWait(t, es[1..], k');
    } else {
      SettledStays(t, es[1..], id);
    }
  }

  // ----- what is reported

  predicate ReportFits(told: map<nat, nat>, w: Waiter, k: nat) {
    w.id in told ==> told[w.id] >= k + 1 && (w.onPosition ==> told[w.id] == k + 1)
  }

  /** Only acquires have been told anything, and no waiter was told a better place than its own. */
  ghost predicate Reports(s: State) {
    && (forall id :: id in s.told ==> id < s.calls)
    && forall k :: 0 <= k < |s.waiters| ==> ReportFits(s.told, s.waiters[k], k)
  }

  /** Nobody loses a report, and no report is of a worse place than the one before. */
  ghost predicate NoWorse(a: map<nat, nat>, b: map<nat, nat>) {
    forall id :: id in a ==> id in b && b[id] <= a[id]
  }

  /** The waiters that remain when place m is cut out are told their new places. */
  lemma CutReports(told: map<nat, nat>, waiters: seq<Waiter>, m: nat)
    requires Queue(waiters) && m < |waiters| && forall k :: m <= k < |waiters| && k != m ==> ReportFits(told, waiters[k], k)
    requires forall k :: 0 <= k < m ==> ReportFits(told, waiters[k], k)
    ensures var rest := Cut(waiters, m);
            var told1 := Notified(told, rest, 0);
            && (forall k :: 0 <= k < |rest| ==> ReportFits(told1, rest[k], k)) && NoWorse(told, told1)
            && (forall id :: id in told1 ==> id in told || Waiting(rest, id))
            && (waiters[m].id in told ==> told1[waiters[m].id] == told[waiters[m].id])
  {
    hide Notified, Cut;
    var rest := Cut(waiters, m);
    var told1 := Notified(told, rest, 0);
    CutQueue(waiters, m);
    CutSize(waiters, m);
    forall k: nat | k < |rest|
      ensures ReportFits(told1, rest[k], k)
    {
      CutAt(waiters, m, k);
      var from := if k < m then k else k + 1;
      assert ReportFits(told, waiters[from], from);
      NotifiedMeans(told, rest, 0, rest[k].id);
    }
    forall id: nat
      ensures id in told ==> id in told1 && told1[id] <= told[id]
      ensures id in told1 ==> id in told || Waiting(rest, id)
      ensures id == waiters[m].id && id in told ==> told1[id] == told[id]
    {
      NotifiedMeans(told, rest, 0, id);
      if k: nat :| k < |rest| && rest[k].id == id && rest[k].onPosition {
        CutAt(waiters, m, k);
        var from := if k < m then k else k + 1;
        assert ReportFits(told, waiters[from], from);
        assert rest[k].id == id;
      }
    }
  }

  lemma ReportOthers(told: map<nat, nat>, waiters: seq<Waiter>, v: nat)
    requires Queue(waiters) && waiters != [] && forall k :: 0 <= k < |waiters| ==> ReportFits(told, waiters[k], k)
    ensures forall k :: 1 <= k < |waiters| ==> ReportFits(told[waiters[0].id := v], waiters[k], k)
  {
  }

  lemma StepReports(s: State, e: Event)
    requires Inv(s) && Reports(s) && (e.Release? ==> s.released < |s.granted|)
    ensures Reports(Step(s, e)) && NoWorse(s.told, Step(s, e).told)
  {
    hide Slots, Told, SettledOnce, Rising, Notified, Cut, ReportFits;
    match e
    case Acquire(_, _, onQueued, onPosition) => AcquireReports(s, e);
    case Listen(id) => ListenReports(s, id);
    case Abort(id) =>
      var m := Place(s.waiters, id);
      if m < |s.waiters| && s.waiters[m].listening {
        CutReports(s.told, s.waiters, m);
        CutKnown(s, m);
      }
    case Release =>
      if s.waiters != [] {
        var next := s.waiters[0];
        ReportOthers(s.told, s.waiters, 0);
        CutReports(if next.onPosition then s.told[next.id := 0] else s.told, s.waiters, 0);
        CutKnown(s, 0);
        HeadKnown(s);
      }
  }

  lemma AcquireReports(s: State, e: Event)
    requires Inv(s) && Reports(s) && e.Acquire?
    ensures Reports(Step(s, e)) && NoWorse(s.told, Step(s, e).told)
  {
    hide Slots, Told, Rising;
    forall k | 0 <= k < |s.waiters|
      ensures s.waiters[k].id < s.calls
    {
      assert Waiting(s.waiters, s.waiters[k].id);
    }
  }

  lemma ListenReports(s: State, id: nat)
    requires Inv(s) && Reports(s)
    ensures Reports(Listened(s, id)) && NoWorse(s.told, Listened(s, id).told)
  {
    hide Inv;
    forall k | 0 <= k < |s.waiters|
      ensures ReportFits(s.told, Listened(s, id).waiters[k], k)
    {
      assert ReportFits(s.told, s.waiters[k], k);
    }
  }

  lemma CutKnown(s: State, m: nat)
    requires Inv(s) && m < |s.waiters|
    ensures forall id: nat :: Waiting(Cut(s.waiters, m), id) ==> id < s.calls
  {
    hide Slots, Told, Rising, Cut, Waiting;
    forall id: nat | Waiting(Cut(s.waiters, m), id)
      ensures id < s.calls
    {
      CutWaiting(s.waiters, m, id);
    }
  }

  lemma HeadKnown(s: State)
    requires Inv(s) && s.waiters != []
    ensures s.waiters[0].id < s.calls
  {
    hide Slots, Told, Rising;
    assert Waiting(s.waiters, s.waiters[0].id);
  }

  /** The place reported to an acquire never gets worse. */
  lemma {:induction false} PlacesImprove(s: State, es: seq<Event>)
    requires Inv(s) && Reports(s) && Balanced(s, es)
    ensures Reports(Run(s, es)) && NoWorse(s.told, Run(s, es).told)
    decreases |es|
  {
    hide Inv, Reports, Step;
    if es != [] {
      StepKeeps(s, es[0]);
      StepReports(s, es[0]);
      PlacesImprove(Step(s, es[0]), es[1..]);
    }
  }

  /** A waiter that is told its places and leaves the queue in a step has been granted and told place 0, or rejected. */
  lemma LeavesTold(s: State, e: Event, k: nat)
    requires Inv(s) && Reports(s) && (e.Release? ==> s.released < |s.granted|)
    requires k < |s.waiters| && s.waiters[k].onPosition && !Waiting(Step(s, e).waiters, s.waiters[k].id)
    ensures var id := s.waiters[k].id;
            id in Step(s, e).rejected || (id in Step(s, e).told && Step(s, e).told[id] == 0)
  {
    hide Slots, Told, SettledOnce, Rising, Notified, Cut, Waiting, ReportFits;
    var id := s.waiters[k].id;
    HeadWaits(s.waiters, k);
    match e
    case Acquire(_, _, onQueued, onPosition) =>
      var w := Waiter(s.calls, e.hasSignal, onQueued, onPosition, false);
      AppendWaiting(s.waiters, w, id);
    case Listen(i) => ListenWaits(s, i, id);
    case Abort(i) =>
      var m := Place(s.waiters, i);
      if m < |s.waiters| && s.waiters[m].listening {
        CutWaiting(s.waiters, m, id);
      }
    case Release =>
      var next := s.waiters[0];
      CutWaiting(s.waiters, 0, id);
      assert next.onPosition by { SameWaiter(s.waiters, 0, k); }
      ReportOthers(s.told, s.waiters, 0);
      CutReports(s.told[next.id := 0], s.waiters, 0);
  }

  lemma SameWaiter(waiters: seq<Waiter>, j: nat, k: nat)
    requires Queue(waiters) && j < |waiters| && k < |waiters| && waiters[j].id == waiters[k].id
    ensures j == k
  {
  }

  lemma ListenWaits(s: State, i: nat, id: nat)
    requires Waiting(s.waiters, id)
    ensures Waiting(Listened(s, i).waiters, id)
  {
    var k :| 0 <= k < |s.waiters| && s.waiters[k].id == id;
    assert Listened(s, i).waiters[k].id == id;
  }

  lemma StillTold(s: State, e: Event, k: nat, k': nat)
    requires Inv(s) && k < |s.waiters| && k' < |Step(s, e).waiters| && Step(s, e).waiters[k'].id == s.waiters[k].id
    ensures Step(s, e).waiters[k'].onPosition == s.waiters[k].onPosition
  {
    hide Slots, Told, SettledOnce, Rising, Notified, Cut, Queue;
    var w := Step(s, e).waiters[k'];
    assert s.waiters[k].id < s.calls by { KnownWaiter(s, k); }
    var j := k';
    match e {
      case Acquire(_, _, _, _) =>
      case Listen(_) =>
      case Abort(id) =>
        var m := Place(s.waiters, id);
        if m < |s.waiters| && s.waiters[m].listening {
          CutSize(s.waiters, m);
          CutAt(s.waiters, m, k');
          j := if k' < m then k' else k' + 1;
        }
      case Release =>
        if s.waiters != [] {
          CutSize(s.waiters, 0);
          CutAt(s.waiters, 0, k');
          j := k' + 1;
        }
    }
    assert j < |s.waiters| && s.waiters[j].id == w.id && s.waiters[j].onPosition == w.onPosition;
    SameWaiter(s.waiters, j, k);
  }

  lemma KnownWaiter(s: State, k: nat)
    requires Inv(s) && k < |s.waiters|
    ensures s.waiters[k].id < s.calls
  {
    hide Slots, Told, Rising;
    assert Waiting(s.waiters, s.waiters[k].id);
  }

  /** The last thing that a granted waiter has been told is place 0. */
  lemma {:induction false} GrantedTold(s: State, es: seq<Event>, k: nat)
    requires Inv(s) && Reports(s) && Balanced(s, es) && k < |s.waiters| && s.waiters[k].onPosition
    ensures var id := s.waiters[k].id;
            id in Run(s, es).granted ==> id in Run(s, es).told && Run(s, es).told[id] == 0
    decreases |es|
  {
    hide Slots, Told, Rising, Step, Waiting, Reports, Queue;
    var id := s.waiters[k].id;
    HeadWaits(s.waiters, k);
    if es == [] {
      assert id !in s.granted;
    } else {
      var t := Step(s, es[0]);
      StepKeeps(s, es[0]);
      StepReports(s, es[0]);
      if Waiting(t.waiters, id) {
        var k' := StepForward(s, es[0], k);
        StillTold(s, es[0], k, k');
        GrantedTold(t, es[1..], k');
      } else {
        LeavesTold(s, es[0], k);
        StepStays(s, es[0], id);
        PlacesImprove(t, es[1..]);
        SettledStays(t, es[1..], id);
      }
    }
  }

  /** Nobody has been told anything at the start. */
  lemma StartReports(limit: nat)
    ensures Reports(Start(limit))
  {
  }

  // ----- signals

  /** The waiter in place k is listening, if it is still the one named id. */
  predicate Listening(waiters: seq<Waiter>, id: nat) {
    forall k :: 0 <= k < |waiters| && waiters[k].id == id ==> waiters[k].listening
  }

  /** The second part of an acquire attaches the handler of a waiter that has a signal. */
  lemma ListenAttaches(s: State, k: nat)
    requires Inv(s) && k < |s.waiters| && s.waiters[k].hasSignal
    ensures Listening(Listened(s, s.waiters[k].id).waiters, s.waiters[k].id)
    ensures Waiting(Listened(s, s.waiters[k].id).waiters, s.waiters[k].id)
  {
    hide Slots, Told, SettledOnce, Rising;
    var id := s.waiters[k].id;
    InOrderQueue(s);
    assert Place(s.waiters, id) == k;
    assert Listened(s, id).waiters[k].id == id;
  }

  lemma {:induction false} ListeningStays(s: State, es: seq<Event>, id: nat)
    requires Inv(s) && Balanced(s, es) && id < s.calls && Listening(s.waiters, id)
    ensures Listening(Run(s, es).waiters, id)
    decreases |es|
  {
    hide Inv, Step, Listening;
    if es != [] {
      StepKeeps(s, es[0]);
      StepStays(s, es[0], id);
      ListeningStep(s, es[0], id);
      ListeningStays(Step(s, es[0]), es[1..], id);
    }
  }

  lemma ListeningStep(s: State, e: Event, id: nat)
    requires Listening(s.waiters, id) && id < s.calls
    ensures Listening(Step(s, e).waiters, id)
  {
    hide Notified;
  }

  /** A signal that fires while its acquire waits with the handler attached, at any later point of a
      run, rejects the acquire, and it is never granted. */
  lemma AbortAfterListening(s: State, id: nat, es: seq<Event>, more: seq<Event>)
    requires Inv(s) && id < s.calls && Listening(s.waiters, id) && Balanced(s, es)
    requires var t := Run(s, es); Waiting(t.waiters, id) && Balanced(Aborted(t, id), more)
    ensures var end := Run(Aborted(Run(s, es), id), more);
            id in end.rejected && id !in end.granted && !Waiting(end.waiters, id)
  {
    hide Slots, Told, Rising, Step, Notified, Cut, Run, Balanced;
    var t := Run(s, es);
    RunKeeps(s, es);
    ListeningStays(s, es, id);
    var k := Place(t.waiters, id);
    assert k < |t.waiters|;
    CutWaiting(t.waiters, k, id);
    assert id < t.calls;
    AbortKeeps(t, id);
    SettledStays(Aborted(t, id), more, id);
  }

  /** Before that it has no effect at all, and is not repeated. */
  lemma AbortBeforeListening(s: State, k: nat)
    requires Inv(s) && k < |s.waiters| && !s.waiters[k].listening
    ensures Step(s, Abort(s.waiters[k].id)) == s
  {
    hide Slots, Told, SettledOnce, Rising;
    InOrderQueue(s);
    assert Place(s.waiters, s.waiters[k].id) == k;
  }

  /** A signal that has fired before the call rejects it exactly if no slot is free; otherwise the
      acquire is granted for good. */
  lemma FiredBeforeCall(s: State, onQueued: bool, onPosition: bool, es: seq<Event>)
    requires Inv(s) && Balanced(Acquired(s, true, true, onQueued, onPosition), es)
    ensures var end := Run(Acquired(s, true, true, onQueued, onPosition), es);
            (s.calls in end.rejected <==> s.inFlight == s.limit) && (s.calls in end.granted <==> s.inFlight < s.limit)
  {
    hide Told, Rising, Queue, Waiting, Run, Balanced;
    var t := Acquired(s, true, true, onQueued, onPosition);
    AcquireKeeps(s, true, true, onQueued, onPosition);
    assert s.calls in t.granted || s.calls in t.rejected;
    SettledStays(t, es, s.calls);
  }

  lemma InOrderQueue(s: State)
    requires Inv(s)
    ensures Queue(s.waiters)
  {
  }

  /** The signal of acquire 1 fires while it waits, before its handler is attached: it is granted all the same. */
  lemma LostSignal()
    ensures var es := [Acquire(false, false, false, false), Acquire(true, false, true, true), Abort(1), Listen(1), Release];
            Balanced(Start(1), es) && Run(Start(1), es).granted == [0, 1] && Run(Start(1), es).rejected == {}
  {
    var s0 := Start(1);
    var s1 := Step(s0, Acquire(false, false, false, false));
    var s2 := Step(s1, Acquire(true, false, true, true));
    var w := Waiter(1, true, true, true, false);
    assert s2.waiters == [w];
    assert Place(s2.waiters, 1) == 0;
    var s3 := Step(s2, Abort(1));
    assert s3 == s2;
    var s4 := Step(s3, Listen(1));
    assert s4.waiters == [w.(listening := true)] && s4.granted == [0];
    var s5 := Step(s4, Release);
    assert s5.granted == [0, 1] && s5.rejected == {};
    var es := [Acquire(false, false, false, false), Acquire(true, false, true, true), Abort(1), Listen(1), Release];
    RunFive(s0, es);
    BalancedFive(s0, es);
  }

  lemma RunFive(s: State, es: seq<Event>)
    requires |es| == 5
    ensures Run(s, es) == Step(Step(Step(Step(Step(s, es[0]), es[1]), es[2]), es[3]), es[4])
  {
    hide Step;
    var s1, s2, s3 := Step(s, es[0]), Step(Step(s, es[0]), es[1]), Step(Step(Step(s, es[0]), es[1]), es[2]);
    var e1, e2, e3, e4 := es[1..], es[2..], es[3..], es[4..];
    assert e1[1..] == e2 && e2[1..] == e3 && e3[1..] == e4 && e4[1..] == [];
    assert Run(s, es) == Run(s1, e1) == Run(s2, e2) == Run(s3, e3);
    assert Run(s3, e3) == Run(Step(s3, es[3]), e4) == Run(Step(Step(s3, es[3]), es[4]), []);
  }

  lemma BalancedFive(s: State, es: seq<Event>)
    requires |es| == 5 && (forall i :: 0 <= i < 4 ==> !es[i].Release?)
    requires var t := Step(Step(Step(Step(s, es[0]), es[1]), es[2]), es[3]); t.released < |t.granted|
    ensures Balanced(s, es)
  {
    hide Step;
    var s1, s2, s3 := Step(s, es[0]), Step(Step(s, es[0]), es[1]), Step(Step(Step(s, es[0]), es[1]), es[2]);
    var e1, e2, e3, e4 := es[1..], es[2..], es[3..], es[4..];
    assert e1[1..] == e2 && e2[1..] == e3 && e3[1..] == e4 && e4[1..] == [];
    assert Balanced(Step(s3, es[3]), e4);
    assert Balanced(s3, e3);
    assert Balanced(s2, e2);
    assert Balanced(s1, e1);
  }
}

/** The class. */
module SemaphoreClass {
  import opened Wrappers
  import opened SemaphoreRuns

  datatype Outcome = Granted | Rejected | Queued(position: nat)

  class Semaphore {
    const limit: nat
    var inFlightCount: int
    var waiters: seq<Waiter>
    /** The last position that the callbacks of an acquire were given. */
    var told: map<nat, nat>
    var calls: nat
    ghost var granted: seq<nat>
    ghost var rejected: set<nat>
    ghost var released: nat

    ghost function View(): State
      reads this
    {
      State(limit, inFlightCount, waiters, calls, granted, rejected, released, told)
    }

    constructor (limit: nat)
      requires limit >= 1
      ensures View() == Start(limit)
    {
      this.limit := limit;
      inFlightCount, waiters, told, calls := 0, [], map[], 0;
      granted, rejected, released := [], {}, 0;
    }

    /** The constructor's check of the limit. */
    static method Create(limit: int) returns (r: Option<Semaphore>)
      ensures r.Some? <==> limit >= 1
      ensures r.Some? ==> fresh(r.value) && r.value.View() == Start(limit)
    {
      if limit < 1 {
        return None;
      }
      var s := new Semaphore(limit);
      return Some(s);
    }

    method Acquire(hasSignal: bool, aborted: bool, onQueued: bool, onPosition: bool) returns (outcome: Outcome)
      modifies this
      ensures View() == Acquired(old(View()), hasSignal, aborted, onQueued, onPosition)
      ensures outcome == if old(inFlightCount) < limit then Granted
                         else if hasSignal && aborted then Rejected
                         else Queued(|waiters|)
    {
      var id := calls;
      calls := calls + 1;
      if inFlightCount < limit {
        inFlightCount := inFlightCount + 1;
        granted := granted + [id];
        return Granted;
      }
      if hasSignal && aborted {
        rejected := rejected + {id};
        return Rejected;
      }
      waiters := waiters + [Waiter(id, hasSignal, onQueued, onPosition, false)];
      if onQueued {
        told := told[id := |waiters|];
      }
      return Queued(|waiters|);
    }

    /** The end of an acquire that was queued: attaches its abort handler. */
    method Listen(id: nat)
      modifies this
      ensures View() == Listened(old(View()), id)
    {
      var k := IndexOf(id);
      if k < |waiters| && waiters[k].hasSignal {
        waiters := waiters[k := waiters[k].(listening := true)];
      }
    }

    method IndexOf(id: nat) returns (k: nat)
      ensures k == Place(waiters, id)
    {
      k := 0;
      while k < |waiters| && waiters[k].id != id
        invariant 0 <= k <= |waiters|
        invariant Place(waiters, id) == k + Place(waiters[k..], id)
      {
        assert waiters[k..][1..] == waiters[k + 1..];
        k := k + 1;
      }
    }

    /** The abort handler, run when the signal of an acquire fires. */
    method AbortHandler(id: nat)
      modifies this
      ensures View() == Aborted(old(View()), id)
    {
      var k := IndexOf(id);
      if k < |waiters| && waiters[k].listening {
        waiters := waiters[..k] + waiters[k + 1..];
        NotifyPositions();
        rejected := rejected + {id};
      }
    }

    method Release() returns (next: Option<nat>)
      modifies this
      ensures View() == Released(old(View()))
      ensures next == if old(waiters) == [] then None else Some(old(waiters)[0].id)
    {
      released := released + 1;
      if waiters == [] {
        inFlightCount := inFlightCount - 1;
        return None;
      }
      var w := waiters[0];
      assert waiters[1..] == Cut(waiters, 0);
      waiters := waiters[1..];
      if w.onPosition {
        told := told[w.id := 0];
      }
      granted := granted + [w.id];
      NotifyPositions();
      return Some(w.id);
    }

    method NotifyPositions()
      modifies this`told
      ensures told == Notified(old(told), waiters, 0)
    {
      var i := 0;
      while i < |waiters|
        invariant 0 <= i <= |waiters|
        invariant Notified(told, waiters, i) == Notified(old(told), waiters, 0)
      {
        if waiters[i].onPosition {
          told := told[waiters[i].id := i + 1];
        }
        i := i + 1;
      }
    }
  }
}
