/**
 The admission scheduler of subagent runs, as a function from states and events to states: a cap on
 concurrent runs, a total capacity, one writer per workspace, aborts, releases and usage totals.
 */
module Scheduling {
  import opened Wrappers

  type RunId = string

  type Workspace = string

  datatype Config = Config(maxConcurrentRuns: nat, maxPendingRuns: nat)

  datatype Request = Request(runId: RunId, cwd: Workspace, write: bool)

  /** An admission that waits; `ticket` numbers admissions by arrival. */
  datatype Pending = Pending(request: Request, ticket: nat)

  datatype Usage = Usage(input: real, output: real, cacheRead: real, cacheWrite: real, cost: real, turns: real)

  const ZERO_USAGE := Usage(0.0, 0.0, 0.0, 0.0, 0.0, 0.0)

  datatype ActiveRun = ActiveRun(request: Request, usage: Usage)

  datatype Reason = Closed | Capacity | Aborted

  /** What a caller of acquire sees: a lease, with the workspaces that were held at that moment, or a rejection. */
  datatype Outcome = Started(admission: Pending, held: set<Workspace>) | Rejected(runId: RunId, reason: Reason)

  datatype State = State(
    active: map<RunId, ActiveRun>,
    pending: seq<Pending>,
    writers: set<Workspace>,
    aborted: set<RunId>,
    closed: bool,
    total: Usage,
    latest: map<RunId, Usage>,
    outcomes: seq<Outcome>,
    arrivals: nat,
    known: set<RunId>)

  const INITIAL := State(map[], [], {}, {}, false, ZERO_USAGE, map[], [], 0, {})

  // ---- Starting runs -----------------------------------------------------------------------------

  predicate Held(s: State, p: Pending) {
    p.request.write && p.request.cwd in s.writers
  }

  predicate CanStart(cfg: Config, s: State, p: Pending) {
    |s.active| < cfg.maxConcurrentRuns && !Held(s, p)
  }

  function FirstStartable(cfg: Config, s: State, from: nat): (r: Option<nat>)
    requires from <= |s.pending|
    ensures r.Some? ==> from <= r.value < |s.pending| && CanStart(cfg, s, s.pending[r.value])
    ensures forall j | from <= j < (if r.Some? then r.value else |s.pending|) :: !CanStart(cfg, s, s.pending[j])
    decreases |s.pending| - from
  {
    if from == |s.pending| then
      None
    else if CanStart(cfg, s, s.pending[from]) then
      Some(from)
    else
      FirstStartable(cfg, s, from + 1)
  }

  function Start(s: State, p: Pending): State {
    s.(active := s.active[p.request.runId := ActiveRun(p.request, ZERO_USAGE)],
       writers := if p.request.write then s.writers + {p.request.cwd} else s.writers,
       outcomes := s.outcomes + [Started(p, s.writers)])
  }

  function Reject(s: State, runId: RunId, reason: Reason): State {
    s.(outcomes := s.outcomes + [Rejected(runId, reason)])
  }

  function WithoutPending(s: State, i: nat): State
    requires i < |s.pending|
  {
    s.(pending := Without(s.pending, i))
  }

  function Without<T>(queue: seq<T>, i: nat): seq<T>
    requires i < |queue|
  {
    queue[..i] + queue[i + 1..]
  }

  /** Takes the pending admission at `i` out of the queue: it starts unless its signal fired meanwhile. */
  function Take(s: State, i: nat): State
    requires i < |s.pending|
  {
    var p := s.pending[i];
    if p.request.runId in s.aborted then
      Reject(WithoutPending(s, i), p.request.runId, Aborted)
    else
      Start(WithoutPending(s, i), p)
  }

  function Drain(cfg: Config, s: State): State
    decreases |s.pending|
  {
    if s.closed || |s.active| >= cfg.maxConcurrentRuns then
      s
    else
      match FirstStartable(cfg, s, 0)
      case None => s
      case Some(i) => Drain(cfg, Take(s, i))
  }

  // ---- Events ------------------------------------------------------------------------------------

  function Rejection(cfg: Config, s: State, request: Request): Option<Reason> {
    if s.closed then
      Some(Closed)
    else if request.runId in s.aborted then
      Some(Aborted)
    else if |s.active| + |s.pending| >= cfg.maxPendingRuns + cfg.maxConcurrentRuns then
      Some(Capacity)
    else
      None
  }

  function Arrive(s: State, request: Request): State {
    s.(known := s.known + {request.runId}, arrivals := s.arrivals + 1)
  }

  function Enqueue(s: State, request: Request): State {
    Arrive(s, request).(pending := s.pending + [Pending(request, s.arrivals)])
  }

  function Acquire(cfg: Config, s: State, request: Request): State {
    match Rejection(cfg, s, request)
    case Some(reason) => Reject(Arrive(s, request), request.runId, reason)
    case None => Drain(cfg, Enqueue(s, request))
  }

  function IndexOf(pending: seq<Pending>, runId: RunId): (r: Option<nat>)
    ensures r.Some? ==> r.value < |pending| && pending[r.value].request.runId == runId
    ensures r.None? ==> forall p | p in pending :: p.request.runId != runId
  {
    if pending == [] then
      None
    else if pending[0].request.runId == runId then
      Some(0)
    else
      match IndexOf(pending[1..], runId)
      case None => None
      case Some(i) => Some(i + 1)
  }

  /** The abort listener of a waiting admission; it is removed once the admission has left the queue. */
  function OnAbort(s: State, runId: RunId): State {
    match IndexOf(s.pending, runId)
    case None => s
    case Some(i) => Reject(WithoutPending(s, i), runId, Aborted)
  }

  function Max0(x: real): real {
    if x > 0.0 then x else 0.0
  }

  function AddUsageDelta(total: Usage, previous: Usage, next: Usage): Usage {
    Usage(
      total.input + Max0(next.input - previous.input),
      total.output + Max0(next.output - previous.output),
      total.cacheRead + Max0(next.cacheRead - previous.cacheRead),
      total.cacheWrite + Max0(next.cacheWrite - previous.cacheWrite),
      total.cost + Max0(next.cost - previous.cost),
      total.turns + Max0(next.turns - previous.turns))
  }

  function Report(s: State, runId: RunId, usage: Usage): State {
    if runId !in s.active then
      s
    else
      var run := s.active[runId];
      s.(total := AddUsageDelta(s.total, run.usage, usage),
         active := s.active[runId := run.(usage := usage)],
         latest := s.latest[runId := usage])
  }

  function Remove(s: State, runId: RunId): State
    requires runId in s.active
  {
    var request := s.active[runId].request;
    s.(active := s.active - {runId},
       writers := if request.write then s.writers - {request.cwd} else s.writers)
  }

  function Release(cfg: Config, s: State, runId: RunId, usage: Option<Usage>): State {
    if runId !in s.active then
      s
    else
      var reported := if usage.Some? then Report(s, runId, usage.value) else s;
      Drain(cfg, Remove(reported, runId))
  }

  function RejectAll(s: State): State
    decreases |s.pending|
  {
    if s.pending == [] then s else RejectAll(Reject(WithoutPending(s, 0), s.pending[0].request.runId, Closed))
  }

  function Shutdown(s: State): State {
    RejectAll(s.(closed := true))
  }

  datatype Event =
    | Acquires(request: Request)
    | SignalFires(runId: RunId)
    | AbortListener(runId: RunId)
    | Reports(runId: RunId, usage: Usage)
    | Releases(runId: RunId, final: Option<Usage>)
    | ShutsDown

  /** Run ids are not used twice. */
  predicate Legal(s: State, e: Event) {
    e.Acquires? ==> e.request.runId !in s.known
  }

  function Step(cfg: Config, s: State, e: Event): State {
    match e
    case Acquires(request) => Acquire(cfg, s, request)
    case SignalFires(runId) => s.(aborted := s.aborted + {runId})
    case AbortListener(runId) => OnAbort(s, runId)
    case Reports(runId, usage) => Report(s, runId, usage)
    case Releases(runId, final) => Release(cfg, s, runId, final)
    case ShutsDown => Shutdown(s)
  }

  predicate LegalRun(cfg: Config, s: State, events: seq<Event>)
    decreases |events|
  {
    events == [] || (Legal(s, events[0]) && LegalRun(cfg, Step(cfg, s, events[0]), events[1..]))
  }

  function Run(cfg: Config, s: State, events: seq<Event>): State
    decreases |events|
  {
    if events == [] then s else Run(cfg, Step(cfg, s, events[0]), events[1..])
  }

  // ---- The invariant -----------------------------------------------------------------------------

  /** Bounds, and the writer set is exactly the workspaces of the active writers, one each. */
  ghost predicate Bounded(cfg: Config, s: State) {
    && |s.active| <= cfg.maxConcurrentRuns
    && |s.active| + |s.pending| <= cfg.maxPendingRuns + cfg.maxConcurrentRuns
    && (s.closed ==> s.pending == [])
  }

  ghost predicate ActiveWriter(s: State, id: RunId, cwd: Workspace) {
    id in s.active && s.active[id].request.write && s.active[id].request.cwd == cwd
  }

  ghost predicate WritersExact(s: State) {
    && (forall cwd :: cwd in s.writers <==> exists id :: ActiveWriter(s, id, cwd))
    && (forall cwd, a, b | ActiveWriter(s, a, cwd) && ActiveWriter(s, b, cwd) :: a == b)
  }

  ghost predicate IdsDistinct(s: State) {
    && (forall i, j | 0 <= i < j < |s.pending| :: s.pending[i].request.runId != s.pending[j].request.runId)
    && (forall p | p in s.pending ::
          p.request.runId !in s.active && p.request.runId !in s.latest && p.request.runId in s.known)
    && (forall id | id in s.active :: s.active[id].request.runId == id && id in s.known)
    && (forall id | id in s.latest :: id in s.known)
  }

  /** A waiting admission is passed only while its workspace is held, and never by a writer of the same workspace. */
  ghost predicate InTurn(first: Outcome, p: Pending) {
    first.Started? ==>
      || first.admission.ticket < p.ticket
      || (p.request.write && p.request.cwd in first.held
          && !(first.admission.request.write && first.admission.request.cwd == p.request.cwd))
  }

  ghost predicate Orderly(s: State) {
    && (forall i, j | 0 <= i < j < |s.pending| :: s.pending[i].ticket < s.pending[j].ticket)
    && (forall p | p in s.pending :: p.ticket < s.arrivals)
    && (forall o | o in s.outcomes && o.Started? :: o.admission.ticket < s.arrivals)
    && (forall o, p | o in s.outcomes && p in s.pending :: InTurn(o, p))
    && StartsInTurn(s.outcomes)
  }

  ghost predicate StartsInTurn(outcomes: seq<Outcome>) {
    forall i, j | 0 <= i < j < |outcomes| && outcomes[j].Started? :: InTurn(outcomes[i], outcomes[j].admission)
  }

  ghost predicate Inv(cfg: Config, s: State) {
    Bounded(cfg, s) && WritersExact(s) && IdsDistinct(s) && Orderly(s)
  }

  /** Nothing that could run waits. */
  ghost predicate AtRest(cfg: Config, s: State) {
    !s.closed && |s.active| < cfg.maxConcurrentRuns ==> forall p | p in s.pending :: Held(s, p)
  }

  // ---- Every event keeps the invariant -----------------------------------------------------------

  lemma WithoutIndices<T>(queue: seq<T>, i: nat)
    requires i < |queue|
    ensures |Without(queue, i)| == |queue| - 1
    ensures forall k | 0 <= k < |queue| - 1 :: Without(queue, i)[k] == queue[if k < i then k else k + 1]
  {
  }

  lemma WithoutMember(s: State, i: nat, q: Pending)
    requires i < |s.pending| && q in Without(s.pending, i)
    ensures q in s.pending
    ensures IdsDistinct(s) ==> q.request.runId != s.pending[i].request.runId
  {
    WithoutIndices(s.pending, i);
    hide Without;
    var k :| 0 <= k < |s.pending| - 1 && Without(s.pending, i)[k] == q;
    assert s.pending[if k < i then k else k + 1] == q;
  }

  lemma DropKeepsOrder(s: State, i: nat)
    requires Orderly(s) && i < |s.pending|
    ensures Orderly(WithoutPending(s, i))
  {
    WithoutIndices(s.pending, i);
    forall q | q in Without(s.pending, i) ensures q in s.pending {
      WithoutMember(s, i, q);
    }
    hide Without;
  }

  lemma RejectKeepsOrder(s: State, runId: RunId, reason: Reason)
    requires Orderly(s)
    ensures Orderly(Reject(s, runId, reason))
  {
  }

  lemma StartKeepsOrder(s: State, p: Pending)
    requires Orderly(s) && p.ticket < s.arrivals
    requires forall o | o in s.outcomes :: InTurn(o, p)
    requires forall q | q in s.pending :: InTurn(Started(p, s.writers), q)
    ensures Orderly(Start(s, p))
  {
    var outcomes := Start(s, p).outcomes;
    forall a, b | 0 <= a < b < |outcomes| && outcomes[b].Started? ensures InTurn(outcomes[a], outcomes[b].admission) {
      assert outcomes[a] == s.outcomes[a];
      if b == |s.outcomes| {
        assert s.outcomes[a] in s.outcomes;
      } else {
        assert outcomes[b] == s.outcomes[b];
      }
    }
  }

  lemma TakeKeepsOrder(cfg: Config, s: State, i: nat)
    requires Orderly(s) && i < |s.pending| && CanStart(cfg, s, s.pending[i])
    requires forall j | 0 <= j < i :: !CanStart(cfg, s, s.pending[j])
    ensures Orderly(Take(s, i))
  {
    var p, dropped := s.pending[i], WithoutPending(s, i);
    assert p in s.pending;
    DropKeepsOrder(s, i);
    if p.request.runId in s.aborted {
      RejectKeepsOrder(dropped, p.request.runId, Aborted);
    } else {
      forall q | q in dropped.pending ensures InTurn(Started(p, s.writers), q) {
        WithoutMember(s, i, q);
        if q.ticket <= p.ticket {
          TicketsDiffer(s, i, q);
          var j :| 0 <= j < i && s.pending[..i][j] == q;
          assert Held(s, s.pending[j]);
        }
      }
      StartKeepsOrder(dropped, p);
    }
  }

  lemma TicketsDiffer(s: State, i: nat, q: Pending)
    requires Orderly(s) && i < |s.pending| && q in Without(s.pending, i) && q.ticket <= s.pending[i].ticket
    ensures q in s.pending[..i]
  {
    WithoutIndices(s.pending, i);
    var k :| 0 <= k < |s.pending| - 1 && Without(s.pending, i)[k] == q;
    hide Without;
    assert k < i;
    assert s.pending[..i][k] == q;
  }

  lemma DropKeepsIds(s: State, i: nat)
    requires IdsDistinct(s) && i < |s.pending|
    ensures IdsDistinct(WithoutPending(s, i))
    ensures forall q | q in WithoutPending(s, i).pending :: q.request.runId != s.pending[i].request.runId
  {
    WithoutIndices(s.pending, i);
    forall q | q in Without(s.pending, i) ensures q in s.pending && q.request.runId != s.pending[i].request.runId {
      WithoutMember(s, i, q);
    }
    hide Without;
  }

  lemma StartKeepsIds(s: State, p: Pending)
    requires IdsDistinct(s) && p.request.runId in s.known
    requires p.request.runId !in s.active && p.request.runId !in s.latest
    requires forall q | q in s.pending :: q.request.runId != p.request.runId
    ensures IdsDistinct(Start(s, p)) && |Start(s, p).active| == |s.active| + 1
  {
    assert Start(s, p).active.Keys == s.active.Keys + {p.request.runId};
  }

  lemma StartKeepsWriters(s: State, p: Pending)
    requires WritersExact(s) && !Held(s, p) && p.request.runId !in s.active
    ensures WritersExact(Start(s, p))
  {
    var s', id := Start(s, p), p.request.runId;
    forall cwd ensures cwd in s'.writers <==> exists a :: ActiveWriter(s', a, cwd) {
      if cwd in s.writers {
        var a :| ActiveWriter(s, a, cwd);
        assert ActiveWriter(s', a, cwd);
      }
      if p.request.write && cwd == p.request.cwd {
        assert ActiveWriter(s', id, cwd);
      }
      if a :| ActiveWriter(s', a, cwd) {
        assert a != id ==> ActiveWriter(s, a, cwd);
      }
    }
    forall cwd, a, b | ActiveWriter(s', a, cwd) && ActiveWriter(s', b, cwd) ensures a == b {
      assert a != id ==> ActiveWriter(s, a, cwd);
      assert b != id ==> ActiveWriter(s, b, cwd);
    }
  }

  lemma RemoveKeepsWriters(s: State, runId: RunId)
    requires WritersExact(s) && runId in s.active
    ensures WritersExact(Remove(s, runId))
  {
    var s', request := Remove(s, runId), s.active[runId].request;
    forall a, cwd ensures ActiveWriter(s', a, cwd) <==> ActiveWriter(s, a, cwd) && a != runId {
    }
    forall cwd ensures cwd in s'.writers <==> exists a :: ActiveWriter(s', a, cwd) {
      if request.write && cwd == request.cwd {
        assert ActiveWriter(s, runId, cwd);
      } else if cwd in s.writers {
        var a :| ActiveWriter(s, a, cwd);
        assert ActiveWriter(s', a, cwd);
      }
      if a :| ActiveWriter(s', a, cwd) {
        assert ActiveWriter(s, a, cwd);
      }
    }
  }

  lemma TakeKeepsInv(cfg: Config, s: State, i: nat)
    requires Inv(cfg, s) && !s.closed && FirstStartable(cfg, s, 0) == Some(i)
    ensures Inv(cfg, Take(s, i))
  {
    var p := s.pending[i];
    var dropped := WithoutPending(s, i);
    assert p in s.pending;
    TakeKeepsOrder(cfg, s, i);
    WithoutIndices(s.pending, i);
    DropKeepsIds(s, i);
    hide Without, Orderly;
    SameWriters(s, dropped);
    if p.request.runId in s.aborted {
      SameWriters(dropped, Take(s, i));
    } else {
      StartKeepsWriters(dropped, p);
      StartKeepsIds(dropped, p);
    }
  }

  lemma SameWriters(s: State, s': State)
    requires WritersExact(s) && s'.writers == s.writers
    requires s'.active.Keys == s.active.Keys
    requires forall id | id in s.active :: s'.active[id].request == s.active[id].request
    ensures WritersExact(s')
  {
    forall id, cwd ensures ActiveWriter(s', id, cwd) <==> ActiveWriter(s, id, cwd) {
    }
    forall cwd ensures cwd in s'.writers <==> exists id :: ActiveWriter(s', id, cwd) {
      if cwd in s.writers {
        var id :| ActiveWriter(s, id, cwd);
        assert ActiveWriter(s', id, cwd);
      }
    }
  }

  lemma {:induction false} DrainKeepsInv(cfg: Config, s: State)
    requires Inv(cfg, s)
    ensures Inv(cfg, Drain(cfg, s)) && AtRest(cfg, Drain(cfg, s))
    decreases |s.pending|
  {
    if s.closed || |s.active| >= cfg.maxConcurrentRuns {
    } else {
      match FirstStartable(cfg, s, 0) {
        case None =>
        case Some(i) =>
          TakeKeepsInv(cfg, s, i);
          DrainKeepsInv(cfg, Take(s, i));
      }
    }
  }

  lemma ArriveKeepsInv(cfg: Config, s: State, request: Request, reason: Reason)
    requires Inv(cfg, s)
    ensures Inv(cfg, Reject(Arrive(s, request), request.runId, reason))
  {
    SameWriters(s, Reject(Arrive(s, request), request.runId, reason));
  }

  lemma EnqueueKeepsInv(cfg: Config, s: State, request: Request)
    requires Inv(cfg, s) && request.runId !in s.known && Rejection(cfg, s, request).None?
    ensures Inv(cfg, Enqueue(s, request))
  {
    var s' := Enqueue(s, request);
    SameWriters(s, s');
    forall p | p in s'.pending ensures p in s.pending || p == Pending(request, s.arrivals) {
    }
  }

  lemma AcquireKeepsInv(cfg: Config, s: State, request: Request)
    requires Inv(cfg, s) && AtRest(cfg, s) && request.runId !in s.known
    ensures Inv(cfg, Acquire(cfg, s, request)) && AtRest(cfg, Acquire(cfg, s, request))
  {
    match Rejection(cfg, s, request) {
      case Some(reason) =>
        ArriveKeepsInv(cfg, s, request, reason);
      case None =>
        EnqueueKeepsInv(cfg, s, request);
        DrainKeepsInv(cfg, Enqueue(s, request));
    }
  }

  lemma DropKeepsRest(s: State, i: nat)
    requires i < |s.pending|
    ensures |Without(s.pending, i)| == |s.pending| - 1 && forall q | q in Without(s.pending, i) :: q in s.pending
  {
    WithoutIndices(s.pending, i);
    forall q | q in Without(s.pending, i) ensures q in s.pending {
      WithoutMember(s, i, q);
    }
  }

  lemma AbortKeepsInv(cfg: Config, s: State, runId: RunId)
    requires Inv(cfg, s) && AtRest(cfg, s)
    ensures Inv(cfg, OnAbort(s, runId)) && AtRest(cfg, OnAbort(s, runId))
  {
    match IndexOf(s.pending, runId) {
      case None =>
      case Some(i) =>
        DropKeepsOrder(s, i);
        RejectKeepsOrder(WithoutPending(s, i), runId, Aborted);
        DropKeepsIds(s, i);
        DropKeepsRest(s, i);
        hide Without, Orderly, IdsDistinct, WritersExact, Held;
        SameWriters(s, OnAbort(s, runId));
    }
  }

  lemma ReportKeepsInv(cfg: Config, s: State, runId: RunId, usage: Usage)
    requires Inv(cfg, s)
    ensures Inv(cfg, Report(s, runId, usage)) && (AtRest(cfg, s) ==> AtRest(cfg, Report(s, runId, usage)))
  {
    if runId in s.active {
      var s' := Report(s, runId, usage);
      assert s'.active.Keys == s.active.Keys;
      assert |s'.active.Keys| == |s.active.Keys|;
      SameWriters(s, s');
    }
  }

  lemma RemoveKeepsInv(cfg: Config, s: State, runId: RunId)
    requires Inv(cfg, s) && runId in s.active
    ensures Inv(cfg, Remove(s, runId))
  {
    RemoveKeepsWriters(s, runId);
    var removed := Remove(s, runId);
    assert removed.active.Keys == s.active.Keys - {runId};
    assert |removed.active.Keys| == |s.active.Keys| - 1;
  }

  lemma ReleaseKeepsInv(cfg: Config, s: State, runId: RunId, final: Option<Usage>)
    requires Inv(cfg, s) && AtRest(cfg, s)
    ensures Inv(cfg, Release(cfg, s, runId, final)) && AtRest(cfg, Release(cfg, s, runId, final))
  {
    if runId in s.active {
      var reported := if final.Some? then Report(s, runId, final.value) else s;
      if final.Some? {
        ReportKeepsInv(cfg, s, runId, final.value);
      }
      RemoveKeepsInv(cfg, reported, runId);
      DrainKeepsInv(cfg, Remove(reported, runId));
    }
  }

  lemma {:induction false} RejectAllKeepsInv(cfg: Config, s: State)
    requires WritersExact(s) && IdsDistinct(s) && Orderly(s)
    requires |s.active| <= cfg.maxConcurrentRuns &&
      |s.active| + |s.pending| <= cfg.maxPendingRuns + cfg.maxConcurrentRuns
    ensures Inv(cfg, RejectAll(s)) && RejectAll(s).closed == s.closed && RejectAll(s).pending == []
    decreases |s.pending|
  {
    if s.pending == [] {
    } else {
      var s' := Reject(WithoutPending(s, 0), s.pending[0].request.runId, Closed);
      DropKeepsOrder(s, 0);
      RejectKeepsOrder(WithoutPending(s, 0), s.pending[0].request.runId, Closed);
      DropKeepsIds(s, 0);
      SameWriters(s, s');
      RejectAllKeepsInv(cfg, s');
    }
  }

  lemma StepKeepsInv(cfg: Config, s: State, e: Event)
    requires Inv(cfg, s) && AtRest(cfg, s) && Legal(s, e)
    ensures Inv(cfg, Step(cfg, s, e)) && AtRest(cfg, Step(cfg, s, e))
  {
    match e {
      case Acquires(request) => AcquireKeepsInv(cfg, s, request);
      case SignalFires(_) => SameWriters(s, Step(cfg, s, e));
      case AbortListener(runId) => AbortKeepsInv(cfg, s, runId);
      case Reports(runId, usage) => ReportKeepsInv(cfg, s, runId, usage);
      case Releases(runId, final) => ReleaseKeepsInv(cfg, s, runId, final);
      case ShutsDown =>
        SameWriters(s, s.(closed := true));
        RejectAllKeepsInv(cfg, s.(closed := true));
    }
  }

  lemma {:induction false} RunKeepsInv(cfg: Config, s: State, events: seq<Event>)
    requires Inv(cfg, s) && AtRest(cfg, s) && LegalRun(cfg, s, events)
    ensures Inv(cfg, Run(cfg, s, events)) && AtRest(cfg, Run(cfg, s, events))
    decreases |events|
  {
    if events == [] {
    } else {
      StepKeepsInv(cfg, s, events[0]);
      RunKeepsInv(cfg, Step(cfg, s, events[0]), events[1..]);
    }
  }

  lemma InitialInv(cfg: Config)
    ensures Inv(cfg, INITIAL) && AtRest(cfg, INITIAL)
  {
  }

  // ---- Main results ------------------------------------------------------------------------------

  /** Safety over every run: the caps, and exactly the workspaces of active writers are held, by one writer each. */
  lemma SupervisorSafety(cfg: Config, events: seq<Event>)
    requires LegalRun(cfg, INITIAL, events)
    ensures var s := Run(cfg, INITIAL, events);
            && |s.active| <= cfg.maxConcurrentRuns
            && |s.active| + |s.pending| <= cfg.maxPendingRuns + cfg.maxConcurrentRuns
            && WritersExact(s)
  {
    InitialInv(cfg);
    RunKeepsInv(cfg, INITIAL, events);
  }

  /** Between events a free slot means that whatever waits is a writer of a held workspace; so waiting means running. */
  lemma WorkConserving(cfg: Config, events: seq<Event>)
    requires LegalRun(cfg, INITIAL, events)
    ensures var s := Run(cfg, INITIAL, events);
            && (|s.active| < cfg.maxConcurrentRuns ==> forall p | p in s.pending :: Held(s, p))
            && (s.pending != [] && cfg.maxConcurrentRuns > 0 ==> s.active != map[])
  {
    InitialInv(cfg);
    RunKeepsInv(cfg, INITIAL, events);
    var s := Run(cfg, INITIAL, events);
    if s.pending != [] && |s.active| < cfg.maxConcurrentRuns {
      assert Held(s, s.pending[0]);
      var id :| ActiveWriter(s, id, s.pending[0].request.cwd);
      assert id in s.active;
    }
  }

  /** An admission that still waits, or that started after the start at `i`. */
  ghost predicate NotBefore(s: State, i: nat, p: Pending)
    requires i < |s.outcomes|
  {
    p in s.pending || exists j :: i < j < |s.outcomes| && s.outcomes[j].Started? && s.outcomes[j].admission == p
  }

  /**
   Over every run, starts are out of arrival order only in one way: a run starts before an earlier admission, which
   starts later or still waits, only when that admission is a writer whose workspace is held at that moment and the
   run is not a writer of the same workspace. So writers of one workspace start in arrival order, and no reader that
   waits is passed.
   */
  lemma StartsAreOrderly(cfg: Config, events: seq<Event>, i: nat, later: Pending)
    requires LegalRun(cfg, INITIAL, events)
    requires var s := Run(cfg, INITIAL, events);
             i < |s.outcomes| && s.outcomes[i].Started? && NotBefore(s, i, later)
    ensures var start := Run(cfg, INITIAL, events).outcomes[i];
            later.ticket <= start.admission.ticket ==>
              && later.request.write && later.request.cwd in start.held
              && !(start.admission.request.write && start.admission.request.cwd == later.request.cwd)
  {
    InitialInv(cfg);
    RunKeepsInv(cfg, INITIAL, events);
    var s := Run(cfg, INITIAL, events);
    assert s.outcomes[i] in s.outcomes;
    assert InTurn(s.outcomes[i], later);
  }

  // ---- Why an admission starts or is rejected ----------------------------------------------------

  function IdOf(o: Outcome): RunId {
    match o
    case Started(p, _) => p.request.runId
    case Rejected(id, _) => id
  }

  predicate Waits(s: State, id: RunId) {
    exists p | p in s.pending :: p.request.runId == id
  }

  /** What an event gives as a reason for an outcome, in the state in which it comes. */
  ghost predicate Explains(cfg: Config, s: State, e: Event, o: Outcome) {
    match o
    case Started(p, _) =>
      p.request.runId !in s.aborted && (p in s.pending || (e.Acquires? && p == Pending(e.request, s.arrivals)))
    case Rejected(id, Aborted) =>
      || (e == AbortListener(id) && Waits(s, id))
      || (id in s.aborted && (Waits(s, id) || (e.Acquires? && e.request.runId == id)))
    case Rejected(id, Capacity) =>
      && e.Acquires? && e.request.runId == id && !s.closed && id !in s.aborted
      && |s.active| + |s.pending| == cfg.maxPendingRuns + cfg.maxConcurrentRuns
    case Rejected(id, Closed) =>
      (e.Acquires? && e.request.runId == id && s.closed) || (e.ShutsDown? && Waits(s, id))
  }

  ghost predicate DrainExplains(s: State, o: Outcome) {
    match o
    case Started(p, _) => p in s.pending && p.request.runId !in s.aborted
    case Rejected(id, reason) => reason == Aborted && id in s.aborted && Waits(s, id)
  }

  lemma LaterExplains(s: State, s': State, o: Outcome)
    requires DrainExplains(s', o) && s'.aborted == s.aborted && forall p | p in s'.pending :: p in s.pending
    ensures DrainExplains(s, o)
  {
  }

  /** The new outcomes of a drain are those of waiting admissions, told apart by their signals. */
  lemma {:induction false} DrainIsExplained(cfg: Config, s: State, i: nat)
    requires |s.outcomes| <= i < |Drain(cfg, s).outcomes|
    ensures DrainExplains(s, Drain(cfg, s).outcomes[i])
    decreases |s.pending|
  {
    hide DrainExplains;
    DrainGrows(cfg, s);
    if s.closed || |s.active| >= cfg.maxConcurrentRuns || FirstStartable(cfg, s, 0).None? {
    } else {
      var k := FirstStartable(cfg, s, 0).value;
      var s' := Take(s, k);
      DrainGrows(cfg, s');
      TakeIsExplained(s, k);
      if i > |s.outcomes| {
        DrainIsExplained(cfg, s', i);
        LaterExplains(s, s', Drain(cfg, s).outcomes[i]);
      }
    }
  }

  lemma TakeIsExplained(s: State, k: nat)
    requires k < |s.pending|
    ensures |Take(s, k).outcomes| == |s.outcomes| + 1 && DrainExplains(s, Take(s, k).outcomes[|s.outcomes|])
    ensures Take(s, k).aborted == s.aborted && forall p | p in Take(s, k).pending :: p in s.pending
  {
    assert s.pending[k] in s.pending;
    forall p | p in Take(s, k).pending ensures p in s.pending {
      WithoutMember(s, k, p);
    }
  }

  lemma {:induction false} DrainGrows(cfg: Config, s: State)
    ensures s.outcomes <= Drain(cfg, s).outcomes && Drain(cfg, s).aborted == s.aborted
    ensures Drain(cfg, s).known == s.known && Drain(cfg, s).closed == s.closed
    decreases |s.pending|
  {
    if s.closed || |s.active| >= cfg.maxConcurrentRuns || FirstStartable(cfg, s, 0).None? {
    } else {
      DrainGrows(cfg, Take(s, FirstStartable(cfg, s, 0).value));
    }
  }

  lemma {:induction false} RejectAllMeans(s: State)
    ensures var s' := RejectAll(s);
            && s'.pending == [] && |s'.outcomes| == |s.outcomes| + |s.pending| && s.outcomes <= s'.outcomes
            && forall i | 0 <= i < |s.pending| ::
                 s'.outcomes[|s.outcomes| + i] == Rejected(s.pending[i].request.runId, Closed)
    decreases |s.pending|
  {
    if s.pending == [] {
    } else {
      assert Without(s.pending, 0) == s.pending[1..];
      RejectAllMeans(Reject(WithoutPending(s, 0), s.pending[0].request.runId, Closed));
    }
  }

  /** Every new outcome of an event has its reason. */
  lemma StepIsExplained(cfg: Config, s: State, e: Event, i: nat)
    requires Inv(cfg, s) && |s.outcomes| <= i < |Step(cfg, s, e).outcomes|
    ensures Explains(cfg, s, e, Step(cfg, s, e).outcomes[i]) && s.outcomes <= Step(cfg, s, e).outcomes
  {
    hide Drain, RejectAll, WritersExact, IdsDistinct, Orderly, Explains, DrainExplains, Waits, Rejection, Remove,
         Report;
    match e {
      case Acquires(request) =>
        var rejection := Rejection(cfg, s, request);
        if rejection.None? {
          DrainIsExplained(cfg, Enqueue(s, request), i);
          DrainGrows(cfg, Enqueue(s, request));
          QueuedIsExplained(cfg, s, request, Step(cfg, s, e).outcomes[i]);
        } else {
          RejectionIsExplained(cfg, s, request);
        }
      case SignalFires(_) =>
      case AbortListener(id) =>
        if IndexOf(s.pending, id).Some? {
          WaitingIsExplained(cfg, s, IndexOf(s.pending, id).value);
        }
      case Reports(id, usage) => ReportKeepsQueue(s, id, usage);
      case Releases(id, final) =>
        if id in s.active {
          var reported := if final.Some? then Report(s, id, final.value) else s;
          ReleaseKeepsQueue(s, id, final);
          DrainIsExplained(cfg, Remove(reported, id), i);
          DrainGrows(cfg, Remove(reported, id));
          FreedIsExplained(cfg, s, e, Remove(reported, id), Step(cfg, s, e).outcomes[i]);
        }
      case ShutsDown =>
        RejectAllMeans(s.(closed := true));
        var k := i - |s.outcomes|;
        assert Step(cfg, s, e).outcomes[|s.outcomes| + k] == Rejected(s.pending[k].request.runId, Closed);
        WaitingIsExplained(cfg, s, k);
    }
  }

  lemma RejectionIsExplained(cfg: Config, s: State, request: Request)
    requires Bounded(cfg, s) && Rejection(cfg, s, request).Some?
    ensures Explains(cfg, s, Acquires(request), Rejected(request.runId, Rejection(cfg, s, request).value))
  {
  }

  lemma WaitingIsExplained(cfg: Config, s: State, k: nat)
    requires k < |s.pending|
    ensures var id := s.pending[k].request.runId;
            && Explains(cfg, s, AbortListener(id), Rejected(id, Aborted))
            && Explains(cfg, s, ShutsDown, Rejected(id, Closed))
  {
    assert s.pending[k] in s.pending;
  }

  lemma ReportKeepsQueue(s: State, id: RunId, usage: Usage)
    ensures var s' := Report(s, id, usage);
            s'.outcomes == s.outcomes && s'.pending == s.pending && s'.aborted == s.aborted
  {
  }

  lemma ReleaseKeepsQueue(s: State, id: RunId, final: Option<Usage>)
    requires id in s.active
    ensures var reported := if final.Some? then Report(s, id, final.value) else s;
            && id in reported.active
            && var s' := Remove(reported, id);
               s'.outcomes == s.outcomes && s'.pending == s.pending && s'.aborted == s.aborted
  {
  }

  lemma FreedIsExplained(cfg: Config, s: State, e: Event, freed: State, o: Outcome)
    requires DrainExplains(freed, o) && freed.pending == s.pending && freed.aborted == s.aborted
    ensures Explains(cfg, s, e, o)
  {
  }

  /** A run starts while its workspace, if it writes, is free; what it finds held is held by runs that are active. */
  ghost predicate HeldNow(o: Outcome, after: State) {
    o.Started? ==>
      && o.held <= after.writers
      && (o.admission.request.write ==> o.admission.request.cwd !in o.held && o.admission.request.cwd in after.writers)
  }

  lemma {:induction false} DrainHolds(cfg: Config, s: State, i: nat)
    requires |s.outcomes| <= i
    ensures s.writers <= Drain(cfg, s).writers
    ensures i < |Drain(cfg, s).outcomes| ==> HeldNow(Drain(cfg, s).outcomes[i], Drain(cfg, s))
    decreases |s.pending|
  {
    if s.closed || |s.active| >= cfg.maxConcurrentRuns || FirstStartable(cfg, s, 0).None? {
    } else {
      var s' := Take(s, FirstStartable(cfg, s, 0).value);
      DrainGrows(cfg, s');
      DrainHolds(cfg, s', if i < |s'.outcomes| then |s'.outcomes| else i);
    }
  }

  lemma StepHolds(cfg: Config, s: State, e: Event, i: nat)
    requires |s.outcomes| <= i < |Step(cfg, s, e).outcomes|
    ensures HeldNow(Step(cfg, s, e).outcomes[i], Step(cfg, s, e))
  {
    hide Drain, RejectAll, HeldNow;
    NothingHeld(Step(cfg, s, e).outcomes[i], Step(cfg, s, e));
    match e {
      case Acquires(request) =>
        if Rejection(cfg, s, request).None? {
          DrainHolds(cfg, Enqueue(s, request), i);
        }
      case Releases(id, final) =>
        if id in s.active {
          DrainHolds(cfg, Remove(if final.Some? then Report(s, id, final.value) else s, id), i);
        }
      case ShutsDown => RejectAllRejects(s.(closed := true));
      case _ =>
    }
  }

  lemma NothingHeld(o: Outcome, s: State)
    ensures o.Rejected? ==> HeldNow(o, s)
  {
  }

  lemma QueuedIsExplained(cfg: Config, s: State, request: Request, o: Outcome)
    requires Rejection(cfg, s, request).None? && DrainExplains(Enqueue(s, request), o)
    ensures Explains(cfg, s, Acquires(request), o)
  {
    var queued := Enqueue(s, request);
    forall p | p in queued.pending ensures p in s.pending || p == Pending(request, s.arrivals) {
    }
  }

  lemma {:induction false} StepGrows(cfg: Config, s: State, e: Event)
    requires Inv(cfg, s)
    ensures s.outcomes <= Step(cfg, s, e).outcomes
  {
    hide Drain, RejectAll, WritersExact, IdsDistinct, Orderly;
    match e {
      case Acquires(request) => DrainGrows(cfg, Enqueue(s, request));
      case Releases(id, final) =>
        if id in s.active {
          DrainGrows(cfg, Remove(if final.Some? then Report(s, id, final.value) else s, id));
        }
      case ShutsDown => RejectAllMeans(s.(closed := true));
      case _ =>
    }
  }

  lemma {:induction false} RunGrows(cfg: Config, s: State, events: seq<Event>)
    requires Inv(cfg, s) && AtRest(cfg, s) && LegalRun(cfg, s, events)
    ensures s.outcomes <= Run(cfg, s, events).outcomes
    decreases |events|
  {
    hide Inv, AtRest, Step, Legal;
    if events == [] {
    } else {
      StepGrows(cfg, s, events[0]);
      StepKeepsInv(cfg, s, events[0]);
      RunGrows(cfg, Step(cfg, s, events[0]), events[1..]);
    }
  }

  lemma {:induction false} RunIsExplained(cfg: Config, s: State, events: seq<Event>, i: nat) returns (k: nat)
    requires Inv(cfg, s) && AtRest(cfg, s) && LegalRun(cfg, s, events)
    requires |s.outcomes| <= i < |Run(cfg, s, events).outcomes|
    ensures k < |events| && Explains(cfg, Run(cfg, s, events[..k]), events[k], Run(cfg, s, events).outcomes[i])
    ensures HeldNow(Run(cfg, s, events).outcomes[i], Run(cfg, s, events[..k + 1]))
    decreases |events|
  {
    hide Inv, AtRest, Step, Legal, Explains, HeldNow;
    var s' := Step(cfg, s, events[0]);
    StepGrows(cfg, s, events[0]);
    StepKeepsInv(cfg, s, events[0]);
    RunGrows(cfg, s', events[1..]);
    if i < |s'.outcomes| {
      StepIsExplained(cfg, s, events[0], i);
      StepHolds(cfg, s, events[0], i);
      k := 0;
      assert events[..0] == [] && events[..1][1..] == [];
    } else {
      k := RunIsExplained(cfg, s', events[1..], i);
      assert events[..k + 1][1..] == events[1..][..k];
      assert events[..k + 2][1..] == events[1..][..k + 1];
      k := k + 1;
    }
  }

  /**
   Over every run, each outcome has its reason in the event that brought it: a start is of an admission whose signal
   has not fired, a rejection as aborted of one whose signal has fired or whose abort listener runs, a rejection for
   capacity of a request that meets a full supervisor, and a rejection as closed comes with the shutdown or after it.
   A writer starts while its workspace is free.
   */
  lemma OutcomesAreExplained(cfg: Config, events: seq<Event>, i: nat) returns (k: nat)
    requires LegalRun(cfg, INITIAL, events) && i < |Run(cfg, INITIAL, events).outcomes|
    ensures k < |events|
    ensures Explains(cfg, Run(cfg, INITIAL, events[..k]), events[k], Run(cfg, INITIAL, events).outcomes[i])
    ensures HeldNow(Run(cfg, INITIAL, events).outcomes[i], Run(cfg, INITIAL, events[..k + 1]))
  {
    InitialInv(cfg);
    k := RunIsExplained(cfg, INITIAL, events, i);
  }

  // ---- Every admission is answered once ----------------------------------------------------------

  ghost predicate HasOutcome(outcomes: seq<Outcome>, id: RunId) {
    exists o | o in outcomes :: IdOf(o) == id
  }

  /** Every id that was ever acquired waits or has one outcome, not both; what is active has started. */
  ghost predicate Answered(s: State) {
    && (forall i, j | 0 <= i < j < |s.outcomes| :: IdOf(s.outcomes[i]) != IdOf(s.outcomes[j]))
    && (forall o | o in s.outcomes :: IdOf(o) in s.known)
    && (forall id | id in s.known :: Waits(s, id) <==> !HasOutcome(s.outcomes, id))
    && (forall id | id in s.active :: exists o | o in s.outcomes :: o.Started? && IdOf(o) == id)
  }

  lemma AnswerOne(s: State, i: nat, s': State, o: Outcome)
    requires IdsDistinct(s) && Answered(s) && i < |s.pending| && IdOf(o) == s.pending[i].request.runId
    requires s'.outcomes == s.outcomes + [o] && s'.pending == Without(s.pending, i) && s'.known == s.known
    requires forall id | id in s'.active :: id in s.active || (id == IdOf(o) && o.Started?)
    ensures Answered(s')
  {
    var id := IdOf(o);
    assert s.pending[i] in s.pending;
    assert Waits(s, id);
    DropWaits(s, i, s');
    forall k | 0 <= k < |s.outcomes| ensures IdOf(s.outcomes[k]) != id {
      assert s.outcomes[k] in s.outcomes;
    }
    assert forall x :: x in s'.outcomes <==> x in s.outcomes || x == o;
    forall other | other in s'.known ensures Waits(s', other) <==> !HasOutcome(s'.outcomes, other) {
      if HasOutcome(s.outcomes, other) {
        var x :| x in s.outcomes && IdOf(x) == other;
        assert x in s'.outcomes;
      }
      assert o in s'.outcomes;
    }
    forall other | other in s'.active ensures exists x | x in s'.outcomes :: x.Started? && IdOf(x) == other {
      if other in s.active {
        var x :| x in s.outcomes && x.Started? && IdOf(x) == other;
        assert x in s'.outcomes;
      } else {
        assert o in s'.outcomes;
      }
    }
  }

  lemma StillWaits(s: State, i: nat, s': State, p: Pending)
    requires i < |s.pending| && s'.pending == Without(s.pending, i) && p in s.pending && p != s.pending[i]
    ensures p in s'.pending
  {
    WithoutIndices(s.pending, i);
    hide Without;
    var k :| 0 <= k < |s.pending| && s.pending[k] == p;
    assert s'.pending[if k < i then k else k - 1] == p;
  }

  lemma DropWaits(s: State, i: nat, s': State)
    requires IdsDistinct(s) && i < |s.pending| && s'.pending == Without(s.pending, i)
    ensures forall id :: Waits(s', id) <==> Waits(s, id) && id != s.pending[i].request.runId
  {
    forall id ensures Waits(s', id) <==> Waits(s, id) && id != s.pending[i].request.runId {
      hide IdsDistinct, Without;
      if Waits(s', id) {
        var p :| p in s'.pending && p.request.runId == id;
        WithoutMember(s, i, p);
      }
      if Waits(s, id) && id != s.pending[i].request.runId {
        var p :| p in s.pending && p.request.runId == id;
        StillWaits(s, i, s', p);
      }
    }
  }

  lemma TakeKeepsAnswered(s: State, i: nat)
    requires IdsDistinct(s) && Answered(s) && i < |s.pending|
    ensures Answered(Take(s, i))
  {
    hide IdsDistinct, Answered, Without;
    var p := s.pending[i];
    AnswerOne(s, i, Take(s, i),
      if p.request.runId in s.aborted then Rejected(p.request.runId, Aborted) else Started(p, s.writers));
  }

  lemma {:induction false} DrainKeepsAnswered(cfg: Config, s: State)
    requires Inv(cfg, s) && Answered(s)
    ensures Answered(Drain(cfg, s))
    decreases |s.pending|
  {
    hide Answered, WritersExact, Orderly;
    if s.closed || |s.active| >= cfg.maxConcurrentRuns || FirstStartable(cfg, s, 0).None? {
    } else {
      var i := FirstStartable(cfg, s, 0).value;
      TakeKeepsInv(cfg, s, i);
      TakeKeepsAnswered(s, i);
      DrainKeepsAnswered(cfg, Take(s, i));
    }
  }

  lemma {:induction false} RejectAllKeepsAnswered(s: State)
    requires IdsDistinct(s) && Answered(s)
    ensures Answered(RejectAll(s))
    decreases |s.pending|
  {
    hide Answered, IdsDistinct, Without;
    if s.pending == [] {
    } else {
      var s' := Reject(WithoutPending(s, 0), s.pending[0].request.runId, Closed);
      WithoutIndices(s.pending, 0);
      AnswerOne(s, 0, s', Rejected(s.pending[0].request.runId, Closed));
      DropKeepsIds(s, 0);
      SameIds(WithoutPending(s, 0), s');
      RejectAllKeepsAnswered(s');
    }
  }

  lemma SameIds(s: State, s': State)
    requires IdsDistinct(s)
    requires s'.pending == s.pending && s'.active == s.active && s'.latest == s.latest && s'.known == s.known
    ensures IdsDistinct(s')
  {
  }

  lemma ArriveKeepsAnswered(s: State, request: Request, reason: Reason)
    requires IdsDistinct(s) && Answered(s) && request.runId !in s.known
    ensures Answered(Enqueue(s, request)) && Answered(Reject(Arrive(s, request), request.runId, reason))
  {
    var queued, rejected := Enqueue(s, request), Reject(Arrive(s, request), request.runId, reason);
    var id, o := request.runId, Rejected(request.runId, reason);
    assert forall p :: p in queued.pending <==> p in s.pending || p == Pending(request, s.arrivals);
    assert forall x :: x in rejected.outcomes <==> x in s.outcomes || x == o;
    assert !HasOutcome(s.outcomes, id);
    forall other | other in queued.known ensures Waits(queued, other) <==> !HasOutcome(queued.outcomes, other) {
      if other == id {
        assert Pending(request, s.arrivals) in queued.pending;
      } else {
        assert Waits(queued, other) <==> Waits(s, other);
      }
    }
    forall other | other in rejected.known ensures Waits(rejected, other) <==> !HasOutcome(rejected.outcomes, other) {
      if other == id {
        assert o in rejected.outcomes;
      } else {
        assert HasOutcome(rejected.outcomes, other) <==> HasOutcome(s.outcomes, other);
      }
    }
  }

  /** Nothing is answered by a change to the active runs that adds none. */
  lemma FewerActiveKeepsAnswered(s: State, s': State)
    requires Answered(s) && s'.outcomes == s.outcomes && s'.pending == s.pending && s'.known == s.known
    requires forall id | id in s'.active :: id in s.active
    ensures Answered(s')
  {
    assert forall id :: Waits(s', id) <==> Waits(s, id);
  }

  lemma StepKeepsAnswered(cfg: Config, s: State, e: Event)
    requires Inv(cfg, s) && Legal(s, e) && Answered(s)
    ensures Answered(Step(cfg, s, e))
  {
    hide Answered, IdsDistinct, WritersExact, Orderly, Drain, RejectAll, Without;
    match e {
      case Acquires(request) =>
        match Rejection(cfg, s, request) {
          case Some(reason) => ArriveKeepsAnswered(s, request, reason);
          case None =>
            ArriveKeepsAnswered(s, request, Closed);
            EnqueueKeepsInv(cfg, s, request);
            DrainKeepsAnswered(cfg, Enqueue(s, request));
        }
      case SignalFires(_) => FewerActiveKeepsAnswered(s, Step(cfg, s, e));
      case AbortListener(id) =>
        var index := IndexOf(s.pending, id);
        if index.Some? {
          AnswerOne(s, index.value, Step(cfg, s, e), Rejected(id, Aborted));
        }
      case Reports(_, _) => FewerActiveKeepsAnswered(s, Step(cfg, s, e));
      case Releases(id, final) =>
        if id in s.active {
          var reported := if final.Some? then Report(s, id, final.value) else s;
          if final.Some? {
            ReportKeepsInv(cfg, s, id, final.value);
          }
          RemoveKeepsInv(cfg, reported, id);
          FewerActiveKeepsAnswered(s, Remove(reported, id));
          DrainKeepsAnswered(cfg, Remove(reported, id));
        }
      case ShutsDown =>
        FewerActiveKeepsAnswered(s, s.(closed := true));
        SameIds(s, s.(closed := true));
        RejectAllKeepsAnswered(s.(closed := true));
    }
  }

  lemma {:induction false} RunKeepsAnswered(cfg: Config, s: State, events: seq<Event>)
    requires Inv(cfg, s) && AtRest(cfg, s) && LegalRun(cfg, s, events) && Answered(s)
    ensures Answered(Run(cfg, s, events))
    decreases |events|
  {
    hide Inv, AtRest, Step, Legal, Answered;
    if events == [] {
    } else {
      StepKeepsInv(cfg, s, events[0]);
      StepKeepsAnswered(cfg, s, events[0]);
      RunKeepsAnswered(cfg, Step(cfg, s, events[0]), events[1..]);
    }
  }

  /** Over every run, each id that was acquired waits or has exactly one outcome, and what is active has started. */
  lemma EveryAdmissionIsAnswered(cfg: Config, events: seq<Event>)
    requires LegalRun(cfg, INITIAL, events)
    ensures Answered(Run(cfg, INITIAL, events))
  {
    InitialInv(cfg);
    RunKeepsAnswered(cfg, INITIAL, events);
  }

  // ---- What a request meets ----------------------------------------------------------------------

  /**
   A request is rejected for its reason, starts at once if there is a slot and its workspace is free, and waits behind
   all others if not.
   */
  lemma AcquireMeans(cfg: Config, s: State, request: Request)
    requires Inv(cfg, s) && AtRest(cfg, s) && request.runId !in s.known
    ensures var s', id, p := Acquire(cfg, s, request), request.runId, Pending(request, s.arrivals);
            if s.closed then
              s'.outcomes == s.outcomes + [Rejected(id, Closed)] && s'.pending == s.pending && s'.active == s.active
            else if id in s.aborted then
              s'.outcomes == s.outcomes + [Rejected(id, Aborted)] && s'.pending == s.pending && s'.active == s.active
            else if |s.active| + |s.pending| == cfg.maxPendingRuns + cfg.maxConcurrentRuns then
              s'.outcomes == s.outcomes + [Rejected(id, Capacity)] && s'.pending == s.pending && s'.active == s.active
            else if |s.active| < cfg.maxConcurrentRuns && !(request.write && request.cwd in s.writers) then
              && s'.outcomes == s.outcomes + [Started(p, s.writers)] && s'.pending == s.pending
              && s'.active == s.active[id := ActiveRun(request, ZERO_USAGE)]
            else
              s'.outcomes == s.outcomes && s'.pending == s.pending + [p] && s'.active == s.active
  {
    hide WritersExact, IdsDistinct, Orderly, Drain;
    if Rejection(cfg, s, request).None? {
      var queued := Enqueue(s, request);
      if |s.active| < cfg.maxConcurrentRuns {
        QueuedAreHeld(cfg, s, request);
      }
      if CanStart(cfg, queued, Pending(request, s.arrivals)) {
        LastIsFirst(cfg, queued);
        DrainOnce(cfg, queued, |s.pending|);
        assert Without(queued.pending, |s.pending|) == s.pending;
        StartKeepsHeld(s, Take(queued, |s.pending|));
        DrainNone(cfg, Take(queued, |s.pending|));
      } else {
        DrainNone(cfg, queued);
      }
    }
  }

  lemma QueuedAreHeld(cfg: Config, s: State, request: Request)
    requires AtRest(cfg, s) && !s.closed && |s.active| < cfg.maxConcurrentRuns
    ensures var queued := Enqueue(s, request);
            forall i | 0 <= i < |s.pending| :: Held(queued, queued.pending[i])
  {
    var queued := Enqueue(s, request);
    forall i | 0 <= i < |s.pending| ensures Held(queued, queued.pending[i]) {
      assert s.pending[i] in s.pending && queued.pending[i] == s.pending[i];
    }
  }

  lemma LastIsFirst(cfg: Config, s: State)
    requires s.pending != [] && CanStart(cfg, s, s.pending[|s.pending| - 1])
    requires forall i | 0 <= i < |s.pending| - 1 :: Held(s, s.pending[i])
    ensures FirstStartable(cfg, s, 0) == Some(|s.pending| - 1)
  {
    hide Held;
    var r := FirstStartable(cfg, s, 0);
    assert forall i | 0 <= i < |s.pending| - 1 :: !CanStart(cfg, s, s.pending[i]);
  }

  lemma DrainOnce(cfg: Config, s: State, i: nat)
    requires !s.closed && |s.active| < cfg.maxConcurrentRuns && FirstStartable(cfg, s, 0) == Some(i)
    ensures Drain(cfg, s) == Drain(cfg, Take(s, i))
  {
  }

  lemma DrainNone(cfg: Config, s: State)
    requires s.closed || |s.active| >= cfg.maxConcurrentRuns || forall i | 0 <= i < |s.pending| :: Held(s, s.pending[i])
    ensures Drain(cfg, s) == s
  {
    hide Held;
    var r := FirstStartable(cfg, s, 0);
  }

  /** Starting a run frees no workspace. */
  lemma StartKeepsHeld(s: State, s': State)
    requires s.writers <= s'.writers && s'.pending == s.pending
    requires forall i | 0 <= i < |s.pending| :: Held(s, s.pending[i])
    ensures forall i | 0 <= i < |s'.pending| :: Held(s', s'.pending[i])
  {
    forall i | 0 <= i < |s'.pending| ensures Held(s', s'.pending[i]) {
      assert Held(s, s.pending[i]);
    }
  }

  // ---- Usage -------------------------------------------------------------------------------------

  datatype Component = Input | Output | CacheRead | CacheWrite | Cost | Turns

  function Part(u: Usage, c: Component): real {
    match c
    case Input => u.input
    case Output => u.output
    case CacheRead => u.cacheRead
    case CacheWrite => u.cacheWrite
    case Cost => u.cost
    case Turns => u.turns
  }

  /** A report is remembered as the latest of its run; what it adds to the one before is added to the total. */
  lemma ReportMeans(s: State, runId: RunId, usage: Usage, c: Component)
    ensures var s' := Report(s, runId, usage);
            if runId in s.active then
              && s'.latest == s.latest[runId := usage]
              && s'.active == s.active[runId := ActiveRun(s.active[runId].request, usage)]
              && var more := Part(usage, c) - Part(s.active[runId].usage, c);
                 Part(s'.total, c) == Part(s.total, c) + if more > 0.0 then more else 0.0
            else
              s' == s
  {
  }

  /** The sum of one component over the latest report of every run. */
  ghost function LatestSum(latest: map<RunId, Usage>, c: Component): real {
    if latest == map[] then
      0.0
    else
      var id :| id in latest;
      Part(latest[id], c) + LatestSum(latest - {id}, c)
  }

  lemma {:induction false} LatestSumSplits(latest: map<RunId, Usage>, c: Component, id: RunId)
    requires id in latest
    ensures LatestSum(latest, c) == Part(latest[id], c) + LatestSum(latest - {id}, c)
  {
    var first :| first in latest && LatestSum(latest, c) == Part(latest[first], c) + LatestSum(latest - {first}, c);
    if first != id {
      LatestSumSplits(latest - {first}, c, id);
      LatestSumSplits(latest - {id}, c, first);
      assert latest - {first} - {id} == latest - {id} - {first};
    }
  }

  function PartOf(latest: map<RunId, Usage>, id: RunId, c: Component): real {
    if id in latest then Part(latest[id], c) else 0.0
  }

  lemma LatestSumUpdate(latest: map<RunId, Usage>, c: Component, id: RunId, usage: Usage)
    ensures LatestSum(latest[id := usage], c) == LatestSum(latest, c) - PartOf(latest, id, c) + Part(usage, c)
  {
    LatestSumSplits(latest[id := usage], c, id);
    assert latest[id := usage] - {id} == latest - {id};
    if id in latest {
      LatestSumSplits(latest, c, id);
    } else {
      assert latest - {id} == latest;
    }
  }

  /** The active runs remember what they reported last. */
  ghost predicate UsageRemembered(s: State) {
    forall id, c | id in s.active :: Part(s.active[id].usage, c) == PartOf(s.latest, id, c)
  }

  /** How much a component of an effective report falls below the report before it. */
  function Drop(s: State, e: Event, c: Component): real {
    match e
    case Reports(runId, usage) =>
      if runId in s.active then Max0(Part(s.active[runId].usage, c) - Part(usage, c)) else 0.0
    case Releases(runId, Some(usage)) =>
      if runId in s.active then Max0(Part(s.active[runId].usage, c) - Part(usage, c)) else 0.0
    case _ => 0.0
  }

  function Drops(cfg: Config, s: State, events: seq<Event>, c: Component): real
    decreases |events|
  {
    if events == [] then 0.0 else Drop(s, events[0], c) + Drops(cfg, Step(cfg, s, events[0]), events[1..], c)
  }

  lemma ReportAccounts(s: State, runId: RunId, usage: Usage, c: Component)
    requires UsageRemembered(s)
    ensures var s' := Report(s, runId, usage);
            && UsageRemembered(s')
            && Part(s'.total, c) - LatestSum(s'.latest, c)
               == Part(s.total, c) - LatestSum(s.latest, c) + Drop(s, Reports(runId, usage), c)
  {
    if runId in s.active {
      LatestSumUpdate(s.latest, c, runId, usage);
      assert Part(s.active[runId].usage, c) == PartOf(s.latest, runId, c);
      var s' := Report(s, runId, usage);
      assert Part(s'.total, c) == Part(s.total, c) + Max0(Part(usage, c) - Part(s.active[runId].usage, c));
    }
  }

  lemma TakeKeepsUsage(s: State, i: nat)
    requires IdsDistinct(s) && i < |s.pending| && UsageRemembered(s)
    ensures var s' := Take(s, i);
            s'.total == s.total && s'.latest == s.latest && UsageRemembered(s') && |s'.pending| < |s.pending|
  {
    assert s.pending[i] in s.pending;
  }

  /** Draining does not touch the totals and starts runs that never reported. */
  lemma {:induction false} DrainKeepsUsage(cfg: Config, s: State)
    requires Inv(cfg, s) && UsageRemembered(s)
    ensures var s' := Drain(cfg, s); s'.total == s.total && s'.latest == s.latest && UsageRemembered(s')
    decreases |s.pending|
  {
    hide WritersExact, IdsDistinct, Orderly, UsageRemembered;
    if s.closed || |s.active| >= cfg.maxConcurrentRuns {
    } else {
      match FirstStartable(cfg, s, 0) {
        case None =>
        case Some(i) =>
          TakeKeepsInv(cfg, s, i);
          TakeKeepsUsage(s, i);
          DrainKeepsUsage(cfg, Take(s, i));
      }
    }
  }

  lemma {:induction false} RejectAllKeepsUsage(s: State)
    ensures var s' := RejectAll(s); s'.total == s.total && s'.latest == s.latest && s'.active == s.active
    decreases |s.pending|
  {
    if s.pending == [] {
    } else {
      RejectAllKeepsUsage(Reject(WithoutPending(s, 0), s.pending[0].request.runId, Closed));
    }
  }

  lemma ReleaseAccounts(cfg: Config, s: State, runId: RunId, final: Option<Usage>, c: Component)
    requires Inv(cfg, s) && UsageRemembered(s)
    ensures var s' := Release(cfg, s, runId, final);
            && UsageRemembered(s')
            && Part(s'.total, c) - LatestSum(s'.latest, c)
               == Part(s.total, c) - LatestSum(s.latest, c) + Drop(s, Releases(runId, final), c)
  {
    hide Inv, Drain, LatestSum, Max0;
    if runId in s.active {
      var reported := if final.Some? then Report(s, runId, final.value) else s;
      if final.Some? {
        ReportAccounts(s, runId, final.value, c);
        ReportKeepsInv(cfg, s, runId, final.value);
      }
      RemoveKeepsInv(cfg, reported, runId);
      DrainKeepsUsage(cfg, Remove(reported, runId));
    }
  }

  lemma StepAccounts(cfg: Config, s: State, e: Event, c: Component)
    requires Inv(cfg, s) && AtRest(cfg, s) && Legal(s, e) && UsageRemembered(s)
    ensures var s' := Step(cfg, s, e);
            && UsageRemembered(s')
            && Part(s'.total, c) - LatestSum(s'.latest, c)
               == Part(s.total, c) - LatestSum(s.latest, c) + Drop(s, e, c)
  {
    match e {
      case Acquires(request) => AcquireKeepsUsage(cfg, s, request);
      case SignalFires(_) =>
      case AbortListener(_) =>
      case Reports(runId, usage) => ReportAccounts(s, runId, usage, c);
      case Releases(runId, final) => ReleaseAccounts(cfg, s, runId, final, c);
      case ShutsDown => RejectAllKeepsUsage(s.(closed := true));
    }
  }

  lemma AcquireKeepsUsage(cfg: Config, s: State, request: Request)
    requires Inv(cfg, s) && AtRest(cfg, s) && request.runId !in s.known && UsageRemembered(s)
    ensures var s' := Acquire(cfg, s, request); s'.total == s.total && s'.latest == s.latest && UsageRemembered(s')
  {
    if Rejection(cfg, s, request).None? {
      EnqueueKeepsInv(cfg, s, request);
      DrainKeepsUsage(cfg, Enqueue(s, request));
    }
  }

  lemma {:induction false} RunAccounts(cfg: Config, s: State, events: seq<Event>, c: Component)
    requires Inv(cfg, s) && AtRest(cfg, s) && LegalRun(cfg, s, events) && UsageRemembered(s)
    ensures var s' := Run(cfg, s, events);
            Part(s'.total, c) - LatestSum(s'.latest, c)
            == Part(s.total, c) - LatestSum(s.latest, c) + Drops(cfg, s, events, c)
    decreases |events|
  {
    if events == [] {
    } else {
      StepKeepsInv(cfg, s, events[0]);
      StepAccounts(cfg, s, events[0], c);
      RunAccounts(cfg, Step(cfg, s, events[0]), events[1..], c);
    }
  }

  /** No report of the run is below the report before it. */
  predicate ReportsNeverFall(cfg: Config, s: State, events: seq<Event>, c: Component)
    decreases |events|
  {
    events == [] || (Drop(s, events[0], c) == 0.0 && ReportsNeverFall(cfg, Step(cfg, s, events[0]), events[1..], c))
  }

  lemma {:induction false} DropsOfRun(cfg: Config, s: State, events: seq<Event>, c: Component)
    ensures Drops(cfg, s, events, c) >= 0.0
    ensures Drops(cfg, s, events, c) == 0.0 <==> ReportsNeverFall(cfg, s, events, c)
    decreases |events|
  {
    hide Step;
    if events == [] {
    } else {
      DropsOfRun(cfg, Step(cfg, s, events[0]), events[1..], c);
    }
  }

  /**
   Conservation of usage over every run: in each component the total is the sum of the latest report of every
   run plus all that reports fell below their predecessors. So the total is at least that sum, and equal to it
   exactly when no report fell.
   */
  lemma TotalUsage(cfg: Config, events: seq<Event>, c: Component)
    requires LegalRun(cfg, INITIAL, events)
    ensures var s := Run(cfg, INITIAL, events);
            && Part(s.total, c) == LatestSum(s.latest, c) + Drops(cfg, INITIAL, events, c)
            && Part(s.total, c) >= LatestSum(s.latest, c)
            && (Part(s.total, c) == LatestSum(s.latest, c) <==> ReportsNeverFall(cfg, INITIAL, events, c))
  {
    InitialInv(cfg);
    RunAccounts(cfg, INITIAL, events, c);
    DropsOfRun(cfg, INITIAL, events, c);
  }

  // ---- What an event leaves behind ---------------------------------------------------------------

  lemma {:induction false} RejectAllKeeps(s: State)
    ensures var s' := RejectAll(s);
            && s'.active == s.active && s'.writers == s.writers
            && s'.aborted == s.aborted && s'.closed == s.closed && s'.known == s.known
    decreases |s.pending|
  {
    if s.pending == [] {
    } else {
      RejectAllKeeps(Reject(WithoutPending(s, 0), s.pending[0].request.runId, Closed));
    }
  }

  lemma RejectAllRejects(s: State)
    ensures s.outcomes <= RejectAll(s).outcomes
    ensures forall i | |s.outcomes| <= i < |RejectAll(s).outcomes| :: RejectAll(s).outcomes[i].Rejected?
  {
    hide RejectAll;
    RejectAllMeans(s);
    var s' := RejectAll(s);
    forall i | |s.outcomes| <= i < |s'.outcomes| ensures s'.outcomes[i].Rejected? {
      var k := i - |s.outcomes|;
      assert s'.outcomes[|s.outcomes| + k] == Rejected(s.pending[k].request.runId, Closed);
    }
  }

  lemma StepRemembers(cfg: Config, s: State, e: Event)
    ensures var s' := Step(cfg, s, e);
            && s'.aborted == s.aborted + (if e.SignalFires? then {e.runId} else {})
            && s'.closed == (s.closed || e.ShutsDown?)
            && s'.known == s.known + (if e.Acquires? then {e.request.runId} else {})
  {
    hide Drain, RejectAll;
    match e {
      case Acquires(request) => DrainGrows(cfg, Enqueue(s, request));
      case Releases(id, final) =>
        if id in s.active {
          DrainGrows(cfg, Remove(if final.Some? then Report(s, id, final.value) else s, id));
        }
      case ShutsDown => RejectAllKeeps(s.(closed := true));
      case _ =>
    }
  }

  lemma {:induction false} RunRemembers(cfg: Config, s: State, events: seq<Event>, id: RunId)
    ensures var s' := Run(cfg, s, events);
            && (id in s'.aborted <==> id in s.aborted || SignalFires(id) in events)
            && (s'.closed <==> s.closed || ShutsDown in events)
            && (id in s'.known <==> id in s.known || exists e | e in events :: e.Acquires? && e.request.runId == id)
    decreases |events|
  {
    hide Step;
    if events == [] {
    } else {
      StepRemembers(cfg, s, events[0]);
      RunRemembers(cfg, Step(cfg, s, events[0]), events[1..], id);
      assert events == [events[0]] + events[1..];
    }
  }

  /** Over every run: whose signals have fired, whether the supervisor is closed, and who has asked for a run. */
  lemma EventsAreRemembered(cfg: Config, events: seq<Event>, id: RunId)
    ensures var s := Run(cfg, INITIAL, events);
            && (id in s.aborted <==> SignalFires(id) in events)
            && (s.closed <==> ShutsDown in events)
            && (id in s.known <==> exists e | e in events :: e.Acquires? && e.request.runId == id)
  {
    RunRemembers(cfg, INITIAL, events, id);
  }

  /** The runs that have been started with the outcomes from `from` on. */
  ghost predicate StartedSince(s: State, from: nat, id: RunId, request: Request) {
    exists i | from <= i < |s.outcomes| ::
      s.outcomes[i].Started? && s.outcomes[i].admission.request == request && request.runId == id
  }

  /** The active runs of the second state are those of the first and those that have been started since. */
  ghost predicate ActiveFrom(s: State, s': State) {
    && s.outcomes <= s'.outcomes
    && (forall id | id in s.active :: id in s'.active && s'.active[id] == s.active[id])
    && (forall id | id in s'.active && id !in s.active :: StartedSince(s', |s.outcomes|, id, s'.active[id].request))
    && forall i | |s.outcomes| <= i < |s'.outcomes| && s'.outcomes[i].Started? ::
         var request := s'.outcomes[i].admission.request;
         request.runId in s'.active && s'.active[request.runId].request == request
  }

  lemma TakeActive(cfg: Config, s: State, i: nat)
    requires IdsDistinct(s) && i < |s.pending|
    ensures ActiveFrom(s, Take(s, i))
  {
    assert s.pending[i] in s.pending;
    var s', request := Take(s, i), s.pending[i].request;
    if request.runId !in s.aborted {
      assert StartedSince(s', |s.outcomes|, request.runId, request) by {
        assert s'.outcomes[|s.outcomes|].Started?;
      }
    }
  }

  lemma ActiveTwice(a: State, b: State, c: State)
    requires ActiveFrom(a, b) && ActiveFrom(b, c)
    ensures ActiveFrom(a, c)
  {
    forall id | id in c.active && id !in a.active ensures StartedSince(c, |a.outcomes|, id, c.active[id].request) {
      var request := c.active[id].request;
      if id in b.active {
        assert StartedSince(b, |a.outcomes|, id, request);
        var i :| |a.outcomes| <= i < |b.outcomes| && b.outcomes[i].Started? &&
          b.outcomes[i].admission.request == request;
        assert c.outcomes[i] == b.outcomes[i];
      } else {
        assert StartedSince(c, |b.outcomes|, id, request);
      }
    }
    forall i | |a.outcomes| <= i < |c.outcomes| && c.outcomes[i].Started?
      ensures var request := c.outcomes[i].admission.request;
              request.runId in c.active && c.active[request.runId].request == request
    {
      if i < |b.outcomes| {
        assert b.outcomes[i] == c.outcomes[i];
      }
    }
  }

  lemma {:induction false} DrainActive(cfg: Config, s: State)
    requires Inv(cfg, s)
    ensures ActiveFrom(s, Drain(cfg, s))
    decreases |s.pending|
  {
    hide WritersExact, Orderly, ActiveFrom;
    ActiveNow(s);
    if s.closed || |s.active| >= cfg.maxConcurrentRuns || FirstStartable(cfg, s, 0).None? {
    } else {
      hide IdsDistinct;
      var i := FirstStartable(cfg, s, 0).value;
      TakeActive(cfg, s, i);
      TakeKeepsInv(cfg, s, i);
      DrainActive(cfg, Take(s, i));
      ActiveTwice(s, Take(s, i), Drain(cfg, s));
    }
  }

  lemma ActiveNow(s: State)
    ensures ActiveFrom(s, s)
  {
  }

  lemma ReleasedActive(cfg: Config, s: State, released: RunId, final: Option<Usage>, id: RunId)
    requires Inv(cfg, s) && AtRest(cfg, s) && released in s.active
    ensures var s' := Release(cfg, s, released, final);
            && (id in s'.active <==>
                  (id in s.active && id != released) || exists request :: StartedSince(s', |s.outcomes|, id, request))
            && (id in s'.active ==>
                  || StartedSince(s', |s.outcomes|, id, s'.active[id].request)
                  || (id in s.active && s'.active[id].request == s.active[id].request))
  {
    hide Drain, WritersExact, Orderly, IdsDistinct, ActiveFrom, StartedSince, Bounded, AtRest;
    var reported := if final.Some? then Report(s, released, final.value) else s;
    if final.Some? {
      ReportKeepsInv(cfg, s, released, final.value);
    }
    RemoveKeepsInv(cfg, reported, released);
    DrainActive(cfg, Remove(reported, released));
    ActiveMeans(Remove(reported, released), Release(cfg, s, released, final), id);
  }

  /** Who is active after an event: all who were, but for the run that is released, and all who are started by it. */
  lemma ActiveAfter(cfg: Config, s: State, e: Event, id: RunId)
    requires Inv(cfg, s) && AtRest(cfg, s) && Legal(s, e)
    ensures var s' := Step(cfg, s, e);
            && (id in s'.active <==>
                  || (id in s.active && !(e.Releases? && e.runId == id))
                  || exists request :: StartedSince(s', |s.outcomes|, id, request))
            && (id in s'.active ==>
                  || StartedSince(s', |s.outcomes|, id, s'.active[id].request)
                  || (id in s.active && s'.active[id].request == s.active[id].request))
  {
    hide Drain, RejectAll, WritersExact, Orderly, IdsDistinct, ActiveFrom, StartedSince;
    match e {
      case Acquires(request) =>
        var rejection := Rejection(cfg, s, request);
        if rejection.Some? {
          JustRejected(s, Step(cfg, s, e), id);
        } else {
          EnqueueKeepsInv(cfg, s, request);
          DrainActive(cfg, Enqueue(s, request));
          ActiveMeans(Enqueue(s, request), Step(cfg, s, e), id);
        }
      case SignalFires(_) => JustRejected(s, Step(cfg, s, e), id);
      case AbortListener(_) => JustRejected(s, Step(cfg, s, e), id);
      case Reports(_, _) => JustRejected(s, Step(cfg, s, e), id);
      case Releases(released, final) =>
        if released in s.active {
          ReleasedActive(cfg, s, released, final, id);
        } else {
          JustRejected(s, s, id);
        }
      case ShutsDown =>
        RejectAllRejects(s.(closed := true));
        RejectAllKeeps(s.(closed := true));
        JustRejected(s, Step(cfg, s, e), id);
    }
  }

  lemma ActiveMeans(s: State, s': State, id: RunId)
    requires ActiveFrom(s, s')
    ensures id in s'.active <==> id in s.active || exists request :: StartedSince(s', |s.outcomes|, id, request)
    ensures id in s'.active ==>
      || StartedSince(s', |s.outcomes|, id, s'.active[id].request)
      || (id in s.active && s'.active[id].request == s.active[id].request)
  {
  }

  /** Without a start the active runs are the same. */
  lemma JustRejected(s: State, s': State, id: RunId)
    requires s.outcomes <= s'.outcomes && forall i | |s.outcomes| <= i < |s'.outcomes| :: s'.outcomes[i].Rejected?
    ensures !exists request :: StartedSince(s', |s.outcomes|, id, request)
  {
  }

  /** The abort listener of a waiting run takes it out of the queue and rejects it, and does nothing else. */
  lemma AbortMeans(cfg: Config, s: State, id: RunId)
    requires Inv(cfg, s)
    ensures var s' := Step(cfg, s, AbortListener(id));
            && (if Waits(s, id) then s'.outcomes == s.outcomes + [Rejected(id, Aborted)] else s' == s)
            && !Waits(s', id)
            && (forall p :: p in s'.pending <==> p in s.pending && p.request.runId != id)
            && s' == s.(outcomes := s'.outcomes, pending := s'.pending)
  {
    hide WritersExact, Orderly, IdsDistinct, Bounded, Without;
    match IndexOf(s.pending, id) {
      case None =>
      case Some(i) =>
        var s' := OnAbort(s, id);
        assert s.pending[i] in s.pending;
        WithoutMembers(s, i);
    }
  }

  lemma WithoutMembers(s: State, i: nat)
    requires IdsDistinct(s) && i < |s.pending|
    ensures forall p ::
      p in Without(s.pending, i) <==> p in s.pending && p.request.runId != s.pending[i].request.runId
  {
    var rest := Without(s.pending, i);
    WithoutIndices(s.pending, i);
    forall p | p in rest ensures p in s.pending && p.request.runId != s.pending[i].request.runId {
      WithoutMember(s, i, p);
    }
    hide IdsDistinct, Without;
    forall p | p in s.pending && p.request.runId != s.pending[i].request.runId ensures p in rest {
      var k :| 0 <= k < |s.pending| && s.pending[k] == p;
      assert rest[if k < i then k else k - 1] == p;
    }
  }

  // ---- After a release ---------------------------------------------------------------------------

  /** A run that is over: its id is in use no more, and is not given out again. */
  ghost predicate Over(s: State, runId: RunId) {
    runId in s.known && runId !in s.active && forall p | p in s.pending :: p.request.runId != runId
  }

  lemma DropKeepsOver(s: State, i: nat, runId: RunId)
    requires Over(s, runId) && i < |s.pending|
    ensures Over(WithoutPending(s, i), runId)
  {
    forall p | p in Without(s.pending, i) ensures p in s.pending {
      WithoutMember(s, i, p);
    }
  }

  lemma {:induction false} DrainKeepsOver(cfg: Config, s: State, runId: RunId)
    requires Over(s, runId)
    ensures Over(Drain(cfg, s), runId)
    decreases |s.pending|
  {
    if s.closed || |s.active| >= cfg.maxConcurrentRuns {
    } else {
      match FirstStartable(cfg, s, 0) {
        case None =>
        case Some(i) =>
          assert s.pending[i] in s.pending;
          DropKeepsOver(s, i, runId);
          DrainKeepsOver(cfg, Take(s, i), runId);
      }
    }
  }

  lemma {:induction false} RejectAllKeepsOver(s: State, runId: RunId)
    requires Over(s, runId)
    ensures Over(RejectAll(s), runId)
    decreases |s.pending|
  {
    if s.pending == [] {
    } else {
      DropKeepsOver(s, 0, runId);
      RejectAllKeepsOver(Reject(WithoutPending(s, 0), s.pending[0].request.runId, Closed), runId);
    }
  }

  lemma StepKeepsOver(cfg: Config, s: State, e: Event, runId: RunId)
    requires Legal(s, e) && Over(s, runId)
    ensures Over(Step(cfg, s, e), runId)
  {
    hide Drain, RejectAll;
    match e {
      case Acquires(request) =>
        if Rejection(cfg, s, request).None? {
          DrainKeepsOver(cfg, Enqueue(s, request), runId);
        }
      case SignalFires(_) =>
      case AbortListener(id) =>
        var index := IndexOf(s.pending, id);
        if index.Some? {
          DropKeepsOver(s, index.value, runId);
        }
      case Reports(_, _) =>
      case Releases(id, final) =>
        if id in s.active {
          DrainKeepsOver(cfg, Remove(if final.Some? then Report(s, id, final.value) else s, id), runId);
        }
      case ShutsDown => RejectAllKeepsOver(s.(closed := true), runId);
    }
  }

  lemma {:induction false} RunKeepsOver(cfg: Config, s: State, events: seq<Event>, runId: RunId)
    requires LegalRun(cfg, s, events) && Over(s, runId)
    ensures Over(Run(cfg, s, events), runId)
    decreases |events|
  {
    hide Over, Step, Legal;
    if events == [] {
    } else {
      StepKeepsOver(cfg, s, events[0], runId);
      RunKeepsOver(cfg, Step(cfg, s, events[0]), events[1..], runId);
    }
  }

  lemma ReleaseEnds(cfg: Config, s: State, runId: RunId, final: Option<Usage>)
    requires Inv(cfg, s) && runId in s.active
    ensures Over(Release(cfg, s, runId, final), runId)
  {
    hide Drain;
    var reported := if final.Some? then Report(s, runId, final.value) else s;
    assert Over(Remove(reported, runId), runId);
    DrainKeepsOver(cfg, Remove(reported, runId), runId);
  }

  /**
   Once a run has been released it stays over, whatever happens afterwards: reports and releases that still come for
   it, at any time, change nothing.
   */
  lemma ReportsAfterRelease(cfg: Config, s: State, runId: RunId, final: Option<Usage>, events: seq<Event>,
                            usage: Usage, again: Option<Usage>)
    requires Inv(cfg, s) && runId in s.active
    requires LegalRun(cfg, Release(cfg, s, runId, final), events)
    ensures var later := Run(cfg, Release(cfg, s, runId, final), events);
            runId !in later.active && Report(later, runId, usage) == later && Release(cfg, later, runId, again) == later
  {
    ReleaseEnds(cfg, s, runId, final);
    RunKeepsOver(cfg, Release(cfg, s, runId, final), events, runId);
  }
}
