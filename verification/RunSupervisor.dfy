/**
 The supervisor object of subagent runs. Its methods change the tables in place; the scheduling functions say
 what each method does to them. Promises become entries of `outcomes`; a signal becomes an id in `aborted`.
 */
module RunSupervisor {
  import opened Wrappers
  import opened Scheduling

  datatype ChildState = Idle | Running | Queued | Closing | ChildClosed

  datatype Child = Child(id: string, state: ChildState)

  predicate Evictable(c: Child) {
    c.state == Idle || c.state == ChildClosed
  }

  predicate HasChild(children: seq<Child>, id: string) {
    exists i | 0 <= i < |children| :: children[i].id == id
  }

  ghost predicate ChildrenDistinct(children: seq<Child>) {
    forall i, j | 0 <= i < j < |children| :: children[i].id != children[j].id
  }

  /** The children that stay: those that are not being closed. */
  ghost function Kept(children: seq<Child>, evicting: set<string>): seq<Child> {
    if children == [] then
      []
    else
      (if children[0].id in evicting then [] else [children[0]]) + Kept(children[1..], evicting)
  }

  /**
   The children being closed go up from the first set to the second. Only idle or closed children go, oldest first,
   not one more than needed, and fewer than needed only if no more can go.
   */
  ghost predicate Pruned(children: seq<Child>, limit: nat, before: set<string>, after: set<string>) {
    && before <= after
    && (forall id | id in after && id !in before :: exists c | c in children :: c.id == id && Evictable(c))
    && (|Kept(children, after)| >= limit || after == before)
    && (|Kept(children, after)| <= limit || forall c | c in children :: Evictable(c) ==> c.id in after)
    && (forall i, j | 0 <= i < j < |children| && children[j].id in after && children[j].id !in before ::
          Evictable(children[i]) ==> children[i].id in after)
  }

  function ChildIndex(children: seq<Child>, id: string): (r: Option<nat>)
    ensures r.Some? ==> r.value < |children| && children[r.value].id == id
    ensures r.None? ==> !HasChild(children, id)
  {
    if children == [] then
      None
    else if children[0].id == id then
      Some(0)
    else
      match ChildIndex(children[1..], id)
      case None => NoChildAhead(children, id); None
      case Some(i) => Some(i + 1)
  }

  lemma NoChildAhead(children: seq<Child>, id: string)
    requires children != [] && children[0].id != id && !HasChild(children[1..], id)
    ensures !HasChild(children, id)
  {
    forall i | 0 <= i < |children| ensures children[i].id != id {
      if i > 0 {
        assert children[i] == children[1..][i - 1];
      }
    }
  }

  lemma {:induction false} SameKept(children: seq<Child>, a: set<string>, b: set<string>)
    requires forall i | 0 <= i < |children| :: children[i].id in a <==> children[i].id in b
    ensures Kept(children, a) == Kept(children, b)
  {
    if children == [] {
    } else {
      SameKept(children[1..], a, b);
    }
  }

  /** What stays is counted as the supervisor counts it: all children less those being closed. */
  lemma {:induction false} KeptCount(children: seq<Child>, evicting: set<string>)
    requires ChildrenDistinct(children) && forall id | id in evicting :: HasChild(children, id)
    ensures |Kept(children, evicting)| == |children| - |evicting|
  {
    if children == [] {
      assert forall id | id in evicting :: HasChild(children, id);
      assert evicting == {};
    } else {
      var id, rest := children[0].id, evicting - {children[0].id};
      forall e | e in rest ensures HasChild(children[1..], e) {
        var i :| 0 <= i < |children| && children[i].id == e;
        assert children[1..][i - 1].id == e;
      }
      KeptCount(children[1..], rest);
      SameKept(children[1..], rest, evicting);
    }
  }

  /** Adds a child after the others, or puts it in the place of one with its id. */
  function PutChild(children: seq<Child>, child: Child): seq<Child> {
    match ChildIndex(children, child.id)
    case None => children + [child]
    case Some(i) => children[i := child]
  }

  lemma PutChildFacts(children: seq<Child>, child: Child)
    requires ChildrenDistinct(children)
    ensures ChildrenDistinct(PutChild(children, child)) && HasChild(PutChild(children, child), child.id)
    ensures forall id | HasChild(children, id) :: HasChild(PutChild(children, child), id)
  {
    var put := PutChild(children, child);
    var index := ChildIndex(children, child.id);
    assert put[if index.Some? then index.value else |children|] == child;
    forall id | HasChild(children, id) ensures HasChild(put, id) {
      var i :| 0 <= i < |children| && children[i].id == id;
      assert put[i].id == id;
    }
  }

  function DropChild(children: seq<Child>, id: string): seq<Child> {
    match ChildIndex(children, id)
    case None => children
    case Some(i) => Without(children, i)
  }

  lemma DropChildFacts(children: seq<Child>, id: string)
    requires ChildrenDistinct(children)
    ensures ChildrenDistinct(DropChild(children, id)) && !HasChild(DropChild(children, id), id)
    ensures forall other | other != id && HasChild(children, other) :: HasChild(DropChild(children, id), other)
    ensures forall c :: c in DropChild(children, id) <==> c in children && c.id != id
  {
    DropChildMembers(children, id);
    var index := ChildIndex(children, id);
    if index.Some? {
      var i := index.value;
      WithoutIndices(children, i);
      hide Without;
      forall other | other != id && HasChild(children, other) ensures HasChild(DropChild(children, id), other) {
        var k :| 0 <= k < |children| && children[k].id == other;
        assert Without(children, i)[if k < i then k else k - 1].id == other;
      }
    }
  }

  lemma DropChildMembers(children: seq<Child>, id: string)
    requires ChildrenDistinct(children)
    ensures forall c :: c in DropChild(children, id) <==> c in children && c.id != id
  {
    var index := ChildIndex(children, id);
    if index.Some? {
      var i := index.value;
      WithoutIndices(children, i);
      hide Without;
      forall c | c in children && c.id != id ensures c in DropChild(children, id) {
        var k :| 0 <= k < |children| && children[k] == c;
        assert Without(children, i)[if k < i then k else k - 1] == c;
      }
    }
  }

  /** Deleting a child that was being closed changes nothing for those that stay. */
  lemma DropChildKept(children: seq<Child>, evicting: set<string>, id: string)
    requires ChildrenDistinct(children) && id in evicting
    ensures Kept(DropChild(children, id), evicting - {id}) == Kept(children, evicting)
  {
    var index := ChildIndex(children, id);
    if index.Some? {
      DeletedKept(children, evicting, index.value);
    } else {
      SameKept(children, evicting - {id}, evicting);
    }
  }

  lemma {:induction false} DeletedKept(children: seq<Child>, evicting: set<string>, i: nat)
    requires ChildrenDistinct(children) && i < |children| && children[i].id in evicting
    ensures Kept(Without(children, i), evicting - {children[i].id}) == Kept(children, evicting)
  {
    var id := children[i].id;
    if i == 0 {
      assert Without(children, i) == children[1..];
      SameKept(children[1..], evicting - {id}, evicting);
    } else {
      assert Without(children, i) == [children[0]] + Without(children[1..], i - 1);
      DeletedKept(children[1..], evicting, i - 1);
    }
  }

  lemma ClosedAt(children: seq<Child>, i: nat)
    requires ChildrenDistinct(children) && i < |children|
    ensures Child(children[i].id, ChildClosed) in children <==> children[i].state == ChildClosed
    ensures HasChild(children, children[i].id)
  {
    if children[i].state == ChildClosed {
      assert children[i] == Child(children[i].id, ChildClosed);
    }
  }

  /** A child that is no longer being closed stays in addition. */
  lemma {:induction false} KeptAgain(children: seq<Child>, evicting: set<string>, i: nat)
    requires ChildrenDistinct(children) && i < |children| && children[i].id in evicting
    ensures |Kept(children, evicting - {children[i].id})| == |Kept(children, evicting)| + 1
  {
    if i == 0 {
      SameKept(children[1..], evicting - {children[i].id}, evicting);
    } else {
      KeptAgain(children[1..], evicting, i - 1);
    }
  }

  /** A child that is closed is deleted, and any other left. */
  function DropUnlessOpen(children: seq<Child>, id: string): seq<Child> {
    var index := ChildIndex(children, id);
    if index.Some? && children[index.value].state == ChildClosed then DropChild(children, id) else children
  }

  lemma DropUnlessOpenFacts(children: seq<Child>, evicting: set<string>, id: string)
    requires ChildrenDistinct(children) && id in evicting
    ensures var after := DropUnlessOpen(children, id);
            && ChildrenDistinct(after)
            && (forall other | other != id && HasChild(children, other) :: HasChild(after, other))
            && (forall c: Child :: c.id != id ==> (c in after <==> c in children))
            && if HasChild(children, id) && Child(id, ChildClosed) !in children then
                 after == children && |Kept(after, evicting - {id})| == |Kept(children, evicting)| + 1
               else
                 !HasChild(after, id) && Kept(after, evicting - {id}) == Kept(children, evicting)
  {
    hide ChildrenDistinct, HasChild, Kept;
    DropChildFacts(children, id);
    DropChildKept(children, evicting, id);
    var index := ChildIndex(children, id);
    if index.Some? {
      ClosedAt(children, index.value);
      KeptAgain(children, evicting, index.value);
    } else {
      NotAmong(children, id);
    }
  }

  lemma NotAmong(children: seq<Child>, id: string)
    requires !HasChild(children, id)
    ensures Child(id, ChildClosed) !in children && DropChild(children, id) == children
  {
  }

  function Ids(children: seq<Child>): seq<string> {
    seq(|children|, i requires 0 <= i < |children| => children[i].id)
  }

  predicate IdsApart(ids: seq<string>) {
    forall i, j | 0 <= i < j < |ids| :: ids[i] != ids[j]
  }

  /** Of some children, those whose closing has ended with a failure. */
  function FailedOf(ids: seq<string>, closes: map<string, bool>): seq<string> {
    if ids == [] then
      []
    else
      (if ids[0] in closes && !closes[ids[0]] then [ids[0]] else []) + FailedOf(ids[1..], closes)
  }

  lemma {:induction false} FailedOfMeans(ids: seq<string>, closes: map<string, bool>, id: string)
    ensures id in FailedOf(ids, closes) <==> id in ids && id in closes && !closes[id]
  {
    if ids == [] {
    } else {
      FailedOfMeans(ids[1..], closes, id);
      assert id in ids <==> id == ids[0] || id in ids[1..];
    }
  }

  lemma {:induction false} OthersFailed(ids: seq<string>, closes: map<string, bool>, id: string, ok: bool)
    requires id !in ids
    ensures FailedOf(ids, closes[id := ok]) == FailedOf(ids, closes)
  {
    if ids == [] {
    } else {
      OthersFailed(ids[1..], closes, id, ok);
    }
  }

  /** One more close that fails is one more failure. */
  lemma {:induction false} OneMoreFailed(ids: seq<string>, closes: map<string, bool>, id: string, ok: bool)
    requires IdsApart(ids) && id in ids && id !in closes
    ensures |FailedOf(ids, closes[id := ok])| == |FailedOf(ids, closes)| + if ok then 0 else 1
  {
    if ids[0] == id {
      assert forall i | 0 < i < |ids| :: ids[i] != id;
      OthersFailed(ids[1..], closes, id, ok);
    } else {
      OneMoreFailed(ids[1..], closes, id, ok);
    }
  }

  lemma {:induction false} NoneFailed(ids: seq<string>)
    ensures FailedOf(ids, map[]) == []
  {
    if ids == [] {
    } else {
      NoneFailed(ids[1..]);
    }
  }

  class SubagentRunSupervisor {
    const config: Config
    const maxRetainedJobs: nat
    var active: map<RunId, ActiveRun>
    var pending: seq<Pending>
    var activeWorkspaceWriters: set<Workspace>
    var totalUsage: Usage
    var usageByRun: map<RunId, Usage>
    var closed: bool
    /** Retained children in the order in which they were retained. */
    var children: seq<Child>
    var evicting: set<string>
    /** The children whose closing failed, and how many more there were than are kept. */
    var evictionFailures: seq<string>
    var omittedEvictionFailures: nat
    /** The children that the shutdown closes, and of which of them the closing has ended, well or not. */
    var closing: seq<string>
    var closes: map<string, bool>
    /** How many times the closing of a child has failed. */
    ghost var failedCloses: nat
    var aborted: set<RunId>
    var outcomes: seq<Outcome>
    var arrivals: nat
    ghost var known: set<RunId>

    ghost function View(): State
      reads this
    {
      State(active, pending, activeWorkspaceWriters, aborted, closed, totalUsage, usageByRun, outcomes, arrivals, known)
    }

    ghost predicate Valid()
      reads this
    {
      Inv(config, View()) && AtRest(config, View()) && ChildrenValid() && FailuresCounted()
    }

    /** Until the shutdown, only retained children are being closed; of their failures a bounded number is kept. */
    ghost predicate ChildrenValid()
      reads this`children, this`evicting, this`closed, this`evictionFailures, this`omittedEvictionFailures
    {
      && ChildrenDistinct(children)
      && (!closed ==> forall id | id in evicting :: HasChild(children, id))
      && |evictionFailures| <= maxRetainedJobs
      && (omittedEvictionFailures > 0 ==> |evictionFailures| == maxRetainedJobs)
    }

    /** Every close that failed is kept, counted, or one of those that the shutdown will report. */
    ghost predicate FailuresCounted()
      reads this`closing, this`closes, this`closed
      reads this`evictionFailures, this`omittedEvictionFailures, this`failedCloses
    {
      && IdsApart(closing) && (forall id | id in closes :: id in closing)
      && (!closed ==> closing == [])
      && |evictionFailures| + omittedEvictionFailures + |FailedOf(closing, closes)| == failedCloses
    }

    constructor (config: Config, maxRetainedJobs: nat)
      ensures this.config == config && this.maxRetainedJobs == maxRetainedJobs
      ensures View() == INITIAL && children == [] && evicting == {} && failedCloses == 0
      ensures Valid()
    {
      this.config, this.maxRetainedJobs := config, maxRetainedJobs;
      active, pending, activeWorkspaceWriters := map[], [], {};
      totalUsage, usageByRun, closed := ZERO_USAGE, map[], false;
      children, evicting, aborted, outcomes := [], {}, {}, [];
      evictionFailures, omittedEvictionFailures, closing, closes, failedCloses := [], 0, [], map[], 0;
      arrivals, known := 0, {};
      new;
      InitialInv(config);
    }

    method StartRun(admission: Pending)
      modifies this`active, this`activeWorkspaceWriters, this`outcomes
      ensures View() == Start(old(View()), admission)
    {
      var request := admission.request;
      outcomes := outcomes + [Started(admission, activeWorkspaceWriters)];
      active := active[request.runId := ActiveRun(request, ZERO_USAGE)];
      if request.write {
        activeWorkspaceWriters := activeWorkspaceWriters + {request.cwd};
      }
    }

    /** The place of the first waiting admission that can start. */
    method FindStartable() returns (r: Option<nat>)
      ensures r == FirstStartable(config, View(), 0)
    {
      var index := 0;
      while index < |pending|
        invariant 0 <= index <= |pending|
        invariant FirstStartable(config, View(), 0) == FirstStartable(config, View(), index)
      {
        var request := pending[index].request;
        if |active| < config.maxConcurrentRuns && (!request.write || request.cwd !in activeWorkspaceWriters) {
          return Some(index);
        }
        index := index + 1;
      }
      return None;
    }

    method DrainQueue()
      modifies this`active, this`pending, this`activeWorkspaceWriters, this`outcomes
      ensures View() == Drain(config, old(View()))
    {
      if closed {
        return;
      }
      while |active| < config.maxConcurrentRuns
        invariant Drain(config, View()) == Drain(config, old(View()))
        invariant !closed
        decreases |pending|
      {
        var index := FindStartable();
        if index.None? {
          return;
        }
        var admission := pending[index.value];
        pending := pending[..index.value] + pending[index.value + 1..];
        if admission.request.runId in aborted {
          outcomes := outcomes + [Rejected(admission.request.runId, Aborted)];
          continue;
        }
        StartRun(admission);
      }
    }

    method Acquire(request: Request)
      requires Valid() && request.runId !in known
      modifies this`active, this`pending, this`activeWorkspaceWriters, this`outcomes, this`arrivals, this`known
      ensures Valid() && View() == Scheduling.Acquire(config, old(View()), request)
    {
      hide Inv, AtRest, ChildrenValid, FailuresCounted, Scheduling.Acquire;
      AcquireKeepsInv(config, View(), request);
      Admit(request);
    }

    method Admit(request: Request)
      modifies this`active, this`pending, this`activeWorkspaceWriters, this`outcomes, this`arrivals, this`known
      ensures View() == Scheduling.Acquire(config, old(View()), request)
    {
      hide Drain, Reject, Enqueue, Arrive;
      if closed {
        TurnAway(request, Closed);
      } else if request.runId in aborted {
        TurnAway(request, Aborted);
      } else if |active| + |pending| >= config.maxPendingRuns + config.maxConcurrentRuns {
        TurnAway(request, Capacity);
      } else {
        PutInQueue(request);
        DrainQueue();
      }
    }

    /** Turns a request away. */
    method TurnAway(request: Request, reason: Reason)
      modifies this`outcomes, this`arrivals, this`known
      ensures View() == Reject(Arrive(old(View()), request), request.runId, reason)
    {
      known, arrivals := known + {request.runId}, arrivals + 1;
      outcomes := outcomes + [Rejected(request.runId, reason)];
    }

    method PutInQueue(request: Request)
      modifies this`pending, this`arrivals, this`known
      ensures View() == Enqueue(old(View()), request)
    {
      pending := pending + [Pending(request, arrivals)];
      known, arrivals := known + {request.runId}, arrivals + 1;
    }

    /** The caller's signal fires; the abort listener may run later. */
    method Signal(runId: RunId)
      requires Valid()
      modifies this`aborted
      ensures Valid() && View() == Step(config, old(View()), SignalFires(runId))
    {
      hide Inv, AtRest, ChildrenValid, FailuresCounted;
      StepKeepsInv(config, View(), SignalFires(runId));
      aborted := aborted + {runId};
    }

    method OnAbort(runId: RunId)
      requires Valid()
      modifies this`pending, this`outcomes
      ensures Valid() && View() == Scheduling.OnAbort(old(View()), runId)
    {
      hide Inv, AtRest, ChildrenValid, FailuresCounted;
      AbortKeepsInv(config, View(), runId);
      var index := IndexOf(pending, runId);
      if index.Some? {
        pending := pending[..index.value] + pending[index.value + 1..];
        outcomes := outcomes + [Rejected(runId, Aborted)];
      }
    }

    method UpdateUsage(runId: RunId, usage: Usage)
      modifies this`active, this`totalUsage, this`usageByRun
      ensures View() == Report(old(View()), runId, usage)
      ensures old(Valid()) ==> Valid()
    {
      hide Inv, AtRest, ChildrenValid, FailuresCounted, Report;
      if Inv(config, View()) {
        ReportKeepsInv(config, View(), runId, usage);
      }
      Account(runId, usage);
    }

    method Account(runId: RunId, usage: Usage)
      modifies this`active, this`totalUsage, this`usageByRun
      ensures View() == Report(old(View()), runId, usage) && (runId in active <==> runId in old(active))
    {
      if runId in active {
        var run := active[runId];
        totalUsage := AddUsageDelta(totalUsage, run.usage, usage);
        active := active[runId := run.(usage := usage)];
        usageByRun := usageByRun[runId := usage];
      }
    }

    method Release(runId: RunId, usage: Option<Usage>)
      requires Valid()
      modifies this`active, this`pending, this`activeWorkspaceWriters, this`totalUsage, this`usageByRun
      modifies this`outcomes, this`evicting
      ensures Valid() && View() == Scheduling.Release(config, old(View()), runId, usage)
      ensures if closed || runId !in old(active) then evicting == old(evicting)
              else Pruned(children, maxRetainedJobs, old(evicting), evicting)
    {
      hide Inv, AtRest, ChildrenValid, FailuresCounted, Pruned, Scheduling.Release;
      ReleaseKeepsInv(config, View(), runId, usage);
      Free(runId, usage);
    }

    method Free(runId: RunId, usage: Option<Usage>)
      requires ChildrenValid()
      modifies this`active, this`pending, this`activeWorkspaceWriters, this`totalUsage, this`usageByRun
      modifies this`outcomes, this`evicting
      ensures ChildrenValid() && View() == Scheduling.Release(config, old(View()), runId, usage)
      ensures if closed || runId !in old(active) then evicting == old(evicting)
              else Pruned(children, maxRetainedJobs, old(evicting), evicting)
    {
      hide ChildrenValid, Pruned, Drain, Remove, Report;
      if runId !in active {
        return;
      }
      if usage.Some? {
        Account(runId, usage.value);
      }
      Deactivate(runId);
      if !closed {
        PruneChildren();
      }
      DrainQueue();
    }

    /** Gives back the slot of a run, and its workspace if it was a writer. */
    method Deactivate(runId: RunId)
      requires runId in active
      modifies this`active, this`activeWorkspaceWriters
      ensures View() == Remove(old(View()), runId)
    {
      var request := active[runId].request;
      active := active - {runId};
      if request.write {
        activeWorkspaceWriters := activeWorkspaceWriters - {request.cwd};
      }
    }

    /** From now on nothing is admitted or retained, and every child is being closed. */
    method BeginShutdown()
      requires ChildrenValid() && FailuresCounted()
      modifies this`closed, this`closing
      ensures ChildrenValid() && FailuresCounted() && closed
      ensures closing == if old(closed) then old(closing) else Ids(children)
    {
      if !closed {
        NothingClosed();
        NoneFailed(Ids(children));
        closing := Ids(children);
      }
      closed := true;
    }

    lemma NothingClosed()
      requires FailuresCounted() && !closed
      ensures closes == map[] && FailedOf(closing, closes) == []
    {
      assert closes.Keys == {};
    }

    /** Everything that waits is rejected. */
    method RejectPending()
      requires closed
      modifies this`pending, this`outcomes
      ensures View() == RejectAll(old(View())) && pending == []
    {
      while pending != []
        invariant RejectAll(View()) == RejectAll(old(View()))
        decreases |pending|
      {
        outcomes := outcomes + [Rejected(pending[0].request.runId, Closed)];
        assert Without(pending, 0) == pending[1..];
        pending := pending[1..];
      }
    }

    method Shutdown()
      requires Valid()
      modifies this`closed, this`pending, this`outcomes, this`closing
      ensures Valid() && View() == Scheduling.Shutdown(old(View()))
      ensures closed && pending == [] && active == old(active)
      ensures closing == if old(closed) then old(closing) else Ids(children)
    {
      hide Inv, AtRest, ChildrenValid, FailuresCounted, RejectAll;
      StepKeepsInv(config, View(), ShutsDown);
      BeginShutdown();
      RejectAllKeepsUsage(View());
      RejectPending();
    }

    // ---- Retained children -----------------------------------------------------------------------

    /** A new child is kept after the others, one with a known id in the place of its predecessor. */
    method RetainChild(child: Child) returns (ok: bool)
      requires Valid()
      modifies this`children
      ensures Valid() && (ok <==> !closed) && (!ok ==> children == old(children))
      ensures ok ==>
        && |children| == |old(children)| + (if HasChild(old(children), child.id) then 0 else 1) && child in children
        && (forall i | 0 <= i < |old(children)| ::
              children[i] == if old(children)[i].id == child.id then child else old(children)[i])
    {
      hide Inv, AtRest, FailuresCounted;
      if closed {
        return false;
      }
      PutChildFacts(children, child);
      children := PutChild(children, child);
      return true;
    }

    /** A child goes into another state by itself. */
    method ChildChanges(index: nat, state: ChildState)
      requires Valid() && index < |children|
      modifies this`children
      ensures Valid() && |children| == |old(children)| && children[index] == Child(old(children)[index].id, state)
      ensures forall i | 0 <= i < |children| && i != index :: children[i] == old(children)[i]
    {
      hide Inv, AtRest, FailuresCounted;
      PutChildFacts(children, Child(children[index].id, state));
      children := PutChild(children, Child(children[index].id, state));
    }

    /** Closes the oldest evictable children until no more than the limit stay; nothing after the shutdown. */
    method PruneChildren()
      requires ChildrenValid()
      modifies this`evicting
      ensures ChildrenValid()
      ensures if closed then evicting == old(evicting) else Pruned(children, maxRetainedJobs, old(evicting), evicting)
    {
      if closed {
        return;
      }
      hide Kept, ChildrenDistinct;
      var excess: int := |children| - |evicting| - maxRetainedJobs;
      for index := 0 to |children|
        invariant old(evicting) <= evicting && excess == |children| - |evicting| - maxRetainedJobs
        invariant excess >= 0 || evicting == old(evicting)
        invariant forall id | id in evicting && id !in old(evicting) ::
          exists i | 0 <= i < index :: children[i].id == id && Evictable(children[i])
        invariant forall i | 0 <= i < index :: Evictable(children[i]) ==> children[i].id in evicting
      {
        if excess <= 0 {
          break;
        }
        var child := children[index];
        if child.id in evicting || !Evictable(child) {
          continue;
        }
        assert HasChild(children, child.id);
        excess := excess - 1;
        evicting := evicting + {child.id};
      }
      KeptCount(children, evicting);
    }

    /** A child that was being closed has closed: it is gone, and those that stay are the same. */
    method OnChildClosed(id: string)
      requires Valid() && id in evicting
      modifies this`children, this`evicting
      ensures Valid() && !HasChild(children, id) && evicting == old(evicting) - {id}
      ensures forall c :: c in children <==> c in old(children) && c.id != id
      ensures Kept(children, evicting) == Kept(old(children), old(evicting))
    {
      hide Inv, AtRest, FailuresCounted;
      DropChildFacts(children, id);
      DropChildKept(children, evicting, id);
      children := DropChild(children, id);
      evicting := evicting - {id};
    }

    /**
     The closing of a child has failed: the failure is kept or counted. A child that is closed nevertheless is gone;
     any other stays again, and may be closed another time.
     */
    method OnCloseFailed(id: string)
      requires Valid() && id in evicting
      modifies this`children, this`evicting, this`evictionFailures, this`omittedEvictionFailures, this`failedCloses
      ensures Valid() && evicting == old(evicting) - {id}
      ensures failedCloses == old(failedCloses) + 1
      ensures evictionFailures == old(evictionFailures) + if |old(evictionFailures)| < maxRetainedJobs then [id] else []
      ensures forall c: Child :: c.id != id ==> (c in children <==> c in old(children))
      ensures HasChild(old(children), id) && Child(id, ChildClosed) !in old(children) ==>
        children == old(children) && |Kept(children, evicting)| == |Kept(old(children), old(evicting))| + 1
      ensures !HasChild(old(children), id) || Child(id, ChildClosed) in old(children) ==>
        !HasChild(children, id) && Kept(children, evicting) == Kept(old(children), old(evicting))
    {
      hide Inv, AtRest, FailuresCounted, Kept, ChildrenDistinct, HasChild, DropUnlessOpen;
      KeepFailure(id);
      DropUnlessOpenFacts(children, evicting, id);
      children := DropUnlessOpen(children, id);
      evicting := evicting - {id};
    }

    /** The closing of a child by the shutdown has ended. */
    method OnShutdownClose(id: string, ok: bool)
      requires Valid() && id in closing && id !in closes
      modifies this`closes, this`failedCloses
      ensures Valid() && closes == old(closes)[id := ok]
      ensures failedCloses == old(failedCloses) + if ok then 0 else 1
    {
      hide Inv, AtRest, ChildrenValid, IdsApart, FailedOf;
      OneMoreFailed(closing, closes, id, ok);
      closes := closes[id := ok];
      failedCloses := failedCloses + if ok then 0 else 1;
    }

    /**
     The end of a shutdown, once every run has been released and every close has ended: no child is kept. Every close
     that has failed in the life of the supervisor is reported or counted, and those of the shutdown are all reported.
     */
    method EndShutdown() returns (failures: seq<string>, omitted: nat)
      requires Valid() && closed && active == map[] && forall id | id in closing :: id in closes
      modifies this`children
      ensures Valid() && children == []
      ensures |failures| + omitted == failedCloses && evictionFailures <= failures
      ensures forall id | id in closing :: id in failures[|evictionFailures|..] <==> !closes[id]
    {
      hide Inv, AtRest, FailedOf;
      children := [];
      failures, omitted := evictionFailures + FailedOf(closing, closes), omittedEvictionFailures;
      forall id | id in closing ensures id in FailedOf(closing, closes) <==> !closes[id] {
        FailedOfMeans(closing, closes, id);
      }
      assert failures[|evictionFailures|..] == FailedOf(closing, closes);
    }

    method KeepFailure(id: string)
      requires ChildrenValid() && FailuresCounted()
      modifies this`evictionFailures, this`omittedEvictionFailures, this`failedCloses
      ensures ChildrenValid() && FailuresCounted()
      ensures evictionFailures == old(evictionFailures) + if |old(evictionFailures)| < maxRetainedJobs then [id] else []
      ensures failedCloses == old(failedCloses) + 1
    {
      if |evictionFailures| < maxRetainedJobs {
        evictionFailures := evictionFailures + [id];
      } else {
        omittedEvictionFailures := omittedEvictionFailures + 1;
      }
      failedCloses := failedCloses + 1;
    }
  }
}
