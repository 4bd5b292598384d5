/**
 The life of a language server's backend: starting, running, stopping, and the requests that wait for an answer. Every
 method is one atomic step of the program; the steps of different activities may come in any order, and every event
 carries the generation of the server that it comes from.
 */
module BackendLifecycle {
  import opened Wrappers

  datatype Lifecycle =
    | Idle(generation: nat)
    | Unavailable(generation: nat)
    | Starting(generation: nat)
    | Running(generation: nat)
    | Stopping(generation: nat, done: nat)

  /** A backend whose server has been stopped can start another, unless there is none to be had. */
  function Ended(generation: nat, unavailable: bool): Lifecycle {
    if unavailable then Unavailable(generation) else Idle(generation)
  }

  /** How far the activity has got that stops a server: it fails the requests before it finishes. */
  datatype Stage = Begun | PendingFailed | Finished

  datatype Settlement = Reply(generation: nat, success: bool) | TimedOut | WriteFailed | ServerGone

  datatype Message = Notification | Response(id: nat, success: bool)

  datatype StartAnswer =
    | AlreadyRunning
    | AwaitReady(generation: nat)
    | ShuttingDown
    | NotAvailable
    | Started(generation: nat)

  function Remaining(pending: map<nat, nat>, generation: Option<nat>): map<nat, nat> {
    map id | id in pending && generation.Some? && pending[id] != generation.value :: pending[id]
  }

  /** The settlements after those of the given requests by the end of their server. */
  function AllGone(settled: map<nat, Settlement>, ids: set<nat>): map<nat, Settlement> {
    settled + map id | id in ids :: ServerGone
  }

  predicate Goes(pending: map<nat, nat>, id: nat, generation: Option<nat>)
    requires id in pending
  {
    generation.None? || pending[id] == generation.value
  }

  lemma NoneRemain(pending: map<nat, nat>, generation: Option<nat>)
    requires forall id | id in pending :: Goes(pending, id, generation)
    ensures Remaining(pending, generation) == map[] &&
      pending.Keys - Remaining(pending, generation).Keys == pending.Keys
  {
    assert Remaining(pending, generation).Keys == {};
  }

  lemma NoneGone(pending: map<nat, nat>, settled: map<nat, Settlement>)
    ensures pending - {} == pending && AllGone(settled, {}) == settled
  {
    assert AllGone(settled, {}).Keys == settled.Keys;
  }

  lemma OneMoreGone(pending: map<nat, nat>, settled: map<nat, Settlement>, gone: set<nat>, id: nat)
    ensures pending - gone - {id} == pending - (gone + {id})
    ensures AllGone(settled, gone)[id := ServerGone] == AllGone(settled, gone + {id})
    ensures id !in AllGone(settled, gone) ==> id !in settled
  {
    assert AllGone(settled, gone)[id := ServerGone].Keys == AllGone(settled, gone + {id}).Keys;
  }

  lemma GoneLeavesRemaining(pending: map<nat, nat>, gone: set<nat>, generation: Option<nat>)
    requires gone <= pending.Keys && forall id | id in pending :: id in gone <==> Goes(pending, id, generation)
    ensures pending - gone == Remaining(pending, generation) && pending.Keys - (pending - gone).Keys == gone
  {
    assert (pending - gone).Keys == Remaining(pending, generation).Keys;
  }

  class LspBackend {
    var lifecycle: Lifecycle
    var nextLspId: nat
    /** The generation of every request that waits for an answer. */
    var pendingLsp: map<nat, nat>
    /** The requests whose timer has been set and not been cleared, whether it has gone off or not. */
    var timers: set<nat>
    /** The generation of every request that has ever been made, and how those were settled that have been. */
    ghost var issued: map<nat, nat>
    ghost var settled: map<nat, Settlement>
    /** The activities that stop a server. */
    var stages: map<nat, Stage>

    /** Every request waits, with its timer set, or has been settled, and no reply of another server has settled it. */
    ghost predicate Accounted()
      reads this
    {
      && timers == pendingLsp.Keys
      && (forall id | id in issued :: id < nextLspId && (id in pendingLsp <==> id !in settled))
      && (forall id | id in pendingLsp :: id in issued && issued[id] == pendingLsp[id])
      && (forall id | id in settled :: id in issued && (settled[id].Reply? ==> settled[id].generation == issued[id]))
    }

    ghost predicate AllOf(generation: nat)
      reads this
    {
      forall id | id in pendingLsp :: pendingLsp[id] == generation
    }

    /** Only the server of the present generation has requests waiting, and without a server there are none. */
    ghost predicate Phased()
      reads this
    {
      && (forall t | t in stages && !stages[t].Finished? :: lifecycle.Stopping? && lifecycle.done == t)
      && match lifecycle
         case Idle(_) => pendingLsp == map[]
         case Unavailable(_) => pendingLsp == map[]
         case Starting(g) => AllOf(g)
         case Running(g) => AllOf(g)
         case Stopping(g, done) =>
           && g > 0 && done in stages
           && (stages[done].Begun? ==> AllOf(g - 1)) && (stages[done].PendingFailed? ==> pendingLsp == map[])
           && !stages[done].Finished?
    }

    ghost predicate Valid()
      reads this
    {
      Accounted() && Phased()
    }

    constructor ()
      ensures Valid() && lifecycle == Idle(0)
    {
      lifecycle, nextLspId, pendingLsp, timers := Idle(0), 1, map[], {};
      issued, settled, stages := map[], map[], map[];
    }

    // ---- Starting --------------------------------------------------------------------------------

    /** Starts a server under a new generation, if there is none. */
    method EnsureStarted() returns (answer: StartAnswer)
      requires Valid()
      modifies this`lifecycle
      ensures Valid()
      ensures match old(lifecycle)
              case Idle(g) => answer == Started(g + 1) && lifecycle == Starting(g + 1)
              case Unavailable(_) => answer == NotAvailable && lifecycle == old(lifecycle)
              case Starting(g) => answer == AwaitReady(g) && lifecycle == old(lifecycle)
              case Running(_) => answer == AlreadyRunning && lifecycle == old(lifecycle)
              case Stopping(_, _) => answer == ShuttingDown && lifecycle == old(lifecycle)
    {
      match lifecycle
      case Running(_) => return AlreadyRunning;
      case Starting(g) => return AwaitReady(g);
      case Stopping(_, _) => return ShuttingDown;
      case Unavailable(_) => return NotAvailable;
      case Idle(g) =>
        lifecycle := Starting(g + 1);
        return Started(g + 1);
    }

    /** The startup of a generation goes on only while that generation is starting. */
    predicate IsStarting(generation: nat)
      reads this
    {
      lifecycle == Starting(generation)
    }

    method AddPending(generation: nat) returns (id: nat)
      requires Accounted()
      modifies this`nextLspId, this`pendingLsp, this`timers, this`issued
      ensures Accounted()
      ensures id == old(nextLspId) && nextLspId == id + 1 && id !in old(issued)
      ensures pendingLsp == old(pendingLsp)[id := generation] && issued == old(issued)[id := generation]
    {
      id := nextLspId;
      nextLspId := nextLspId + 1;
      timers := timers + {id};
      pendingLsp := pendingLsp[id := generation];
      issued := issued[id := generation];
    }

    /** The request that initializes the server of a generation that is still starting. */
    method Initialize(generation: nat) returns (id: Option<nat>)
      requires Valid()
      modifies this`nextLspId, this`pendingLsp, this`timers, this`issued
      ensures Valid() && (id.Some? <==> IsStarting(generation))
      ensures id.None? ==> pendingLsp == old(pendingLsp) && issued == old(issued)
      ensures id.Some? ==>
        && id.value !in old(issued) && issued == old(issued)[id.value := generation]
        && pendingLsp == old(pendingLsp)[id.value := generation]
    {
      if !IsStarting(generation) {
        return None;
      }
      var added := AddPending(generation);
      return Some(added);
    }

    method PublishRunning(generation: nat) returns (ok: bool)
      requires Valid()
      modifies this`lifecycle
      ensures Valid() && (ok <==> old(lifecycle) == Starting(generation))
      ensures lifecycle == if ok then Running(generation) else old(lifecycle)
    {
      if !IsStarting(generation) {
        return false;
      }
      lifecycle := Running(generation);
      return true;
    }

    // ---- Requests --------------------------------------------------------------------------------

    method Request() returns (id: Option<nat>)
      requires Valid()
      modifies this`nextLspId, this`pendingLsp, this`timers, this`issued
      ensures Valid() && (id.Some? <==> lifecycle.Running?)
      ensures id.None? ==> pendingLsp == old(pendingLsp) && issued == old(issued)
      ensures id.Some? ==>
        && id.value !in old(issued) && issued == old(issued)[id.value := lifecycle.generation]
        && pendingLsp == old(pendingLsp)[id.value := lifecycle.generation]
    {
      if !lifecycle.Running? {
        return None;
      }
      var added := AddPending(lifecycle.generation);
      return Some(added);
    }

    /** Takes a waiting request off the table, clears its timer and settles it, if it is of the generation. */
    method Complete(id: nat, generation: nat, how: Settlement) returns (taken: bool)
      requires Valid() && (how.Reply? ==> how.generation == generation)
      modifies this`pendingLsp, this`timers, this`settled
      ensures Valid()
      ensures taken <==> id in old(pendingLsp) && old(pendingLsp)[id] == generation
      ensures taken ==>
        id !in old(settled) && pendingLsp == old(pendingLsp) - {id} && settled == old(settled)[id := how]
      ensures !taken ==> pendingLsp == old(pendingLsp) && settled == old(settled)
    {
      if id !in pendingLsp || pendingLsp[id] != generation {
        return false;
      }
      pendingLsp := pendingLsp - {id};
      timers := timers - {id};
      settled := settled[id := how];
      return true;
    }

    /** The server of this generation is the present one. */
    predicate IsLive(generation: nat)
      reads this
    {
      (lifecycle.Starting? || lifecycle.Running?) && lifecycle.generation == generation
    }

    /** A message from the server of a generation. One from another server than the present changes nothing. */
    method OnMessage(message: Message, generation: nat)
      requires Valid()
      modifies this`pendingLsp, this`timers, this`settled
      ensures Valid()
      ensures !IsLive(generation) || message.Notification? || message.id !in old(pendingLsp) ==>
        pendingLsp == old(pendingLsp) && settled == old(settled)
      ensures IsLive(generation) && message.Response? && message.id in old(pendingLsp) ==>
        && pendingLsp == old(pendingLsp) - {message.id} && message.id !in old(settled)
        && settled == old(settled)[message.id := Reply(generation, message.success)]
    {
      if !IsLive(generation) || message.Notification? {
        return;
      }
      var taken := Complete(message.id, generation, Reply(generation, message.success));
    }

    /**
     A timer has gone off, and the failure of its request is handled some time later: a request that still waits is
     settled by it, and for one that has been settled meanwhile nothing changes.
     */
    method OnTimeout(id: nat, generation: nat)
      requires Valid()
      modifies this`pendingLsp, this`timers, this`settled
      ensures Valid()
      ensures if id in old(pendingLsp) && old(pendingLsp)[id] == generation then
                id !in old(settled) && pendingLsp == old(pendingLsp) - {id} && settled == old(settled)[id := TimedOut]
              else
                pendingLsp == old(pendingLsp) && settled == old(settled)
      ensures id in old(settled) ==> pendingLsp == old(pendingLsp) && settled == old(settled)
    {
      var taken := Complete(id, generation, TimedOut);
    }

    method OnWriteFailure(id: nat, generation: nat)
      requires Valid()
      modifies this`pendingLsp, this`timers, this`settled
      ensures Valid()
      ensures if id in old(pendingLsp) && old(pendingLsp)[id] == generation then
                && id !in old(settled) && pendingLsp == old(pendingLsp) - {id}
                && settled == old(settled)[id := WriteFailed]
              else
                pendingLsp == old(pendingLsp) && settled == old(settled)
    {
      var taken := Complete(id, generation, WriteFailed);
    }

    // ---- Stopping --------------------------------------------------------------------------------

    /** A server is given up: the generation is over, and the activity `done` will clean up after it. */
    method BeginStopping(done: nat)
      requires Valid() && (lifecycle.Starting? || lifecycle.Running?) && done !in stages
      modifies this`lifecycle, this`stages
      ensures Valid() && lifecycle == Stopping(old(lifecycle).generation + 1, done)
      ensures stages == old(stages)[done := Begun]
    {
      lifecycle := Stopping(lifecycle.generation + 1, done);
      stages := stages[done := Begun];
    }

    /** The server's process has ended or broken; an event of another server than the present changes nothing. */
    method OnServerLost(generation: nat, done: nat) returns (owned: bool)
      requires Valid() && done !in stages
      modifies this`lifecycle, this`stages
      ensures Valid() && (owned <==> old(IsLive(generation)))
      ensures lifecycle == if owned then Stopping(generation + 1, done) else old(lifecycle)
      ensures stages == if owned then old(stages)[done := Begun] else old(stages)
    {
      if !IsLive(generation) {
        return false;
      }
      BeginStopping(done);
      return true;
    }

    /** The startup of a generation has failed; that of another generation than the one starting changes nothing. */
    method OnStartupFailed(generation: nat, done: nat) returns (owned: bool)
      requires Valid() && done !in stages
      modifies this`lifecycle, this`stages
      ensures Valid() && (owned <==> old(lifecycle) == Starting(generation))
      ensures lifecycle == if owned then Stopping(generation + 1, done) else old(lifecycle)
      ensures stages == if owned then old(stages)[done := Begun] else old(stages)
    {
      if !IsStarting(generation) {
        return false;
      }
      BeginStopping(done);
      return true;
    }

    /** A shutdown stops the present server, if there is one. */
    method Shutdown(done: nat) returns (owned: bool)
      requires Valid() && done !in stages
      modifies this`lifecycle, this`stages
      ensures Valid() && (owned <==> old(lifecycle).Starting? || old(lifecycle).Running?)
      ensures lifecycle == if owned then Stopping(old(lifecycle).generation + 1, done) else old(lifecycle)
      ensures stages == if owned then old(stages)[done := Begun] else old(stages)
    {
      if !lifecycle.Starting? && !lifecycle.Running? {
        return false;
      }
      BeginStopping(done);
      return true;
    }

    /** Fails the waiting requests of one generation, or all of them. */
    method FailAllPending(generation: Option<nat>)
      requires Valid()
      modifies this`pendingLsp, this`timers, this`settled
      ensures Valid() && pendingLsp == Remaining(old(pendingLsp), generation)
      ensures settled == AllGone(old(settled), old(pendingLsp).Keys - pendingLsp.Keys)
      ensures old(pendingLsp).Keys - pendingLsp.Keys !! old(settled).Keys
    {
      hide Accounted, Phased, AllGone, Remaining;
      ghost var before, settledBefore := pendingLsp, settled;
      ghost var gone: set<nat> := {};
      NoneGone(before, settledBefore);
      var todo := pendingLsp.Keys;
      while todo != {}
        invariant Valid() && todo <= pendingLsp.Keys
        invariant pendingLsp == before - gone && settled == AllGone(settledBefore, gone) && gone !! settledBefore.Keys
        invariant forall id | id in before && id !in todo :: id in gone <==> Goes(before, id, generation)
        invariant forall id | id in todo :: id !in gone
        invariant gone <= before.Keys
      {
        var id :| id in todo;
        todo := todo - {id};
        if generation.Some? && pendingLsp[id] != generation.value {
          continue;
        }
        OneMoreGone(before, settledBefore, gone, id);
        var taken := Complete(id, pendingLsp[id], ServerGone);
        gone := gone + {id};
      }
      GoneLeavesRemaining(before, gone, generation);
    }

    /** A startup that has lost its server to someone else settles what is left of its own requests, and no others. */
    method FailOwnPending(generation: nat)
      requires Valid()
      modifies this`pendingLsp, this`timers, this`settled
      ensures Valid() && pendingLsp == Remaining(old(pendingLsp), Some(generation))
      ensures settled == AllGone(old(settled), old(pendingLsp).Keys - pendingLsp.Keys)
      ensures old(pendingLsp).Keys - pendingLsp.Keys !! old(settled).Keys
    {
      FailAllPending(Some(generation));
    }

    /** The second step of stopping: no request of the server is left waiting. */
    method FailStopped(done: nat, generation: Option<nat>)
      requires Valid() && done in stages && stages[done].Begun?
      requires generation.Some? ==> generation.value + 1 == lifecycle.generation
      modifies this`pendingLsp, this`timers, this`settled, this`stages
      ensures Valid() && pendingLsp == map[] && stages == old(stages)[done := PendingFailed]
      ensures settled == AllGone(old(settled), old(pendingLsp).Keys)
    {
      ghost var before := pendingLsp;
      FailAllPending(generation);
      NoneRemain(before, generation);
      stages := stages[done := PendingFailed];
    }

    /** The last step of stopping: the backend can start again, unless there is no server to be had. */
    method Finish(done: nat, unavailable: bool)
      requires Valid() && done in stages && stages[done].PendingFailed?
      modifies this`lifecycle, this`stages
      ensures Valid() && stages == old(stages)[done := Finished]
      ensures lifecycle == Ended(old(lifecycle).generation, unavailable)
    {
      if lifecycle.Stopping? && lifecycle.done == done {
        lifecycle := Ended(lifecycle.generation, unavailable);
      }
      stages := stages[done := Finished];
    }

    /** The message that asks a server to shut down takes an id, and nobody waits for its answer. */
    method SendShutdown()
      requires Valid()
      modifies this`nextLspId
      ensures Valid()
    {
      nextLspId := nextLspId + 1;
    }

    // ---- Runs ------------------------------------------------------------------------------------

    /** Any one step, of any generation; a message may be a notification, a reply or an error for any request. */
    method AnyStep()
      requires Valid()
      modifies this
      ensures Valid() && lifecycle.generation >= old(lifecycle.generation)
      ensures Grows(old(issued), issued) && Grows(old(settled), settled)
    {
      hide Accounted, Phased, AllGone, Remaining;
      var choice: nat, generation: nat, id: nat, done: nat, flag: bool, success: bool := *, *, *, *, *, *;
      ghost var before := settled;
      NoneGone(pendingLsp, settled);
      if choice == 0 {
        var answer := EnsureStarted();
      } else if choice == 1 {
        var request := Initialize(generation);
      } else if choice == 2 {
        var ok := PublishRunning(generation);
      } else if choice == 3 {
        var request := Request();
      } else if choice == 4 {
        OnMessage(if flag then Notification else Response(id, success), generation);
      } else if choice == 5 {
        OnTimeout(id, generation);
      } else if choice == 6 {
        OnWriteFailure(id, generation);
      } else if choice == 7 && done !in stages {
        var owned := OnServerLost(generation, done);
      } else if choice == 8 && done !in stages {
        var owned := OnStartupFailed(generation, done);
      } else if choice == 9 && done !in stages {
        var owned := Shutdown(done);
      } else if choice == 10 {
        ghost var pending := pendingLsp;
        FailOwnPending(generation);
        GoneKeepSettled(before, pending.Keys - pendingLsp.Keys);
      } else if choice == 11 && done in stages && stages[done].Begun? {
        ghost var pending := pendingLsp;
        Waiting();
        FailStopped(done, if flag || lifecycle.generation == 0 then None else Some(lifecycle.generation - 1));
        GoneKeepSettled(before, pending.Keys);
      } else if choice == 12 && done in stages && stages[done].PendingFailed? {
        Finish(done, flag);
      } else {
        SendShutdown();
      }
    }

    /** Requests that wait have not been settled. */
    lemma Waiting()
      requires Valid()
      ensures pendingLsp.Keys !! settled.Keys
    {
    }

    /**
     In any run of steps, of any generations and in any order: the generation never goes back, every request that has
     been made stays accounted for under its generation, and one that has been settled stays settled as it was.
     */
    method AnyRun(steps: nat)
      requires Valid()
      modifies this
      ensures Valid() && lifecycle.generation >= old(lifecycle.generation)
      ensures Grows(old(issued), issued) && Grows(old(settled), settled)
    {
      for k := 0 to steps
        invariant Valid() && lifecycle.generation >= old(lifecycle.generation)
        invariant Grows(old(issued), issued) && Grows(old(settled), settled)
      {
        AnyStep();
      }
    }
  }

  /** Nothing of the first is missing from the second or different in it. */
  ghost predicate Grows<T>(before: map<nat, T>, after: map<nat, T>) {
    forall id | id in before :: id in after && after[id] == before[id]
  }

  lemma GoneKeepSettled(settled: map<nat, Settlement>, gone: set<nat>)
    requires gone !! settled.Keys
    ensures Grows(settled, AllGone(settled, gone))
  {
  }
}
