/**
 The commit protocol of the session catalog as a state machine over its steps: any number of calls, in any
 interleaving, each of which takes the lock, reads, transforms, writes a temporary file, renames it over the manifest,
 checks the result and releases the lock. Every storage operation may fail, every process may die, and the lock may be
 reported as compromised at any time.
 */
module CatalogCommit {
  import opened Wrappers
  import opened SessionManifest
  import opened SessionTransforms

  // ---- One call ----------------------------------------------------------------------------------

  datatype Disk = Missing | Broken | Holds(manifest: Manifest)

  datatype Failure =
    | LockTimeout
    | LockCompromised
    | OperationFailure
    | ReadFailure
    | Malformed
    | Semantic
    | Refused(reason: DomainError)
    | CommitFailure

  datatype Outcome =
    | Success(manifest: Manifest)
    | CommittedReleaseFailed(revision: int)
    | CommitIndeterminate(revision: int)
    | NotCommitted(failure: Failure)

  /** The place of a call in its program. A check looks whether the lock has been reported as compromised. */
  datatype Phase =
    | MakingDirectory
    | Locking
    | CheckAtStart
    | Reading
    | Cleaning
    | Transforming
    | CheckBeforeWrite
    | Writing
    | CheckBeforeRename
    | Renaming
    | CheckAfterRename
    | Syncing
    | CheckBeforeVerify
    | Verifying
    | CheckAtEnd(found: Disk)
    | Releasing(result: Outcome)
    | Finished(outcome: Outcome)
    | Crashed

  datatype Call = Call(
    command: Command, timestamp: Time, phase: Phase, compromised: bool,
    now: Time, current: Option<Manifest>, next: Option<Manifest>)

  /** What a call hears next: an answer of the storage, the time, or that its lock is compromised. */
  datatype Answer = Done | Failed | Busy | Clock(now: Time) | Content(disk: Disk) | Compromised

  function NewCall(command: Command, timestamp: Time): Call {
    Call(command, timestamp, MakingDirectory, false, 0, None, None)
  }

  function EmptyManifest(cwd: string, now: Time): Manifest {
    Manifest(cwd, 0, now, None, [])
  }

  /** The manifest that a command makes of the current one, stamped and checked. */
  function NextManifest(cwd: string, current: Option<Manifest>, command: Command, timestamp: Time, now: Time)
    : Result<Manifest, Failure>
  {
    var base := if current.Some? then current.value else EmptyManifest(cwd, now);
    match Apply(base, command, timestamp)
    case Err(reason) => Err(Refused(reason))
    case Ok(draft) =>
      var next := draft.(canonicalCwd := cwd, revision := base.revision + 1, updatedAt := now);
      if Valid(next) then Ok(next) else Err(Semantic)
  }

  /** What an update starts from: the manifest that was read, or an empty one. */
  function BaseOf(cwd: string, current: Option<Manifest>, now: Time): Manifest {
    if current.Some? then current.value else EmptyManifest(cwd, now)
  }

  /** The next manifest has what the command makes of the records, the next revision, and the time of the update. */
  ghost predicate IsNextManifest(
    cwd: string, current: Option<Manifest>, command: Command, timestamp: Time, now: Time, next: Manifest)
  {
    var base := BaseOf(cwd, current, now);
    && Valid(next) && next.canonicalCwd == cwd && next.revision == base.revision + 1 && next.updatedAt == now
    && Carries(base, command, timestamp, next)
    && var r := Apply(base, command, timestamp);
       r.Ok? && next.sessions == r.value.sessions && next.coordinator == r.value.coordinator
  }

  lemma MetadataOfValid(m: Manifest)
    requires Valid(m)
    ensures ValidPath(m.canonicalCwd) && LegalTime(m.updatedAt)
  {
    hide ValidSessions, ValidHead, ValidPath, LegalTime;
  }

  /** What the next manifest is, and why there is none. */
  lemma NextManifestMeans(cwd: string, current: Option<Manifest>, command: Command, timestamp: Time, now: Time)
    requires current.Some? ==> Valid(current.value)
    ensures match NextManifest(cwd, current, command, timestamp, now)
            case Ok(next) => IsNextManifest(cwd, current, command, timestamp, now, next)
            case Err(failure) =>
              || failure == Semantic
              || (failure.Refused? && RefusedFor(BaseOf(cwd, current, now), command, failure.reason))
  {
    hide Valid, Apply, Carries, RefusedFor, ValidPath, LegalTime;
    var base := BaseOf(cwd, current, now);
    var r, next := Apply(base, command, timestamp), NextManifest(cwd, current, command, timestamp, now);
    if next.Ok? {
      MetadataOfValid(next.value);
      EmptyIsValid(cwd, now);
      CommandsCarry(base, command, timestamp);
      SameRecordsCarry(base, command, timestamp, r.value, next.value);
    } else if r.Err? {
      RefusedExactly(base, command, timestamp, r.error);
    }
  }

  lemma EmptyIsValid(cwd: string, now: Time)
    requires ValidPath(cwd) && LegalTime(now)
    ensures Valid(EmptyManifest(cwd, now))
  {
  }

  /**
   A manifest is made exactly when the command is not refused, in the first update of a workspace as in any other, for
   legal input and a clock that does not go back.
   */
  lemma NextIsAccepted(cwd: string, current: Option<Manifest>, command: Command, timestamp: Time, now: Time)
    requires current.Some? ==>
      Valid(current.value) && current.value.canonicalCwd == cwd && current.value.updatedAt <= timestamp
    requires ValidPath(cwd) && timestamp <= now && LegalTime(timestamp) && LegalTime(now)
    requires var base := if current.Some? then current.value else EmptyManifest(cwd, now);
             Stampable(base, now) && LegalCommand(base, command)
    ensures var base := if current.Some? then current.value else EmptyManifest(cwd, now);
            NextManifest(cwd, current, command, timestamp, now).Ok? <==> Apply(base, command, timestamp).Ok?
  {
    hide Valid, Apply, LegalCommand, ValidPath, LegalTime;
    EmptyIsValid(cwd, now);
    var base := if current.Some? then current.value else EmptyManifest(cwd, now);
    if Apply(base, command, timestamp).Ok? {
      CommandsKeepValid(base, command, timestamp, now);
    }
  }

  /** Reading the manifest: none, one that is valid and of this workspace, or a failure. */
  function ReadOf(cwd: string, disk: Disk): Result<Option<Manifest>, Failure> {
    match disk
    case Missing => Ok(None)
    case Broken => Err(Malformed)
    case Holds(m) => if !Valid(m) then Err(Semantic) else if m.canonicalCwd != cwd then Err(Malformed) else Ok(Some(m))
  }

  function Fail(c: Call, failure: Failure): Call {
    c.(phase := Releasing(NotCommitted(failure)))
  }

  function Doubt(c: Call): Call
    requires c.next.Some?
  {
    c.(phase := Releasing(CommitIndeterminate(c.next.value.revision)))
  }

  /** The call holds the lock as far as it knows. */
  predicate Holding(c: Call) {
    !(c.phase.MakingDirectory? || c.phase.Locking? || c.phase.Finished? || c.phase.Crashed?)
  }

  predicate HasNext(c: Call) {
    match c.phase
    case CheckBeforeWrite => true
    case Writing => true
    case CheckBeforeRename => true
    case Renaming => true
    case _ => Renamed(c)
  }

  /** The call has renamed its file over the manifest and is still in its critical section. */
  predicate Renamed(c: Call) {
    match c.phase
    case CheckAfterRename => true
    case Syncing => true
    case CheckBeforeVerify => true
    case Verifying => true
    case CheckAtEnd(_) => true
    case Releasing(result) => !result.NotCommitted?
    case _ => false
  }

  function Check(c: Call, onward: Phase): Call {
    if c.compromised then Fail(c, LockCompromised) else c.(phase := onward)
  }

  function CheckRenamed(c: Call, onward: Phase): Call
    requires c.next.Some?
  {
    if c.compromised then Doubt(c) else c.(phase := onward)
  }

  /** How a release ends the call. */
  function Ending(result: Outcome, compromised: bool, released: bool): Outcome {
    if result.Success? && (compromised || !released) then CommittedReleaseFailed(result.manifest.revision) else result
  }

  /** The call after an answer, or nothing if it cannot get that answer where it stands. */
  function Advance(cwd: string, c: Call, a: Answer): Option<Call>
    requires HasNext(c) ==> c.next.Some?
  {
    if a.Compromised? then
      if Holding(c) then Some(c.(compromised := true)) else None
    else
      match c.phase
      case MakingDirectory =>
        if a.Done? then Some(c.(phase := Locking))
        else if a.Failed? then Some(c.(phase := Finished(NotCommitted(OperationFailure))))
        else None
      case Locking =>
        if a.Done? then Some(c.(phase := CheckAtStart))
        else if a.Busy? then Some(c.(phase := Finished(NotCommitted(LockTimeout))))
        else if a.Failed? then Some(c.(phase := Finished(NotCommitted(OperationFailure))))
        else None
      case CheckAtStart =>
        if a.Clock? then Some(Check(c.(now := a.now), Reading)) else None
      case Reading =>
        if a.Failed? then Some(Fail(c, ReadFailure))
        else if a.Content? then
          match ReadOf(cwd, a.disk)
          case Err(e) => Some(Fail(c, e))
          case Ok(m) => Some(c.(current := m, phase := Cleaning))
        else None
      case Cleaning =>
        if a.Done? then Some(c.(phase := Transforming))
        else if a.Failed? then Some(Fail(c, OperationFailure))
        else None
      case Transforming =>
        if a.Done? then
          match NextManifest(cwd, c.current, c.command, c.timestamp, c.now)
          case Err(e) => Some(Fail(c, e))
          case Ok(next) => Some(c.(next := Some(next), phase := CheckBeforeWrite))
        else None
      case CheckBeforeWrite =>
        if a.Done? then Some(Check(c, Writing)) else None
      case Writing =>
        if a.Done? then Some(c.(phase := CheckBeforeRename))
        else if a.Failed? then Some(Fail(c, CommitFailure))
        else None
      case CheckBeforeRename =>
        if a.Done? then Some(Check(c, Renaming)) else None
      case Renaming =>
        if a.Done? then Some(c.(phase := CheckAfterRename))
        else if a.Failed? then Some(Fail(c, CommitFailure))
        else None
      case CheckAfterRename =>
        if a.Done? then Some(CheckRenamed(c, Syncing)) else None
      case Syncing =>
        if a.Done? then Some(c.(phase := CheckBeforeVerify))
        else if a.Failed? then Some(Doubt(c))
        else None
      case CheckBeforeVerify =>
        if a.Done? then Some(CheckRenamed(c, Verifying)) else None
      case Verifying =>
        if a.Failed? then Some(Doubt(c))
        else if a.Content? then
          if ReadOf(cwd, a.disk).Ok? then Some(c.(phase := CheckAtEnd(a.disk))) else Some(Doubt(c))
        else None
      case CheckAtEnd(found) =>
        if a.Done? then
          if c.compromised || !found.Holds? || found.manifest.revision != c.next.value.revision then
            Some(Doubt(c))
          else
            Some(c.(phase := Releasing(Success(c.next.value))))
        else None
      case Releasing(result) =>
        if a.Done? || a.Failed? then Some(c.(phase := Finished(Ending(result, c.compromised, a.Done?)))) else None
      case Finished(_) => None
      case Crashed => None
  }

  /** The outcomes that tell a caller that its manifest has been put in place. */
  predicate Commits(outcome: Outcome) {
    !outcome.NotCommitted?
  }

  // ---- All calls and the disk --------------------------------------------------------------------

  /** One renaming: by whom, over what, and what it put there. */
  datatype Commit = Commit(pid: nat, command: Command, timestamp: Time, now: Time, before: Disk, after: Manifest)

  datatype World = World(disk: Disk, calls: map<nat, Call>, log: seq<Commit>)

  datatype Event =
    | Begin(pid: nat, command: Command, timestamp: Time)
    | Hear(pid: nat, answer: Answer)
    | Crash(pid: nat)

  predicate WellFormed(w: World) {
    forall pid | pid in w.calls :: HasNext(w.calls[pid]) ==> w.calls[pid].next.Some?
  }

  /** What is read is what is on the disk. */
  predicate Truthful(w: World, a: Answer) {
    a.Content? ==> a.disk == w.disk
  }

  /** The world after an event, or nothing if the event cannot happen in it. */
  function Step(cwd: string, w: World, e: Event): Option<World>
    requires WellFormed(w)
  {
    match e
    case Begin(pid, command, timestamp) =>
      if pid in w.calls then None else Some(w.(calls := w.calls[pid := NewCall(command, timestamp)]))
    case Crash(pid) =>
      if pid !in w.calls || w.calls[pid].phase.Finished? then
        None
      else
        Some(w.(calls := w.calls[pid := w.calls[pid].(phase := Crashed)]))
    case Hear(pid, a) =>
      if pid !in w.calls || !Truthful(w, a) then
        None
      else
        var c := w.calls[pid];
        match Advance(cwd, c, a)
        case None => None
        case Some(c') =>
          var w' := w.(calls := w.calls[pid := c']);
          if c.phase.Renaming? && a.Done? then
            Some(w'.(
              disk := Holds(c.next.value),
              log := w.log + [Commit(pid, c.command, c.timestamp, c.now, w.disk, c.next.value)]))
          else
            Some(w')
  }

  /** The event gives the lock to a call while another one still holds it. */
  ghost predicate Steals(w: World, e: Event) {
    && e.Hear? && e.answer.Done? && e.pid in w.calls && w.calls[e.pid].phase.Locking?
    && exists q | q in w.calls :: Holding(w.calls[q])
  }

  lemma AdvanceKeepsNext(cwd: string, c: Call, a: Answer)
    requires HasNext(c) ==> c.next.Some?
    requires Advance(cwd, c, a).Some?
    ensures var c' := Advance(cwd, c, a).value; HasNext(c') ==> c'.next.Some?
  {
    hide NextManifest, ReadOf;
  }

  lemma StepKeepsWellFormed(cwd: string, w: World, e: Event)
    requires WellFormed(w) && Step(cwd, w, e).Some?
    ensures WellFormed(Step(cwd, w, e).value)
  {
    hide Advance;
    if e.Hear? {
      AdvanceKeepsNext(cwd, w.calls[e.pid], e.answer);
    }
  }

  ghost predicate Start(w: World) {
    w.calls == map[] && w.log == []
  }

  /** The world after a run of events, if each of them can happen. */
  function Run(cwd: string, w: World, events: seq<Event>): (r: Option<World>)
    requires WellFormed(w)
    ensures r.Some? ==> WellFormed(r.value)
  {
    if events == [] then
      Some(w)
    else
      var before := Run(cwd, w, events[..|events| - 1]);
      if before.None? then
        None
      else
        var e := events[|events| - 1];
        if Step(cwd, before.value, e).Some? then
          StepKeepsWellFormed(cwd, before.value, e);
          Step(cwd, before.value, e)
        else
          None
  }

  /** No event of the run takes the lock from a call that holds it. */
  ghost predicate NothingStolen(cwd: string, w: World, events: seq<Event>)
    requires WellFormed(w)
  {
    forall i | 0 <= i < |events| ::
      var before := Run(cwd, w, events[..i]);
      before.Some? ==> !Steals(before.value, events[i])
  }

  // ---- Truthful outcomes -------------------------------------------------------------------------

  /** The call has renamed its file, whether or not it has finished since. */
  predicate HasRenamed(c: Call) {
    Renamed(c) || (c.phase.Finished? && Commits(c.phase.outcome))
  }

  predicate Names(outcome: Outcome, next: Option<Manifest>) {
    match outcome
    case Success(m) => next == Some(m)
    case CommittedReleaseFailed(revision) => next.Some? && next.value.revision == revision
    case CommitIndeterminate(revision) => next.Some? && next.value.revision == revision
    case NotCommitted(_) => true
  }

  /** The result of a call speaks of its own manifest. */
  predicate NamesOwn(c: Call) {
    && (c.phase.Releasing? ==> Names(c.phase.result, c.next))
    && (c.phase.Finished? ==> Names(c.phase.outcome, c.next))
  }

  /** One step of one call, as far as its outcome is concerned. */
  lemma AdvanceFacts(cwd: string, c: Call, a: Answer)
    requires HasNext(c) ==> c.next.Some?
    requires Advance(cwd, c, a).Some?
    ensures var c' := Advance(cwd, c, a).value;
            && (HasNext(c') ==> c'.next.Some?)
            && (HasRenamed(c') <==> HasRenamed(c) || (c.phase.Renaming? && a.Done?))
            && (HasRenamed(c') ==> c'.next == c.next)
            && (NamesOwn(c) ==> NamesOwn(c'))
            && !c'.phase.Crashed?
  {
    hide NextManifest, ReadOf;
  }

  /** The renamings of one call. */
  function Own(log: seq<Commit>, pid: nat): seq<Commit> {
    if log == [] then
      []
    else
      Own(log[..|log| - 1], pid) + if log[|log| - 1].pid == pid then [log[|log| - 1]] else []
  }

  lemma OwnOfMore(log: seq<Commit>, x: Commit, pid: nat)
    ensures Own(log + [x], pid) == Own(log, pid) + if x.pid == pid then [x] else []
  {
    assert (log + [x])[..|log|] == log;
  }

  ghost predicate Agrees(log: seq<Commit>, pid: nat, c: Call) {
    var own := Own(log, pid);
    && (HasNext(c) ==> c.next.Some?)
    && NamesOwn(c)
    && if c.phase.Crashed? then |own| <= 1
       else if HasRenamed(c) then |own| == 1 && c.next == Some(own[0].after)
       else own == []
  }

  ghost predicate Inv(w: World) {
    && (forall pid | pid in w.calls :: Agrees(w.log, pid, w.calls[pid]))
    && (forall pid | pid !in w.calls :: Own(w.log, pid) == [])
  }

  lemma CallAdvances(cwd: string, w: World, pid: nat, a: Answer)
    requires Inv(w) && pid in w.calls
    requires HasNext(w.calls[pid]) ==> w.calls[pid].next.Some?
    requires Advance(cwd, w.calls[pid], a).Some?
    ensures var c, c' := w.calls[pid], Advance(cwd, w.calls[pid], a).value;
            if c.phase.Renaming? && a.Done? then
              c.next.Some? && forall x: Commit | x.pid == pid && x.after == c.next.value :: Agrees(w.log + [x], pid, c')
            else
              Agrees(w.log, pid, c')
  {
    hide Advance, NamesOwn, Own;
    var c := w.calls[pid];
    AdvanceFacts(cwd, c, a);
    NotOver(cwd, c, a);
    if c.phase.Renaming? && a.Done? {
      forall x: Commit | x.pid == pid && x.after == c.next.value
        ensures Agrees(w.log + [x], pid, Advance(cwd, c, a).value)
      {
        OwnOfMore(w.log, x, pid);
      }
    }
  }

  lemma NotOver(cwd: string, c: Call, a: Answer)
    requires HasNext(c) ==> c.next.Some?
    requires Advance(cwd, c, a).Some?
    ensures !c.phase.Finished? && !c.phase.Crashed?
  {
    hide NextManifest, ReadOf;
  }

  lemma StepKeepsInv(cwd: string, w: World, e: Event)
    requires WellFormed(w) && Inv(w) && Step(cwd, w, e).Some?
    ensures Inv(Step(cwd, w, e).value)
  {
    hide Advance, Own, Agrees;
    var w' := Step(cwd, w, e).value;
    forall pid | pid in w'.calls ensures Agrees(w'.log, pid, w'.calls[pid]) {
      match e
      case Begin(p, command, timestamp) =>
        if pid == p {
          NewCallAgrees(w.log, pid, command, timestamp);
        }
      case Crash(p) =>
        if pid == p {
          CrashedAgrees(w.log, pid, w.calls[pid]);
        }
      case Hear(p, a) =>
        if pid == p {
          CallAdvances(cwd, w, pid, a);
        } else if w'.log != w.log {
          OthersAgree(w.log, w'.log[|w.log|], pid, w.calls[pid]);
        }
    }
    forall pid | pid !in w'.calls ensures Own(w'.log, pid) == [] {
      if w'.log != w.log {
        OwnOfMore(w.log, w'.log[|w.log|], pid);
      }
    }
  }

  lemma NewCallAgrees(log: seq<Commit>, pid: nat, command: Command, timestamp: Time)
    requires Own(log, pid) == []
    ensures Agrees(log, pid, NewCall(command, timestamp))
  {
    hide Own;
  }

  lemma CrashedAgrees(log: seq<Commit>, pid: nat, c: Call)
    requires Agrees(log, pid, c)
    ensures Agrees(log, pid, c.(phase := Crashed))
  {
    hide Own;
  }

  lemma OthersAgree(log: seq<Commit>, x: Commit, pid: nat, c: Call)
    requires Agrees(log, pid, c) && x.pid != pid
    ensures Agrees(log + [x], pid, c)
  {
    hide Own;
    OwnOfMore(log, x, pid);
  }

  lemma StartIsInv(w: World)
    requires Start(w)
    ensures WellFormed(w) && Inv(w)
  {
  }

  lemma {:induction false} RunKeepsInv(cwd: string, w: World, events: seq<Event>)
    requires WellFormed(w) && Inv(w) && Run(cwd, w, events).Some?
    ensures Inv(Run(cwd, w, events).value)
  {
    hide Step, Inv, WellFormed;
    if events == [] {
    } else {
      RunKeepsInv(cwd, w, events[..|events| - 1]);
      StepKeepsInv(cwd, Run(cwd, w, events[..|events| - 1]).value, events[|events| - 1]);
    }
  }

  /**
   In any run, whatever fails and whether or not locks are stolen: a call that reports a commit, in doubt or not, has
   renamed its manifest exactly once, and it is the one that it names; a call that reports anything else has not.
   */
  lemma OutcomesAreTruthful(cwd: string, w: World, events: seq<Event>, pid: nat)
    requires Start(w) && WellFormed(w) && Run(cwd, w, events).Some?
    ensures var end := Run(cwd, w, events).value;
            pid in end.calls && end.calls[pid].phase.Finished? ==>
              var outcome, own := end.calls[pid].phase.outcome, Own(end.log, pid);
              if Commits(outcome) then |own| == 1 && Names(outcome, Some(own[0].after)) else own == []
  {
    hide Run, Own;
    StartIsInv(w);
    RunKeepsInv(cwd, w, events);
  }

  // ---- One revision after the other --------------------------------------------------------------

  /** The commit is its command applied to what was there just before it. */
  ghost predicate FollowsPredecessor(cwd: string, x: Commit) {
    var before := ReadOf(cwd, x.before);
    before.Ok? && NextManifest(cwd, before.value, x.command, x.timestamp, x.now) == Ok(x.after)
  }

  /** From the first disk to the last through the commits, each over what the one before it left. */
  ghost predicate Chain(cwd: string, first: Disk, log: seq<Commit>, last: Disk) {
    if log == [] then
      first == last
    else
      var x := log[|log| - 1];
      last == Holds(x.after) && FollowsPredecessor(cwd, x) && Chain(cwd, first, log[..|log| - 1], x.before)
  }

  /** The call has read the manifest and has neither renamed nor given up. */
  predicate HasRead(c: Call) {
    || c.phase.Cleaning? || c.phase.Transforming? || c.phase.CheckBeforeWrite? || c.phase.Writing?
    || c.phase.CheckBeforeRename? || c.phase.Renaming?
  }

  ghost predicate UpToDate(cwd: string, c: Call, disk: Disk) {
    HasRead(c) ==> ReadOf(cwd, disk) == Ok(c.current)
  }

  ghost predicate IsNext(cwd: string, c: Call) {
    HasNext(c) && !Renamed(c) ==>
      c.next.Some? && NextManifest(cwd, c.current, c.command, c.timestamp, c.now) == Ok(c.next.value)
  }

  ghost predicate Exclusive(w: World) {
    forall p, q | p in w.calls && q in w.calls && Holding(w.calls[p]) && Holding(w.calls[q]) :: p == q
  }

  ghost predicate SafeInv(cwd: string, first: Disk, w: World) {
    && Exclusive(w)
    && (forall pid | pid in w.calls :: UpToDate(cwd, w.calls[pid], w.disk) && IsNext(cwd, w.calls[pid]))
    && Chain(cwd, first, w.log, w.disk)
  }

  lemma AdvanceStaysUpToDate(cwd: string, c: Call, a: Answer, disk: Disk)
    requires HasNext(c) ==> c.next.Some?
    requires Advance(cwd, c, a).Some? && (a.Content? ==> a.disk == disk)
    requires UpToDate(cwd, c, disk) && IsNext(cwd, c)
    ensures var c' := Advance(cwd, c, a).value;
            UpToDate(cwd, c', disk) && IsNext(cwd, c') && (Holding(c') ==> Holding(c) || (c.phase.Locking? && a.Done?))
    ensures HasRead(c) ==> Holding(c)
  {
    hide NextManifest, ReadOf;
  }

  lemma RenamingIsNext(cwd: string, c: Call, disk: Disk, pid: nat)
    requires c.phase.Renaming? && UpToDate(cwd, c, disk) && IsNext(cwd, c)
    ensures c.next.Some? && FollowsPredecessor(cwd, Commit(pid, c.command, c.timestamp, c.now, disk, c.next.value))
    ensures Advance(cwd, c, Done) == Some(c.(phase := CheckAfterRename))
  {
    hide NextManifest, ReadOf;
  }

  lemma ChainGrows(cwd: string, first: Disk, log: seq<Commit>, x: Commit)
    requires Chain(cwd, first, log, x.before) && FollowsPredecessor(cwd, x)
    ensures Chain(cwd, first, log + [x], Holds(x.after))
  {
    hide FollowsPredecessor;
    assert (log + [x])[..|log|] == log;
  }

  lemma HearKeepsSafe(cwd: string, first: Disk, w: World, pid: nat, a: Answer)
    requires WellFormed(w) && SafeInv(cwd, first, w) && Step(cwd, w, Hear(pid, a)).Some?
    requires !Steals(w, Hear(pid, a))
    ensures SafeInv(cwd, first, Step(cwd, w, Hear(pid, a)).value)
  {
    hide Advance, Chain, UpToDate, IsNext, Holding, FollowsPredecessor, HasRead;
    var w', c := Step(cwd, w, Hear(pid, a)).value, w.calls[pid];
    AdvanceStaysUpToDate(cwd, c, a, w.disk);
    if c.phase.Renaming? && a.Done? {
      RenamingIsNext(cwd, c, w.disk, pid);
      ChainGrows(cwd, first, w.log, Commit(pid, c.command, c.timestamp, c.now, w.disk, c.next.value));
      forall q | q in w'.calls ensures UpToDate(cwd, w'.calls[q], w'.disk) && IsNext(cwd, w'.calls[q]) {
        if q == pid {
          RenamedIsUpToDate(cwd, c.(phase := CheckAfterRename), w'.disk);
        } else {
          RenamingHolds(c);
          NotHoldingIsUpToDate(cwd, w.calls[q], w'.disk);
        }
      }
    }
  }

  lemma RenamingHolds(c: Call)
    requires c.phase.Renaming?
    ensures Holding(c)
  {
  }

  lemma RenamedIsUpToDate(cwd: string, c: Call, disk: Disk)
    requires c.phase.CheckAfterRename?
    ensures UpToDate(cwd, c, disk) && IsNext(cwd, c)
  {
  }

  lemma NotHoldingIsUpToDate(cwd: string, c: Call, disk: Disk)
    requires !Holding(c)
    ensures UpToDate(cwd, c, disk)
  {
  }

  lemma StepKeepsSafe(cwd: string, first: Disk, w: World, e: Event)
    requires WellFormed(w) && SafeInv(cwd, first, w) && Step(cwd, w, e).Some? && !Steals(w, e)
    ensures SafeInv(cwd, first, Step(cwd, w, e).value)
  {
    hide Advance, Chain, ReadOf, NextManifest;
    if e.Hear? {
      hide SafeInv, Step, Steals;
      HearKeepsSafe(cwd, first, w, e.pid, e.answer);
    }
  }

  lemma {:induction false} RunKeepsSafe(cwd: string, w: World, events: seq<Event>)
    requires WellFormed(w) && SafeInv(cwd, w.disk, w) && Run(cwd, w, events).Some? && NothingStolen(cwd, w, events)
    ensures SafeInv(cwd, w.disk, Run(cwd, w, events).value)
  {
    hide Step, SafeInv, WellFormed, Steals;
    if events == [] {
    } else {
      var front := events[..|events| - 1];
      forall i | 0 <= i < |front|
        ensures Run(cwd, w, front[..i]).Some? ==> !Steals(Run(cwd, w, front[..i]).value, front[i])
      {
        assert front[..i] == events[..i];
      }
      RunKeepsSafe(cwd, w, front);
      StepKeepsSafe(cwd, w.disk, Run(cwd, w, front).value, events[|events| - 1]);
    }
  }

  function RevisionOf(disk: Disk): int {
    if disk.Holds? then disk.manifest.revision else 0
  }

  lemma FollowingCounts(cwd: string, x: Commit)
    requires FollowsPredecessor(cwd, x)
    ensures x.after.revision == RevisionOf(x.before) + 1 && Valid(x.after) && x.after.canonicalCwd == cwd
  {
    hide Apply, Valid;
  }

  lemma {:induction false} ChainCounts(cwd: string, first: Disk, log: seq<Commit>, last: Disk)
    requires Chain(cwd, first, log, last)
    ensures RevisionOf(last) == RevisionOf(first) + |log|
    ensures log != [] ==> last.Holds? && Valid(last.manifest) && last.manifest.canonicalCwd == cwd
  {
    hide FollowsPredecessor, Valid;
    if log == [] {
    } else {
      var x := log[|log| - 1];
      ChainCounts(cwd, first, log[..|log| - 1], x.before);
      FollowingCounts(cwd, x);
    }
  }

  /** What the commit put there is what its command makes of what was there just before it. */
  ghost predicate CarriesOut(cwd: string, x: Commit) {
    var before := ReadOf(cwd, x.before);
    before.Ok? && IsNextManifest(cwd, before.value, x.command, x.timestamp, x.now, x.after)
  }

  lemma FollowingCarriesOut(cwd: string, x: Commit)
    requires FollowsPredecessor(cwd, x)
    ensures CarriesOut(cwd, x)
  {
    hide Valid, NextManifest, IsNextManifest;
    NextManifestMeans(cwd, ReadOf(cwd, x.before).value, x.command, x.timestamp, x.now);
  }

  lemma {:induction false} ChainCarriesOut(cwd: string, first: Disk, log: seq<Commit>, last: Disk)
    requires Chain(cwd, first, log, last)
    ensures forall x | x in log :: CarriesOut(cwd, x)
    decreases |log|
  {
    hide FollowsPredecessor, CarriesOut;
    if log == [] {
    } else {
      var x := log[|log| - 1];
      ChainCarriesOut(cwd, first, log[..|log| - 1], x.before);
      FollowingCarriesOut(cwd, x);
      assert log == log[..|log| - 1] + [x];
    }
  }

  /**
   In any run in which no lock is stolen, whatever else fails: the manifest changes only by commits, each of which is
   its command applied to the manifest just before it, so that no update is lost and the revision counts them. What a
   commit puts there has the records that its command makes of the ones before.
   */
  lemma CommitsFollowEachOther(cwd: string, w: World, events: seq<Event>)
    requires Start(w) && WellFormed(w) && Run(cwd, w, events).Some? && NothingStolen(cwd, w, events)
    ensures var end := Run(cwd, w, events).value;
            && Chain(cwd, w.disk, end.log, end.disk)
            && (forall x | x in end.log :: CarriesOut(cwd, x))
            && RevisionOf(end.disk) == RevisionOf(w.disk) + |end.log|
            && (end.log != [] ==> end.disk.Holds? && Valid(end.disk.manifest) && end.disk.manifest.canonicalCwd == cwd)
  {
    hide Run, Valid, NothingStolen, CarriesOut;
    RunKeepsSafe(cwd, w, events);
    var end := Run(cwd, w, events).value;
    ChainCarriesOut(cwd, w.disk, end.log, end.disk);
    ChainCounts(cwd, w.disk, end.log, end.disk);
  }

  // ---- A stolen lock -----------------------------------------------------------------------------

  lemma RunMore(cwd: string, w: World, events: seq<Event>, e: Event)
    requires WellFormed(w) && Run(cwd, w, events).Some? && Step(cwd, Run(cwd, w, events).value, e).Some?
    ensures Run(cwd, w, events + [e]) == Step(cwd, Run(cwd, w, events).value, e)
  {
    hide Step, WellFormed;
    assert (events + [e])[..|events|] == events;
  }

  /** One more answer for a call that changes nothing but the call. */
  lemma Hears(cwd: string, w: World, events: seq<Event>, pid: nat, a: Answer) returns (more: seq<Event>)
    requires WellFormed(w) && Run(cwd, w, events).Some?
    requires var v := Run(cwd, w, events).value;
             && pid in v.calls && Truthful(v, a) && (HasNext(v.calls[pid]) ==> v.calls[pid].next.Some?)
             && Advance(cwd, v.calls[pid], a).Some? && !v.calls[pid].phase.Renaming?
    ensures var v := Run(cwd, w, events).value;
            && (HasNext(v.calls[pid]) ==> v.calls[pid].next.Some?)
            && Run(cwd, w, more) == Some(v.(calls := v.calls[pid := Advance(cwd, v.calls[pid], a).value]))
  {
    hide Run, Advance, HasNext;
    more := events + [Hear(pid, a)];
    RunMore(cwd, w, events, Hear(pid, a));
  }

  function AtRename(command: Command, timestamp: Time, next: Manifest): Call {
    Call(command, timestamp, Renaming, false, timestamp, None, Some(next))
  }

  /** A new call can read while nothing is stored, whoever holds the lock. */
  lemma ReachesRead(cwd: string, w: World, events: seq<Event>, pid: nat, command: Command, t: Time)
    returns (more: seq<Event>)
    requires WellFormed(w) && Run(cwd, w, events).Some?
    requires pid !in Run(cwd, w, events).value.calls && Run(cwd, w, events).value.disk == Missing
    ensures var v := Run(cwd, w, events).value;
            Run(cwd, w, more) == Some(v.(calls := v.calls[pid := Call(command, t, Cleaning, false, t, None, None)]))
  {
    hide Run, NextManifest, WellFormed;
    var v := Run(cwd, w, events).value;
    RunMore(cwd, w, events, Begin(pid, command, t));
    more := events + [Begin(pid, command, t)];
    more := Hears(cwd, w, more, pid, Done);
    more := Hears(cwd, w, more, pid, Done);
    more := Hears(cwd, w, more, pid, Clock(t));
    more := Hears(cwd, w, more, pid, Content(Missing));
    assert Run(cwd, w, more).value.calls == v.calls[pid := Call(command, t, Cleaning, false, t, None, None)];
  }

  /** And it can go on as far as renaming. */
  lemma ReachesRename(cwd: string, w: World, events: seq<Event>, pid: nat, command: Command, t: Time, next: Manifest)
    returns (more: seq<Event>)
    requires WellFormed(w) && Run(cwd, w, events).Some?
    requires pid !in Run(cwd, w, events).value.calls && Run(cwd, w, events).value.disk == Missing
    requires NextManifest(cwd, None, command, t, t) == Ok(next)
    ensures var v := Run(cwd, w, events).value;
            Run(cwd, w, more) == Some(v.(calls := v.calls[pid := AtRename(command, t, next)]))
  {
    hide Run, NextManifest, WellFormed;
    var v := Run(cwd, w, events).value;
    more := ReachesRead(cwd, w, events, pid, command, t);
    more := Hears(cwd, w, more, pid, Done);
    more := Hears(cwd, w, more, pid, Done);
    more := Hears(cwd, w, more, pid, Done);
    more := Hears(cwd, w, more, pid, Done);
    more := Hears(cwd, w, more, pid, Done);
    assert Run(cwd, w, more).value.calls == v.calls[pid := AtRename(command, t, next)];
  }

  /** The condition is needed: once a lock is stolen, one update can overwrite another under the same revision. */
  lemma StolenLockLosesUpdate(cwd: string, c1: Command, c2: Command, t: Time, m1: Manifest, m2: Manifest)
    returns (events: seq<Event>)
    requires NextManifest(cwd, None, c1, t, t) == Ok(m1) && NextManifest(cwd, None, c2, t, t) == Ok(m2)
    ensures var w := World(Missing, map[], []);
            && WellFormed(w) && Run(cwd, w, events).Some?
            && Run(cwd, w, events).value.log == [Commit(1, c1, t, t, Missing, m1), Commit(2, c2, t, t, Holds(m1), m2)]
            && m1.revision == m2.revision
  {
    hide NextManifest, Run;
    var w := World(Missing, map[], []);
    FirstRevision(cwd, c1, t, m1);
    FirstRevision(cwd, c2, t, m2);
    EmptyRun(cwd, w);
    events := ReachesRename(cwd, w, [], 1, c1, t, m1);
    events := ReachesRename(cwd, w, events, 2, c2, t, m2);
    RunMore(cwd, w, events, Hear(1, Done));
    events := events + [Hear(1, Done)];
    RunMore(cwd, w, events, Hear(2, Done));
    events := events + [Hear(2, Done)];
  }

  lemma EmptyRun(cwd: string, w: World)
    requires WellFormed(w)
    ensures Run(cwd, w, []) == Some(w)
  {
  }

  lemma FirstRevision(cwd: string, command: Command, t: Time, m: Manifest)
    requires NextManifest(cwd, None, command, t, t) == Ok(m)
    ensures m.revision == 1
  {
    hide Apply, Valid;
  }
}
