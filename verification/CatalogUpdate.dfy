/**
 One update of the session catalog as the program runs it, step by step with its flags. Every run of it is a run of one
 call of the commit protocol, and it returns what that call ends with.
 */
module CatalogUpdate {
  import opened Wrappers
  import opened SessionManifest
  import opened SessionTransforms
  import opened CatalogCommit

  ghost predicate Sound(c: Call) {
    HasNext(c) ==> c.next.Some?
  }

  /** The call after it has heard the answers in turn, if it can. */
  ghost function Replay(cwd: string, c: Call, answers: seq<Answer>): (r: Option<Call>)
    requires Sound(c)
    ensures r.Some? ==> Sound(r.value)
  {
    if answers == [] then
      Some(c)
    else
      match Replay(cwd, c, answers[..|answers| - 1])
      case None => None
      case Some(d) =>
        var a := answers[|answers| - 1];
        if Advance(cwd, d, a).Some? then
          AdvanceKeepsNext(cwd, d, a);
          Advance(cwd, d, a)
        else
          None
  }

  lemma ReplayMore(cwd: string, c: Call, answers: seq<Answer>, a: Answer)
    requires Sound(c) && Replay(cwd, c, answers).Some?
    ensures Replay(cwd, c, answers + [a]) == Advance(cwd, Replay(cwd, c, answers).value, a)
  {
    hide Advance;
    assert (answers + [a])[..|answers|] == answers;
  }

  // ---- What success rests on ---------------------------------------------------------------------

  /** The manifest, or another of the same revision, has been read back. */
  ghost predicate ReadBack(cwd: string, answers: seq<Answer>, m: Manifest) {
    exists disk ::
      Content(disk) in answers && disk.Holds? && ReadOf(cwd, disk).Ok? && disk.manifest.revision == m.revision
  }

  ghost predicate Witnessed(cwd: string, answers: seq<Answer>, c: Call) {
    && (c.compromised <==> Compromised in answers)
    && match c.phase
       case CheckAtEnd(found) => Content(found) in answers && ReadOf(cwd, found).Ok?
       case Releasing(Success(m)) => ReadBack(cwd, answers, m)
       case Finished(Success(m)) => ReadBack(cwd, answers, m) && !c.compromised
       case _ => true
  }

  lemma ReadBackStays(cwd: string, answers: seq<Answer>, a: Answer, m: Manifest)
    requires ReadBack(cwd, answers, m)
    ensures ReadBack(cwd, answers + [a], m)
  {
    var disk :| Content(disk) in answers && disk.Holds? && ReadOf(cwd, disk).Ok? &&
      disk.manifest.revision == m.revision;
    assert Content(disk) in answers + [a];
  }

  lemma AdvanceStaysWitnessed(cwd: string, answers: seq<Answer>, c: Call, a: Answer)
    requires Sound(c) && Witnessed(cwd, answers, c) && Advance(cwd, c, a).Some?
    ensures Witnessed(cwd, answers + [a], Advance(cwd, c, a).value)
  {
    hide ReadOf, NextManifest, ReadBack;
    var c' := Advance(cwd, c, a).value;
    if c.phase.Releasing? && c.phase.result.Success? {
      ReadBackStays(cwd, answers, a, c.phase.result.manifest);
    }
    if c.phase.CheckAtEnd? && c'.phase.Releasing? && c'.phase.result.Success? {
      FoundIsReadBack(cwd, answers + [a], c.phase.found, c'.phase.result.manifest);
    }
    assert a in answers + [a];
  }

  lemma FoundIsReadBack(cwd: string, answers: seq<Answer>, found: Disk, m: Manifest)
    requires Content(found) in answers && found.Holds? && ReadOf(cwd, found).Ok? &&
      found.manifest.revision == m.revision
    ensures ReadBack(cwd, answers, m)
  {
  }

  lemma {:induction false} ReplayIsWitnessed(cwd: string, c: Call, answers: seq<Answer>)
    requires Sound(c) && c.phase.MakingDirectory? && !c.compromised && Replay(cwd, c, answers).Some?
    ensures Witnessed(cwd, answers, Replay(cwd, c, answers).value)
  {
    hide Advance, Witnessed, Sound;
    if answers == [] {
      NewIsWitnessed(cwd, c);
    } else {
      var front, a := answers[..|answers| - 1], answers[|answers| - 1];
      ReplayIsWitnessed(cwd, c, front);
      AdvanceStaysWitnessed(cwd, front, Replay(cwd, c, front).value, a);
      assert answers == front + [a];
    }
  }

  lemma NewIsWitnessed(cwd: string, c: Call)
    requires c.phase.MakingDirectory? && !c.compromised
    ensures Witnessed(cwd, [], c)
  {
  }

  /** An update succeeds only if its lock was never reported as compromised and its revision has been read back. */
  lemma SuccessIsVerified(cwd: string, command: Command, timestamp: Time, answers: seq<Answer>)
    requires Replay(cwd, NewCall(command, timestamp), answers).Some?
    ensures var end := Replay(cwd, NewCall(command, timestamp), answers).value;
            end.phase.Finished? && end.phase.outcome.Success? ==>
              Compromised !in answers && ReadBack(cwd, answers, end.phase.outcome.manifest)
  {
    hide Replay, ReadBack;
    ReplayIsWitnessed(cwd, NewCall(command, timestamp), answers);
  }

  // ---- When an update succeeds -------------------------------------------------------------------

  /** No operation failed, the lock was free, and it was never reported as compromised. */
  ghost predicate Smooth(answers: seq<Answer>) {
    Failed !in answers && Busy !in answers && Compromised !in answers
  }

  /** What was read, in order. */
  function Contents(answers: seq<Answer>): seq<Disk> {
    if answers == [] then
      []
    else
      var front, a := answers[..|answers| - 1], answers[|answers| - 1];
      if a.Content? then Contents(front) + [a.disk] else Contents(front)
  }

  lemma OneMoreAnswer(answers: seq<Answer>, a: Answer)
    ensures Contents(answers + [a]) == if a.Content? then Contents(answers) + [a.disk] else Contents(answers)
    ensures Smooth(answers + [a]) <==> Smooth(answers) && !a.Failed? && !a.Busy? && !a.Compromised?
    ensures Compromised in answers + [a] <==> Compromised in answers || a.Compromised?
  {
    assert (answers + [a])[..|answers|] == answers;
  }

  /** What the command makes of what is read, if it makes anything. */
  function Made(cwd: string, c: Call, read: Disk): Option<Manifest> {
    match ReadOf(cwd, read)
    case Err(_) => None
    case Ok(current) =>
      match NextManifest(cwd, current, c.command, c.timestamp, c.now)
      case Err(_) => None
      case Ok(next) => Some(next)
  }

  predicate Confirms(cwd: string, found: Disk, next: Manifest) {
    ReadOf(cwd, found).Ok? && found.Holds? && found.manifest.revision == next.revision
  }

  /** Of the two reads, the first makes a manifest and the second shows its revision. */
  predicate CarriedOut(cwd: string, c: Call, read: seq<Disk>) {
    |read| == 2 && Made(cwd, c, read[0]).Some? && Confirms(cwd, read[1], Made(cwd, c, read[0]).value)
  }

  /** What a call that has not come to a result has read, by the place where it stands. */
  ghost predicate Reads(cwd: string, c: Call, read: seq<Disk>) {
    if c.phase.MakingDirectory? || c.phase.Locking? || c.phase.CheckAtStart? || c.phase.Reading? then
      read == []
    else if c.phase.Cleaning? || c.phase.Transforming? then
      |read| == 1 && ReadOf(cwd, read[0]) == Ok(c.current)
    else if c.phase.CheckAtEnd? then
      && |read| == 2 && c.next.Some? && Made(cwd, c, read[0]) == c.next
      && read[1] == c.phase.found && ReadOf(cwd, read[1]).Ok?
    else
      |read| == 1 && c.next.Some? && Made(cwd, c, read[0]) == c.next
  }

  function ResultOf(c: Call): Option<Outcome> {
    match c.phase
    case Releasing(result) => Some(result)
    case Finished(outcome) => Some(outcome)
    case _ => None
  }

  ghost predicate Tracked(cwd: string, answers: seq<Answer>, c: Call) {
    && (c.compromised <==> Compromised in answers)
    && match ResultOf(c)
       case None => Failed !in answers && Busy !in answers && Reads(cwd, c, Contents(answers))
       case Some(Success(m)) =>
         && (if c.phase.Finished? then Smooth(answers) else Failed !in answers && Busy !in answers)
         && CarriedOut(cwd, c, Contents(answers)) && Made(cwd, c, Contents(answers)[0]) == Some(m)
       case _ => !(Smooth(answers) && CarriedOut(cwd, c, Contents(answers)))
  }

  lemma AdvanceStaysTracked(cwd: string, answers: seq<Answer>, c: Call, a: Answer)
    requires Sound(c) && Tracked(cwd, answers, c) && Advance(cwd, c, a).Some?
    ensures Tracked(cwd, answers + [a], Advance(cwd, c, a).value)
  {
    hide ReadOf, NextManifest, Contents;
    OneMoreAnswer(answers, a);
  }

  lemma {:induction false} ReplayIsTracked(cwd: string, c: Call, answers: seq<Answer>)
    requires Sound(c) && c.phase.MakingDirectory? && !c.compromised && Replay(cwd, c, answers).Some?
    ensures Tracked(cwd, answers, Replay(cwd, c, answers).value)
  {
    hide Advance, Sound, Reads, CarriedOut, Smooth;
    if answers == [] {
      NewIsTracked(cwd, c);
    } else {
      var front, a := answers[..|answers| - 1], answers[|answers| - 1];
      ReplayIsTracked(cwd, c, front);
      AdvanceStaysTracked(cwd, front, Replay(cwd, c, front).value, a);
      assert answers == front + [a];
    }
  }

  lemma NewIsTracked(cwd: string, c: Call)
    requires c.phase.MakingDirectory? && !c.compromised
    ensures Tracked(cwd, [], c)
  {
  }

  /**
   Exactly when an update succeeds: no operation failed, the lock was free and never reported as compromised, the
   command makes a manifest of what was read, and that manifest's revision was read back.
   */
  lemma SuccessExactly(cwd: string, command: Command, timestamp: Time, answers: seq<Answer>)
    requires Replay(cwd, NewCall(command, timestamp), answers).Some?
    requires Replay(cwd, NewCall(command, timestamp), answers).value.phase.Finished?
    ensures var end, read := Replay(cwd, NewCall(command, timestamp), answers).value, Contents(answers);
            && (end.phase.outcome.Success? <==> Smooth(answers) && CarriedOut(cwd, end, read))
            && (end.phase.outcome.Success? ==> Made(cwd, end, read[0]) == Some(end.phase.outcome.manifest))
  {
    hide Replay, CarriedOut, Smooth, Made, Contents;
    ReplayIsTracked(cwd, NewCall(command, timestamp), answers);
  }

  // ---- The storage -------------------------------------------------------------------------------

  /** The storage and the lock, as one update meets them: any operation may fail, and the lock may be compromised. */
  class Storage {
    const cwd: string
    ghost const first: Call
    ghost var call: Call
    ghost var answers: seq<Answer>
    var compromised: bool

    ghost predicate Valid()
      reads this
    {
      Sound(first) && Replay(cwd, first, answers) == Some(call) && Sound(call) && compromised == call.compromised
    }

    constructor (cwd: string, command: Command, timestamp: Time)
      ensures Valid() && this.cwd == cwd && first == NewCall(command, timestamp) && answers == []
    {
      this.cwd := cwd;
      first := NewCall(command, timestamp);
      call := NewCall(command, timestamp);
      answers := [];
      compromised := false;
    }

    /** The call hears an answer. */
    ghost method Hear(a: Answer)
      requires Valid() && !a.Compromised? && Advance(cwd, call, a).Some? &&
        compromised == Advance(cwd, call, a).value.compromised
      modifies this`call, this`answers
      ensures Valid() && Some(call) == Advance(cwd, old(call), a) && answers == old(answers) + [a]
    {
      hide Advance, Replay;
      ReplayMore(cwd, first, answers, a);
      call, answers := Advance(cwd, call, a).value, answers + [a];
    }

    /** While a call holds the lock, it may be told that it is compromised. */
    method Notify()
      requires Valid() && Holding(call)
      modifies this`call, this`answers, this`compromised
      ensures Valid() && (old(compromised) ==> compromised) && call == old(call).(compromised := compromised)
      ensures answers == old(answers) || answers == old(answers) + [Compromised]
    {
      var told: bool := *;
      if told {
        hide Advance, Replay;
        ReplayMore(cwd, first, answers, Compromised);
        Told(cwd, call);
        compromised := true;
        call, answers := call.(compromised := true), answers + [Compromised];
      }
    }

    method MakeDirectory() returns (ok: bool)
      requires Valid() && call.phase.MakingDirectory?
      modifies this
      ensures Valid() && call == old(call).(phase := if ok then Locking else Finished(NotCommitted(OperationFailure)))
      ensures answers == old(answers) + [if ok then Done else Failed]
    {
      ok := *;
      Hear(if ok then Done else Failed);
    }

    /** A lock that is taken, or the answer that it is held elsewhere or cannot be had. */
    method Lock() returns (a: Answer)
      requires Valid() && call.phase.Locking? && !call.compromised
      modifies this
      ensures Valid() && a in {Done, Busy, Failed} && Grew(old(answers), a, answers)
      ensures old(answers) <= answers
      ensures a.Done? ==> call == old(call).(phase := CheckAtStart, compromised := compromised)
      ensures a.Busy? ==> call.phase == Finished(NotCommitted(LockTimeout))
      ensures a.Failed? ==> call.phase == Finished(NotCommitted(OperationFailure))
    {
      a := *;
      if !a.Done? && !a.Busy? {
        a := Failed;
      }
      Hear(a);
      if a.Done? {
        Notify();
      }
    }

    /** An operation on files other than reading: cleaning up, writing, renaming, syncing. */
    method Try() returns (ok: bool)
      requires Valid() && (call.phase.Cleaning? || call.phase.Writing? || call.phase.Renaming? || call.phase.Syncing?)
      modifies this
      ensures Valid() && (old(compromised) ==> compromised)
      ensures Tried(cwd, old(call), ok, call) && Grew(old(answers), if ok then Done else Failed, answers)
      ensures old(answers) <= answers
    {
      ok := *;
      hide Replay;
      Hear(if ok then Done else Failed);
      Notify();
    }

    method ReadFile() returns (ok: bool, disk: Disk)
      requires Valid() && (call.phase.Reading? || call.phase.Verifying?)
      modifies this
      ensures Valid() && (old(compromised) ==> compromised)
      ensures HasHeard(cwd, old(call), if ok then Content(disk) else Failed, call)
      ensures Grew(old(answers), if ok then Content(disk) else Failed, answers)
      ensures old(answers) <= answers
    {
      ok, disk := *, *;
      hide Replay;
      Hear(if ok then Content(disk) else Failed);
      Notify();
    }

    method Release() returns (ok: bool)
      requires Valid() && call.phase.Releasing?
      modifies this
      ensures Valid() && (old(compromised) ==> compromised)
      ensures call ==
        old(call).(phase := Finished(Ending(old(call).phase.result, compromised, ok)), compromised := compromised)
      ensures old(answers) <= answers && answers[|answers| - 1] == if ok then Done else Failed
    {
      hide Replay;
      Notify();
      ok := *;
      Hear(if ok then Done else Failed);
    }
  }

  lemma Told(cwd: string, c: Call)
    requires Sound(c) && Holding(c)
    ensures Advance(cwd, c, Compromised) == Some(c.(compromised := true))
  {
  }

  /** One answer has been heard, and perhaps since then that the lock is compromised. */
  ghost predicate Grew(before: seq<Answer>, a: Answer, after: seq<Answer>) {
    after == before + [a] || after == before + [a] + [Compromised]
  }

  /** The call has heard the answer, and perhaps since then that its lock is compromised. */
  ghost predicate HasHeard(cwd: string, before: Call, a: Answer, after: Call)
    requires Sound(before)
  {
    var c := Advance(cwd, before, a);
    c.Some? && after == c.value.(compromised := after.compromised)
  }

  ghost predicate Tried(cwd: string, before: Call, ok: bool, after: Call)
    requires Sound(before)
  {
    HasHeard(cwd, before, if ok then Done else Failed, after)
  }

  // ---- The update --------------------------------------------------------------------------------

  datatype Cause = LockGone | Other

  /** The end of the attempt, once the file is in place: syncing its directory and reading it back. */
  method Confirm(storage: Storage, next: Manifest) returns (cause: Option<Cause>)
    requires storage.Valid() && storage.call.phase.Syncing? && storage.call.next == Some(next)
    modifies storage
    ensures old(storage.answers) <= storage.answers
    ensures storage.Valid() && storage.call.next == Some(next) && storage.call.now == old(storage.call.now)
    ensures storage.call.phase == Releasing(if cause.None? then Success(next) else CommitIndeterminate(next.revision))
  {
    hide NextManifest, ReadOf, Replay, Grew;
    var synced := storage.Try();
    if !synced {
      return Some(Other);
    }
    storage.Hear(Done);
    if storage.compromised {
      return Some(LockGone);
    }
    var ok, disk := storage.ReadFile();
    if !ok || ReadOf(storage.cwd, disk).Err? {
      return Some(Other);
    }
    storage.Hear(Done);
    if storage.compromised {
      return Some(LockGone);
    }
    if !disk.Holds? || disk.manifest.revision != next.revision {
      return Some(Other);
    }
    return None;
  }

  /** The attempt inside the commit: whether it got past the renaming, and why it was broken off, if it was. */
  method Attempt(storage: Storage, next: Manifest) returns (renamed: bool, cause: Option<Cause>)
    requires storage.Valid() && storage.call.phase.CheckBeforeWrite? && storage.call.next == Some(next)
    modifies storage
    ensures old(storage.answers) <= storage.answers
    ensures storage.Valid() && storage.call.next == Some(next) && storage.call.now == old(storage.call.now)
    ensures storage.call.phase == Releasing(
      if cause.None? then Success(next)
      else if renamed then CommitIndeterminate(next.revision)
      else NotCommitted(if cause.value.LockGone? then LockCompromised else CommitFailure))
    ensures cause.None? ==> renamed
  {
    hide NextManifest, ReadOf, Replay, Grew;
    renamed := false;
    storage.Hear(Done);
    if storage.compromised {
      return renamed, Some(LockGone);
    }
    var written := storage.Try();
    if !written {
      return renamed, Some(Other);
    }
    storage.Hear(Done);
    if storage.compromised {
      return renamed, Some(LockGone);
    }
    var moved := storage.Try();
    if !moved {
      return renamed, Some(Other);
    }
    renamed := true;
    storage.Hear(Done);
    if storage.compromised {
      return renamed, Some(LockGone);
    }
    cause := Confirm(storage, next);
  }

  method Commit(storage: Storage, next: Manifest) returns (result: Outcome)
    requires storage.Valid() && storage.call.phase.CheckBeforeWrite? && storage.call.next == Some(next)
    modifies storage
    ensures old(storage.answers) <= storage.answers && storage.call.now == old(storage.call.now)
    ensures storage.Valid() && storage.call.phase == Releasing(result)
    ensures (result.Success? ==> result.manifest == next) && !result.CommittedReleaseFailed?
  {
    var renamed, cause := Attempt(storage, next);
    if cause.None? {
      return Success(next);
    }
    if !renamed && cause.value.LockGone? {
      return NotCommitted(LockCompromised);
    }
    if renamed {
      return CommitIndeterminate(next.revision);
    }
    return NotCommitted(CommitFailure);
  }

  /** What an update does while it holds the lock. */
  method UpdateLocked(storage: Storage, now: Time, command: Command, timestamp: Time) returns (result: Outcome)
    requires storage.Valid() && storage.call.phase.CheckAtStart?
    requires storage.call.command == command && storage.call.timestamp == timestamp
    modifies storage
    ensures old(storage.answers) <= storage.answers
    ensures storage.Valid() && storage.call.phase == Releasing(result)
    ensures !result.CommittedReleaseFailed? && storage.call.now == now
  {
    hide NextManifest, ReadOf, Replay, Grew;
    storage.Hear(Clock(now));
    if storage.compromised {
      return NotCommitted(LockCompromised);
    }
    var ok, disk := storage.ReadFile();
    if !ok {
      return NotCommitted(ReadFailure);
    }
    var current := ReadOf(storage.cwd, disk);
    if current.Err? {
      return NotCommitted(current.error);
    }
    ok := storage.Try();
    if !ok {
      return NotCommitted(OperationFailure);
    }
    var next := NextManifest(storage.cwd, current.value, command, timestamp, now);
    storage.Hear(Done);
    if next.Err? {
      return NotCommitted(next.error);
    }
    result := Commit(storage, next.value);
  }

  method RunUpdate(storage: Storage, now: Time, command: Command, timestamp: Time) returns (outcome: Outcome)
    requires storage.Valid() && storage.call == NewCall(command, timestamp)
    modifies storage
    ensures old(storage.answers) <= storage.answers
    ensures storage.Valid() && storage.call.phase == Finished(outcome)
    ensures outcome.Success? ==> storage.call.now == now
  {
    hide Replay;
    var made := storage.MakeDirectory();
    if !made {
      return NotCommitted(OperationFailure);
    }
    var locked := storage.Lock();
    if locked.Busy? {
      return NotCommitted(LockTimeout);
    }
    if locked.Failed? {
      return NotCommitted(OperationFailure);
    }
    var result := UpdateLocked(storage, now, command, timestamp);
    var released := storage.Release();
    if result.NotCommitted? || result.CommitIndeterminate? {
      return result;
    }
    if storage.compromised || !released {
      return CommittedReleaseFailed(result.manifest.revision);
    }
    return result;
  }

  /** The manifest has what the command makes of the records of the one that was read first. */
  ghost predicate MadeOf(
    cwd: string, read: seq<Disk>, command: Command, timestamp: Time, now: Time, m: Manifest)
  {
    && read != [] && ReadOf(cwd, read[0]).Ok?
    && IsNextManifest(cwd, ReadOf(cwd, read[0]).value, command, timestamp, now, m)
  }

  lemma MadeMeans(cwd: string, c: Call, read: seq<Disk>, m: Manifest)
    requires CarriedOut(cwd, c, read) && Made(cwd, c, read[0]) == Some(m)
    ensures MadeOf(cwd, read, c.command, c.timestamp, c.now, m)
  {
    hide NextManifest, IsNextManifest, Valid;
    NextManifestMeans(cwd, ReadOf(cwd, read[0]).value, c.command, c.timestamp, c.now);
  }

  lemma {:induction false} CommandOfReplay(cwd: string, c: Call, answers: seq<Answer>)
    requires Sound(c) && Replay(cwd, c, answers).Some?
    ensures var d := Replay(cwd, c, answers).value; d.command == c.command && d.timestamp == c.timestamp
  {
    hide NextManifest, ReadOf;
    if answers == [] {
    } else {
      CommandOfReplay(cwd, c, answers[..|answers| - 1]);
    }
  }

  lemma NothingHeard(cwd: string, c: Call)
    requires Sound(c)
    ensures Replay(cwd, c, []) == Some(c)
  {
  }

  /**
   Every run of an update is a run of one call of the protocol, it returns what that call ends with, and it succeeds
   exactly if nothing failed and its own manifest was made and read back.
   */
  method Update(storage: Storage, now: Time, command: Command, timestamp: Time) returns (outcome: Outcome)
    requires storage.Valid() && storage.first == NewCall(command, timestamp) && storage.answers == []
    modifies storage
    ensures Replay(storage.cwd, NewCall(command, timestamp), storage.answers) == Some(storage.call)
    ensures storage.call.phase == Finished(outcome)
    ensures outcome.Success? <==>
      Smooth(storage.answers) && CarriedOut(storage.cwd, storage.call, Contents(storage.answers))
    ensures outcome.Success? ==>
      MadeOf(storage.cwd, Contents(storage.answers), command, timestamp, now, outcome.manifest)
  {
    hide Replay, Smooth, CarriedOut, Contents, Made, MadeOf;
    NothingHeard(storage.cwd, storage.first);
    outcome := RunUpdate(storage, now, command, timestamp);
    SuccessExactly(storage.cwd, command, timestamp, storage.answers);
    if outcome.Success? {
      CommandOfReplay(storage.cwd, NewCall(command, timestamp), storage.answers);
      MadeMeans(storage.cwd, storage.call, Contents(storage.answers), outcome.manifest);
    }
  }
}
