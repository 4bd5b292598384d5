/** What the session commands do to a manifest, and when the result is a manifest that the catalog accepts. */
module SessionTransforms {
  import opened Wrappers
  import opened Sorting
  import opened TextLines
  import opened SessionManifest

  // ---- Looking up and replacing a record ---------------------------------------------------------

  function FindWork(s: seq<Work>, id: string): (r: Option<Work>)
    ensures r.None? <==> !HasId(s, id)
    ensures r.Some? ==> r.value in s && r.value.base.sessionId == id
  {
    if s == [] then
      None
    else if s[0].base.sessionId == id then
      Some(s[0])
    else
      assert HasId(s, id) ==> HasId(s[1..], id) by {
        if HasId(s, id) {
          var i :| 0 <= i < |s| && s[i].base.sessionId == id;
          assert s[1..][i - 1].base.sessionId == id;
        }
      }
      assert HasId(s[1..], id) ==> HasId(s, id) by {
        if HasId(s[1..], id) {
          var i :| 0 <= i < |s| - 1 && s[1..][i].base.sessionId == id;
          assert s[i + 1].base.sessionId == id;
        }
      }
      FindWork(s[1..], id)
  }

  datatype Found = NoRecord | FoundCoordinator(coordinator: Base) | FoundWork(work: Work)

  function FindRecord(m: Manifest, id: string): Found {
    if m.coordinator.Some? && m.coordinator.value.sessionId == id then
      FoundCoordinator(m.coordinator.value)
    else
      match FindWork(m.sessions, id)
      case None => NoRecord
      case Some(w) => FoundWork(w)
  }

  function Without(s: seq<Work>, id: string): (r: seq<Work>)
    ensures forall w :: w in r <==> w in s && w.base.sessionId != id
    ensures |r| <= |s|
  {
    if s == [] then
      []
    else
      assert s == [s[0]] + s[1..];
      (if s[0].base.sessionId == id then [] else [s[0]]) + Without(s[1..], id)
  }

  function Replaced(s: seq<Work>, w: Work): seq<Work> {
    Sort(Without(s, w.base.sessionId) + [w], RecordLe)
  }

  function ReplaceWorkRecord(m: Manifest, w: Work): Manifest {
    m.(sessions := Replaced(m.sessions, w))
  }

  lemma {:induction false} WithoutKeepsDistinct(s: seq<Work>, id: string)
    requires DistinctIds(s)
    ensures DistinctIds(Without(s, id))
  {
    if s == [] {
    } else {
      WithoutKeepsDistinct(s[1..], id);
      var rest := Without(s[1..], id);
      forall j | 0 <= j < |rest| ensures rest[j].base.sessionId != s[0].base.sessionId {
        assert rest[j] in s[1..];
      }
    }
  }

  lemma DistinctByMember(s: seq<Work>, t: seq<Work>)
    requires DistinctIds(t) && multiset(s) == multiset(t)
    ensures DistinctIds(s)
  {
    forall i, j | 0 <= i < j < |t| ensures t[i] != t[j] {
    }
    forall i, j | 0 <= i < j < |s| ensures s[i].base.sessionId != s[j].base.sessionId {
      if s[i] == s[j] {
        CountTwo(s, i, j);
        CountOne(t, s[i]);
      } else {
        assert s[i] in multiset(s) && s[j] in multiset(s);
        assert s[i] in t && s[j] in t;
      }
    }
  }

  /** Replacing keeps the sessions sorted and their ids distinct, and changes no other record. */
  lemma ReplacedSessions(s: seq<Work>, w: Work)
    requires DistinctIds(s)
    ensures DistinctIds(Replaced(s, w)) && SortedBy(Replaced(s, w), RecordLe)
    ensures forall x :: x in Replaced(s, w) <==> x == w || (x in s && x.base.sessionId != w.base.sessionId)
  {
    hide RecordLe;
    var rest := Without(s, w.base.sessionId);
    WithoutKeepsDistinct(s, w.base.sessionId);
    forall i | 0 <= i < |rest| ensures rest[i].base.sessionId != w.base.sessionId {
      assert rest[i] in rest;
    }
    DistinctByMember(Replaced(s, w), rest + [w]);
    RecordLeIsAnOrder();
    SortIsSorted(rest + [w], RecordLe);
    forall x ensures x in Replaced(s, w) <==> x == w || (x in s && x.base.sessionId != w.base.sessionId) {
      SortMembers(rest + [w], RecordLe, x);
    }
  }

  lemma IdsAreMembers(s: seq<Work>, id: string)
    ensures HasId(s, id) <==> exists x | x in s :: x.base.sessionId == id
  {
  }

  lemma FoundIsUnique(s: seq<Work>, w: Work)
    requires DistinctIds(s) && w in s
    ensures FindWork(s, w.base.sessionId) == Some(w)
  {
    hide FindWork;
    var i :| 0 <= i < |s| && s[i] == w;
    assert HasId(s, w.base.sessionId);
    var x := FindWork(s, w.base.sessionId).value;
    var j :| 0 <= j < |s| && s[j] == x;
  }

  /** After replacing a record, looking it up finds the new one, and looking up any other finds what it did before. */
  lemma FindReplaced(m: Manifest, w: Work, id: string)
    requires DistinctIds(m.sessions) && w.base.sessionId !in CoordinatorIds(m)
    ensures FindRecord(ReplaceWorkRecord(m, w), id) ==
      if id == w.base.sessionId then FoundWork(w) else FindRecord(m, id)
  {
    hide FindWork, Replaced, DistinctIds;
    var s, r := m.sessions, Replaced(m.sessions, w);
    ReplacedSessions(s, w);
    if id == w.base.sessionId {
      assert w in r;
      FoundIsUnique(r, w);
    } else if HasId(s, id) {
      var x := FindWork(s, id).value;
      assert x in r;
      FoundIsUnique(r, x);
    } else {
      IdsAreMembers(s, id);
      IdsAreMembers(r, id);
    }
  }

  // ---- The stamp of an update --------------------------------------------------------------------

  /** What the catalog writes around the result of a transform. */
  function Stamp(draft: Manifest, current: Manifest, now: Time): Manifest {
    draft.(canonicalCwd := current.canonicalCwd, revision := current.revision + 1, updatedAt := now)
  }

  /** The record that the transform put there is not counted. */
  ghost predicate OthersNotAfter(m: Manifest, id: string, now: Time) {
    && (m.coordinator.Some? ==> m.coordinator.value.lastOpenedAt <= now)
    && forall x | x in m.sessions && x.base.sessionId != id :: Latest(x) <= now
  }

  predicate Stampable(m: Manifest, now: Time) {
    m.revision < MAX_SAFE_INTEGER && LegalTime(now)
  }

  lemma SessionsByMember(s: seq<Work>, cwd: string, updatedAt: Time)
    ensures ValidSessions(s, cwd, updatedAt)
       <==> && (forall x | x in s :: ValidWork(x, cwd) && Latest(x) <= updatedAt)
            && DistinctIds(s) && SortedBy(s, RecordLe)
  {
    hide ValidWork, Latest, RecordLe;
    if forall x | x in s :: ValidWork(x, cwd) && Latest(x) <= updatedAt {
      forall i | 0 <= i < |s| ensures ValidWork(s[i], cwd) && Latest(s[i]) <= updatedAt {
        assert s[i] in s;
      }
    }
  }

  /** Exactly when the catalog accepts a manifest in which one work record has been replaced. */
  lemma ReplacedIsValid(m: Manifest, w: Work, now: Time)
    requires Valid(m)
    ensures Valid(Stamp(ReplaceWorkRecord(m, w), m, now))
       <==> && ValidWork(w, m.canonicalCwd) && Latest(w) <= now && w.base.sessionId !in CoordinatorIds(m)
            && Stampable(m, now) && OthersNotAfter(m, w.base.sessionId, now)
  {
    hide ValidWork, Latest, Replaced, RecordLe, ValidSessions, DistinctIds, ValidPath, ValidFields, ValidFile;
    hide LegalTime;
    var s, r := m.sessions, Replaced(m.sessions, w);
    SessionsByMember(s, m.canonicalCwd, m.updatedAt);
    SessionsByMember(r, m.canonicalCwd, now);
    ReplacedSessions(s, w);
    if m.coordinator.Some? {
      IdsAreMembers(s, m.coordinator.value.sessionId);
      IdsAreMembers(r, m.coordinator.value.sessionId);
    }
  }

  /** No record is newer than a valid manifest, so it is enough that the clock has not gone back. */
  lemma NotAfterValid(m: Manifest, id: string, now: Time)
    requires Valid(m) && m.updatedAt <= now
    ensures OthersNotAfter(m, id, now)
  {
    hide ValidWork, RecordLe, DistinctIds, Latest, ValidCoordinator;
    SessionsByMember(m.sessions, m.canonicalCwd, m.updatedAt);
  }

  // ---- The commands ------------------------------------------------------------------------------

  datatype DomainError = IdentityConflict | AlreadyClosed | NotManaged

  function FindOpenWorkRecord(m: Manifest, id: string): Result<Option<Work>, DomainError> {
    match FindRecord(m, id)
    case NoRecord => Ok(None)
    case FoundCoordinator(_) => Err(IdentityConflict)
    case FoundWork(w) => if w.state.Closed? then Err(AlreadyClosed) else Ok(Some(w))
  }

  /** The name that a caller asks for, if it is more than blanks. */
  function Requested(name: Option<string>): Option<string> {
    if name.Some? && Trim(name.value) != "" then Some(Trim(name.value)) else None
  }

  function StartedRecord(
    found: Option<Work>, id: string, cwd: string, observed: Persistence, requested: Option<string>, timestamp: Time)
    : Work
  {
    match found
    case Some(w) =>
      var persistence := if observed.Materialized? then observed else w.base.persistence;
      var b := w.base.(persistence := persistence, lastOpenedAt := timestamp);
      if w.explicitName then w.(base := b) else w.(base := b.(name := requested), explicitName := requested.Some?)
    case None =>
      Work(Base(id, cwd, requested, observed, timestamp, timestamp), None, requested.Some?, Open)
  }

  function Start(m: Manifest, id: string, observed: Persistence, name: Option<string>, timestamp: Time)
    : Result<Manifest, DomainError>
  {
    match FindOpenWorkRecord(m, id)
    case Err(e) => Err(e)
    case Ok(found) =>
      Ok(ReplaceWorkRecord(m, StartedRecord(found, id, m.canonicalCwd, observed, Requested(name), timestamp)))
  }

  function AdoptedRecord(
    found: Option<Work>, id: string, cwd: string, sessionFile: string, requested: Option<string>, timestamp: Time): Work
  {
    var explicit := found.Some? && found.value.explicitName;
    var name := if requested.Some? then requested else if explicit then found.value.base.name else None;
    var createdAt := if found.Some? then found.value.base.createdAt else timestamp;
    var taskRef := if found.Some? then found.value.taskRef else None;
    var base := Base(id, cwd, name, Materialized(sessionFile), createdAt, timestamp);
    Work(base, taskRef, requested.Some? || explicit, Open)
  }

  function Adopt(m: Manifest, id: string, sessionFile: string, name: Option<string>, timestamp: Time)
    : Result<Manifest, DomainError>
  {
    match FindOpenWorkRecord(m, id)
    case Err(e) => Err(e)
    case Ok(found) =>
      Ok(ReplaceWorkRecord(m, AdoptedRecord(found, id, m.canonicalCwd, sessionFile, Requested(name), timestamp)))
  }

  function ClosedRecord(w: Work, persistence: Persistence, timestamp: Time, source: CloseSource): Work {
    w.(base := w.base.(persistence := persistence), state := Closed(timestamp, source))
  }

  /** The persistence is the one that the caller knows of, whatever the manifest says meanwhile. */
  function Close(m: Manifest, id: string, persistence: Persistence, timestamp: Time, source: CloseSource)
    : Result<Manifest, DomainError>
  {
    match FindRecord(m, id)
    case FoundWork(w) =>
      if w.state.Closed? then Ok(m) else Ok(ReplaceWorkRecord(m, ClosedRecord(w, persistence, timestamp, source)))
    case _ => Err(NotManaged)
  }

  /** `name` is the trimmed name, which is not empty. */
  function Rename(m: Manifest, id: string, name: string): Result<Manifest, DomainError> {
    match FindRecord(m, id)
    case FoundWork(w) =>
      if w.state.Open? then
        Ok(ReplaceWorkRecord(m, w.(base := w.base.(name := Some(name)), explicitName := true)))
      else
        Err(NotManaged)
    case _ => Err(NotManaged)
  }

  function RefreshMaterialization(m: Manifest, id: string, sessionFile: string): Result<Manifest, DomainError> {
    match FindRecord(m, id)
    case FoundWork(w) =>
      if w.state.Open? then
        Ok(ReplaceWorkRecord(m, w.(base := w.base.(persistence := Materialized(sessionFile)))))
      else
        Err(NotManaged)
    case _ => Err(NotManaged)
  }

  const TOMBSTONE_AGE := 30 * 24 * 60 * 60 * 1000

  predicate Kept(w: Work, cutoff: Time) {
    w.state.Open? || w.state.closedAt >= cutoff
  }

  function KeptSessions(s: seq<Work>, cutoff: Time): (r: seq<Work>)
    ensures forall w :: w in r <==> w in s && Kept(w, cutoff)
    ensures |r| <= |s|
  {
    if s == [] then
      []
    else
      assert s == [s[0]] + s[1..];
      (if Kept(s[0], cutoff) then [s[0]] else []) + KeptSessions(s[1..], cutoff)
  }

  function GcTombstones(m: Manifest, now: Time): Manifest {
    m.(sessions := KeptSessions(m.sessions, now - TOMBSTONE_AGE))
  }

  function EnsureCoordinator(m: Manifest, newId: string, timestamp: Time): Manifest {
    var current := GcTombstones(m, timestamp);
    match current.coordinator
    case Some(c) => current.(coordinator := Some(c.(name := None)))
    case None => current.(coordinator := Some(Base(newId, current.canonicalCwd, None, Pending, timestamp, timestamp)))
  }

  // ---- When a command's result is accepted -------------------------------------------------------

  lemma WorkOfValid(m: Manifest, w: Work)
    requires Valid(m) && w in m.sessions
    ensures ValidWork(w, m.canonicalCwd) && Latest(w) <= m.updatedAt && w.base.sessionId !in CoordinatorIds(m)
  {
    hide ValidWork, RecordLe, DistinctIds, Latest, ValidCoordinator;
    SessionsByMember(m.sessions, m.canonicalCwd, m.updatedAt);
    IdsAreMembers(m.sessions, w.base.sessionId);
  }

  lemma FoundInValid(m: Manifest, id: string)
    requires Valid(m)
    ensures var f := FindRecord(m, id);
            && (f.FoundWork? ==>
                  && f.work in m.sessions && f.work.base.sessionId == id
                  && ValidWork(f.work, m.canonicalCwd) && Latest(f.work) <= m.updatedAt)
            && (id in CoordinatorIds(m) <==> f.FoundCoordinator?)
  {
    hide ValidWork, Valid, Latest, FindWork;
    var f := FindRecord(m, id);
    if f.FoundWork? {
      WorkOfValid(m, f.work);
    }
  }

  predicate ValidRequest(requested: Option<string>) {
    requested.Some? ==> ValidName(requested.value)
  }

  lemma StartedIsValid(w: Option<Work>, id: string, cwd: string, observed: Persistence, requested: Option<string>,
      timestamp: Time)
    requires w.Some? ==> ValidWork(w.value, cwd) && w.value.state.Open? && w.value.base.sessionId == id
    ensures ValidWork(StartedRecord(w, id, cwd, observed, requested, timestamp), cwd)
       <==> && (w.None? ==> ValidId(id))
            && ((w.None? || !w.value.explicitName) ==> ValidRequest(requested))
            && ValidFile(observed) && LegalTime(timestamp) && (w.Some? ==> w.value.base.createdAt <= timestamp)
  {
    hide ValidId, ValidName, LegalTime, ValidPath, ValidReference;
  }

  lemma AdoptedIsValid(w: Option<Work>, id: string, cwd: string, file: string, requested: Option<string>,
      timestamp: Time)
    requires w.Some? ==> ValidWork(w.value, cwd) && w.value.state.Open? && w.value.base.sessionId == id
    ensures ValidWork(AdoptedRecord(w, id, cwd, file, requested, timestamp), cwd)
       <==> && (w.None? ==> ValidId(id)) && ValidRequest(requested)
            && ValidPath(file) && LegalTime(timestamp) && (w.Some? ==> w.value.base.createdAt <= timestamp)
  {
    hide ValidId, ValidName, LegalTime, ValidPath, ValidReference;
  }

  /** The clock has not gone back since the last update, and there is a next revision. */
  predicate Updatable(m: Manifest, now: Time) {
    Valid(m) && Stampable(m, now) && m.updatedAt <= now
  }

  /**
   Starting a session is refused for a session that is closed or the coordinator's. Otherwise the result is accepted
   exactly when what the caller brings along is legal and its time is not before the record nor after the update.
   */
  lemma StartIsAccepted(m: Manifest, id: string, observed: Persistence, name: Option<string>, timestamp: Time,
      now: Time)
    requires Updatable(m, now)
    ensures var r, f := Start(m, id, observed, name, timestamp), FindRecord(m, id);
            && (r.Err? <==> f.FoundCoordinator? || (f.FoundWork? && f.work.state.Closed?))
            && (r.Ok? ==>
                  (Valid(Stamp(r.value, m, now)) <==>
                   && (f.NoRecord? ==> ValidId(id))
                   && ((f.NoRecord? || !f.work.explicitName) ==> ValidRequest(Requested(name)))
                   && ValidFile(observed) && LegalTime(timestamp) && timestamp <= now
                   && (f.FoundWork? ==> f.work.base.createdAt <= timestamp)))
  {
    hide Valid, ValidWork, ValidId, ValidRequest, ValidFile, LegalTime, Requested, OthersNotAfter, CoordinatorIds;
    hide FindRecord, ReplaceWorkRecord, Stamp;
    FoundInValid(m, id);
    var found := FindOpenWorkRecord(m, id);
    if found.Ok? {
      var w := StartedRecord(found.value, id, m.canonicalCwd, observed, Requested(name), timestamp);
      StartedIsValid(found.value, id, m.canonicalCwd, observed, Requested(name), timestamp);
      ReplacedIsValid(m, w, now);
      NotAfterValid(m, id, now);
    }
  }

  lemma AdoptIsAccepted(m: Manifest, id: string, file: string, name: Option<string>, timestamp: Time, now: Time)
    requires Updatable(m, now)
    ensures var r, f := Adopt(m, id, file, name, timestamp), FindRecord(m, id);
            && (r.Err? <==> f.FoundCoordinator? || (f.FoundWork? && f.work.state.Closed?))
            && (r.Ok? ==>
                  (Valid(Stamp(r.value, m, now)) <==>
                   && (f.NoRecord? ==> ValidId(id)) && ValidRequest(Requested(name))
                   && ValidPath(file) && LegalTime(timestamp) && timestamp <= now
                   && (f.FoundWork? ==> f.work.base.createdAt <= timestamp)))
  {
    hide Valid, ValidWork, ValidId, ValidRequest, ValidPath, LegalTime, Requested, OthersNotAfter, CoordinatorIds;
    hide FindRecord, ReplaceWorkRecord, Stamp;
    FoundInValid(m, id);
    var found := FindOpenWorkRecord(m, id);
    if found.Ok? {
      var w := AdoptedRecord(found.value, id, m.canonicalCwd, file, Requested(name), timestamp);
      AdoptedIsValid(found.value, id, m.canonicalCwd, file, Requested(name), timestamp);
      ReplacedIsValid(m, w, now);
      NotAfterValid(m, id, now);
    }
  }

  lemma ClosedIsValid(w: Work, cwd: string, persistence: Persistence, timestamp: Time, source: CloseSource)
    requires ValidWork(w, cwd) && w.state.Open?
    ensures ValidWork(ClosedRecord(w, persistence, timestamp, source), cwd)
       <==> ValidFile(persistence) && LegalTime(timestamp) && w.base.lastOpenedAt <= timestamp
  {
    hide ValidId, ValidName, LegalTime, ValidPath, ValidReference;
  }

  lemma StampedIsValid(m: Manifest, now: Time)
    requires Updatable(m, now)
    ensures Valid(Stamp(m, m, now))
  {
    hide ValidWork, RecordLe, DistinctIds, ValidFields, ValidFile, ValidPath, HasId;
  }

  /** Closing a session must not be dated before it was last opened. Closing it again changes nothing. */
  lemma CloseIsAccepted(m: Manifest, id: string, persistence: Persistence, timestamp: Time, source: CloseSource,
      now: Time)
    requires Updatable(m, now)
    ensures var r, f := Close(m, id, persistence, timestamp, source), FindRecord(m, id);
            && (r.Err? <==> !f.FoundWork?)
            && (r.Ok? && f.work.state.Closed? ==> r.value == m && Valid(Stamp(r.value, m, now)))
            && (r.Ok? && f.work.state.Open? ==>
                  (Valid(Stamp(r.value, m, now)) <==>
                   ValidFile(persistence) && LegalTime(timestamp) && f.work.base.lastOpenedAt <= timestamp <= now))
  {
    hide Valid, ValidWork, ValidFile, LegalTime, OthersNotAfter, CoordinatorIds, FindRecord, ReplaceWorkRecord, Stamp;
    FoundInValid(m, id);
    StampedIsValid(m, now);
    var f := FindRecord(m, id);
    if f.FoundWork? && f.work.state.Open? {
      var w := ClosedRecord(f.work, persistence, timestamp, source);
      ClosedIsValid(f.work, m.canonicalCwd, persistence, timestamp, source);
      ReplacedIsValid(m, w, now);
      NotAfterValid(m, id, now);
    }
  }

  lemma RenamedIsValid(w: Work, cwd: string, name: string)
    requires ValidWork(w, cwd)
    ensures ValidWork(w.(base := w.base.(name := Some(name)), explicitName := true), cwd) <==> ValidName(name)
  {
    hide ValidId, ValidName, LegalTime, ValidPath, ValidReference;
  }

  lemma RenameIsAccepted(m: Manifest, id: string, name: string, now: Time)
    requires Updatable(m, now)
    ensures var r, f := Rename(m, id, name), FindRecord(m, id);
            && (r.Ok? <==> f.FoundWork? && f.work.state.Open?)
            && (r.Ok? ==> (Valid(Stamp(r.value, m, now)) <==> ValidName(name)))
  {
    hide Valid, ValidWork, ValidName, LegalTime, OthersNotAfter, CoordinatorIds, FindRecord, ReplaceWorkRecord, Stamp;
    FoundInValid(m, id);
    var f := FindRecord(m, id);
    if f.FoundWork? && f.work.state.Open? {
      RenamedIsValid(f.work, m.canonicalCwd, name);
      ReplacedIsValid(m, f.work.(base := f.work.base.(name := Some(name)), explicitName := true), now);
      NotAfterValid(m, id, now);
    }
  }

  lemma RefreshedIsValid(w: Work, cwd: string, file: string)
    requires ValidWork(w, cwd)
    ensures ValidWork(w.(base := w.base.(persistence := Materialized(file))), cwd) <==> ValidPath(file)
  {
    hide ValidId, ValidName, LegalTime, ValidPath, ValidReference;
  }

  lemma RefreshIsAccepted(m: Manifest, id: string, file: string, now: Time)
    requires Updatable(m, now)
    ensures var r, f := RefreshMaterialization(m, id, file), FindRecord(m, id);
            && (r.Ok? <==> f.FoundWork? && f.work.state.Open?)
            && (r.Ok? ==> (Valid(Stamp(r.value, m, now)) <==> ValidPath(file)))
  {
    hide Valid, ValidWork, ValidPath, LegalTime, OthersNotAfter, CoordinatorIds, FindRecord, ReplaceWorkRecord, Stamp;
    FoundInValid(m, id);
    var f := FindRecord(m, id);
    if f.FoundWork? && f.work.state.Open? {
      RefreshedIsValid(f.work, m.canonicalCwd, file);
      ReplacedIsValid(m, f.work.(base := f.work.base.(persistence := Materialized(file))), now);
      NotAfterValid(m, id, now);
    }
  }

  // ---- Tombstones and the coordinator ------------------------------------------------------------

  lemma OneBefore(x: Work, s: seq<Work>)
    requires DistinctIds(s) && SortedBy(s, RecordLe)
    requires forall w | w in s :: w.base.sessionId != x.base.sessionId && RecordLe(x, w)
    ensures DistinctIds([x] + s) && SortedBy([x] + s, RecordLe)
  {
    hide RecordLe;
    forall j | 0 <= j < |s| ensures s[j] in s {
    }
  }

  lemma FirstOf(s: seq<Work>, w: Work)
    requires s != [] && DistinctIds(s) && SortedBy(s, RecordLe) && w in s[1..]
    ensures w.base.sessionId != s[0].base.sessionId && RecordLe(s[0], w)
  {
    hide RecordLe;
    var k :| 0 <= k < |s| - 1 && s[1..][k] == w;
    assert s[k + 1] == w;
  }

  lemma RestStaysInOrder(s: seq<Work>)
    requires s != [] && DistinctIds(s) && SortedBy(s, RecordLe)
    ensures DistinctIds(s[1..]) && SortedBy(s[1..], RecordLe)
  {
    hide RecordLe;
  }

  lemma {:induction false} KeptStayInOrder(s: seq<Work>, cutoff: Time)
    requires DistinctIds(s) && SortedBy(s, RecordLe)
    ensures DistinctIds(KeptSessions(s, cutoff)) && SortedBy(KeptSessions(s, cutoff), RecordLe)
  {
    hide RecordLe, Kept, DistinctIds, SortedBy;
    if s == [] {
      assert KeptSessions(s, cutoff) == s;
    } else {
      RestStaysInOrder(s);
      KeptStayInOrder(s[1..], cutoff);
      var rest := KeptSessions(s[1..], cutoff);
      forall w | w in rest ensures w.base.sessionId != s[0].base.sessionId && RecordLe(s[0], w) {
        FirstOf(s, w);
      }
      OneBefore(s[0], rest);
      assert [] + rest == rest;
    }
  }

  /** Collecting tombstones keeps a manifest valid and drops only sessions that have been closed for thirty days. */
  lemma GcKeepsValid(m: Manifest, now: Time)
    requires Valid(m)
    ensures Valid(GcTombstones(m, now))
    ensures forall w | w in m.sessions ::
              w in GcTombstones(m, now).sessions <==> !(w.state.Closed? && w.state.closedAt < now - TOMBSTONE_AGE)
  {
    hide ValidWork, RecordLe, DistinctIds, Latest, ValidCoordinator, HasId, Stampable;
    var s, r := m.sessions, KeptSessions(m.sessions, now - TOMBSTONE_AGE);
    SessionsByMember(s, m.canonicalCwd, m.updatedAt);
    SessionsByMember(r, m.canonicalCwd, m.updatedAt);
    KeptStayInOrder(s, now - TOMBSTONE_AGE);
    if m.coordinator.Some? {
      IdsAreMembers(s, m.coordinator.value.sessionId);
      IdsAreMembers(r, m.coordinator.value.sessionId);
    }
  }

  lemma WithCoordinator(m: Manifest, c: Base, now: Time)
    requires Updatable(m, now)
    ensures Valid(Stamp(m.(coordinator := Some(c)), m, now))
       <==> ValidCoordinator(c, m.canonicalCwd) && c.lastOpenedAt <= now && !HasId(m.sessions, c.sessionId)
  {
    hide ValidWork, RecordLe, DistinctIds, ValidPath, HasId, ValidCoordinator;
  }

  lemma NewCoordinatorIsValid(id: string, cwd: string, timestamp: Time)
    ensures ValidCoordinator(Base(id, cwd, None, Pending, timestamp, timestamp), cwd) <==>
      ValidId(id) && LegalTime(timestamp)
  {
    hide ValidId, LegalTime;
  }

  lemma UnnamedCoordinatorIsValid(c: Base, cwd: string)
    requires ValidCoordinator(c, cwd)
    ensures ValidCoordinator(c.(name := None), cwd)
  {
    hide ValidId, LegalTime, ValidName, ValidPath;
  }

  /** An existing coordinator can always be kept; a new one needs an id of its own. */
  lemma EnsureCoordinatorIsAccepted(m: Manifest, newId: string, timestamp: Time, now: Time)
    requires Updatable(m, now) && timestamp <= now
    ensures var r := EnsureCoordinator(m, newId, timestamp);
            && r.coordinator.Some?
            && (m.coordinator.Some? ==> r.coordinator.value.sessionId == m.coordinator.value.sessionId)
            && (Valid(Stamp(r, m, now)) <==>
                m.coordinator.Some?
                || (ValidId(newId) && LegalTime(timestamp) && !HasId(GcTombstones(m, timestamp).sessions, newId)))
  {
    hide Valid, ValidCoordinator, ValidId, LegalTime, HasId, KeptSessions;
    var current := GcTombstones(m, timestamp);
    GcKeepsValid(m, timestamp);
    if current.coordinator.Some? {
      var c := current.coordinator.value;
      CoordinatorOfValid(current);
      UnnamedCoordinatorIsValid(c, current.canonicalCwd);
      WithCoordinator(current, c.(name := None), now);
    } else {
      NewCoordinatorIsValid(newId, current.canonicalCwd, timestamp);
      WithCoordinator(current, Base(newId, current.canonicalCwd, None, Pending, timestamp, timestamp), now);
    }
  }

  lemma CoordinatorOfValid(m: Manifest)
    requires Valid(m) && m.coordinator.Some?
    ensures ValidCoordinator(m.coordinator.value, m.canonicalCwd) && m.coordinator.value.lastOpenedAt <= m.updatedAt
    ensures !HasId(m.sessions, m.coordinator.value.sessionId)
  {
  }

  // ---- All commands ------------------------------------------------------------------------------

  datatype Command =
    | DoStart(id: string, observed: Persistence, name: Option<string>)
    | DoAdopt(id: string, file: string, name: Option<string>)
    | DoClose(id: string, persistence: Persistence, source: CloseSource)
    | DoRename(id: string, newName: string)
    | DoRefresh(id: string, file: string)
    | DoEnsureCoordinator(newId: string)

  function Apply(m: Manifest, command: Command, timestamp: Time): Result<Manifest, DomainError> {
    match command
    case DoStart(id, observed, name) => Start(m, id, observed, name, timestamp)
    case DoAdopt(id, file, name) => Adopt(m, id, file, name, timestamp)
    case DoClose(id, persistence, source) => Close(m, id, persistence, timestamp, source)
    case DoRename(id, newName) => Rename(m, id, newName)
    case DoRefresh(id, file) => RefreshMaterialization(m, id, file)
    case DoEnsureCoordinator(newId) => Ok(EnsureCoordinator(m, newId, timestamp))
  }

  /** What a caller brings along is legal, and a new coordinator's id is its own. */
  ghost predicate LegalCommand(m: Manifest, command: Command) {
    match command
    case DoStart(id, observed, name) => ValidId(id) && ValidFile(observed) && ValidRequest(Requested(name))
    case DoAdopt(id, file, name) => ValidId(id) && ValidPath(file) && ValidRequest(Requested(name))
    case DoClose(id, persistence, source) => ValidFile(persistence)
    case DoRename(id, newName) => ValidName(newName)
    case DoRefresh(id, file) => ValidPath(file)
    case DoEnsureCoordinator(newId) => ValidId(newId) && !HasId(m.sessions, newId)
  }

  lemma CreatedBeforeUpdate(m: Manifest, id: string)
    requires Valid(m) && FindRecord(m, id).FoundWork?
    ensures var w := FindRecord(m, id).work;
            w.base.createdAt <= m.updatedAt && w.base.lastOpenedAt <= m.updatedAt
  {
    hide Valid, FindRecord, ValidId, ValidName, ValidPath, ValidReference, LegalTime;
    FoundInValid(m, id);
  }

  lemma NewIdStaysNew(m: Manifest, now: Time, id: string)
    requires !HasId(m.sessions, id)
    ensures !HasId(GcTombstones(m, now).sessions, id)
  {
    hide Kept;
    IdsAreMembers(m.sessions, id);
    IdsAreMembers(GcTombstones(m, now).sessions, id);
  }

  /**
   Every command maps a valid manifest to one that the catalog accepts, as long as the clock does not go back. The
   manifest of a workspace without one is made after the timestamp was taken, and holds no session.
   */
  lemma CommandsKeepValid(m: Manifest, command: Command, timestamp: Time, now: Time)
    requires Updatable(m, now) && timestamp <= now && LegalTime(timestamp)
    requires m.updatedAt <= timestamp || m.sessions == []
    requires LegalCommand(m, command) && Apply(m, command, timestamp).Ok?
    ensures Valid(Stamp(Apply(m, command, timestamp).value, m, now))
  {
    hide Valid, Start, Adopt, Close, Rename, RefreshMaterialization, EnsureCoordinator, FindRecord, Stamp, LegalTime;
    hide ValidId, ValidName, ValidPath, Requested, HasId, Stampable;
    if !command.DoEnsureCoordinator? {
      FoundInValid(m, command.id);
    }
    match command
    case DoStart(id, observed, name) =>
      StartIsAccepted(m, id, observed, name, timestamp, now);
      if FindRecord(m, id).FoundWork? {
        CreatedBeforeUpdate(m, id);
      }
    case DoAdopt(id, file, name) =>
      AdoptIsAccepted(m, id, file, name, timestamp, now);
      if FindRecord(m, id).FoundWork? {
        CreatedBeforeUpdate(m, id);
      }
    case DoClose(id, persistence, source) =>
      CloseIsAccepted(m, id, persistence, timestamp, source, now);
      CreatedBeforeUpdate(m, id);
    case DoRename(id, newName) => RenameIsAccepted(m, id, newName, now);
    case DoRefresh(id, file) => RefreshIsAccepted(m, id, file, now);
    case DoEnsureCoordinator(newId) =>
      EnsureCoordinatorIsAccepted(m, newId, timestamp, now);
      NewIdStaysNew(m, timestamp, newId);
  }

  /** A command on a session touches the record of that session only. */
  lemma CommandsTouchOneRecord(m: Manifest, command: Command, timestamp: Time, other: string)
    requires Valid(m) && !command.DoEnsureCoordinator? && other != command.id && Apply(m, command, timestamp).Ok?
    ensures FindRecord(Apply(m, command, timestamp).value, other) == FindRecord(m, other)
  {
    hide Valid, FindRecord, ReplaceWorkRecord, CoordinatorIds, Requested;
    DistinctInValid(m);
    FoundInValid(m, command.id);
    match command
    case DoStart(id, observed, name) =>
      var found := FindOpenWorkRecord(m, id).value;
      FindReplaced(m, StartedRecord(found, id, m.canonicalCwd, observed, Requested(name), timestamp), other);
    case DoAdopt(id, file, name) =>
      var found := FindOpenWorkRecord(m, id).value;
      FindReplaced(m, AdoptedRecord(found, id, m.canonicalCwd, file, Requested(name), timestamp), other);
    case DoClose(id, persistence, source) =>
      var w := FindRecord(m, id).work;
      FindReplaced(m, ClosedRecord(w, persistence, timestamp, source), other);
    case DoRename(id, newName) =>
      var w := FindRecord(m, id).work;
      FindReplaced(m, w.(base := w.base.(name := Some(newName)), explicitName := true), other);
    case DoRefresh(id, file) =>
      var w := FindRecord(m, id).work;
      FindReplaced(m, w.(base := w.base.(persistence := Materialized(file))), other);
  }

  /** What a command may do to the record of its session: not its origin, and its history only in its own way. */
  ghost predicate Follows(before: Work, after: Work, command: Command, timestamp: Time) {
    var b, a := before.base, after.base;
    && a.sessionId == b.sessionId && a.cwd == b.cwd && a.createdAt == b.createdAt && after.taskRef == before.taskRef
    && match command
       case DoStart(_, observed, name) =>
         && after.state.Open? && a.lastOpenedAt == timestamp
         && (observed.Materialized? ==> a.persistence == observed)
         && (observed.Pending? ==> a.persistence == b.persistence)
         && (before.explicitName ==> after.explicitName && a.name == b.name)
         && (!before.explicitName ==> a.name == Requested(name))
         && (after.explicitName <==> before.explicitName || Requested(name).Some?)
       case DoAdopt(_, file, name) =>
         && after.state.Open? && a.lastOpenedAt == timestamp && a.persistence == Materialized(file)
         && (Requested(name).Some? ==> a.name == Requested(name))
         && (Requested(name).None? && before.explicitName ==> a.name == b.name)
         && (after.explicitName <==> before.explicitName || Requested(name).Some?)
         && (!after.explicitName ==> a.name.None?)
       case DoClose(_, persistence, source) =>
         if before.state.Closed? then
           after == before
         else
           && after.state == Closed(timestamp, source)
           && a.lastOpenedAt == b.lastOpenedAt && a.persistence == persistence
           && a.name == b.name && after.explicitName == before.explicitName
       case DoRename(_, newName) =>
         && after.state == before.state && a.lastOpenedAt == b.lastOpenedAt && a.persistence == b.persistence
         && a.name == Some(newName) && after.explicitName
       case DoRefresh(_, file) =>
         && after.state == before.state && a.lastOpenedAt == b.lastOpenedAt && a.persistence == Materialized(file)
         && a.name == b.name && after.explicitName == before.explicitName
       case DoEnsureCoordinator(_) => false
  }

  /** A session that has no record gets one by starting or adopting it, with what the command brings along. */
  ghost predicate Begins(m: Manifest, after: Work, command: Command, timestamp: Time) {
    var a := after.base;
    && (command.DoStart? || command.DoAdopt?)
    && a.sessionId == command.id && a.cwd == m.canonicalCwd && a.createdAt == a.lastOpenedAt == timestamp
    && after.taskRef == None && after.state.Open? && (after.explicitName <==> a.name.Some?)
    && match command
       case DoStart(_, observed, name) => a.persistence == observed && a.name == Requested(name)
       case DoAdopt(_, file, name) => a.persistence == Materialized(file) && a.name == Requested(name)
       case _ => false
  }

  /** The record of a session follows from the one it had before; only starting and adopting make a new one. */
  lemma CommandsOwnRecord(m: Manifest, command: Command, timestamp: Time)
    requires Valid(m) && !command.DoEnsureCoordinator? && Apply(m, command, timestamp).Ok?
    ensures var before, after := FindRecord(m, command.id), FindRecord(Apply(m, command, timestamp).value, command.id);
            && after.FoundWork?
            && (before.FoundWork? ==> Follows(before.work, after.work, command, timestamp))
            && (before.NoRecord? ==> Begins(m, after.work, command, timestamp)) && !before.FoundCoordinator?
  {
    hide Valid, FindRecord, ReplaceWorkRecord, CoordinatorIds, Requested, ValidWork;
    DistinctInValid(m);
    FoundInValid(m, command.id);
    if FindRecord(m, command.id).FoundWork? {
      CwdOfFound(m, command.id);
    }
    match command
    case DoStart(id, observed, name) =>
      var found := FindOpenWorkRecord(m, id).value;
      FindReplaced(m, StartedRecord(found, id, m.canonicalCwd, observed, Requested(name), timestamp), id);
    case DoAdopt(id, file, name) =>
      var found := FindOpenWorkRecord(m, id).value;
      FindReplaced(m, AdoptedRecord(found, id, m.canonicalCwd, file, Requested(name), timestamp), id);
    case DoClose(id, persistence, source) =>
      var w := FindRecord(m, id).work;
      FindReplaced(m, ClosedRecord(w, persistence, timestamp, source), id);
    case DoRename(id, newName) =>
      var w := FindRecord(m, id).work;
      FindReplaced(m, w.(base := w.base.(name := Some(newName)), explicitName := true), id);
    case DoRefresh(id, file) =>
      var w := FindRecord(m, id).work;
      FindReplaced(m, w.(base := w.base.(persistence := Materialized(file))), id);
  }

  lemma CwdOfFound(m: Manifest, id: string)
    requires Valid(m) && FindRecord(m, id).FoundWork?
    ensures FindRecord(m, id).work.base.cwd == m.canonicalCwd
  {
    hide Valid, FindRecord, ValidId, ValidName, ValidPath, ValidReference, LegalTime;
    FoundInValid(m, id);
  }

  lemma DistinctInValid(m: Manifest)
    requires Valid(m)
    ensures DistinctIds(m.sessions)
  {
  }

  predicate IsOpen(f: Found) {
    f.FoundWork? && f.work.state.Open?
  }

  predicate IsClosed(f: Found) {
    f.FoundWork? && f.work.state.Closed?
  }

  predicate NotToBeOpened(f: Found, e: DomainError) {
    (e == IdentityConflict && f.FoundCoordinator?) || (e == AlreadyClosed && IsClosed(f))
  }

  /** Why a command is refused. */
  predicate RefusedFor(m: Manifest, command: Command, e: DomainError) {
    match command
    case DoStart(id, _, _) => NotToBeOpened(FindRecord(m, id), e)
    case DoAdopt(id, _, _) => NotToBeOpened(FindRecord(m, id), e)
    case DoClose(id, _, _) => e == NotManaged && !FindRecord(m, id).FoundWork?
    case DoRename(id, _) => e == NotManaged && !IsOpen(FindRecord(m, id))
    case DoRefresh(id, _) => e == NotManaged && !IsOpen(FindRecord(m, id))
    case DoEnsureCoordinator(_) => false
  }

  lemma RefusedExactly(m: Manifest, command: Command, timestamp: Time, e: DomainError)
    ensures Apply(m, command, timestamp) == Err(e) <==> RefusedFor(m, command, e)
  {
    hide FindRecord, ReplaceWorkRecord, EnsureCoordinator;
  }

  // ---- What a command makes of a manifest --------------------------------------------------------

  /** The coordinator that a command keeps, without its name, or makes. */
  function Coordinator(m: Manifest, newId: string, timestamp: Time): Base {
    if m.coordinator.Some? then m.coordinator.value.(name := None)
    else Base(newId, m.canonicalCwd, None, Pending, timestamp, timestamp)
  }

  /** Old tombstones are gone; every other session is found as it was. */
  ghost predicate Collected(m: Manifest, after: Manifest, timestamp: Time, coordinatorId: string) {
    forall id | id != coordinatorId ::
      FindRecord(after, id) ==
        var f := FindRecord(m, id);
        if f.FoundWork? && !Kept(f.work, timestamp - TOMBSTONE_AGE) then NoRecord else f
  }

  ghost predicate OnlyOwn(m: Manifest, after: Manifest, id: string) {
    after.coordinator == m.coordinator && forall other | other != id :: FindRecord(after, other) == FindRecord(m, other)
  }

  /** What a command makes of the records, said on what is found for each id. */
  ghost predicate Carries(m: Manifest, command: Command, timestamp: Time, after: Manifest) {
    match command
    case DoEnsureCoordinator(newId) =>
      var c := Coordinator(m, newId, timestamp);
      after.coordinator == Some(c) && Collected(m, after, timestamp, c.sessionId)
    case _ =>
      var was, is' := FindRecord(m, command.id), FindRecord(after, command.id);
      && is'.FoundWork? && OnlyOwn(m, after, command.id)
      && match was
         case FoundWork(w) => Follows(w, is'.work, command, timestamp)
         case NoRecord => Begins(m, is'.work, command, timestamp)
         case FoundCoordinator(_) => false
  }

  lemma {:induction false} FindKept(s: seq<Work>, id: string, cutoff: Time)
    requires DistinctIds(s)
    ensures FindWork(KeptSessions(s, cutoff), id) ==
      if FindWork(s, id).Some? && Kept(FindWork(s, id).value, cutoff) then FindWork(s, id) else None
  {
    hide Kept;
    if s == [] {
    } else {
      FindKept(s[1..], id, cutoff);
      KeptStep(s, cutoff);
      var rest := KeptSessions(s[1..], cutoff);
      assert ([s[0]] + rest)[1..] == rest && [] + rest == rest;
      if s[0].base.sessionId == id {
        NotFoundLater(s, id);
      }
    }
  }

  lemma KeptStep(s: seq<Work>, cutoff: Time)
    requires s != []
    ensures KeptSessions(s, cutoff) == (if Kept(s[0], cutoff) then [s[0]] else []) + KeptSessions(s[1..], cutoff)
  {
  }

  lemma NotFoundLater(s: seq<Work>, id: string)
    requires DistinctIds(s) && s != [] && s[0].base.sessionId == id
    ensures FindWork(s[1..], id) == None
  {
    hide FindWork;
    forall i | 0 <= i < |s[1..]| ensures s[1..][i].base.sessionId != id {
      assert s[1..][i] == s[i + 1];
    }
  }

  lemma CoordinatorIsEnsured(m: Manifest, newId: string, timestamp: Time)
    requires Valid(m)
    ensures Carries(m, DoEnsureCoordinator(newId), timestamp, EnsureCoordinator(m, newId, timestamp))
  {
    hide Valid, FindWork, KeptSessions, Kept, Follows, Begins;
    DistinctInValid(m);
    var c, after := Coordinator(m, newId, timestamp), EnsureCoordinator(m, newId, timestamp);
    forall id | id != c.sessionId
      ensures FindRecord(after, id) ==
        var f := FindRecord(m, id);
        if f.FoundWork? && !Kept(f.work, timestamp - TOMBSTONE_AGE) then NoRecord else f
    {
      FindKept(m.sessions, id, timestamp - TOMBSTONE_AGE);
    }
  }

  /** Every command that is not refused carries out what it says. */
  lemma CommandsCarry(m: Manifest, command: Command, timestamp: Time)
    requires Valid(m) && Apply(m, command, timestamp).Ok?
    ensures Carries(m, command, timestamp, Apply(m, command, timestamp).value)
  {
    hide Valid, FindRecord, ReplaceWorkRecord, Follows, Begins, Collected, EnsureCoordinator;
    if command.DoEnsureCoordinator? {
      CoordinatorIsEnsured(m, command.newId, timestamp);
    } else {
      CommandsOwnRecord(m, command, timestamp);
      forall other | other != command.id
        ensures FindRecord(Apply(m, command, timestamp).value, other) == FindRecord(m, other)
      {
        CommandsTouchOneRecord(m, command, timestamp, other);
      }
      CommandsKeepCoordinator(m, command, timestamp);
    }
  }

  lemma CommandsKeepCoordinator(m: Manifest, command: Command, timestamp: Time)
    requires !command.DoEnsureCoordinator? && Apply(m, command, timestamp).Ok?
    ensures Apply(m, command, timestamp).value.coordinator == m.coordinator
  {
    hide FindRecord, Replaced;
  }

  /** Only the coordinator and the sessions matter to what is found. */
  lemma SameRecordsCarry(m: Manifest, command: Command, timestamp: Time, a: Manifest, b: Manifest)
    requires Carries(m, command, timestamp, a) && a.coordinator == b.coordinator && a.sessions == b.sessions
    ensures Carries(m, command, timestamp, b)
  {
    hide FindWork, Follows, Begins, Kept;
    forall id ensures FindRecord(a, id) == FindRecord(b, id) {
    }
  }
}
