/**
 The session catalog of a workspace: what makes a manifest valid, the check that decides it, and looking up and
 replacing a record.
 */
module SessionManifest {
  import opened Wrappers
  import opened Sorting
  import opened TextLines

  // ---- Data --------------------------------------------------------------------------------------

  /** Milliseconds; a value outside the legal range stands for a string that is no timestamp. */
  type Time = int

  datatype Persistence = Pending | Materialized(sessionFile: string)
  datatype CloseSource = CtrlD | SessionDone
  datatype State = Open | Closed(closedAt: Time, closedBy: CloseSource)

  /** What every record has. A coordinator's record has nothing else. */
  datatype Base = Base(
    sessionId: string, cwd: string, name: Option<string>, persistence: Persistence, createdAt: Time, lastOpenedAt: Time)

  datatype Work = Work(base: Base, taskRef: Option<string>, explicitName: bool, state: State)

  datatype Manifest = Manifest(
    canonicalCwd: string, revision: int, updatedAt: Time, coordinator: Option<Base>, sessions: seq<Work>)

  // ---- The rules for single values ---------------------------------------------------------------

  const MAX_SAFE_INTEGER := 0x1F_FFFF_FFFF_FFFF
  const FIRST_TIME: Time := -62167219200000
  const LAST_TIME: Time := 253402300799999

  predicate LegalTime(t: Time) {
    FIRST_TIME <= t <= LAST_TIME
  }

  function Utf8Length(s: string): nat {
    if s == "" then
      0
    else
      var c := s[0] as int;
      (if c < 0x80 then 1 else if c < 0x800 then 2 else if c < 0x10000 then 3 else 4) + Utf8Length(s[1..])
  }

  /** The control and the format characters. */
  predicate IsControlOrFormat(c: char) {
    var u := c as int;
    || u < 0x20 || 0x7F <= u <= 0x9F || u == 0xAD || 0x600 <= u <= 0x605 || u == 0x61C || u == 0x6DD || u == 0x70F
    || 0x890 <= u <= 0x891 || u == 0x8E2 || u == 0x180E || 0x200B <= u <= 0x200F || 0x202A <= u <= 0x202E
    || 0x2060 <= u <= 0x2064 || 0x2066 <= u <= 0x206F || u == 0xFEFF || 0xFFF9 <= u <= 0xFFFB || u == 0x110BD
    || u == 0x110CD || 0x13430 <= u <= 0x1343F || 0x1BCA0 <= u <= 0x1BCA3 || 0x1D173 <= u <= 0x1D17A || u == 0xE0001
    || 0xE0020 <= u <= 0xE007F
  }

  predicate ValidPath(path: string) {
    path != "" && path[0] == '/' && '\0' !in path
  }

  predicate ValidId(id: string) {
    1 <= Utf8Length(id) <= 256 && '\0' !in id && '\r' !in id && '\n' !in id
  }

  predicate ValidName(name: string) {
    Trim(name) != "" && Utf8Length(name) <= 128 && forall i | 0 <= i < |name| :: !IsControlOrFormat(name[i])
  }

  predicate ValidReference(reference: string) {
    1 <= Utf8Length(reference) <= 2048
  }

  // ---- The order of the records ------------------------------------------------------------------

  predicate LexLe(a: string, b: string) {
    a == "" || (b != "" && (a[0] < b[0] || (a[0] == b[0] && LexLe(a[1..], b[1..]))))
  }

  lemma LexLeTotal(a: string, b: string)
    ensures LexLe(a, b) || LexLe(b, a)
  {
  }

  lemma {:induction false} LexLeTransitive(a: string, b: string, c: string)
    requires LexLe(a, b) && LexLe(b, c)
    ensures LexLe(a, c)
  {
    if a != "" && a[0] == b[0] == c[0] {
      LexLeTransitive(a[1..], b[1..], c[1..]);
    }
  }

  /** By creation, and by session id among those created at the same time. */
  predicate RecordLe(a: Work, b: Work) {
    || a.base.createdAt < b.base.createdAt
    || (a.base.createdAt == b.base.createdAt && LexLe(a.base.sessionId, b.base.sessionId))
  }

  lemma RecordLeIsAnOrder()
    ensures TotalPreorder(RecordLe)
  {
    forall a, b ensures RecordLe(a, b) || RecordLe(b, a) {
      LexLeTotal(a.base.sessionId, b.base.sessionId);
    }
    forall a, b, c | RecordLe(a, b) && RecordLe(b, c) ensures RecordLe(a, c) {
      RecordLeTransitive(a, b, c);
    }
  }

  lemma RecordLeTransitive(a: Work, b: Work, c: Work)
    requires RecordLe(a, b) && RecordLe(b, c)
    ensures RecordLe(a, c)
  {
    if a.base.createdAt == b.base.createdAt == c.base.createdAt {
      LexLeTransitive(a.base.sessionId, b.base.sessionId, c.base.sessionId);
    }
  }

  // ---- Validity ----------------------------------------------------------------------------------

  predicate ValidFields(b: Base, hasName: bool, cwd: string) {
    && ValidId(b.sessionId) && b.cwd == cwd
    && (b.name.Some? || !hasName) && (b.name.Some? ==> ValidName(b.name.value))
    && LegalTime(b.createdAt) && LegalTime(b.lastOpenedAt) && b.createdAt <= b.lastOpenedAt
  }

  predicate ValidFile(p: Persistence) {
    p.Materialized? ==> ValidPath(p.sessionFile)
  }

  predicate ValidClosure(w: Work) {
    w.state.Closed? ==>
      LegalTime(w.state.closedAt) && w.base.createdAt <= w.state.closedAt && w.base.lastOpenedAt <= w.state.closedAt
  }

  predicate ValidCoordinator(c: Base, cwd: string) {
    ValidFields(c, false, cwd) && ValidFile(c.persistence)
  }

  predicate ValidWork(w: Work, cwd: string) {
    && ValidFields(w.base, w.explicitName, cwd) && ValidFile(w.base.persistence)
    && (w.taskRef.Some? ==> ValidReference(w.taskRef.value)) && ValidClosure(w)
  }

  /** The last time a record speaks of. */
  function Latest(w: Work): Time {
    if w.state.Closed? then w.state.closedAt else w.base.lastOpenedAt
  }

  predicate DistinctIds(sessions: seq<Work>) {
    forall i, j | 0 <= i < j < |sessions| :: sessions[i].base.sessionId != sessions[j].base.sessionId
  }

  predicate HasId(sessions: seq<Work>, id: string) {
    exists i | 0 <= i < |sessions| :: sessions[i].base.sessionId == id
  }

  predicate ValidMetadata(m: Manifest) {
    ValidPath(m.canonicalCwd) && 0 <= m.revision <= MAX_SAFE_INTEGER && LegalTime(m.updatedAt)
  }

  predicate ValidSessions(sessions: seq<Work>, cwd: string, updatedAt: Time) {
    && (forall i | 0 <= i < |sessions| :: ValidWork(sessions[i], cwd) && Latest(sessions[i]) <= updatedAt)
    && DistinctIds(sessions)
    && SortedBy(sessions, RecordLe)
  }

  predicate ValidHead(m: Manifest) {
    m.coordinator.Some? ==>
      && ValidCoordinator(m.coordinator.value, m.canonicalCwd)
      && m.coordinator.value.lastOpenedAt <= m.updatedAt
      && !HasId(m.sessions, m.coordinator.value.sessionId)
  }

  /** What a manifest promises: legal records, one id for each of them, in order, none newer than the manifest. */
  predicate Valid(m: Manifest) {
    ValidMetadata(m) && ValidHead(m) && ValidSessions(m.sessions, m.canonicalCwd, m.updatedAt)
  }

  // ---- The check ---------------------------------------------------------------------------------

  datatype Reason = BadMetadata | BadFields | BadFile | BadReference | BadClosure | DuplicateId | OutOfOrder | Newer

  /** What is wrong with a manifest that is refused for a reason. */
  ghost predicate Wrong(m: Manifest, reason: Reason) {
    var s, cwd := m.sessions, m.canonicalCwd;
    match reason
    case BadMetadata => !ValidMetadata(m)
    case BadFields =>
      || (m.coordinator.Some? && !ValidFields(m.coordinator.value, false, cwd))
      || exists i | 0 <= i < |s| :: !ValidFields(s[i].base, s[i].explicitName, cwd)
    case BadFile =>
      || (m.coordinator.Some? && !ValidFile(m.coordinator.value.persistence))
      || exists i | 0 <= i < |s| :: !ValidFile(s[i].base.persistence)
    case BadReference => exists i | 0 <= i < |s| :: s[i].taskRef.Some? && !ValidReference(s[i].taskRef.value)
    case BadClosure => exists i | 0 <= i < |s| :: !ValidClosure(s[i])
    case DuplicateId => !DistinctIds(s) || (m.coordinator.Some? && HasId(s, m.coordinator.value.sessionId))
    case OutOfOrder => !SortedBy(s, RecordLe)
    case Newer =>
      || (m.coordinator.Some? && m.coordinator.value.lastOpenedAt > m.updatedAt)
      || exists i | 0 <= i < |s| :: Latest(s[i]) > m.updatedAt
  }

  /** The checks on one record by itself. */
  method ValidateRecord(b: Base, hasName: bool, taskRef: Option<string>, state: State, cwd: string)
    returns (failure: Option<Reason>)
    ensures failure.None? <==> ValidWork(Work(b, taskRef, hasName, state), cwd)
    ensures failure == Some(BadFields) ==> !ValidFields(b, hasName, cwd)
    ensures failure == Some(BadFile) ==> !ValidFile(b.persistence)
    ensures failure == Some(BadReference) ==> taskRef.Some? && !ValidReference(taskRef.value)
    ensures failure == Some(BadClosure) ==> !ValidClosure(Work(b, taskRef, hasName, state))
    ensures failure.Some? ==> failure.value in {BadFields, BadFile, BadReference, BadClosure}
  {
    hide LegalTime, ValidId, ValidName, ValidPath, ValidReference;
    var validName := if b.name.None? then !hasName else ValidName(b.name.value);
    var validTimes := LegalTime(b.createdAt) && LegalTime(b.lastOpenedAt) && b.createdAt <= b.lastOpenedAt;
    if !ValidId(b.sessionId) || b.cwd != cwd || !validName || !validTimes {
      return Some(BadFields);
    }
    if b.persistence.Materialized? && !ValidPath(b.persistence.sessionFile) {
      return Some(BadFile);
    }
    if taskRef.Some? && !ValidReference(taskRef.value) {
      return Some(BadReference);
    }
    if state.Closed? &&
        (!LegalTime(state.closedAt) || state.closedAt < b.createdAt || state.closedAt < b.lastOpenedAt) {
      return Some(BadClosure);
    }
    return None;
  }

  lemma WrongIsInvalid(m: Manifest, reason: Reason)
    requires Wrong(m, reason)
    ensures !Valid(m)
  {
    hide ValidFields, ValidFile, ValidClosure, ValidReference, RecordLe, ValidPath, LegalTime;
  }

  function Ids(s: seq<Work>): (ids: set<string>)
    ensures forall id :: id in ids <==> HasId(s, id)
  {
    set i | 0 <= i < |s| :: s[i].base.sessionId
  }

  function CoordinatorIds(m: Manifest): set<string> {
    if m.coordinator.Some? then {m.coordinator.value.sessionId} else {}
  }

  /** The first `k` records are in order. */
  ghost predicate ValidUpTo(m: Manifest, k: nat)
    requires k <= |m.sessions|
  {
    ValidSessions(m.sessions[..k], m.canonicalCwd, m.updatedAt) && CoordinatorIds(m) !! Ids(m.sessions[..k])
  }

  lemma OneMoreId(s: seq<Work>, k: nat)
    requires k < |s|
    ensures Ids(s[..k + 1]) == Ids(s[..k]) + {s[k].base.sessionId}
  {
    assert s[..k + 1] == s[..k] + [s[k]];
    forall id | HasId(s[..k], id) ensures HasId(s[..k + 1], id) {
      var i :| 0 <= i < k && s[..k][i].base.sessionId == id;
      assert s[..k + 1][i].base.sessionId == id;
    }
    assert s[..k + 1][k].base.sessionId == s[k].base.sessionId;
  }

  lemma OneMoreRecord(s: seq<Work>, k: nat, cwd: string, updatedAt: Time)
    requires k < |s| && ValidSessions(s[..k], cwd, updatedAt)
    requires ValidWork(s[k], cwd) && Latest(s[k]) <= updatedAt
    requires s[k].base.sessionId !in Ids(s[..k])
    requires k > 0 ==> RecordLe(s[k - 1], s[k])
    ensures ValidSessions(s[..k + 1], cwd, updatedAt)
  {
    hide ValidWork, RecordLe;
    var t := s[..k + 1];
    assert forall i | 0 <= i < k :: t[i] == s[..k][i];
    forall i | 0 <= i < k ensures t[i].base.sessionId != t[k].base.sessionId && RecordLe(t[i], t[k]) {
      assert HasId(s[..k], s[..k][i].base.sessionId);
      if i < k - 1 {
        assert RecordLe(s[..k][i], s[..k][k - 1]);
        RecordLeTransitive(s[i], s[k - 1], s[k]);
      }
    }
  }

  lemma NothingYet(m: Manifest)
    ensures ValidUpTo(m, 0) && Ids(m.sessions[..0]) == {}
  {
  }

  lemma AllOfThem(m: Manifest)
    requires ValidMetadata(m) && ValidUpTo(m, |m.sessions|)
    requires m.coordinator.Some? ==>
      ValidCoordinator(m.coordinator.value, m.canonicalCwd) && m.coordinator.value.lastOpenedAt <= m.updatedAt
    ensures Valid(m)
  {
    hide ValidMetadata, ValidCoordinator, ValidSessions;
    assert m.sessions[..|m.sessions|] == m.sessions;
  }

  lemma IsDuplicate(m: Manifest, k: nat)
    requires k < |m.sessions| && m.sessions[k].base.sessionId in CoordinatorIds(m) + Ids(m.sessions[..k])
    ensures Wrong(m, DuplicateId)
  {
    var s := m.sessions;
    if s[k].base.sessionId in Ids(s[..k]) {
      var i :| 0 <= i < k && s[..k][i].base.sessionId == s[k].base.sessionId;
      assert s[i].base.sessionId == s[k].base.sessionId;
    } else {
      assert HasId(s, m.coordinator.value.sessionId);
    }
  }

  lemma IsOutOfOrder(m: Manifest, k: nat)
    requires 0 < k < |m.sessions| && !RecordLe(m.sessions[k - 1], m.sessions[k])
    ensures Wrong(m, OutOfOrder)
  {
    hide RecordLe;
  }

  lemma OneMore(m: Manifest, k: nat)
    requires k < |m.sessions| && ValidUpTo(m, k)
    requires ValidWork(m.sessions[k], m.canonicalCwd) && Latest(m.sessions[k]) <= m.updatedAt
    requires m.sessions[k].base.sessionId !in CoordinatorIds(m) + Ids(m.sessions[..k])
    requires k > 0 ==> RecordLe(m.sessions[k - 1], m.sessions[k])
    ensures ValidUpTo(m, k + 1)
  {
    hide ValidWork, RecordLe, ValidSessions, CoordinatorIds, Ids;
    OneMoreId(m.sessions, k);
    OneMoreRecord(m.sessions, k, m.canonicalCwd, m.updatedAt);
  }

  lemma CoordinatorAsWork(c: Base, cwd: string)
    ensures ValidWork(Work(c, None, false, Open), cwd) <==> ValidCoordinator(c, cwd)
    ensures ValidClosure(Work(c, None, false, Open))
  {
    hide ValidFields, ValidFile;
  }

  lemma IsWrongRecord(m: Manifest, k: nat, reason: Reason)
    requires k < |m.sessions|
    requires var w := m.sessions[k];
             match reason
             case BadFields => !ValidFields(w.base, w.explicitName, m.canonicalCwd)
             case BadFile => !ValidFile(w.base.persistence)
             case BadReference => w.taskRef.Some? && !ValidReference(w.taskRef.value)
             case BadClosure => !ValidClosure(w)
             case Newer => m.updatedAt < Latest(w)
             case _ => false
    ensures Wrong(m, reason)
  {
    hide ValidFields, ValidFile, ValidReference, ValidClosure, Latest;
  }

  /** The check accepts exactly the valid manifests, though it compares each record with the one before it only. */
  method ValidateManifest(m: Manifest) returns (failure: Option<Reason>)
    ensures failure.None? <==> Valid(m)
    ensures failure.Some? ==> Wrong(m, failure.value)
  {
    hide ValidMetadata, ValidCoordinator, ValidWork, ValidFields, ValidFile, ValidClosure, ValidReference, RecordLe;
    hide Valid, ValidUpTo, Ids, CoordinatorIds, Latest, HasId, DistinctIds;
    if !ValidMetadata(m) {
      WrongIsInvalid(m, BadMetadata);
      return Some(BadMetadata);
    }
    var ids := CoordinatorIds(m);
    if m.coordinator.Some? {
      var c := m.coordinator.value;
      CoordinatorAsWork(c, m.canonicalCwd);
      failure := ValidateRecord(c, false, None, Open, m.canonicalCwd);
      if failure.Some? {
        WrongIsInvalid(m, failure.value);
        return failure;
      }
      if m.updatedAt < c.lastOpenedAt {
        WrongIsInvalid(m, Newer);
        return Some(Newer);
      }
    }
    var previous: Option<Work> := None;
    NothingYet(m);
    for k := 0 to |m.sessions|
      invariant ValidUpTo(m, k) && ids == CoordinatorIds(m) + Ids(m.sessions[..k])
      invariant previous == if k == 0 then None else Some(m.sessions[k - 1])
    {
      var record := m.sessions[k];
      assert record == Work(record.base, record.taskRef, record.explicitName, record.state);
      failure := ValidateRecord(record.base, record.explicitName, record.taskRef, record.state, m.canonicalCwd);
      if failure.Some? {
        IsWrongRecord(m, k, failure.value);
        WrongIsInvalid(m, failure.value);
        return failure;
      }
      if record.base.sessionId in ids {
        IsDuplicate(m, k);
        WrongIsInvalid(m, DuplicateId);
        return Some(DuplicateId);
      }
      if previous.Some? && !RecordLe(previous.value, record) {
        IsOutOfOrder(m, k);
        WrongIsInvalid(m, OutOfOrder);
        return Some(OutOfOrder);
      }
      if m.updatedAt < Latest(record) {
        IsWrongRecord(m, k, Newer);
        WrongIsInvalid(m, Newer);
        return Some(Newer);
      }
      OneMore(m, k);
      OneMoreId(m.sessions, k);
      ids := ids + {record.base.sessionId};
      previous := Some(record);
    }
    AllOfThem(m);
    return None;
  }
}
