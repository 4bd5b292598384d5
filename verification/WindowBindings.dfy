/**
 Which session a terminal window belongs to: a tag on the window, and the process that owns it. Operations run one at a
 time under a lock, but each is a series of commands to the terminal server, every one of which may fail, with or
 without having taken effect. Between any two commands owners may die, windows may close and new ones may open.
 */
module WindowBindings {
  import opened Wrappers

  type WindowId = nat
  type SessionId = string
  type Pid = nat

  /** A window of a session of the terminal server, with its two options. */
  datatype Window = Window(group: nat, tag: Option<SessionId>, owner: Option<Pid>)

  datatype Restored = Existing(window: WindowId) | Created(window: WindowId)

  datatype HostError = HostFailure | BindingConflict(existing: Option<SessionId>) | DuplicateBinding | OrphanWindow

  /** The windows at one moment, and who is dead by then. */
  datatype Moment = Moment(windows: map<WindowId, Window>, dead: set<Pid>)

  /**
   What a command has done to the options of a window, at which moment of the history, for which process, and at which
   moment that process's operation began.
   */
  datatype Alteration = Altered(
    window: WindowId, before: Window, after: Window, dead: set<Pid>, at: nat, pid: Pid, began: nat)

  /** The process that an operation runs for, and the moment at which the operation began. */
  datatype Actor = Actor(pid: Pid, began: nat)

  datatype Snapshot = Snapshot(
    windows: map<WindowId, Window>, used: set<WindowId>, dead: set<Pid>, history: seq<Moment>, changes: seq<Alteration>)

  /** What a look at the windows has found: the caller's own, and the tags of all windows of its group. */
  datatype CurrentWindow = CurrentWindow(
    group: nat, windowId: WindowId, bound: Option<SessionId>, bindings: map<WindowId, SessionId>)

  // ---- What must hold of the windows -------------------------------------------------------------

  /** In every group a session id tags at most one window. */
  ghost predicate Unique(ws: map<WindowId, Window>) {
    forall v, w | v in ws && w in ws && ws[v].group == ws[w].group && ws[v].tag.Some? && ws[v].tag == ws[w].tag ::
      v == w
  }

  /** Apart from the given windows, nothing has changed but that windows have closed and new ones have opened. */
  ghost predicate Evolves(
    before: map<WindowId, Window>, used: set<WindowId>, after: map<WindowId, Window>, except: set<WindowId>)
  {
    forall w | w in after && w !in except ::
      || (w in before && after[w] == before[w])
      || (w !in used && after[w].tag.None? && after[w].owner.None?)
  }

  /** The windows that another process can be told to own. */
  predicate OwnedByOther(w: Window, pid: Pid, dead: set<Pid>) {
    w.owner.Some? && w.owner.value != pid && w.owner.value !in dead
  }

  /** A window whose binding is another live process's own. */
  predicate Protected(w: Window, pid: Pid, dead: set<Pid>) {
    w.tag.Some? && OwnedByOther(w, pid, dead)
  }

  /** A window without a tag that still names another live process as its owner. */
  predicate Leftover(w: Window, pid: Pid, dead: set<Pid>) {
    w.tag.None? && OwnedByOther(w, pid, dead)
  }

  /** The change passes over a binding that is another live process's own at that moment. */
  predicate PassesOver(c: Alteration) {
    Protected(c.before, c.pid, c.dead)
  }

  ghost predicate Respectful(changes: seq<Alteration>) {
    forall i | 0 <= i < |changes| :: !PassesOver(changes[i])
  }

  /** The change belongs to an operation that began on a window left over by another live process. */
  predicate OnLeftover(c: Alteration, history: seq<Moment>) {
    && c.began < |history| && c.window in history[c.began].windows
    && Leftover(history[c.began].windows[c.window], c.pid, history[c.began].dead)
  }

  /** A window that is tagged for another session and names no process that could be told to be dead. */
  predicate Unclaimed(w: Window, id: SessionId) {
    w.tag.Some? && w.tag.value != id && w.owner.None?
  }

  /** The session tags another window of the group. */
  ghost predicate Elsewhere(ws: map<WindowId, Window>, w: WindowId, id: SessionId)
    requires w in ws
  {
    exists v :: v in ws && v != w && ws[v].group == ws[w].group && ws[v].tag == Some(id)
  }

  /** The only reasons not to bind a window to a session, each with its own error. */
  ghost predicate BindingRefused(
    e: HostError, ws: map<WindowId, Window>, dead: set<Pid>, w: WindowId, id: SessionId, pid: Pid)
  {
    w in ws &&
    if e == DuplicateBinding then Elsewhere(ws, w, id)
    else e == BindingConflict(ws[w].tag) && (Protected(ws[w], pid, dead) || Unclaimed(ws[w], id))
  }

  /** The only reasons not to rename or release a session's window, each with its own error. */
  ghost predicate UseRefused(
    e: HostError, ws: map<WindowId, Window>, dead: set<Pid>, w: WindowId, id: SessionId, pid: Pid)
  {
    w in ws &&
    if e == DuplicateBinding then Elsewhere(ws, w, id)
    else e == BindingConflict(ws[w].tag) && (OwnedByOther(ws[w], pid, dead) || OfAnother(ws[w], id))
  }

  predicate OfAnother(w: Window, id: SessionId) {
    w.tag.Some? && w.tag.value != id
  }

  /** Nothing but that windows have closed and new ones have opened, without a tag or an owner. */
  ghost predicate DriftStep(a: Moment, b: Moment) {
    && a.dead <= b.dead
    && forall w | w in b.windows ::
         if w in a.windows then b.windows[w] == a.windows[w] else b.windows[w].tag.None? && b.windows[w].owner.None?
  }

  /** The change at moment `i` of the history, and no other. */
  ghost predicate ChangeStep(history: seq<Moment>, i: nat, c: Alteration)
    requires 0 < i < |history|
  {
    && c.at == i && c.window in history[i - 1].windows && c.before == history[i - 1].windows[c.window]
    && history[i].windows == history[i - 1].windows[c.window := c.after]
    && history[i].dead == history[i - 1].dead == c.dead
  }

  /** Up to moment `i`, windows come and go, or one recorded change is made to one window. */
  ghost predicate StepRecorded(history: seq<Moment>, changes: seq<Alteration>, i: nat)
    requires 0 < i < |history|
  {
    DriftStep(history[i - 1], history[i]) || exists c | c in changes :: ChangeStep(history, i, c)
  }

  ghost predicate Recorded(history: seq<Moment>, changes: seq<Alteration>) {
    forall i | 0 < i < |history| :: StepRecorded(history, changes, i)
  }

  /** At every moment of the history the tags are unique. */
  ghost predicate AlwaysUnique(history: seq<Moment>) {
    forall i | 0 <= i < |history| :: Unique(history[i].windows)
  }

  lemma StepStaysRecorded(history: seq<Moment>, changes: seq<Alteration>, i: nat, m: Moment, more: seq<Alteration>)
    requires 0 < i < |history| && StepRecorded(history, changes, i)
    ensures StepRecorded(history + [m], changes + more, i)
  {
    if !DriftStep(history[i - 1], history[i]) {
      var c :| c in changes && ChangeStep(history, i, c);
      assert c in changes + more && ChangeStep(history + [m], i, c);
    }
  }

  lemma RecordedDrift(history: seq<Moment>, changes: seq<Alteration>, m: Moment)
    requires history != [] && Recorded(history, changes) && DriftStep(history[|history| - 1], m)
    ensures Recorded(history + [m], changes)
  {
    forall i | 0 < i < |history| + 1 ensures StepRecorded(history + [m], changes, i) {
      if i < |history| {
        StepStaysRecorded(history, changes, i, m, []);
        assert changes + [] == changes;
      }
    }
  }

  lemma RecordedChange(history: seq<Moment>, changes: seq<Alteration>, m: Moment, c: Alteration)
    requires history != [] && Recorded(history, changes) && ChangeStep(history + [m], |history|, c)
    ensures Recorded(history + [m], changes + [c])
  {
    forall i | 0 < i < |history| + 1 ensures StepRecorded(history + [m], changes + [c], i) {
      if i < |history| {
        StepStaysRecorded(history, changes, i, m, [c]);
      } else {
        assert c in changes + [c];
      }
    }
  }

  lemma EvolvesKeepsUnique(before: map<WindowId, Window>, used: set<WindowId>, after: map<WindowId, Window>)
    requires Unique(before) && Evolves(before, used, after, {})
    ensures Unique(after)
  {
  }

  lemma TagKeepsUnique(ws: map<WindowId, Window>, w: WindowId, id: SessionId)
    requires Unique(ws) && w in ws
    requires forall v | v in ws && v != w && ws[v].group == ws[w].group :: ws[v].tag != Some(id)
    ensures Unique(ws[w := ws[w].(tag := Some(id))])
  {
  }

  lemma UntaggedKeepsUnique(ws: map<WindowId, Window>, w: WindowId, window: Window)
    requires Unique(ws) && w in ws && window.group == ws[w].group && (window.tag.None? || window.tag == ws[w].tag)
    ensures Unique(ws[w := window])
  {
  }

  // ---- From one moment to a later one ------------------------------------------------------------

  /** Nothing has been changed by a command. */
  ghost predicate Drifts(a: Snapshot, b: Snapshot) {
    && a.used <= b.used && a.dead <= b.dead && a.history <= b.history && b.changes == a.changes
    && Evolves(a.windows, a.used, b.windows, {})
  }

  /** Commands of the one actor have changed the one window at most. */
  ghost predicate Only(a: Snapshot, b: Snapshot, w: WindowId, actor: Actor) {
    && a.used <= b.used && a.dead <= b.dead && a.history <= b.history && a.changes <= b.changes
    && (forall i | |a.changes| <= i < |b.changes| ::
          b.changes[i].window == w && b.changes[i].pid == actor.pid && b.changes[i].began == actor.began)
    && Evolves(a.windows, a.used, b.windows, if a.changes == b.changes then {} else {w})
    && (w in b.windows ==> w in a.windows && b.windows[w].group == a.windows[w].group)
  }

  lemma DriftsTwice(a: Snapshot, b: Snapshot, c: Snapshot)
    requires Drifts(a, b) && Drifts(b, c)
    ensures Drifts(a, c)
  {
  }

  lemma DriftsOnly(a: Snapshot, b: Snapshot, w: WindowId, actor: Actor)
    requires Drifts(a, b) && w in a.used
    ensures Only(a, b, w, actor)
  {
  }

  lemma OnlyTwice(a: Snapshot, b: Snapshot, c: Snapshot, w: WindowId, actor: Actor)
    requires Only(a, b, w, actor) && Only(b, c, w, actor)
    ensures Only(a, c, w, actor)
  {
  }

  /** The new changes of the second. */
  function Since(a: Snapshot, b: Snapshot): seq<Alteration>
    requires a.changes <= b.changes
  {
    b.changes[|a.changes|..]
  }

  lemma RespectfulTwice(a: Snapshot, b: Snapshot, c: Snapshot)
    requires a.changes <= b.changes <= c.changes
    ensures Respectful(Since(a, c)) <==> Respectful(Since(a, b)) && Respectful(Since(b, c))
  {
    assert Since(a, c) == Since(a, b) + Since(b, c);
    forall i | 0 <= i < |Since(a, b)| ensures Since(a, c)[i] == Since(a, b)[i] {
    }
    forall i | 0 <= i < |Since(b, c)| ensures Since(a, c)[|Since(a, b)| + i] == Since(b, c)[i] {
    }
  }

  /** The window, if it is still there, is not another live process's own. */
  ghost predicate Settled(s: Snapshot, w: WindowId, pid: Pid) {
    w in s.windows ==> !OwnedByOther(s.windows[w], pid, s.dead)
  }

  lemma SettledStays(a: Snapshot, b: Snapshot, w: WindowId, pid: Pid)
    requires Settled(a, w, pid) && Drifts(a, b) && w in a.used
    ensures Settled(b, w, pid)
  {
  }

  /** What has been seen is still so, up to windows that have closed since. */
  ghost predicate Sees(c: CurrentWindow, s: Snapshot) {
    && c.windowId in s.used
    && (c.windowId in s.windows ==> s.windows[c.windowId].group == c.group && s.windows[c.windowId].tag == c.bound)
    && (forall w | w in s.windows && s.windows[w].group == c.group && s.windows[w].tag.Some? ::
          w in c.bindings && s.windows[w].tag == Some(c.bindings[w]))
    && forall w | w in c.bindings ::
         w in s.used && (w in s.windows ==> s.windows[w].tag == Some(c.bindings[w]))
  }

  lemma SeesStays(c: CurrentWindow, a: Snapshot, b: Snapshot)
    requires Sees(c, a) && Drifts(a, b)
    ensures Sees(c, b)
  {
  }

  /** What has been found was so already. */
  ghost predicate Saw(c: CurrentWindow, s: Snapshot) {
    && c.windowId in s.windows && s.windows[c.windowId].group == c.group
    && (c.bound.Some? ==> s.windows[c.windowId].tag == c.bound)
    && WereTagged(c.bindings, c.group, s)
  }

  ghost predicate WereTagged(bindings: map<WindowId, SessionId>, group: nat, s: Snapshot) {
    forall v | v in bindings ::
      v in s.windows && s.windows[v].group == group && s.windows[v].tag == Some(bindings[v])
  }

  /** A tag that is seen later was there earlier. */
  lemma WereTaggedEarlier(bindings: map<WindowId, SessionId>, group: nat, a: Snapshot, b: Snapshot)
    requires Drifts(a, b) && WereTagged(bindings, group, b)
    ensures WereTagged(bindings, group, a)
  {
  }

  lemma WasThere(w: WindowId, a: Snapshot, b: Snapshot)
    requires Drifts(a, b) && w in a.used && w in b.windows
    ensures w in a.windows && a.windows[w] == b.windows[w]
  {
  }

  // ---- The terminal server -----------------------------------------------------------------------

  /** The terminal server. `faults` counts the commands that have failed, for whatever reason. */
  class Tmux {
    var windows: map<WindowId, Window>
    var used: set<WindowId>
    var dead: set<Pid>
    ghost var history: seq<Moment>
    ghost var changes: seq<Alteration>
    ghost var faults: nat
    const windowOf: nat -> WindowId

    /** The history ends now, the tags have been unique all along, and every change is on record. */
    ghost predicate Valid()
      reads `windows, `used, `dead, `history, `changes
    {
      && windows.Keys <= used
      && history != [] && history[|history| - 1] == Moment(windows, dead)
      && AlwaysUnique(history) && Recorded(history, changes)
    }

    ghost function Now(): Snapshot
      reads `windows, `used, `dead, `history, `changes
    {
      Snapshot(windows, used, dead, history, changes)
    }

    constructor (windowOf: nat -> WindowId)
      ensures Valid() && windows == map[] && changes == [] && history == [Moment(map[], {})] && faults == 0
    {
      this.windowOf := windowOf;
      windows, used, dead, history, changes, faults := map[], {}, {}, [Moment(map[], {})], [], 0;
    }

    /** Between commands: owners die, windows close, new ones open. */
    method Pause()
      requires Valid()
      modifies `windows, `used, `dead, `history
      ensures Valid() && Drifts(old(Now()), Now())
      ensures history == old(history) + [Moment(windows, dead)]
    {
      var next: map<WindowId, Window>, dying: set<Pid> := *, *;
      if forall w | w in next ::
        (w in windows && next[w] == windows[w]) || (w !in used && next[w].tag.None? && next[w].owner.None?) {
        EvolvesKeepsUnique(windows, used, next);
        windows, used := next, used + next.Keys;
      }
      dead := dead + dying;
      RecordedDrift(history, changes, Moment(windows, dead));
      history := history + [Moment(windows, dead)];
    }

    ghost method Note(ok: bool)
      modifies `faults
      ensures faults == old(faults) + if ok then 0 else 1
    {
      faults := faults + if ok then 0 else 1;
    }

    /** A command that reads or changes something else about a window. */
    method Other(w: WindowId) returns (ok: bool)
      requires Valid()
      modifies this
      ensures Valid() && Drifts(old(Now()), Now())
      ensures faults == old(faults) + if ok then 0 else 1
    {
      Pause();
      ok := *;
      ok := ok && w in windows;
      Note(ok);
    }

    method ReadGroup(w: WindowId) returns (r: Option<nat>)
      requires Valid()
      modifies this
      ensures Valid() && Drifts(old(Now()), Now())
      ensures r.Some? ==> w in windows && windows[w].group == r.value
      ensures faults == old(faults) + if r.Some? then 0 else 1
    {
      Pause();
      var ok: bool := *;
      r := if ok && w in windows then Some(windows[w].group) else None;
      Note(r.Some?);
    }

    method ListWindows(group: nat) returns (r: Option<set<WindowId>>)
      requires Valid()
      modifies this
      ensures Valid() && Drifts(old(Now()), Now())
      ensures r.Some? ==> r.value == set w | w in windows && windows[w].group == group
      ensures faults == old(faults) + if r.Some? then 0 else 1
    {
      Pause();
      var ok: bool := *;
      r := if ok then Some(set w | w in windows && windows[w].group == group) else None;
      Note(ok);
    }

    method ReadTag(w: WindowId) returns (ok: bool, tag: Option<SessionId>)
      requires Valid()
      modifies this
      ensures Valid() && Drifts(old(Now()), Now())
      ensures ok ==> w in windows && tag == windows[w].tag
      ensures faults == old(faults) + if ok then 0 else 1
    {
      Pause();
      ok, tag := *, None;
      ok := ok && w in windows;
      Note(ok);
      if ok {
        tag := windows[w].tag;
      }
    }

    method ReadOwner(w: WindowId) returns (ok: bool, owner: Option<Pid>)
      requires Valid()
      modifies this
      ensures Valid() && Drifts(old(Now()), Now())
      ensures ok ==> w in windows && owner == windows[w].owner
      ensures faults == old(faults) + if ok then 0 else 1
    {
      Pause();
      ok, owner := *, None;
      ok := ok && w in windows;
      Note(ok);
      if ok {
        owner := windows[w].owner;
      }
    }

    /** One change to a window. */
    method Alter(w: WindowId, window: Window, ghost actor: Actor)
      requires Valid() && w in windows && window.group == windows[w].group && Unique(windows[w := window])
      modifies `windows, `history, `changes
      ensures Valid() && Only(old(Now()), Now(), w, actor)
      ensures windows == old(windows)[w := window] && used == old(used) && dead == old(dead)
      ensures history == old(history) + [Moment(windows, dead)]
      ensures changes ==
        old(changes) + [Altered(w, old(windows)[w], window, dead, |old(history)|, actor.pid, actor.began)]
    {
      ghost var change := Altered(w, windows[w], window, dead, |history|, actor.pid, actor.began);
      RecordedChange(history, changes, Moment(windows[w := window], dead), change);
      changes := changes + [change];
      windows := windows[w := window];
      history := history + [Moment(windows, dead)];
    }

    /** A command that sets or unsets an option of a window: it may fail, and even then may have done so. */
    method Set(w: WindowId, setting: Setting, ghost actor: Actor) returns (ok: bool)
      requires Valid() && w in used
      modifies this
      ensures Valid() && Only(old(Now()), Now(), w, actor)
      ensures Settled(old(Now()), w, actor.pid) ==> Respectful(Since(old(Now()), Now()))
      ensures Settled(old(Now()), w, actor.pid) && (setting.SetOwner? ==> setting.pid == actor.pid) ==>
        Settled(Now(), w, actor.pid)
      ensures w in windows ==> windows[w] == old(windows)[w] || windows[w] == Updated(old(windows)[w], setting)
      ensures ok ==>
        && w in windows && windows[w] == Updated(old(windows)[w], setting)
        && |Since(old(Now()), Now())| == 1 && Since(old(Now()), Now())[0].before == old(windows)[w]
        && Since(old(Now()), Now())[0].dead == dead
      ensures faults == old(faults) + if ok then 0 else 1
    {
      Pause();
      ghost var between := Now();
      DriftsOnly(old(Now()), between, w, actor);
      if w !in windows {
        Note(false);
        return false;
      }
      var effect: bool := *;
      if effect {
        UntaggedKeepsUnique(windows, w, Updated(windows[w], setting));
        Alter(w, Updated(windows[w], setting), actor);
        OnlyTwice(old(Now()), between, Now(), w, actor);
      }
      ok := *;
      ok := ok && effect;
      Note(ok);
    }

    /** The command that tags a window that has no tag. */
    method CreateTag(w: WindowId, id: SessionId, ghost c: CurrentWindow, ghost actor: Actor) returns (ok: bool)
      requires Valid() && Sees(c, Now()) && c.windowId == w
      requires forall v | v in c.bindings && v != w :: c.bindings[v] != id
      modifies this
      ensures Valid() && Only(old(Now()), Now(), w, actor)
      ensures Respectful(Since(old(Now()), Now()))
      ensures Settled(old(Now()), w, actor.pid) ==> Settled(Now(), w, actor.pid)
      ensures w in windows ==>
        && windows[w].owner == old(windows)[w].owner
        && (windows[w].tag == old(windows)[w].tag || windows[w].tag == Some(id))
      ensures ok ==> w in windows && windows[w].tag == Some(id)
      ensures faults == old(faults) + if ok then 0 else 1
    {
      Pause();
      ghost var between := Now();
      DriftsOnly(old(Now()), between, w, actor);
      SeesStays(c, old(Now()), between);
      if w !in windows || windows[w].tag.Some? {
        Note(false);
        return false;
      }
      var effect: bool := *;
      if effect {
        TagKeepsUnique(windows, w, id);
        Alter(w, windows[w].(tag := Some(id)), actor);
        OnlyTwice(old(Now()), between, Now(), w, actor);
      }
      ok := *;
      ok := ok && effect;
      Note(ok);
    }

    /** A new window of a group, for a process that is started in it. */
    method NewWindow(group: nat) returns (r: Option<WindowId>)
      requires Valid()
      modifies this
      ensures Valid() && Drifts(old(Now()), Now())
      ensures r.Some? ==> r.value in used && r.value !in old(used)
      ensures r.Some? ==> r.value in windows && windows[r.value] == Window(group, None, None)
      ensures faults == old(faults) + if r.Some? then 0 else 1
    {
      Pause();
      var w: WindowId, ok: bool := *, *;
      if w in used {
        Note(false);
        return None;
      }
      ghost var between := windows;
      windows, used := windows[w := Window(group, None, None)], used + {w};
      EvolvesKeepsUnique(between, old(used), windows);
      RecordedDrift(history, changes, Moment(windows, dead));
      history := history + [Moment(windows, dead)];
      Note(ok);
      return if ok then Some(w) else None;
    }

    // ---- Looking -----------------------------------------------------------------------------------

    /** Reads the tags of all windows of the group of the caller's window. */
    method InspectCurrent(pane: nat) returns (r: Result<CurrentWindow, HostError>)
      requires Valid() && windowOf(pane) in used
      modifies this
      ensures Valid() && Drifts(old(Now()), Now())
      ensures r.Ok? ==> r.value.windowId == windowOf(pane) && Sees(r.value, Now()) && Saw(r.value, old(Now()))
      ensures r.Err? ==> r.error.HostFailure? && old(faults) < faults
      ensures old(faults) <= faults
    {
      hide Sees, Drifts, WereTagged;
      var w := windowOf(pane);
      var found := Other(w);
      ghost var s1 := Now();
      if !found {
        return Err(HostFailure);
      }
      var group := ReadGroup(w);
      ghost var s2 := Now();
      DriftsTwice(old(Now()), s1, s2);
      if group.None? {
        return Err(HostFailure);
      }
      WasThere(w, old(Now()), s2);
      var ids := ListWindows(group.value);
      ghost var s3 := Now();
      DriftsTwice(old(Now()), s2, s3);
      if ids.None? {
        return Err(HostFailure);
      }
      StaysInGroup(w, group.value, s2, s3);
      var bindings := ReadTags(ids.value, group.value, w);
      DriftsTwice(old(Now()), s3, Now());
      if bindings.None? {
        return Err(HostFailure);
      }
      WereTaggedEarlier(bindings.value, group.value, old(Now()), s3);
      BoundWasTagged(bindings.value, group.value, w, old(Now()));
      var bound := if w in bindings.value then Some(bindings.value[w]) else None;
      return Ok(CurrentWindow(group.value, w, bound, bindings.value));
    }

    /** Reads the tag of each of the windows. */
    method ReadTags(ids: set<WindowId>, group: nat, ghost w: WindowId) returns (r: Option<map<WindowId, SessionId>>)
      requires Valid() && w in used
      requires ids == set v | v in windows && windows[v].group == group
      requires w in windows ==> windows[w].group == group
      modifies this
      ensures Valid() && Drifts(old(Now()), Now())
      ensures r.Some? ==>
        Sees(CurrentWindow(group, w, if w in r.value then Some(r.value[w]) else None, r.value), Now())
      ensures r.Some? ==> WereTagged(r.value, group, old(Now()))
      ensures r.None? ==> old(faults) < faults
      ensures old(faults) <= faults
    {
      hide HasRead, Drifts, WereTagged, Sees;
      var todo, bindings := ids, map[];
      ghost var start := Now();
      NothingRead(group, start);
      NothingTagged(group, start);
      DriftsNot(start);
      while todo != {}
        invariant Valid() && Drifts(start, Now()) && todo <= ids
        invariant bindings.Keys <= ids - todo && HasRead(bindings, ids - todo, Now())
        invariant WereTagged(bindings, group, start) && old(faults) <= faults
      {
        var v :| v in todo;
        ghost var before := Now();
        var ok, tag := ReadTag(v);
        DriftsTwice(start, before, Now());
        InUsed(ids, group, start, before);
        HasReadStays(bindings, ids - todo, before, Now());
        if !ok {
          return None;
        }
        HasReadMore(bindings, ids - todo, Now(), v);
        assert ids - todo + {v} == ids - (todo - {v});
        todo := todo - {v};
        if tag.Some? {
          WasThere(v, start, Now());
          OneMoreTagged(bindings, group, start, v, tag.value);
          bindings := bindings[v := tag.value];
        }
      }
      assert ids - {} == ids;
      ReadIsSeen(bindings, ids, group, w, start, Now());
      return Some(bindings);
    }

    /** A live process other than the caller's keeps others from the window that it owns. */
    method AssertLiveOwner(c: CurrentWindow, pid: Pid) returns (r: Result<Option<Pid>, HostError>)
      requires Valid() && c.windowId in used
      modifies this
      ensures Valid() && Drifts(old(Now()), Now())
      ensures r.Ok? ==> Settled(Now(), c.windowId, pid)
      ensures r.Ok? ==> c.windowId in windows && windows[c.windowId].owner == r.value
      ensures r.Err? && r.error != HostFailure ==>
        && r.error == BindingConflict(c.bound)
        && c.windowId in windows && OwnedByOther(windows[c.windowId], pid, dead)
      ensures faults == old(faults) + if r == Err(HostFailure) then 1 else 0
    {
      var ok, owner := ReadOwner(c.windowId);
      if !ok {
        return Err(HostFailure);
      }
      if owner.Some? && owner.value != pid && owner.value !in dead {
        return Err(BindingConflict(c.bound));
      }
      return Ok(owner);
    }

    // ---- The operations ----------------------------------------------------------------------------

    /** Takes the binding off a window. */
    method UnsetBinding(c: CurrentWindow, ghost actor: Actor) returns (ok: bool)
      requires Valid() && c.windowId in used && Settled(Now(), c.windowId, actor.pid)
      modifies this
      ensures Valid() && Only(old(Now()), Now(), c.windowId, actor)
      ensures Respectful(Since(old(Now()), Now())) && Settled(Now(), c.windowId, actor.pid)
      ensures ok && c.windowId in windows ==>
        windows[c.windowId].tag.None? && windows[c.windowId].owner.None?
      ensures old(faults) <= faults && (ok <==> faults == old(faults))
    {
      hide Only, Respectful, Settled, Since, Drifts;
      ghost var start := Now();
      var first := Set(c.windowId, UnsetTag, actor);
      ghost var middle := Now();
      OnlyFacts(start, middle, c.windowId, actor);
      if !first {
        return false;
      }
      ok := Set(c.windowId, UnsetOwner, actor);
      OnlyFacts(middle, Now(), c.windowId, actor);
      OnlyTwice(start, middle, Now(), c.windowId, actor);
      RespectfulTwice(start, middle, Now());
    }

    /** A binding is stale when its owner has exited, or when this process owned it for another session. */
    method ReclaimStaleBinding(c: CurrentWindow, id: SessionId, pid: Pid, ghost actor: Actor)
      returns (r: Result<CurrentWindow, HostError>)
      requires Valid() && Sees(c, Now()) && actor.pid == pid
      modifies this
      ensures Valid() && Only(old(Now()), Now(), c.windowId, actor)
      ensures Respectful(Since(old(Now()), Now()))
      ensures r.Ok? ==> r.value.windowId == c.windowId && Sees(r.value, Now())
      ensures c.bound.None? ==> r == Ok(c) && Now() == old(Now())
      ensures c.bound.Some? && r.Ok? ==> Settled(Now(), c.windowId, pid)
      ensures c.bound.Some? && !Settled(old(Now()).(dead := dead), c.windowId, pid) ==>
        r.Err? && changes == old(changes)
      ensures r.Ok? ==> AfterReclaiming(c, r.value, old(Now()), id)
      ensures r.Ok? && r.value != c && c.windowId in windows ==>
        windows[c.windowId].tag.None? && windows[c.windowId].owner.None?
      ensures r.Err? && faults == old(faults) ==>
        && r.error == BindingConflict(c.bound) && c.bound.Some?
        && c.windowId in old(windows) && OwnedByOther(old(windows)[c.windowId], pid, old(dead))
      ensures old(faults) <= faults
    {
      hide Only, Respectful, Settled, Since, Drifts, Sees, OwnedByOther;
      ghost var start := Now();
      var w := c.windowId;
      SeesIsUsed(c, start);
      NoChange(start, w, actor);
      if c.bound.None? {
        return Ok(c);
      }
      var owner := AssertLiveOwner(c, pid);
      ghost var checked := Now();
      DriftsOnly(start, checked, w, actor);
      OnlyFacts(start, checked, w, actor);
      NothingSince(start, checked);
      SeesStays(c, start, checked);
      if w in windows {
        WasThere(w, start, checked);
        OwnedEarlier(windows[w], pid, start.dead, dead);
      }
      if owner.Err? {
        return Err(owner.error);
      }
      SettledBefore(start, checked, w, pid);
      if owner.value.None? || c.bound.value == id {
        return Ok(c);
      }
      var done := UnsetBinding(c, actor);
      OnlyFacts(checked, Now(), w, actor);
      OnlyTwice(start, checked, Now(), w, actor);
      RespectfulTwice(start, checked, Now());
      DeadGrows(start, checked, Now(), w, pid);
      if !done {
        return Err(HostFailure);
      }
      var reclaimed := c.(bound := None, bindings := c.bindings - {w});
      SeesReclaimed(c, checked, Now(), actor);
      return Ok(reclaimed);
    }

    /**
     Binds the caller's window to its session. A binding that another live process owns is left alone. A window that has
     lost its tag but still names a live owner is taken over from it, which is the one case of a change that passes over
     a live owner. If no command fails, every window that stays open is bound, but for the three reasons to refuse.
     */
    method BindCurrent(pane: nat, id: SessionId, pid: Pid) returns (r: Result<CurrentWindow, HostError>)
      requires Valid() && windowOf(pane) in used
      modifies this
      ensures Valid() && Only(old(Now()), Now(), windowOf(pane), Actor(pid, |old(history)| - 1))
      ensures var w := windowOf(pane); r.Ok? ==>
        && Sees(r.value, Now()) && r.value.windowId == w && r.value.bound == Some(id)
        && (w in windows ==> windows[w].tag == Some(id) && windows[w].owner == Some(pid))
      ensures var w := windowOf(pane); w in windows && Protected(old(windows)[w], pid, dead) ==>
        r.Err? && changes == old(changes) && windows[w] == old(windows)[w]
      ensures var w := windowOf(pane); !(w in old(windows) && Leftover(old(windows)[w], pid, old(dead))) ==>
        Respectful(Since(old(Now()), Now()))
      ensures var w := windowOf(pane); r.Ok? && w in windows && Leftover(old(windows)[w], pid, dead) ==>
        !Respectful(Since(old(Now()), Now()))
      ensures var w := windowOf(pane); r.Err? && faults == old(faults) && w in windows ==>
        BindingRefused(r.error, old(windows), old(dead), w, id, pid)
      ensures var w := windowOf(pane); w in windows && w in old(windows) && Unclaimed(old(windows)[w], id) ==> r.Err?
      ensures old(faults) <= faults
    {
      hide Only, Respectful, Settled, Since, Drifts, Sees, Saw, Protected, Leftover, OwnedByOther, Unclaimed, Elsewhere,
           Unique, Recorded, BindingRefused;
      var w := windowOf(pane);
      ghost var start, actor := Now(), Actor(pid, |history| - 1);
      NoChange(start, w, actor);
      var inspected := InspectCurrent(pane);
      ghost var seen := Now();
      DriftsOnly(start, seen, w, actor);
      OnlyFacts(start, seen, w, actor);
      NothingSince(start, seen);
      StillTheSame(start, seen, w, actor);
      if inspected.Err? {
        return Err(inspected.error);
      }
      SeesIsUsed(inspected.value, seen);
      Opening(start, seen, inspected.value, pid);
      var reclaimed := ReclaimStaleBinding(inspected.value, id, pid, actor);
      ghost var ready := Now();
      OnlyFacts(seen, ready, w, actor);
      OnlyTwice(start, seen, ready, w, actor);
      RespectfulTwice(start, seen, ready);
      ProtectedIsNotSettled(start, seen, w, pid, dead);
      if reclaimed.Err? {
        OwnerIsRefusal(inspected.value, start, seen, id, pid);
        if ready.changes == start.changes {
          StillTheSame(start, ready, w, actor);
        }
        return Err(reclaimed.error);
      }
      ProtectedEarlier(start, w, pid, ready.dead);
      var c := reclaimed.value;
      var conflict := AssertBinding(c, id);
      if conflict.Some? {
        ConflictIsRefusal(inspected.value, c, start, seen, id, pid);
        return Err(conflict.value);
      }
      var claimed := Claim(c, id, pid, actor);
      ghost var owned := Now();
      OnlyFacts(ready, owned, w, actor);
      OnlyTwice(start, ready, owned, w, actor);
      RespectfulTwice(start, ready, owned);
      if !claimed {
        return Err(HostFailure);
      }
      LeftoverEarlier(start, w, pid, owned.dead);
      UnclaimedConflicts(inspected.value, c, start, seen, id);
      r := FinishBinding(pane, id, pid);
      DriftsOnly(owned, Now(), w, actor);
      OnlyFacts(owned, Now(), w, actor);
      OnlyTwice(start, owned, Now(), w, actor);
      NothingSince(owned, Now());
      RespectfulTwice(start, owned, Now());
    }

    /** Tags the window, if it has no tag yet, and records its owner. */
    method Claim(c: CurrentWindow, id: SessionId, pid: Pid, ghost actor: Actor) returns (ok: bool)
      requires Valid() && Sees(c, Now()) && AssertBinding(c, id).None? && actor.pid == pid
      modifies this
      ensures Valid() && Only(old(Now()), Now(), c.windowId, actor)
      ensures Settled(old(Now()), c.windowId, pid) ==> Respectful(Since(old(Now()), Now()))
      ensures ok ==>
        && c.windowId in windows && windows[c.windowId].tag == Some(id) && windows[c.windowId].owner == Some(pid)
        && (OwnedByOther(old(windows)[c.windowId], pid, dead) ==> !Respectful(Since(old(Now()), Now())))
      ensures old(faults) <= faults && (ok <==> faults == old(faults))
    {
      hide Only, Respectful, Settled, Since, Drifts, Sees, OwnedByOther;
      var w := c.windowId;
      ghost var ready := Now();
      SeesIsUsed(c, ready);
      if c.bound.None? {
        var created := CreateTag(w, id, c, actor);
        OnlyFacts(ready, Now(), w, actor);
        if !created {
          return false;
        }
      } else {
        NoChange(ready, w, actor);
      }
      ghost var tagged := Now();
      ok := Set(w, SetOwner(pid), actor);
      OnlyFacts(tagged, Now(), w, actor);
      OnlyTwice(ready, tagged, Now(), w, actor);
      RespectfulTwice(ready, tagged, Now());
      if ok {
        TookOver(tagged, Now(), w, actor);
      }
    }

    /** Gives the window a name of its own. */
    method NameWindow(w: WindowId) returns (ok: bool)
      requires Valid()
      modifies this
      ensures Valid() && Drifts(old(Now()), Now())
      ensures old(faults) <= faults && (ok <==> faults == old(faults))
    {
      hide Drifts;
      ok := Other(w);
      if ok {
        ghost var between := Now();
        ok := Other(w);
        DriftsTwice(old(Now()), between, Now());
      }
    }

    /** The rest of binding: the window's name, and a last look at the tags. */
    method FinishBinding(pane: nat, id: SessionId, pid: Pid) returns (r: Result<CurrentWindow, HostError>)
      requires Valid() && windowOf(pane) in used
      modifies this
      ensures Valid() && Drifts(old(Now()), Now())
      ensures r.Ok? ==> Sees(r.value, Now()) && r.value.windowId == windowOf(pane) && r.value.bound == Some(id)
      ensures windowOf(pane) in windows ==>
        windowOf(pane) in old(windows) && windows[windowOf(pane)] == old(windows)[windowOf(pane)]
      ensures old(faults) <= faults
      ensures var w := windowOf(pane); w in windows && windows[w].tag == Some(id) && faults == old(faults) ==> r.Ok?
    {
      hide Drifts, Sees, Saw, Unique, Recorded;
      ghost var start := Now();
      var named := NameWindow(windowOf(pane));
      ghost var s2 := Now();
      DriftKeepsOld(start, s2);
      if !named {
        return Err(HostFailure);
      }
      assert Unique(s2.windows) by {
        assert history[|history| - 1].windows == windows;
      }
      var verified := InspectCurrent(pane);
      DriftsTwice(start, s2, Now());
      DriftKeepsOld(start, Now());
      DriftKeepsOld(s2, Now());
      if verified.Err? {
        return Err(verified.error);
      }
      SeesIsUsed(verified.value, Now());
      if windowOf(pane) in windows && windows[windowOf(pane)].tag == Some(id) {
        OwnTagIsOnly(verified.value, s2, id);
      }
      if verified.value.bound != Some(id) {
        return Err(HostFailure);
      }
      var conflict := AssertBinding(verified.value, id);
      if conflict.Some? {
        return Err(conflict.value);
      }
      return Ok(verified.value);
    }

    /** Renaming changes no binding, and succeeds for the session that the window is bound to. */
    method RenameCurrent(pane: nat, id: SessionId, pid: Pid) returns (failure: Option<HostError>)
      requires Valid() && windowOf(pane) in used
      modifies this
      ensures Valid() && Drifts(old(Now()), Now())
      ensures var w := windowOf(pane);
              failure.None? && w in windows ==> windows[w].tag == Some(id) && !OwnedByOther(windows[w], pid, dead)
      ensures var w := windowOf(pane); failure.Some? && faults == old(faults) && w in windows ==>
        || UseRefused(failure.value, old(windows), old(dead), w, id, pid)
        || (failure == Some(HostFailure) && windows[w].tag.None?)
      ensures old(faults) <= faults
    {
      hide Settled, Drifts, Sees, Saw, Elsewhere, AlwaysUnique, Recorded, UseRefused, OwnedByOther, OfAnother,
           AssertBinding;
      var w := windowOf(pane);
      ghost var start := Now();
      var inspected := InspectCurrent(pane);
      ghost var seen := Now();
      if inspected.Err? {
        return Some(inspected.error);
      }
      SeesIsUsed(inspected.value, seen);
      var conflict := AssertBinding(inspected.value, id);
      if conflict.Some? {
        UnusableIsRefusal(inspected.value, start, seen, id, pid);
        return conflict;
      }
      var owner := AssertLiveOwner(inspected.value, pid);
      ghost var checked := Now();
      DriftsTwice(start, seen, checked);
      SeesStays(inspected.value, seen, checked);
      SeesIsUsed(inspected.value, checked);
      if owner.Err? {
        OwnedIsRefusal(inspected.value, start, checked, id, pid);
        return Some(owner.error);
      }
      NotOfAnother(inspected.value, checked, id);
      DriftKeepsOld(start, checked);
      if inspected.value.bound != Some(id) {
        return Some(HostFailure);
      }
      var named := NameWindow(w);
      DriftsTwice(start, checked, Now());
      SettledStays(checked, Now(), w, pid);
      SettledNow(Now(), w, pid);
      SeesStays(inspected.value, checked, Now());
      SeesIsUsed(inspected.value, Now());
      return if named then None else Some(HostFailure);
    }

    /**
     Releasing takes the session's own binding off its window, and never another live process's. A window that has not
     been tagged for any session is left as it is.
     */
    method ReleaseCurrent(pane: nat, id: SessionId, pid: Pid) returns (failure: Option<HostError>)
      requires Valid() && windowOf(pane) in used
      modifies this
      ensures Valid() && Only(old(Now()), Now(), windowOf(pane), Actor(pid, |old(history)| - 1))
      ensures Respectful(Since(old(Now()), Now()))
      ensures var w := windowOf(pane); w in windows && Protected(old(windows)[w], pid, dead) ==>
        failure.Some? && changes == old(changes) && windows[w] == old(windows)[w]
      ensures var w := windowOf(pane); failure.None? && w in windows ==>
        && w in old(windows) && windows[w].tag.None?
        && if old(windows)[w].tag == Some(id) then windows[w].owner.None? else windows[w] == old(windows)[w]
      ensures var w := windowOf(pane); w in windows && w in old(windows) && OwnedByOther(old(windows)[w], pid, dead) ==>
        failure.Some?
      ensures var w := windowOf(pane); failure.Some? && faults == old(faults) && w in windows ==>
        UseRefused(failure.value, old(windows), old(dead), w, id, pid)
      ensures old(faults) <= faults
    {
      hide Only, Respectful, Settled, Since, Drifts, Sees, Saw, Protected, OwnedByOther, OfAnother, Elsewhere,
           UseRefused, Unique, Recorded;
      var w := windowOf(pane);
      ghost var start, actor := Now(), Actor(pid, |history| - 1);
      NoChange(start, w, actor);
      var inspected := InspectCurrent(pane);
      ghost var seen := Now();
      DriftsOnly(start, seen, w, actor);
      OnlyFacts(start, seen, w, actor);
      NothingSince(start, seen);
      StillTheSame(start, seen, w, actor);
      if inspected.Err? {
        return Some(inspected.error);
      }
      SeesIsUsed(inspected.value, seen);
      var conflict := AssertBinding(inspected.value, id);
      if conflict.Some? {
        UnusableIsRefusal(inspected.value, start, seen, id, pid);
        return conflict;
      }
      var owner := AssertLiveOwner(inspected.value, pid);
      ghost var checked := Now();
      DriftsTwice(start, seen, checked);
      DriftsOnly(start, checked, w, actor);
      OnlyFacts(start, checked, w, actor);
      NothingSince(start, checked);
      StillTheSame(start, checked, w, actor);
      SeesStays(inspected.value, seen, checked);
      SeesIsUsed(inspected.value, checked);
      if owner.Err? {
        OwnedIsRefusal(inspected.value, start, checked, id, pid);
        return Some(owner.error);
      }
      SettledNow(checked, w, pid);
      OwnedLater(start, w, pid, checked.dead);
      NotOfAnother(inspected.value, checked, id);
      ProtectedEarlier(start, w, pid, checked.dead);
      ProtectedIsOwned(start, w, pid, checked.dead);
      if inspected.value.bound != Some(id) {
        return None;
      }
      var done := UnsetBinding(inspected.value, actor);
      ghost var unset := Now();
      OnlyFacts(checked, unset, w, actor);
      OnlyTwice(start, checked, unset, w, actor);
      RespectfulTwice(start, checked, unset);
      if !done {
        return Some(HostFailure);
      }
      var named := Other(w);
      var labelled: bool := *;
      if named && labelled {
        ghost var read := Now();
        named := Other(w);
        DriftsTwice(unset, read, Now());
      }
      DriftsOnly(unset, Now(), w, actor);
      OnlyFacts(unset, Now(), w, actor);
      OnlyTwice(start, unset, Now(), w, actor);
      NothingSince(unset, Now());
      RespectfulTwice(start, unset, Now());
      StillTheSame(unset, Now(), w, actor);
      return if named then None else Some(HostFailure);
    }

    /** Restoring finds the session's window or opens one for it, and touches no other. */
    method RestoreWindow(pane: nat, id: SessionId, explicitName: bool, ghost pid: Pid)
      returns (r: Result<Restored, HostError>)
      requires Valid() && windowOf(pane) in used
      modifies this
      ensures Valid() && old(used) <= used && old(history) <= history && old(changes) <= changes
      ensures Respectful(Since(old(Now()), Now()))
      ensures forall w | w in windows && w in old(used) :: w in old(windows) && windows[w] == old(windows)[w]
      ensures r.Ok? && r.value.window in windows ==> windows[r.value.window].tag == Some(id)
      ensures r.Ok? && r.value.Created? ==> r.value.window !in old(used)
      ensures r.Ok? ==> windowOf(pane) in old(windows)
      ensures var w := windowOf(pane); r.Ok? && r.value.Existing? ==>
        && r.value.window in old(windows) && old(windows)[r.value.window].tag == Some(id)
        && old(windows)[r.value.window].group == old(windows)[w].group
      ensures var w := windowOf(pane); r.Ok? && r.value.Created? ==>
        && (r.value.window in windows ==>
              windows[r.value.window] == Window(old(windows)[w].group, Some(id), None))
        && forall v | v in windows && v in old(windows) && windows[v].group == old(windows)[w].group ::
             windows[v].tag != Some(id)
      ensures r.Err? && faults == old(faults) ==> r.error == DuplicateBinding && !Unique(old(windows))
      ensures old(faults) <= faults
    {
      hide Only, Respectful, Settled, Since, Drifts, Sees, Saw, Unique, AlwaysUnique, Recorded;
      ghost var start, actor := Now(), Actor(pid, |history| - 1);
      NoChange(start, windowOf(pane), actor);
      var inspected := InspectCurrent(pane);
      ghost var seen := Now();
      NothingSince(start, seen);
      DriftKeepsOld(start, seen);
      if inspected.Err? {
        return Err(inspected.error);
      }
      var c := inspected.value;
      var matches := set w | w in c.bindings && c.bindings[w] == id;
      if |matches| > 1 {
        TwoMatches(c, start, id, matches);
        return Err(DuplicateBinding);
      }
      if matches != {} {
        var w :| w in matches;
        BoundIsTagged(c, seen, w);
        SawFacts(c, start);
        return Ok(Existing(w));
      }
      assert forall w | w in c.bindings && c.bindings[w] == id :: w in matches;
      var added := NewWindow(c.group);
      ghost var created := Now();
      DriftsTwice(start, seen, created);
      NothingSince(start, created);
      DriftKeepsOld(start, created);
      SeesStays(c, seen, created);
      if added.None? {
        return Err(HostFailure);
      }
      var w := added.value;
      SeesNew(c, created, w);
      SawFacts(c, start);
      var failure := TagRestored(w, id, explicitName, CurrentWindow(c.group, w, None, c.bindings), actor);
      OldKept(start, created, Now(), w, actor);
      NoneTagged(c, created, Now(), w, id, actor);
      RespectfulTwice(start, created, Now());
      if failure.Some? {
        return Err(failure.value);
      }
      return Ok(Created(w));
    }

    /** Tags the window that has been opened for a session, and makes sure of it. */
    method TagRestored(w: WindowId, id: SessionId, explicitName: bool, ghost c: CurrentWindow, ghost actor: Actor)
      returns (failure: Option<HostError>)
      requires Valid() && Sees(c, Now()) && c.windowId == w
      requires forall v | v in c.bindings && v != w :: c.bindings[v] != id
      modifies this
      ensures Valid() && Only(old(Now()), Now(), w, actor) && Respectful(Since(old(Now()), Now()))
      ensures failure.None? && w in windows ==> windows[w].tag == Some(id)
      ensures w in windows ==>
        && w in old(windows) && windows[w].owner == old(windows)[w].owner
        && windows[w].group == old(windows)[w].group
      ensures old(faults) <= faults && (failure.Some? ==> old(faults) < faults)
    {
      hide Only, Respectful, Since, Drifts, Sees;
      ghost var start := Now();
      SeesIsUsed(c, start);
      var created := CreateTag(w, id, c, actor);
      ghost var s1 := Now();
      OnlyFacts(start, s1, w, actor);
      if !created {
        var read, raced := ReadTag(w);
        DriftKeepsOld(s1, Now());
        DriftsOnly(s1, Now(), w, actor);
        OnlyFacts(s1, Now(), w, actor);
        OnlyTwice(start, s1, Now(), w, actor);
        NothingSince(s1, Now());
        RespectfulTwice(start, s1, Now());
        if !read {
          return Some(HostFailure);
        }
        if raced != Some(id) {
          return Some(OrphanWindow);
        }
      }
      ghost var s2 := Now();
      OnlyFacts(start, s2, w, actor);
      if explicitName {
        var named := Other(w);
        DriftKeepsOld(s2, Now());
        DriftsOnly(s2, Now(), w, actor);
        OnlyFacts(s2, Now(), w, actor);
        OnlyTwice(start, s2, Now(), w, actor);
        NothingSince(s2, Now());
        RespectfulTwice(start, s2, Now());
        if !named {
          return Some(HostFailure);
        }
      }
      ghost var s3 := Now();
      OnlyFacts(start, s3, w, actor);
      var verified, tag := ReadTag(w);
      DriftKeepsOld(s3, Now());
      DriftsOnly(s3, Now(), w, actor);
      OnlyFacts(s3, Now(), w, actor);
      OnlyTwice(start, s3, Now(), w, actor);
      NothingSince(s3, Now());
      RespectfulTwice(start, s3, Now());
      if !verified {
        return Some(HostFailure);
      }
      return if tag == Some(id) then None else Some(OrphanWindow);
    }

    /**
     In any run of operations, by any processes: the history goes on from where it was to the present, at each of its
     moments a session id tags at most one window of a group, every change of a window's options is on record with its
     process, and no change passes over another live process's binding unless its operation began on a leftover window.
     */
    method AnyRun(steps: nat)
      requires Valid()
      modifies this
      ensures Valid() && old(history) <= history && history[|history| - 1] == Moment(windows, dead)
      ensures AlwaysUnique(history) && Recorded(history, changes)
      ensures old(changes) <= changes
      ensures forall i | |old(changes)| <= i < |changes| :: PassesOver(changes[i]) ==> OnLeftover(changes[i], history)
    {
      ghost var start := Now();
      for k := 0 to steps
        invariant Valid() && Excused(start, Now())
      {
        var choice: nat, pane: nat, id: SessionId, pid: Pid, explicitName: bool := *, *, *, *, *;
        ghost var before := Now();
        if windowOf(pane) !in used {
          Pause();
          DriftsExcused(start, before, Now());
        } else if choice == 0 {
          var bound := BindCurrent(pane, id, pid);
          BindingExcused(start, before, Now(), windowOf(pane), pid);
        } else if choice == 1 {
          var renamed := RenameCurrent(pane, id, pid);
          DriftsExcused(start, before, Now());
        } else if choice == 2 {
          var released := ReleaseCurrent(pane, id, pid);
          RespectfulExcused(start, before, Now());
        } else {
          var restored := RestoreWindow(pane, id, explicitName, pid);
          RespectfulExcused(start, before, Now());
        }
      }
    }
  }

  /** The history and the changes go on, and changes that pass over a binding belong to leftover windows. */
  ghost predicate Excused(a: Snapshot, b: Snapshot) {
    && a.history <= b.history && a.changes <= b.changes
    && forall i | |a.changes| <= i < |b.changes| :: PassesOver(b.changes[i]) ==> OnLeftover(b.changes[i], b.history)
  }

  lemma ExcusedTwice(a: Snapshot, b: Snapshot, c: Snapshot)
    requires Excused(a, b) && Excused(b, c)
    ensures Excused(a, c)
  {
    hide PassesOver, Leftover;
    forall i | |a.changes| <= i < |c.changes| && PassesOver(c.changes[i]) ensures OnLeftover(c.changes[i], c.history) {
      if i < |b.changes| {
        assert c.changes[i] == b.changes[i];
        assert OnLeftover(b.changes[i], b.history);
        assert b.history[b.changes[i].began] == c.history[b.changes[i].began];
      }
    }
  }

  lemma RespectfulExcused(a: Snapshot, b: Snapshot, c: Snapshot)
    requires Excused(a, b) && b.history <= c.history && b.changes <= c.changes && Respectful(Since(b, c))
    ensures Excused(a, c)
  {
    hide PassesOver, OnLeftover;
    forall i | |b.changes| <= i < |c.changes| ensures !PassesOver(c.changes[i]) {
      assert c.changes[i] == Since(b, c)[i - |b.changes|];
    }
    ExcusedTwice(a, b, c);
  }

  lemma DriftsExcused(a: Snapshot, b: Snapshot, c: Snapshot)
    requires Excused(a, b) && Drifts(b, c)
    ensures Excused(a, c)
  {
    RespectfulExcused(a, b, c);
  }

  /** A binding either respects every live owner or began on a leftover window. */
  lemma BindingExcused(a: Snapshot, b: Snapshot, c: Snapshot, w: WindowId, pid: Pid)
    requires Excused(a, b) && b.history != [] && b.history[|b.history| - 1] == Moment(b.windows, b.dead)
    requires Only(b, c, w, Actor(pid, |b.history| - 1))
    requires !(w in b.windows && Leftover(b.windows[w], pid, b.dead)) ==> Respectful(Since(b, c))
    ensures Excused(a, c)
  {
    if Respectful(Since(b, c)) {
      RespectfulExcused(a, b, c);
    } else {
      hide PassesOver, Leftover, Respectful;
      forall i | |b.changes| <= i < |c.changes| ensures OnLeftover(c.changes[i], c.history) {
        assert c.history[c.changes[i].began] == Moment(b.windows, b.dead);
      }
      ExcusedTwice(a, b, c);
    }
  }

  /** What can be done to the options of a window besides tagging it. */
  datatype Setting = UnsetTag | UnsetOwner | SetOwner(pid: Pid)

  function Updated(w: Window, setting: Setting): Window {
    match setting
    case UnsetTag => w.(tag := None)
    case UnsetOwner => w.(owner := None)
    case SetOwner(pid) => w.(owner := Some(pid))
  }

  /** The tags of the windows that have been read are those found. */
  ghost predicate HasRead(bindings: map<WindowId, SessionId>, ids: set<WindowId>, s: Snapshot) {
    forall v | v in s.windows && v in ids ::
      if v in bindings then s.windows[v].tag == Some(bindings[v]) else s.windows[v].tag.None?
  }

  lemma NothingRead(group: nat, s: Snapshot)
    ensures forall ids: set<WindowId> :: HasRead(map[], ids - ids, s)
  {
  }

  lemma NothingTagged(group: nat, s: Snapshot)
    ensures WereTagged(map[], group, s)
  {
  }

  lemma OneMoreTagged(bindings: map<WindowId, SessionId>, group: nat, s: Snapshot, v: WindowId, tag: SessionId)
    requires WereTagged(bindings, group, s)
    requires v in s.windows && s.windows[v].group == group && s.windows[v].tag == Some(tag)
    ensures WereTagged(bindings[v := tag], group, s)
  {
  }

  lemma BoundWasTagged(bindings: map<WindowId, SessionId>, group: nat, w: WindowId, s: Snapshot)
    requires WereTagged(bindings, group, s)
    ensures w in bindings ==> w in s.windows && s.windows[w].tag == Some(bindings[w])
  {
  }

  lemma StaysInGroup(w: WindowId, group: nat, a: Snapshot, b: Snapshot)
    requires Drifts(a, b) && w in a.used && w in a.windows && a.windows[w].group == group
    ensures w in b.windows ==> b.windows[w].group == group
  {
  }

  lemma DriftsNot(s: Snapshot)
    ensures Drifts(s, s)
  {
  }

  lemma InUsed(ids: set<WindowId>, group: nat, a: Snapshot, b: Snapshot)
    requires Drifts(a, b) && a.windows.Keys <= a.used
    requires ids == set v | v in a.windows && a.windows[v].group == group
    ensures ids <= b.used
  {
  }

  lemma HasReadStays(bindings: map<WindowId, SessionId>, ids: set<WindowId>, a: Snapshot, b: Snapshot)
    requires HasRead(bindings, ids, a) && Drifts(a, b) && ids <= a.used
    ensures HasRead(bindings, ids, b)
  {
  }

  lemma HasReadMore(bindings: map<WindowId, SessionId>, ids: set<WindowId>, s: Snapshot, v: WindowId)
    requires HasRead(bindings, ids, s) && v in s.windows && v !in ids && bindings.Keys <= ids
    ensures match s.windows[v].tag
            case None => HasRead(bindings, ids + {v}, s)
            case Some(tag) => HasRead(bindings[v := tag], ids + {v}, s)
  {
  }

  lemma ReadIsSeen(bindings: map<WindowId, SessionId>, ids: set<WindowId>, group: nat, w: WindowId, a: Snapshot,
      b: Snapshot)
    requires Drifts(a, b) && a.windows.Keys <= a.used && w in a.used
    requires ids == set v | v in a.windows && a.windows[v].group == group
    requires w in a.windows ==> a.windows[w].group == group
    requires HasRead(bindings, ids, b) && bindings.Keys <= ids
    ensures Sees(CurrentWindow(group, w, if w in bindings then Some(bindings[w]) else None, bindings), b)
  {
  }

  // ---- A window left over ------------------------------------------------------------------------

  /** A window tagged and owned by `p`: its tag goes, `q` tags it, and `q` records itself as its owner. */
  function Handover(p: Pid, first: SessionId, q: Pid, second: SessionId): (seq<Moment>, seq<Alteration>) {
    var w0 := Window(0, Some(first), Some(p));
    var w1 := Updated(w0, UnsetTag);
    var w2 := w1.(tag := Some(second));
    var w3 := Updated(w2, SetOwner(q));
    ([Moment(map[1 := w0], {}), Moment(map[1 := w1], {}), Moment(map[1 := w2], {}), Moment(map[1 := w3], {})],
     [Altered(1, w0, w1, {}, 1, p, 0), Altered(1, w1, w2, {}, 2, q, 1), Altered(1, w2, w3, {}, 3, q, 1)])
  }

  /**
   A release that takes the tag off and then fails leaves the window over to a live owner, and the next process to bind
   it passes over that owner. Every single change is one that the program makes, and the tags stay unique.
   */
  lemma HalfReleaseIsTakenOver(p: Pid, first: SessionId, q: Pid, second: SessionId)
    requires p != q
    ensures var (history, changes) := Handover(p, first, q, second);
            && AlwaysUnique(history) && Recorded(history, changes)
            && Leftover(history[1].windows[1], q, history[1].dead)
            && !PassesOver(changes[0]) && !PassesOver(changes[1])
            && PassesOver(changes[2]) && OnLeftover(changes[2], history)
  {
    var (history, changes) := Handover(p, first, q, second);
    forall i | 0 < i < |history| ensures StepRecorded(history, changes, i) {
      HandoverStep(p, first, q, second, i);
    }
  }

  lemma HandoverStep(p: Pid, first: SessionId, q: Pid, second: SessionId, i: nat)
    requires 1 <= i <= 3
    ensures var (history, changes) := Handover(p, first, q, second);
            changes[i - 1] in changes && ChangeStep(history, i, changes[i - 1])
  {
    var (history, changes) := Handover(p, first, q, second);
    assert history[i].windows == history[i - 1].windows[1 := changes[i - 1].after];
  }

  function AssertBinding(c: CurrentWindow, id: SessionId): Option<HostError> {
    if c.bound.Some? && c.bound.value != id then
      Some(BindingConflict(c.bound))
    else if exists w | w in c.bindings :: w != c.windowId && c.bindings[w] == id then
      Some(DuplicateBinding)
    else
      None
  }

  /** A window that has the tag now is the only one that was found with it. */
  lemma OwnTagIsOnly(c: CurrentWindow, s: Snapshot, id: SessionId)
    requires Saw(c, s) && Unique(s.windows) && s.windows[c.windowId].tag == Some(id)
    ensures forall v | v in c.bindings && c.bindings[v] == id :: v == c.windowId
  {
  }

  /** What `c0` has become when its window was looked at for staleness. */
  ghost predicate AfterReclaiming(c0: CurrentWindow, c: CurrentWindow, s: Snapshot, id: SessionId) {
    if c0.bound.None? then
      c == c0
    else
      && c0.windowId in s.windows
      && (c == c0 <==> s.windows[c0.windowId].owner.None? || c0.bound == Some(id))
      && (c != c0 ==> c == c0.(bound := None, bindings := c0.bindings - {c0.windowId}))
  }

  lemma OwnerIsRefusal(c: CurrentWindow, a: Snapshot, b: Snapshot, id: SessionId, pid: Pid)
    requires Drifts(a, b) && Sees(c, b) && Saw(c, a)
    ensures c.bound.Some? && c.windowId in b.windows && OwnedByOther(b.windows[c.windowId], pid, b.dead) ==>
      BindingRefused(BindingConflict(c.bound), a.windows, a.dead, c.windowId, id, pid)
  {
  }

  lemma ConflictIsRefusal(c0: CurrentWindow, c: CurrentWindow, a: Snapshot, b: Snapshot, id: SessionId, pid: Pid)
    requires Drifts(a, b) && Sees(c0, b) && Saw(c0, a) && AfterReclaiming(c0, c, b, id) && AssertBinding(c, id).Some?
    requires c0.windowId in a.used
    ensures BindingRefused(AssertBinding(c, id).value, a.windows, a.dead, c0.windowId, id, pid)
  {
  }

  lemma UnclaimedConflicts(c0: CurrentWindow, c: CurrentWindow, a: Snapshot, b: Snapshot, id: SessionId)
    requires Drifts(a, b) && Sees(c0, b) && AfterReclaiming(c0, c, b, id) && AssertBinding(c, id).None?
    requires c0.windowId in a.used
    ensures c0.windowId in a.windows && c0.windowId in b.windows ==> !Unclaimed(a.windows[c0.windowId], id)
  {
  }

  lemma UnusableIsRefusal(c: CurrentWindow, a: Snapshot, b: Snapshot, id: SessionId, pid: Pid)
    requires Drifts(a, b) && Sees(c, b) && Saw(c, a) && AssertBinding(c, id).Some?
    ensures UseRefused(AssertBinding(c, id).value, a.windows, a.dead, c.windowId, id, pid)
  {
  }

  lemma OwnedIsRefusal(c: CurrentWindow, a: Snapshot, b: Snapshot, id: SessionId, pid: Pid)
    requires Drifts(a, b) && Sees(c, b) && Saw(c, a)
    ensures c.windowId in b.windows && OwnedByOther(b.windows[c.windowId], pid, b.dead) ==>
      UseRefused(BindingConflict(c.bound), a.windows, a.dead, c.windowId, id, pid)
  {
  }

  lemma OwnedLater(s: Snapshot, w: WindowId, pid: Pid, dead: set<Pid>)
    ensures w in s.windows ==>
      forall later | dead <= later && OwnedByOther(s.windows[w], pid, later) :: OwnedByOther(s.windows[w], pid, dead)
  {
  }

  lemma NotOfAnother(c: CurrentWindow, s: Snapshot, id: SessionId)
    requires Sees(c, s) && AssertBinding(c, id).None?
    ensures c.windowId in s.windows ==> !OfAnother(s.windows[c.windowId], id)
    ensures c.bound.None? || c.bound == Some(id)
  {
  }

  lemma SawFacts(c: CurrentWindow, s: Snapshot)
    requires Saw(c, s)
    ensures c.windowId in s.windows && s.windows[c.windowId].group == c.group
    ensures forall v | v in c.bindings ::
      v in s.windows && s.windows[v].group == c.group && s.windows[v].tag == Some(c.bindings[v])
  {
  }

  lemma TwoMatches(c: CurrentWindow, s: Snapshot, id: SessionId, matches: set<WindowId>)
    requires Saw(c, s) && |matches| > 1 && forall w | w in matches :: w in c.bindings && c.bindings[w] == id
    ensures !Unique(s.windows)
  {
    var v :| v in matches;
    var rest := matches - {v};
    assert |rest| == |matches| - 1;
    var w :| w in rest;
    assert s.windows[v].tag == s.windows[w].tag;
  }

  /** A tag that was not seen is given to the one window only. */
  lemma NoneTagged(c: CurrentWindow, a: Snapshot, b: Snapshot, w: WindowId, id: SessionId, actor: Actor)
    requires Sees(c, a) && Only(a, b, w, actor) && forall v | v in c.bindings :: c.bindings[v] != id
    ensures forall v | v in b.windows && v != w && b.windows[v].group == c.group :: b.windows[v].tag != Some(id)
  {
  }

  lemma OnlyFacts(a: Snapshot, b: Snapshot, w: WindowId, actor: Actor)
    requires Only(a, b, w, actor)
    ensures a.used <= b.used && a.dead <= b.dead && a.changes <= b.changes
    ensures w in b.windows ==> w in a.windows && b.windows[w].group == a.windows[w].group
    ensures a.changes == b.changes ==> Drifts(a, b)
  {
  }

  lemma NoChange(a: Snapshot, w: WindowId, actor: Actor)
    requires w in a.used
    ensures Only(a, a, w, actor) && Since(a, a) == [] && Respectful([])
  {
  }

  lemma NothingSince(a: Snapshot, b: Snapshot)
    requires Drifts(a, b)
    ensures a.changes == b.changes && Since(a, b) == [] && Respectful([])
  {
  }

  lemma SeesIsUsed(c: CurrentWindow, s: Snapshot)
    requires Sees(c, s)
    ensures c.windowId in s.used
    ensures c.windowId in s.windows ==> s.windows[c.windowId].tag == c.bound
  {
  }

  /** A window whose owner can be told to be dead or the caller later could not have had a live other owner before. */
  lemma SettledBefore(a: Snapshot, b: Snapshot, w: WindowId, pid: Pid)
    requires Drifts(a, b) && Settled(b, w, pid) && w in b.windows && w in a.used
    ensures Settled(a.(dead := b.dead), w, pid)
  {
  }

  lemma OwnedEarlier(w: Window, pid: Pid, before: set<Pid>, after: set<Pid>)
    requires before <= after
    ensures OwnedByOther(w, pid, after) ==> OwnedByOther(w, pid, before)
  {
  }

  lemma DeadGrows(a: Snapshot, b: Snapshot, c: Snapshot, w: WindowId, pid: Pid)
    requires Settled(a.(dead := b.dead), w, pid) && b.dead <= c.dead
    ensures Settled(a.(dead := c.dead), w, pid)
  {
  }

  lemma SeesReclaimed(c: CurrentWindow, a: Snapshot, b: Snapshot, actor: Actor)
    requires Sees(c, a) && Only(a, b, c.windowId, actor)
    requires c.windowId in b.windows ==> b.windows[c.windowId].tag.None?
    ensures Sees(c.(bound := None, bindings := c.bindings - {c.windowId}), b)
  {
  }

  /** What the caller's window was like when it was first looked at. */
  lemma Opening(a: Snapshot, b: Snapshot, c: CurrentWindow, pid: Pid)
    requires Drifts(a, b) && Sees(c, b) && c.windowId in a.used
    ensures c.windowId in a.windows && c.windowId in b.windows ==> a.windows[c.windowId].tag == c.bound
    ensures c.bound.None? && !(c.windowId in a.windows && Leftover(a.windows[c.windowId], pid, a.dead)) ==>
      Settled(b, c.windowId, pid)
  {
  }

  lemma StillTheSame(a: Snapshot, b: Snapshot, w: WindowId, actor: Actor)
    requires Only(a, b, w, actor) && a.changes == b.changes && w in a.used
    ensures w in b.windows ==> w in a.windows && b.windows[w] == a.windows[w]
  {
  }

  lemma ProtectedIsNotSettled(a: Snapshot, b: Snapshot, w: WindowId, pid: Pid, dead: set<Pid>)
    ensures w in a.windows && w in b.windows && a.windows[w] == b.windows[w] && Protected(a.windows[w], pid, dead) ==>
      !Settled(b.(dead := dead), w, pid) && a.windows[w].tag.Some?
  {
  }

  /** Who is live later is live earlier. */
  lemma ProtectedEarlier(a: Snapshot, w: WindowId, pid: Pid, dead: set<Pid>)
    ensures w in a.windows ==>
      forall later | dead <= later && Protected(a.windows[w], pid, later) :: Protected(a.windows[w], pid, dead)
  {
  }

  /** Recording an owner over a live one is a change that passes over it. */
  lemma TookOver(b: Snapshot, c: Snapshot, w: WindowId, actor: Actor)
    requires Only(b, c, w, actor) && w in b.windows && b.windows[w].tag.Some?
    requires |Since(b, c)| == 1 && Since(b, c)[0].before == b.windows[w] && Since(b, c)[0].dead == c.dead
    ensures forall x: Window | x.owner == b.windows[w].owner && OwnedByOther(x, actor.pid, c.dead) ::
      !Respectful(Since(b, c))
  {
    assert Since(b, c)[0] == c.changes[|b.changes|];
    forall x: Window | x.owner == b.windows[w].owner && OwnedByOther(x, actor.pid, c.dead)
      ensures !Respectful(Since(b, c))
    {
      assert PassesOver(Since(b, c)[0]);
    }
  }

  lemma LeftoverEarlier(a: Snapshot, w: WindowId, pid: Pid, dead: set<Pid>)
    ensures w in a.windows ==>
      forall later | dead <= later && Leftover(a.windows[w], pid, later) ::
        a.windows[w].tag.None? && OwnedByOther(a.windows[w], pid, dead)
  {
  }

  lemma SettledNow(s: Snapshot, w: WindowId, pid: Pid)
    requires Settled(s, w, pid)
    ensures w in s.windows ==> !OwnedByOther(s.windows[w], pid, s.dead)
  {
  }

  lemma ProtectedIsOwned(s: Snapshot, w: WindowId, pid: Pid, dead: set<Pid>)
    ensures w in s.windows && Protected(s.windows[w], pid, dead) ==> OwnedByOther(s.windows[w], pid, dead)
  {
  }

  lemma DriftKeepsOld(a: Snapshot, b: Snapshot)
    requires Drifts(a, b)
    ensures a.used <= b.used && a.history <= b.history
    ensures forall w | w in b.windows && w in a.used :: w in a.windows && b.windows[w] == a.windows[w]
  {
  }

  lemma BoundIsTagged(c: CurrentWindow, s: Snapshot, w: WindowId)
    requires Sees(c, s) && w in c.bindings
    ensures w in s.windows ==> s.windows[w].tag == Some(c.bindings[w])
  {
  }

  lemma SeesNew(c: CurrentWindow, s: Snapshot, w: WindowId)
    requires Sees(c, s) && w in s.used && w in s.windows && s.windows[w] == Window(c.group, None, None)
    ensures Sees(CurrentWindow(c.group, w, None, c.bindings), s)
  {
  }

  lemma OldKept(a: Snapshot, b: Snapshot, c: Snapshot, w: WindowId, actor: Actor)
    requires Drifts(a, b) && Only(b, c, w, actor) && w !in a.used
    ensures a.used <= c.used && a.history <= c.history && a.changes <= b.changes <= c.changes
    ensures forall v | v in c.windows && v in a.used :: v in a.windows && c.windows[v] == a.windows[v]
  {
  }
}
