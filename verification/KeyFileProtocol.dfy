/**
 Any number of writers sharing one key file, step by step, with crashes anywhere.

 A writer takes the advisory lock, re-reads the file, edits its own view, writes a
 private temporary and renames it over the file. `log` is the history of what was
 renamed into place, in the order of the locks; the theorems say that the file never
 holds anything but the replay of that history.
 */
module KeyFileProtocol {
  import opened Wrappers
  import opened KeyFile

  type Pid = nat
  type CallId = nat

  /** Where a writer stands in an update. */
  datatype Phase =
    | Idle
    | Locked(call: CallId, edits: seq<Edit>)                              // lock held, file not yet read
    | Editing(call: CallId, edits: seq<Edit>, existed: bool, done: nat)   // `done` edits applied to the view
    | Written(call: CallId, edits: seq<Edit>, existed: bool)              // temporary complete and flushed
    | Renamed(call: CallId)                                               // installed, directory not yet flushed

  /** `trail` lists the edits made to the view since it was opened as a fresh one. */
  datatype Writer = Writer(kek: Kek, view: Entries, phase: Phase, trail: seq<Edit>)

  /** One rename: the call that did it, the edits it published, and among them how many
      were carried over from earlier, failed calls. */
  datatype Commit = Commit(call: CallId, kek: Kek, carried: seq<Edit>, batch: seq<Edit>)

  datatype System = System(
    file: Option<Image>,
    lock: Option<Pid>,
    writers: map<Pid, Writer>,
    log: seq<Commit>,
    calls: map<CallId, seq<Edit>>,
    dropped: set<CallId>)

  const START := System(None, None, map[], [], map[], {})

  datatype Step =
    | OpenExisting(p: Pid, passphrase: string, probe: Option<string>)
    | OpenFresh(p: Pid, passphrase: string, salt: Salt)
    | Lock(p: Pid, call: CallId, edits: seq<Edit>)
    | Refresh(p: Pid)
    | Apply(p: Pid)
    | Write(p: Pid)
    | Rename(p: Pid)
    | Finish(p: Pid)     // unlock after success, or after the directory flush failed
    | Fail(p: Pid)       // any error between lock and rename
    | Crash(p: Pid)

  function CallOf(phase: Phase): Option<CallId> {
    match phase
    case Idle => None
    case Renamed(_) => None
    case _ => Some(phase.call)
  }

  /** The calls a writer loses when it stops before its rename. */
  function Lost(phase: Phase): set<CallId> {
    if CallOf(phase).Some? then {CallOf(phase).value} else {}
  }

  function WithWriter(s: System, p: Pid, w: Writer): System { s.(writers := s.writers[p := w]) }

  function Release(s: System, p: Pid): System { if s.lock == Some(p) then s.(lock := None) else s }

  /** The temporary of a writer renamed over the file. */
  function Installed(s: System, p: Pid): System
    requires p in s.writers && s.writers[p].phase.Written?
  {
    var w := s.writers[p];
    var n := |w.trail| - |w.phase.edits|;
    var carried := if w.phase.existed || n < 0 then [] else w.trail[..n];
    WithWriter(s, p, w.(phase := Renamed(w.phase.call))).(
      file := Some(Image(w.kek.salt, w.view)),
      log := s.log + [Commit(w.phase.call, w.kek, carried, w.phase.edits)])
  }

  /** One step of one writer, if it is enabled. */
  function Exec(s: System, step: Step): Option<System> {
    var p := step.p;
    match step
    case OpenExisting(_, passphrase, probe) =>
      if p in s.writers || s.file.None? then None else
        var kek := Kek(passphrase, s.file.value.salt);
        // one stored entry, if there is any, must open
        if probe.None? && s.file.value.entries != map[] then None
        else if probe.Some? && probe.value !in s.file.value.entries then None
        else if probe.Some? && DecryptEntry(kek, s.file.value.entries, probe.value).Err? then None
        else Some(WithWriter(s, p, Writer(kek, s.file.value.entries, Idle, [])))
    case OpenFresh(_, passphrase, salt) =>
      if p in s.writers || s.file.Some? then None
      else Some(WithWriter(s, p, Writer(Kek(passphrase, salt), map[], Idle, [])))
    case Lock(_, call, edits) =>
      if p !in s.writers || s.lock.Some? || !s.writers[p].phase.Idle? || call in s.calls then None
      else Some(WithWriter(s, p, s.writers[p].(phase := Locked(call, edits))).(lock := Some(p), calls := s.calls[call := edits]))
    case Refresh(_) =>
      if p !in s.writers || !s.writers[p].phase.Locked? then None else
        var w := s.writers[p];
        if s.file.None? then Some(WithWriter(s, p, w.(phase := Editing(w.phase.call, w.phase.edits, false, 0))))
        else if s.file.value.salt != w.kek.salt then None
        else Some(WithWriter(s, p, w.(view := s.file.value.entries, phase := Editing(w.phase.call, w.phase.edits, true, 0))))
    case Apply(_) =>
      if p !in s.writers || !s.writers[p].phase.Editing? then None else
        var w := s.writers[p];
        if w.phase.done >= |w.phase.edits| then None else
          var e := w.phase.edits[w.phase.done];
          Some(WithWriter(s, p, w.(view := ApplyEdit(w.kek, w.view, e),
                                   phase := w.phase.(done := w.phase.done + 1),
                                   trail := w.trail + [e])))
    case Write(_) =>
      if p !in s.writers || !s.writers[p].phase.Editing? then None else
        var w := s.writers[p];
        if w.phase.done != |w.phase.edits| then None
        else Some(WithWriter(s, p, w.(phase := Written(w.phase.call, w.phase.edits, w.phase.existed))))
    case Rename(_) =>
      if p !in s.writers || !s.writers[p].phase.Written? then None else Some(Installed(s, p))
    case Finish(_) =>
      if p !in s.writers || !s.writers[p].phase.Renamed? then None
      else Some(Release(WithWriter(s, p, s.writers[p].(phase := Idle)), p))
    case Fail(_) =>
      if p !in s.writers || CallOf(s.writers[p].phase).None? then None
      else Some(Release(WithWriter(s, p, s.writers[p].(phase := Idle)), p).(dropped := s.dropped + Lost(s.writers[p].phase)))
    case Crash(_) =>
      if p !in s.writers then None
      else Some(Release(s.(writers := s.writers - {p}), p).(dropped := s.dropped + Lost(s.writers[p].phase)))
  }

  function Run(s: System, steps: seq<Step>): Option<System>
    decreases |steps|
  {
    if steps == [] then Some(s)
    else
      match Exec(s, steps[0])
      case None => None
      case Some(s') => Run(s', steps[1..])
  }

  // ----------------------------------------------------------------------
  // The invariant
  // ----------------------------------------------------------------------

  /** What a history of renames leaves, starting from no entries at all. */
  ghost function Replay(log: seq<Commit>): Entries {
    if log == [] then map[]
    else
      var c := log[|log| - 1];
      ApplyEdits(c.kek, Replay(log[..|log| - 1]), c.carried + c.batch)
  }

  /** The file is the replay of the history, and it is absent only before the first rename. */
  ghost predicate FileIsReplay(s: System) {
    if s.file.None? then s.log == []
    else s.log != [] && s.file.value == Image(s.log[0].kek.salt, Replay(s.log))
  }

  /** Only the lock holder is inside an update. */
  ghost predicate LockHeld(s: System) {
    && (s.lock.Some? ==> s.lock.value in s.writers && !s.writers[s.lock.value].phase.Idle?)
    && (forall p <- s.writers :: !s.writers[p].phase.Idle? ==> s.lock == Some(p))
  }

  /** A writer's view is explained by the file or, while there is none, by its own trail. */
  ghost predicate ViewExplained(s: System, w: Writer) {
    && (s.file.None? ==> w.view == ApplyEdits(w.kek, map[], w.trail) && !w.phase.Renamed?)
    && (w.phase.Editing? ==>
          && w.phase.done <= |w.phase.edits|
          && w.phase.existed == s.file.Some?
          && Explained(s, w, w.phase.edits[..w.phase.done]))
    && (w.phase.Written? ==> w.phase.existed == s.file.Some? && Explained(s, w, w.phase.edits))
  }

  ghost predicate Explained(s: System, w: Writer, made: seq<Edit>) {
    && (s.file.Some? ==> s.file.value.salt == w.kek.salt && w.view == ApplyEdits(w.kek, s.file.value.entries, made))
    && (s.file.None? ==> |made| <= |w.trail| && w.trail[|w.trail| - |made|..] == made)
  }

  /** Each commit is one recorded call, committed once, and not one that was given up. */
  ghost predicate CommitsAreCalls(s: System) {
    && (forall k :: 0 <= k < |s.log| ==>
          s.log[k].call in s.calls && s.log[k].batch == s.calls[s.log[k].call] && s.log[k].call !in s.dropped)
    && (forall i, j :: 0 <= i < j < |s.log| ==> s.log[i].call != s.log[j].call)
    && (forall c <- s.dropped :: c in s.calls)
  }

  ghost predicate Committed(s: System, c: CallId) {
    exists k :: 0 <= k < |s.log| && s.log[k].call == c
  }

  /** A call in progress is recorded, not committed and not given up. */
  ghost predicate CallsInProgress(s: System) {
    forall p <- s.writers :: CallOf(s.writers[p].phase).Some? ==>
      var phase := s.writers[p].phase;
      phase.call in s.calls && phase.edits == s.calls[phase.call] && phase.call !in s.dropped && !Committed(s, phase.call)
  }

  /** Only the commit that creates the file can publish edits of earlier calls. */
  ghost predicate OnlyFirstCarries(s: System) {
    forall k :: 0 < k < |s.log| ==> s.log[k].carried == []
  }

  /** All commits seal under the file's salt. */
  ghost predicate OneSalt(s: System) {
    forall k :: 0 <= k < |s.log| ==> s.log[k].kek.salt == s.log[0].kek.salt
  }

  ghost predicate Inv(s: System) {
    && FileIsReplay(s) && LockHeld(s)
    && (forall p <- s.writers :: ViewExplained(s, s.writers[p]))
    && CommitsAreCalls(s) && CallsInProgress(s) && OnlyFirstCarries(s) && OneSalt(s)
  }

  // ----------------------------------------------------------------------
  // Every step keeps the invariant
  // ----------------------------------------------------------------------

  /** The parts of the invariant that speak of the history only. */
  ghost predicate HistoryInv(s: System) {
    FileIsReplay(s) && CommitsAreCalls(s) && OnlyFirstCarries(s) && OneSalt(s)
  }

  lemma OpenKeeps(s: System, step: Step)
    requires Inv(s) && (step.OpenExisting? || step.OpenFresh?) && Exec(s, step).Some?
    ensures Inv(Exec(s, step).value)
  {
    Joins(s, step);
    JoiningKeeps(s, step.p, Exec(s, step).value.writers[step.p]);
  }

  lemma Joins(s: System, step: Step)
    requires (step.OpenExisting? || step.OpenFresh?) && Exec(s, step).Some?
    ensures var s', p := Exec(s, step).value, step.p;
            && p !in s.writers && p in s'.writers && s' == WithWriter(s, p, s'.writers[p])
            && s'.writers[p].phase.Idle? && s'.writers[p].trail == [] && (s.file.None? ==> s'.writers[p].view == map[])
  {
  }

  /** A new writer, idle and without edits, keeps the invariant. */
  lemma JoiningKeeps(s: System, p: Pid, w: Writer)
    requires Inv(s) && p !in s.writers && w.phase.Idle? && w.trail == [] && (s.file.None? ==> w.view == map[])
    ensures Inv(WithWriter(s, p, w))
  {
    var s' := WithWriter(s, p, w);
    HistoryUnmoved(s, s');
    JoinedCalls(s, p, w);
    forall q | q in s'.writers
      ensures ViewExplained(s', s'.writers[q])
    {
      if q != p { assert ViewExplained(s, s.writers[q]); }
    }
  }

  lemma JoinedCalls(s: System, p: Pid, w: Writer)
    requires CallsInProgress(s) && p !in s.writers && w.phase.Idle?
    ensures CallsInProgress(WithWriter(s, p, w))
  {
    forall q | q in s.writers && CallOf(s.writers[q].phase).Some?
      ensures !Committed(WithWriter(s, p, w), s.writers[q].phase.call)
    {
      assert !Committed(s, s.writers[q].phase.call);
    }
  }

  lemma LockKeeps(s: System, step: Step)
    requires Inv(s) && step.Lock? && Exec(s, step).Some?
    ensures Inv(Exec(s, step).value)
  {
    var s', p := Exec(s, step).value, step.p;
    assert ViewExplained(s, s.writers[p]);
    forall q | q in s'.writers
      ensures ViewExplained(s', s'.writers[q])
    {
      if q != p { assert ViewExplained(s, s.writers[q]); }
    }
    LockRecords(s, step);
  }

  /** The call that took the lock is new, so it is in no commit. */
  lemma LockRecords(s: System, step: Step)
    requires Inv(s) && step.Lock? && Exec(s, step).Some?
    ensures CommitsAreCalls(Exec(s, step).value) && CallsInProgress(Exec(s, step).value)
  {
    var s', p := Exec(s, step).value, step.p;
    assert !Committed(s, step.call);
    forall q | q in s'.writers && CallOf(s'.writers[q].phase).Some?
      ensures var phase := s'.writers[q].phase;
              phase.call in s'.calls && phase.edits == s'.calls[phase.call] && phase.call !in s'.dropped && !Committed(s', phase.call)
    {
      assert q == p;
    }
  }

  /** Moving one writer on within its call leaves the other bookkeeping alone. */
  lemma SameProgress(s: System, s': System, p: Pid)
    requires CallsInProgress(s) && p in s.writers && CallOf(s.writers[p].phase).Some?
    requires s' == s.(writers := s'.writers) && s'.writers.Keys == s.writers.Keys
    requires forall q <- s.writers :: q != p ==> s'.writers[q] == s.writers[q]
    requires CallOf(s'.writers[p].phase) == CallOf(s.writers[p].phase)
    requires s'.writers[p].phase.edits == s.writers[p].phase.edits
    ensures CallsInProgress(s')
  {
    forall q | q in s'.writers && CallOf(s'.writers[q].phase).Some?
      ensures var phase := s'.writers[q].phase;
              phase.call in s'.calls && phase.edits == s'.calls[phase.call] && phase.call !in s'.dropped && !Committed(s', phase.call)
    {
      assert CallOf(s.writers[q].phase).Some?;
      assert !Committed(s, s.writers[q].phase.call);
    }
  }

  /** What one writer does to its own view concerns no other writer. */
  lemma OthersUnmoved(s: System, s': System, p: Pid)
    requires p in s.writers && p in s'.writers && s' == s.(writers := s.writers[p := s'.writers[p]])
    requires forall q <- s.writers :: ViewExplained(s, s.writers[q])
    requires ViewExplained(s', s'.writers[p])
    ensures forall q <- s'.writers :: ViewExplained(s', s'.writers[q])
  {
    forall q | q in s'.writers && q != p
      ensures ViewExplained(s', s'.writers[q])
    {
      assert s'.writers[q] == s.writers[q] && ViewExplained(s, s.writers[q]);
    }
  }

  lemma HistoryUnmoved(s: System, s': System)
    requires HistoryInv(s) && s' == s.(writers := s'.writers)
    ensures HistoryInv(s')
  {
  }

  lemma LockUnmoved(s: System, s': System, p: Pid)
    requires LockHeld(s) && p in s.writers && p in s'.writers && !s.writers[p].phase.Idle?
    requires s' == s.(writers := s.writers[p := s'.writers[p]]) && !s'.writers[p].phase.Idle?
    ensures LockHeld(s')
  {
  }

  /** A writer that goes on within its call keeps the invariant if its own view stays explained. */
  lemma MovingOnKeeps(s: System, s': System, p: Pid)
    requires Inv(s) && p in s.writers && p in s'.writers && s' == s.(writers := s.writers[p := s'.writers[p]])
    requires CallOf(s.writers[p].phase).Some? && CallOf(s'.writers[p].phase) == CallOf(s.writers[p].phase)
    requires s'.writers[p].phase.edits == s.writers[p].phase.edits
    requires ViewExplained(s', s'.writers[p])
    ensures Inv(s')
  {
    OthersUnmoved(s, s', p);
    SameProgress(s, s', p);
    HistoryUnmoved(s, s');
    LockUnmoved(s, s', p);
  }

  lemma RefreshKeeps(s: System, step: Step)
    requires Inv(s) && step.Refresh? && Exec(s, step).Some?
    ensures Inv(Exec(s, step).value)
  {
    var s', p := Exec(s, step).value, step.p;
    var w, w' := s.writers[p], s'.writers[p];
    assert ViewExplained(s, w);
    assert w'.phase.edits[..0] == [];
    assert s.file.None? ==> w'.trail[|w'.trail| - 0..] == [];
    MovingOnKeeps(s, s', p);
  }

  lemma ApplyKeeps(s: System, step: Step)
    requires Inv(s) && step.Apply? && Exec(s, step).Some?
    ensures Inv(Exec(s, step).value)
  {
    var s', p := Exec(s, step).value, step.p;
    var w, w' := s.writers[p], s'.writers[p];
    assert ViewExplained(s, w);
    AppliedExplained(s, w);
    MovingOnKeeps(s, s', p);
  }

  lemma AppliedExplained(s: System, w: Writer)
    requires w.phase.Editing? && w.phase.done < |w.phase.edits| && ViewExplained(s, w)
    ensures var e := w.phase.edits[w.phase.done];
            ViewExplained(s, w.(view := ApplyEdit(w.kek, w.view, e),
                                phase := w.phase.(done := w.phase.done + 1), trail := w.trail + [e]))
  {
    var made, e := w.phase.edits[..w.phase.done], w.phase.edits[w.phase.done];
    assert w.phase.edits[..w.phase.done + 1] == made + [e];
    OneMoreEdit(s, w, made, e);
  }

  lemma OneMoreEdit(s: System, w: Writer, made: seq<Edit>, e: Edit)
    requires Explained(s, w, made)
    requires s.file.None? ==> w.view == ApplyEdits(w.kek, map[], w.trail)
    ensures var w' := w.(view := ApplyEdit(w.kek, w.view, e), trail := w.trail + [e]);
            Explained(s, w', made + [e]) && (s.file.None? ==> w'.view == ApplyEdits(w.kek, map[], w'.trail))
  {
    assert (made + [e])[..|made|] == made;
    assert (w.trail + [e])[..|w.trail|] == w.trail;
    if s.file.None? {
      var n := |w.trail| - |made|;
      assert (w.trail + [e])[n..] == w.trail[n..] + [e];
    }
  }

  lemma WriteKeeps(s: System, step: Step)
    requires Inv(s) && step.Write? && Exec(s, step).Some?
    ensures Inv(Exec(s, step).value)
  {
    var s', p := Exec(s, step).value, step.p;
    var w := s.writers[p];
    assert ViewExplained(s, w);
    assert w.phase.edits[..w.phase.done] == w.phase.edits;
    MovingOnKeeps(s, s', p);
  }

  /** The rename turns the file into the replay of the longer history. */
  lemma RenameReplays(s: System, p: Pid)
    requires FileIsReplay(s) && p in s.writers && s.writers[p].phase.Written? && ViewExplained(s, s.writers[p])
    ensures FileIsReplay(Installed(s, p))
  {
    var s', w := Installed(s, p), s.writers[p];
    var c := s'.log[|s.log|];
    assert s'.log[..|s.log|] == s.log;
    if s.file.None? {
      assert c.carried + c.batch == w.trail;
    } else {
      assert c.carried + c.batch == w.phase.edits;
    }
  }

  lemma RenameKeeps(s: System, p: Pid)
    requires Inv(s) && p in s.writers && s.writers[p].phase.Written?
    ensures Inv(Installed(s, p))
  {
    var s' := Installed(s, p);
    assert ViewExplained(s, s.writers[p]);
    RenameReplays(s, p);
    assert forall q <- s'.writers :: q == p || (q in s.writers && s'.writers[q] == s.writers[q]);
    forall q | q in s'.writers
      ensures ViewExplained(s', s'.writers[q])
    {
      assert ViewExplained(s, s.writers[q]);
      assert q != p ==> s.writers[q].phase.Idle?;
    }
    RenameRecords(s, p);
    RenameSalts(s, p);
  }

  /** A rename over an existing file carries nothing and seals under its salt. */
  lemma RenameSalts(s: System, p: Pid)
    requires FileIsReplay(s) && OneSalt(s) && OnlyFirstCarries(s)
    requires p in s.writers && s.writers[p].phase.Written? && ViewExplained(s, s.writers[p])
    ensures OneSalt(Installed(s, p)) && OnlyFirstCarries(Installed(s, p))
  {
  }

  /** The new commit is the call in progress, and no other call had been committed as it. */
  lemma RenameRecords(s: System, p: Pid)
    requires Inv(s) && p in s.writers && s.writers[p].phase.Written?
    ensures CommitsAreCalls(Installed(s, p)) && CallsInProgress(Installed(s, p))
  {
    var s', call := Installed(s, p), s.writers[p].phase.call;
    assert forall q <- s'.writers :: q == p || (q in s.writers && s'.writers[q] == s.writers[q]);
    assert !Committed(s, call);
    forall i, j | 0 <= i < j < |s'.log|
      ensures s'.log[i].call != s'.log[j].call
    {
      if j == |s.log| { assert s.log[i].call != call; }
    }
  }

  /** What finishing, failing and crashing have in common: the writer leaves its update. */
  ghost predicate Leaves(s: System, s': System, p: Pid)
    requires p in s.writers
  {
    && s'.file == s.file && s'.log == s.log && s'.calls == s.calls
    && s'.dropped == s.dropped + Lost(s.writers[p].phase)
    && s'.lock == (if s.lock == Some(p) then None else s.lock)
    && (forall q <- s'.writers :: q in s.writers && (q != p ==> s'.writers[q] == s.writers[q]))
    && (forall q <- s.writers :: q != p ==> q in s'.writers)
    && (p in s'.writers ==> s'.writers[p] == s.writers[p].(phase := Idle))
  }

  lemma StopLeaves(s: System, step: Step)
    requires (step.Finish? || step.Fail? || step.Crash?) && Exec(s, step).Some?
    ensures step.p in s.writers && Leaves(s, Exec(s, step).value, step.p)
  {
    var s' := Exec(s, step).value;
    assert forall q <- s'.writers :: q in s.writers && (q == step.p || s'.writers[q] == s.writers[q]);
  }

  lemma LeavingKeepsHistory(s: System, s': System, p: Pid)
    requires Inv(s) && p in s.writers && Leaves(s, s', p)
    ensures HistoryInv(s')
  {
    var phase := s.writers[p].phase;
    forall k | 0 <= k < |s'.log|
      ensures s'.log[k].call !in s'.dropped
    {
      if CallOf(phase).Some? { assert !Committed(s, phase.call); }
    }
  }

  lemma LeavingKeepsCalls(s: System, s': System, p: Pid)
    requires Inv(s) && p in s.writers && Leaves(s, s', p)
    ensures CallsInProgress(s')
  {
    forall q | q in s'.writers && CallOf(s'.writers[q].phase).Some?
      ensures var phase := s'.writers[q].phase;
              phase.call in s'.calls && phase.edits == s'.calls[phase.call] && phase.call !in s'.dropped && !Committed(s', phase.call)
    {
      // somebody else holds the lock, so the writer that stopped was idle
      assert q != p && s.lock == Some(q) && s.writers[p].phase.Idle?;
      assert !Committed(s, s.writers[q].phase.call);
    }
  }

  lemma LeavingKeepsViews(s: System, s': System, p: Pid)
    requires Inv(s) && p in s.writers && Leaves(s, s', p)
    ensures forall q <- s'.writers :: ViewExplained(s', s'.writers[q])
  {
    forall q | q in s'.writers
      ensures ViewExplained(s', s'.writers[q])
    {
      assert ViewExplained(s, s.writers[q]);
    }
  }

  lemma LeavingKeepsLock(s: System, s': System, p: Pid)
    requires LockHeld(s) && p in s.writers && Leaves(s, s', p)
    ensures LockHeld(s')
  {
  }

  lemma StopKeeps(s: System, step: Step)
    requires Inv(s) && (step.Finish? || step.Fail? || step.Crash?) && Exec(s, step).Some?
    ensures Inv(Exec(s, step).value)
  {
    StopLeaves(s, step);
    var s', p := Exec(s, step).value, step.p;
    LeavingKeepsHistory(s, s', p);
    LeavingKeepsCalls(s, s', p);
    LeavingKeepsViews(s, s', p);
    LeavingKeepsLock(s, s', p);
  }

  lemma StepKeeps(s: System, step: Step)
    requires Inv(s) && Exec(s, step).Some?
    ensures Inv(Exec(s, step).value)
  {
    match step
    case OpenExisting(_, _, _) => OpenKeeps(s, step);
    case OpenFresh(_, _, _) => OpenKeeps(s, step);
    case Lock(_, _, _) => LockKeeps(s, step);
    case Refresh(_) => RefreshKeeps(s, step);
    case Apply(_) => ApplyKeeps(s, step);
    case Write(_) => WriteKeeps(s, step);
    case Rename(p) => RenameKeeps(s, p);
    case _ => StopKeeps(s, step);
  }

  /** The invariant holds after every run, whatever the interleaving and the crashes. */
  lemma {:induction false} RunKeeps(s: System, steps: seq<Step>)
    requires Inv(s) && Run(s, steps).Some?
    ensures Inv(Run(s, steps).value)
    decreases |steps|
  {
    if steps != [] {
      StepKeeps(s, steps[0]);
      RunKeeps(Exec(s, steps[0]).value, steps[1..]);
    }
  }

  // ----------------------------------------------------------------------
  // What follows for every run
  // ----------------------------------------------------------------------

  /** After any run from an empty directory the file is exactly the replay of the
      committed batches in lock order: each batch entirely or not at all, no batch of
      another writer lost. Every batch is what one call asked for; a call commits at most
      once, and never after it failed or crashed. Edits of failed calls can ride along
      only in the commit that creates the file. */
  lemma FileHoldsCommittedBatches(steps: seq<Step>)
    requires Run(START, steps).Some?
    ensures var s := Run(START, steps).value;
            && (s.file.None? <==> s.log == [])
            && (s.file.Some? ==> s.file.value.entries == Replay(s.log))
            && (forall k :: 0 <= k < |s.log| ==>
                  s.log[k].call in s.calls && s.log[k].batch == s.calls[s.log[k].call] && s.log[k].call !in s.dropped)
            && (forall i, j :: 0 <= i < j < |s.log| ==> s.log[i].call != s.log[j].call)
            && (forall k :: 0 < k < |s.log| ==> s.log[k].carried == [])
  {
    RunKeeps(START, steps);
  }

  /** Mutual exclusion: two writers are never both between lock and unlock. */
  lemma OneWriterAtATime(steps: seq<Step>, p: Pid, q: Pid)
    requires Run(START, steps).Some?
    requires var s := Run(START, steps).value;
             p in s.writers && q in s.writers && !s.writers[p].phase.Idle? && !s.writers[q].phase.Idle?
    ensures p == q
  {
    RunKeeps(START, steps);
  }

  /** History only grows, and the salt of an existing file never changes. */
  lemma {:induction false} HistoryGrows(s: System, steps: seq<Step>)
    requires Inv(s) && Run(s, steps).Some?
    ensures var s' := Run(s, steps).value;
            s.log <= s'.log && (s.file.Some? ==> s'.file.Some? && s'.file.value.salt == s.file.value.salt)
    decreases |steps|
  {
    if steps != [] {
      StepKeeps(s, steps[0]);
      StepGrows(s, steps[0]);
      HistoryGrows(Exec(s, steps[0]).value, steps[1..]);
    }
  }

  lemma StepGrows(s: System, step: Step)
    requires Inv(s) && Exec(s, step).Some? && Inv(Exec(s, step).value)
    ensures var s' := Exec(s, step).value;
            s.log <= s'.log && (s.file.Some? ==> s'.file.Some? && s'.file.value.salt == s.file.value.salt)
  {
    var s' := Exec(s, step).value;
    assert s'.file.Some? ==> s'.log[0].kek.salt == s'.file.value.salt;
  }

  lemma StepDrops(s: System, step: Step)
    requires Exec(s, step).Some?
    ensures s.dropped <= Exec(s, step).value.dropped
  {
  }

  /** A call that was given up once never shows up in the history of any later state. */
  lemma {:induction false} DroppedStaysDropped(s: System, steps: seq<Step>, call: CallId)
    requires Inv(s) && Run(s, steps).Some? && call in s.dropped
    ensures call in Run(s, steps).value.dropped && !Committed(Run(s, steps).value, call)
    decreases |steps|
  {
    if steps != [] {
      StepKeeps(s, steps[0]);
      StepDrops(s, steps[0]);
      DroppedStaysDropped(Exec(s, steps[0]).value, steps[1..], call);
    }
  }

  // ----------------------------------------------------------------------
  // Reading the history entry by entry
  // ----------------------------------------------------------------------

  ghost function Published(log: seq<Commit>): seq<(Kek, Edit)> {
    if log == [] then []
    else
      var c := log[|log| - 1];
      var edits := c.carried + c.batch;
      Published(log[..|log| - 1]) + seq(|edits|, i requires 0 <= i < |edits| => (c.kek, edits[i]))
  }

  /** The last edit of a name, and the key it was made under. */
  ghost function LastEdit(edits: seq<(Kek, Edit)>, name: string): Option<(Kek, Edit)> {
    if edits == [] then None
    else if edits[|edits| - 1].1.name == name then Some(edits[|edits| - 1])
    else LastEdit(edits[..|edits| - 1], name)
  }

  ghost predicate EntryIs(entries: Entries, name: string, last: Option<(Kek, Edit)>) {
    if last.None? || last.value.1.value.None? then name !in entries
    else name in entries && entries[name] == Sealed(last.value.0, name, last.value.1.value.value)
  }

  lemma {:induction false} ApplyReads(kek: Kek, entries: Entries, before: seq<(Kek, Edit)>, edits: seq<Edit>, name: string)
    requires EntryIs(entries, name, LastEdit(before, name))
    ensures EntryIs(ApplyEdits(kek, entries, edits), name,
                    LastEdit(before + seq(|edits|, i requires 0 <= i < |edits| => (kek, edits[i])), name))
    decreases |edits|
  {
    var all := before + seq(|edits|, i requires 0 <= i < |edits| => (kek, edits[i]));
    if edits == [] {
      assert all == before;
    } else {
      var n := |edits| - 1;
      ApplyReads(kek, entries, before, edits[..n], name);
      assert all[..|all| - 1] == before + seq(n, i requires 0 <= i < n => (kek, edits[..n][i]));
      assert all[|all| - 1] == (kek, edits[n]);
    }
  }

  lemma {:induction false} ReplayReads(log: seq<Commit>, name: string)
    ensures EntryIs(Replay(log), name, LastEdit(Published(log), name))
  {
    if log != [] {
      var c := log[|log| - 1];
      ReplayReads(log[..|log| - 1], name);
      ApplyReads(c.kek, Replay(log[..|log| - 1]), Published(log[..|log| - 1]), c.carried + c.batch, name);
    }
  }

  // ----------------------------------------------------------------------
  // Who is admitted
  // ----------------------------------------------------------------------

  /** Opening a file that holds entries: whoever probes a stored name is let in exactly when
      that entry was sealed under this name with the given passphrase and the file's salt. */
  lemma AdmittedExactly(s: System, p: Pid, passphrase: string, probe: string)
    requires p !in s.writers && s.file.Some? && probe in s.file.value.entries
    ensures Exec(s, OpenExisting(p, passphrase, Some(probe))).Some?
            <==> SealedWith(s.file.value.entries, probe, Kek(passphrase, s.file.value.salt))
    ensures Exec(s, OpenExisting(p, passphrase, None)).None?
  {
    OpensExactly(s.file.value.entries, probe, Kek(passphrase, s.file.value.salt));
  }

  /** A file without entries has nothing to check a passphrase against: it admits anybody. */
  lemma EmptyFileAdmitsAnyone(s: System, p: Pid, passphrase: string)
    requires p !in s.writers && s.file.Some? && s.file.value.entries == map[]
    ensures Exec(s, OpenExisting(p, passphrase, None))
         == Some(WithWriter(s, p, Writer(Kek(passphrase, s.file.value.salt), map[], Idle, [])))
  {
  }

  /** The salts drawn for fresh files tell the passphrases apart. */
  ghost predicate SaltsTell(drawn: set<Kek>) {
    forall k, l :: k in drawn && l in drawn && k.salt == l.salt ==> k == l
  }

  ghost function FreshKeys(steps: seq<Step>): set<Kek> {
    set i | 0 <= i < |steps| && steps[i].OpenFresh? :: Kek(steps[i].passphrase, steps[i].salt)
  }

  /** Whoever opens a file that holds no entries knows the passphrase it was created with. */
  ghost predicate EmptyOpenAgrees(s: System, step: Step) {
    step.OpenExisting? && s.file.Some? && s.file.value.entries == map[] ==>
      s.log != [] && step.passphrase == s.log[0].kek.passphrase
  }

  ghost predicate EmptyOpensAgree(s: System, steps: seq<Step>)
    decreases |steps|
  {
    steps == [] ||
    (EmptyOpenAgrees(s, steps[0]) && (Exec(s, steps[0]).Some? ==> EmptyOpensAgree(Exec(s, steps[0]).value, steps[1..])))
  }

  /** Every commit carries the key of the first one, and every writer that key or one drawn
      with a fresh file. */
  ghost predicate OneKey(s: System, drawn: set<Kek>) {
    && (forall k :: 0 <= k < |s.log| ==> s.log[k].kek in drawn && s.log[k].kek == s.log[0].kek)
    && (forall p <- s.writers :: s.writers[p].kek in drawn || (s.log != [] && s.writers[p].kek == s.log[0].kek))
  }

  /** With one key behind all commits every stored entry is sealed with it. */
  lemma EntriesSealed(s: System, drawn: set<Kek>, name: string)
    requires Inv(s) && OneKey(s, drawn) && s.file.Some? && name in s.file.value.entries
    ensures SealedWith(s.file.value.entries, name, s.log[0].kek)
  {
    ReplayReads(s.log, name);
    PublishedKeys(s.log, s.log[0].kek, name);
  }

  /** So a passphrase that is let in is the one the file was created with. */
  lemma AdmittedKnows(s: System, step: Step, drawn: set<Kek>)
    requires Inv(s) && OneKey(s, drawn) && step.OpenExisting? && Exec(s, step).Some? && EmptyOpenAgrees(s, step)
    ensures s.log != [] && Kek(step.passphrase, s.file.value.salt) == s.log[0].kek
  {
    if s.file.value.entries != map[] {
      var name := step.probe.value;
      EntriesSealed(s, drawn, name);
      AdmittedExactly(s, step.p, step.passphrase, name);
    }
  }

  lemma OpenKeepsKey(s: System, step: Step, drawn: set<Kek>)
    requires Inv(s) && OneKey(s, drawn) && (step.OpenExisting? || step.OpenFresh?) && Exec(s, step).Some?
    requires EmptyOpenAgrees(s, step) && (step.OpenFresh? ==> Kek(step.passphrase, step.salt) in drawn)
    ensures OneKey(Exec(s, step).value, drawn)
  {
    if step.OpenExisting? { AdmittedKnows(s, step, drawn); }
  }

  lemma RenameKeepsKey(s: System, p: Pid, drawn: set<Kek>)
    requires Inv(s) && OneKey(s, drawn) && SaltsTell(drawn) && p in s.writers && s.writers[p].phase.Written?
    ensures OneKey(Installed(s, p), drawn)
  {
    var w := s.writers[p];
    assert ViewExplained(s, w);
    if s.log != [] { assert w.kek.salt == s.log[0].kek.salt && s.log[0].kek in drawn; }
  }

  /** What every other step has in common. */
  lemma WithinKeepsKey(s: System, step: Step, drawn: set<Kek>)
    requires OneKey(s, drawn) && Exec(s, step).Some? && (step.Lock? || step.Refresh? || step.Apply? || step.Write?)
    ensures OneKey(Exec(s, step).value, drawn)
  {
    var s' := Exec(s, step).value;
    assert s'.log == s.log && s'.writers.Keys == s.writers.Keys;
    assert forall q <- s'.writers :: s'.writers[q].kek == s.writers[q].kek;
  }

  lemma LeavingKeepsKey(s: System, s': System, p: Pid, drawn: set<Kek>)
    requires OneKey(s, drawn) && p in s.writers && Leaves(s, s', p)
    ensures OneKey(s', drawn)
  {
  }

  lemma StepKeepsKey(s: System, step: Step, drawn: set<Kek>)
    requires Inv(s) && OneKey(s, drawn) && SaltsTell(drawn) && Exec(s, step).Some? && EmptyOpenAgrees(s, step)
    requires step.OpenFresh? ==> Kek(step.passphrase, step.salt) in drawn
    ensures OneKey(Exec(s, step).value, drawn)
  {
    if step.OpenExisting? || step.OpenFresh? {
      OpenKeepsKey(s, step, drawn);
    } else if step.Rename? {
      RenameKeepsKey(s, step.p, drawn);
    } else if step.Finish? || step.Fail? || step.Crash? {
      StopLeaves(s, step);
      LeavingKeepsKey(s, Exec(s, step).value, step.p, drawn);
    } else {
      WithinKeepsKey(s, step, drawn);
    }
  }

  lemma {:induction false} RunKeepsKey(s: System, steps: seq<Step>, drawn: set<Kek>)
    requires Inv(s) && OneKey(s, drawn) && SaltsTell(drawn) && Run(s, steps).Some? && EmptyOpensAgree(s, steps)
    requires forall step <- steps :: step.OpenFresh? ==> Kek(step.passphrase, step.salt) in drawn
    ensures OneKey(Run(s, steps).value, drawn)
    decreases |steps|
  {
    if steps != [] {
      assert steps[0] in steps;
      StepKeeps(s, steps[0]);
      StepKeepsKey(s, steps[0], drawn);
      RunKeepsKey(Exec(s, steps[0]).value, steps[1..], drawn);
    }
  }

  /** A run in which fresh salts tell passphrases apart, and nobody opens an emptied file with
      a passphrase other than the one it was created with. Nothing is said of who opens a
      file that holds entries. */
  ghost predicate Regular(steps: seq<Step>) {
    SaltsTell(FreshKeys(steps)) && EmptyOpensAgree(START, steps)
  }

  lemma RegularRun(steps: seq<Step>)
    requires Run(START, steps).Some? && Regular(steps)
    ensures Inv(Run(START, steps).value) && OneKey(Run(START, steps).value, FreshKeys(steps))
  {
    RunKeeps(START, steps);
    FreshDrawn(steps);
    RunKeepsKey(START, steps, FreshKeys(steps));
  }

  /** In every regular run all commits carry the key of the first one, every stored entry is
      sealed with it, and whoever probes a stored entry is let in exactly with its passphrase. */
  lemma OnlyOnePassphrase(steps: seq<Step>, p: Pid, passphrase: string, probe: string)
    requires Run(START, steps).Some? && Regular(steps)
    requires var s := Run(START, steps).value;
             p !in s.writers && s.file.Some? && probe in s.file.value.entries
    ensures Run(START, steps).value.log != []
    ensures var s := Run(START, steps).value;
            var kek := s.log[0].kek;
            && (forall k :: 0 <= k < |s.log| ==> s.log[k].kek == kek)
            && (forall name <- s.file.value.entries :: SealedWith(s.file.value.entries, name, kek))
            && (Exec(s, OpenExisting(p, passphrase, Some(probe))).Some? <==> passphrase == kek.passphrase)
  {
    RegularRun(steps);
    var s := Run(START, steps).value;
    forall name | name in s.file.value.entries
      ensures SealedWith(s.file.value.entries, name, s.log[0].kek)
    {
      EntriesSealed(s, FreshKeys(steps), name);
    }
    AdmittedExactly(s, p, passphrase, probe);
  }

  ghost predicate OpensWith(steps: seq<Step>, passphrase: string) {
    forall step <- steps :: step.OpenExisting? || step.OpenFresh? ==> step.passphrase == passphrase
  }

  /** A run in which everybody uses one passphrase is regular. */
  lemma OnePassphraseIsRegular(steps: seq<Step>, passphrase: string)
    requires Run(START, steps).Some? && OpensWith(steps, passphrase)
    ensures Regular(steps)
  {
    forall k | k in FreshKeys(steps)
      ensures k.passphrase == passphrase
    {
      var i :| 0 <= i < |steps| && steps[i].OpenFresh? && k == Kek(steps[i].passphrase, steps[i].salt);
      assert steps[i] in steps;
    }
    FreshDrawn(steps);
    EmptyOpensAgreeing(START, steps, FreshKeys(steps), passphrase);
  }

  lemma FreshDrawn(steps: seq<Step>)
    ensures forall step <- steps :: step.OpenFresh? ==> Kek(step.passphrase, step.salt) in FreshKeys(steps)
  {
    forall step | step in steps && step.OpenFresh?
      ensures Kek(step.passphrase, step.salt) in FreshKeys(steps)
    {
      var i :| 0 <= i < |steps| && steps[i] == step;
      assert steps[i].OpenFresh?;
    }
  }

  lemma {:induction false} EmptyOpensAgreeing(s: System, steps: seq<Step>, drawn: set<Kek>, passphrase: string)
    requires Inv(s) && OneKey(s, drawn) && SaltsTell(drawn) && Run(s, steps).Some? && OpensWith(steps, passphrase)
    requires forall k <- drawn :: k.passphrase == passphrase
    requires forall step <- steps :: step.OpenFresh? ==> Kek(step.passphrase, step.salt) in drawn
    ensures EmptyOpensAgree(s, steps)
    decreases |steps|
  {
    if steps != [] {
      assert steps[0] in steps;
      StepKeeps(s, steps[0]);
      StepKeepsKey(s, steps[0], drawn);
      EmptyOpensAgreeing(Exec(s, steps[0]).value, steps[1..], drawn, passphrase);
    }
  }

  lemma {:induction false} PublishedKeys(log: seq<Commit>, kek: Kek, name: string)
    requires forall k :: 0 <= k < |log| ==> log[k].kek == kek
    ensures forall e <- Published(log) :: e.0 == kek
    ensures var last := LastEdit(Published(log), name); last.Some? ==> last.value.0 == kek
  {
    if log != [] { PublishedKeys(log[..|log| - 1], kek, name); }
    LastEditOccurs(Published(log), name);
  }

  lemma {:induction false} LastEditOccurs(edits: seq<(Kek, Edit)>, name: string)
    ensures LastEdit(edits, name).Some? ==> LastEdit(edits, name).value in edits
  {
    if edits != [] { LastEditOccurs(edits[..|edits| - 1], name); }
  }

  /** After a regular run, whoever is let in on the file reads, under every name, the value
      last published under that name in lock order, and nothing under a name last removed or
      never written. */
  lemma ReadersSeeLastPublished(steps: seq<Step>, open: Step, name: string)
    requires Run(START, steps).Some? && Regular(steps)
    requires var s := Run(START, steps).value;
             open.OpenExisting? && Exec(s, open).Some? && EmptyOpenAgrees(s, open)
    ensures var s := Run(START, steps).value;
            var reader, last := Exec(s, open).value.writers[open.p], LastEdit(Published(s.log), name);
            DecryptEntry(reader.kek, reader.view, name) == Ok(if last.Some? then last.value.1.value else None)
  {
    RegularRun(steps);
    var s := Run(START, steps).value;
    AdmittedKnows(s, open, FreshKeys(steps));
    ReplayReads(s.log, name);
    PublishedKeys(s.log, s.log[0].kek, name);
    EntryReads(s.log[0].kek, s.file.value.entries, name, LastEdit(Published(s.log), name));
  }

  lemma EntryReads(kek: Kek, entries: Entries, name: string, last: Option<(Kek, Edit)>)
    requires EntryIs(entries, name, last) && (last.Some? ==> last.value.0 == kek)
    ensures DecryptEntry(kek, entries, name) == Ok(if last.Some? then last.value.1.value else None)
  {
  }

  // ----------------------------------------------------------------------
  // Failed edits and the first commit
  // ----------------------------------------------------------------------

  /** What a rename carries over beyond its own batch: nothing at all exactly when the
      file existed at the refresh or the writer had made no edit before this call. */
  lemma RenameCarries(steps: seq<Step>, p: Pid)
    requires Run(START, steps).Some? && Exec(Run(START, steps).value, Rename(p)).Some?
    ensures var s := Run(START, steps).value;
            var s' := Exec(s, Rename(p)).value;
            var w := s.writers[p];
            && (s'.log[|s.log|].carried == [] <==> s.file.Some? || w.trail == w.phase.edits)
            && (s.file.None? ==> s'.log[0].carried + s'.log[0].batch == w.trail)
  {
    RunKeeps(START, steps);
    var s := Run(START, steps).value;
    assert ViewExplained(s, s.writers[p]);
    InstalledCarries(s, p);
  }

  lemma InstalledCarries(s: System, p: Pid)
    requires FileIsReplay(s) && p in s.writers && s.writers[p].phase.Written? && ViewExplained(s, s.writers[p])
    ensures var s', w := Installed(s, p), s.writers[p];
            && (s'.log[|s.log|].carried == [] <==> s.file.Some? || w.trail == w.phase.edits)
            && (s.file.None? ==> s'.log[0].carried + s'.log[0].batch == w.trail)
  {
    var w := s.writers[p];
    if s.file.None? {
      var n := |w.trail| - |w.phase.edits|;
      assert w.trail == w.trail[..n] + w.phase.edits;
    }
  }

  /** The exception is real: before the file exists, an edit whose call failed stays in
      the writer's view and is published by that writer's next successful call. */
  lemma FailedFirstEditCanLeak(a: Edit, b: Edit)
    ensures var steps := [OpenFresh(0, "pw", 7), Lock(0, 1, [a]), Refresh(0), Apply(0), Fail(0),
                          Lock(0, 2, [b]), Refresh(0), Apply(0), Write(0), Rename(0)];
            Run(START, steps).Some? &&
            var s := Run(START, steps).value;
            1 in s.dropped && s.log == [Commit(2, Kek("pw", 7), [a], [b])]
            && s.file == Some(Image(7, ApplyEdits(Kek("pw", 7), map[], [a, b])))
  {
    var kek := Kek("pw", 7);
    var early := [Lock(0, 1, [a]), Refresh(0), Apply(0), Fail(0)];
    var late := [Lock(0, 2, [b]), Refresh(0), Apply(0), Write(0), Rename(0)];
    var s1 := Exec(START, OpenFresh(0, "pw", 7)).value;
    assert s1.writers[0] == Writer(kek, map[], Idle, []);
    var s5 := FailedFirstEdit(s1, a);
    var s10 := SecondEdit(s5, a, b);
    RunConcat(s1, early, late);
    RunTwo(START, OpenFresh(0, "pw", 7), early + late);
    LeakSteps(a, b);
    AppliedTwo(kek, a, b);
  }

  lemma LeakSteps(a: Edit, b: Edit)
    ensures [OpenFresh(0, "pw", 7)]
            + ([Lock(0, 1, [a]), Refresh(0), Apply(0), Fail(0)] + [Lock(0, 2, [b]), Refresh(0), Apply(0), Write(0), Rename(0)])
         == [OpenFresh(0, "pw", 7), Lock(0, 1, [a]), Refresh(0), Apply(0), Fail(0),
             Lock(0, 2, [b]), Refresh(0), Apply(0), Write(0), Rename(0)]
  {
  }

  lemma AppliedTwo(kek: Kek, a: Edit, b: Edit)
    ensures ApplyEdits(kek, map[], [a, b]) == ApplyEdit(kek, ApplyEdit(kek, map[], a), b)
  {
    assert [a, b][..1] == [a] && [a][..0] == [];
    assert ApplyEdits(kek, map[], []) == map[];
    assert ApplyEdits(kek, map[], [a]) == ApplyEdit(kek, map[], a);
  }

  lemma SecondEdit(s5: System, a: Edit, b: Edit) returns (s10: System)
    requires s5.file.None? && s5.lock.None? && s5.log == [] && s5.calls.Keys == {1} && s5.dropped == {1}
    requires 0 in s5.writers && s5.writers[0] == Writer(Kek("pw", 7), ApplyEdit(Kek("pw", 7), map[], a), Idle, [a])
    ensures Run(s5, [Lock(0, 2, [b]), Refresh(0), Apply(0), Write(0), Rename(0)]) == Some(s10)
    ensures s10.dropped == {1} && s10.log == [Commit(2, Kek("pw", 7), [a], [b])]
    ensures s10.file == Some(Image(7, ApplyEdit(Kek("pw", 7), ApplyEdit(Kek("pw", 7), map[], a), b)))
  {
    var s8 := SecondEditMade(s5, a, b);
    assert [a] + [b] == [a, b] && [a, b][..1] == [a];
    var s9 := Exec(s8, Write(0)).value;
    s10 := Exec(s9, Rename(0)).value;
    RunTwo(s9, Rename(0), []);
    RunTwo(s8, Write(0), [Rename(0)]);
    RunConcat(s5, [Lock(0, 2, [b]), Refresh(0), Apply(0)], [Write(0), Rename(0)]);
    assert [Lock(0, 2, [b]), Refresh(0), Apply(0)] + [Write(0), Rename(0)]
        == [Lock(0, 2, [b]), Refresh(0), Apply(0), Write(0), Rename(0)];
  }

  lemma SecondEditMade(s5: System, a: Edit, b: Edit) returns (s8: System)
    requires s5.file.None? && s5.lock.None? && s5.log == [] && s5.calls.Keys == {1} && s5.dropped == {1}
    requires 0 in s5.writers && s5.writers[0] == Writer(Kek("pw", 7), ApplyEdit(Kek("pw", 7), map[], a), Idle, [a])
    ensures Run(s5, [Lock(0, 2, [b]), Refresh(0), Apply(0)]) == Some(s8)
    ensures s8.file.None? && s8.log == [] && s8.dropped == {1} && 0 in s8.writers
    ensures s8.writers[0] == Writer(Kek("pw", 7), ApplyEdit(Kek("pw", 7), ApplyEdit(Kek("pw", 7), map[], a), b),
                                    Editing(2, [b], false, 1), [a] + [b])
  {
    var s6 := Exec(s5, Lock(0, 2, [b])).value;
    var s7 := Exec(s6, Refresh(0)).value;
    s8 := Exec(s7, Apply(0)).value;
    RunTwo(s7, Apply(0), []);
    RunTwo(s6, Refresh(0), [Apply(0)]);
    RunTwo(s5, Lock(0, 2, [b]), [Refresh(0), Apply(0)]);
  }

  lemma FailedFirstEdit(s1: System, a: Edit) returns (s5: System)
    requires s1.file.None? && s1.lock.None? && s1.log == [] && s1.calls == map[] && s1.dropped == {}
    requires 0 in s1.writers && s1.writers[0] == Writer(Kek("pw", 7), map[], Idle, [])
    ensures Run(s1, [Lock(0, 1, [a]), Refresh(0), Apply(0), Fail(0)]) == Some(s5)
    ensures s5.file.None? && s5.lock.None? && s5.log == [] && s5.calls.Keys == {1} && s5.dropped == {1}
    ensures 0 in s5.writers && s5.writers[0] == Writer(Kek("pw", 7), ApplyEdit(Kek("pw", 7), map[], a), Idle, [a])
  {
    var s2 := Exec(s1, Lock(0, 1, [a])).value;
    s5 := EditFails(s2, a);
    RunTwo(s1, Lock(0, 1, [a]), [Refresh(0), Apply(0), Fail(0)]);
  }

  lemma EditFails(s2: System, a: Edit) returns (s5: System)
    requires s2.file.None? && s2.lock == Some(0) && s2.log == [] && s2.calls.Keys == {1} && s2.dropped == {}
    requires 0 in s2.writers && s2.writers[0] == Writer(Kek("pw", 7), map[], Locked(1, [a]), [])
    ensures Run(s2, [Refresh(0), Apply(0), Fail(0)]) == Some(s5)
    ensures s5.file.None? && s5.lock.None? && s5.log == [] && s5.calls.Keys == {1} && s5.dropped == {1}
    ensures 0 in s5.writers && s5.writers[0] == Writer(Kek("pw", 7), ApplyEdit(Kek("pw", 7), map[], a), Idle, [a])
  {
    var s3 := Exec(s2, Refresh(0)).value;
    var s4 := Exec(s3, Apply(0)).value;
    assert [] + [a] == [a];
    s5 := Exec(s4, Fail(0)).value;
    RunTwo(s4, Fail(0), []);
    RunTwo(s3, Apply(0), [Fail(0)]);
    RunTwo(s2, Refresh(0), [Apply(0), Fail(0)]);
  }

  lemma RunTwo(s: System, step: Step, rest: seq<Step>)
    ensures Run(s, [step] + rest) == if Exec(s, step).Some? then Run(Exec(s, step).value, rest) else None
  {
    assert ([step] + rest)[1..] == rest;
  }

  // ----------------------------------------------------------------------
  // An uninterrupted update
  // ----------------------------------------------------------------------

  ghost function Repeat(step: Step, n: nat): seq<Step> {
    if n == 0 then [] else [step] + Repeat(step, n - 1)
  }

  lemma {:induction false} RunConcat(s: System, a: seq<Step>, b: seq<Step>)
    requires Run(s, a).Some?
    ensures Run(s, a + b) == Run(Run(s, a).value, b)
    decreases |a|
  {
    if a == [] {
      assert a + b == b;
    } else {
      assert (a + b)[1..] == a[1..] + b;
      RunConcat(Exec(s, a[0]).value, a[1..], b);
    }
  }

  lemma {:induction false} ApplyRest(s: System, p: Pid, base: Entries)
    requires p in s.writers && s.writers[p].phase.Editing?
    requires var w := s.writers[p];
             w.phase.done <= |w.phase.edits| && w.view == ApplyEdits(w.kek, base, w.phase.edits[..w.phase.done])
    ensures var w := s.writers[p];
            var r := Run(s, Repeat(Apply(p), |w.phase.edits| - w.phase.done));
            && r.Some?
            && p in r.value.writers
            && r.value == s.(writers := s.writers[p := r.value.writers[p]])
            && r.value.writers[p].kek == w.kek
            && r.value.writers[p].view == ApplyEdits(w.kek, base, w.phase.edits)
            && r.value.writers[p].phase == w.phase.(done := |w.phase.edits|)
    decreases |s.writers[p].phase.edits| - s.writers[p].phase.done
  {
    var w := s.writers[p];
    if w.phase.done == |w.phase.edits| {
      assert w.phase.edits[..w.phase.done] == w.phase.edits;
      assert s.writers[p := w] == s.writers;
    } else {
      var s' := Exec(s, Apply(p)).value;
      OneApplied(s, p, base);
      ApplyRest(s', p, base);
      var rest := Repeat(Apply(p), |w.phase.edits| - w.phase.done - 1);
      RunTwo(s, Apply(p), rest);
      OneWriterMoved(s, p, s'.writers[p], Run(s', rest).value.writers[p]);
    }
  }

  lemma OneApplied(s: System, p: Pid, base: Entries)
    requires p in s.writers && s.writers[p].phase.Editing?
    requires var w := s.writers[p];
             w.phase.done < |w.phase.edits| && w.view == ApplyEdits(w.kek, base, w.phase.edits[..w.phase.done])
    ensures Exec(s, Apply(p)).Some?
    ensures var w, s' := s.writers[p], Exec(s, Apply(p)).value;
            && p in s'.writers && s' == s.(writers := s.writers[p := s'.writers[p]])
            && s'.writers[p].kek == w.kek && s'.writers[p].phase == w.phase.(done := w.phase.done + 1)
            && s'.writers[p].view == ApplyEdits(w.kek, base, w.phase.edits[..w.phase.done + 1])
  {
    var w := s.writers[p];
    assert w.phase.edits[..w.phase.done + 1][..w.phase.done] == w.phase.edits[..w.phase.done];
  }

  lemma OneWriterMoved(s: System, p: Pid, v: Writer, w: Writer)
    ensures WithWriter(WithWriter(s, p, v), p, w) == WithWriter(s, p, w)
  {
    assert s.writers[p := v][p := w] == s.writers[p := w];
  }

  ghost function SoloSteps(p: Pid, call: CallId, edits: seq<Edit>): seq<Step> {
    [Lock(p, call, edits), Refresh(p)] + Repeat(Apply(p), |edits|) + [Write(p), Rename(p), Finish(p)]
  }

  ghost predicate OneMoreCommit(s: System, s': System, call: CallId, edits: seq<Edit>) {
    && |s'.log| == |s.log| + 1 && s'.log[..|s.log|] == s.log
    && s'.log[|s.log|].call == call && s'.log[|s.log|].batch == edits
  }

  /** A call that meets no fault and no other writer does what the sequential update
      says: same file, same view, one commit more. */
  lemma UninterruptedUpdate(s: System, p: Pid, call: CallId, edits: seq<Edit>)
    requires s.lock.None? && p in s.writers && s.writers[p].phase.Idle? && call !in s.calls
    requires s.file.Some? ==> s.file.value.salt == s.writers[p].kek.salt
    ensures Run(s, SoloSteps(p, call, edits)).Some?
    ensures var s' := Run(s, SoloSteps(p, call, edits)).value;
            && s'.lock.None? && p in s'.writers && s'.writers[p].phase.Idle?
            && Updated(s.file, s.writers[p].kek, s.writers[p].view, edits, NoFault)
               == KeyFile.Outcome(s'.file, s'.writers[p].view, Ok(()))
            && OneMoreCommit(s, s', call, edits)
  {
    var s' := SoloRun(s, p, call, edits);
  }

  /** A writer can crash at any moment. The file and its history stay, its lock is freed, and
      any other idle writer can update the file at once. */
  lemma CrashesFree(s: System, p: Pid, q: Pid, call: CallId, edits: seq<Edit>)
    requires p in s.writers && q in s.writers && q != p && s.writers[q].phase.Idle? && call !in s.calls
    requires s.lock.Some? ==> s.lock == Some(p)
    requires s.file.Some? ==> s.file.value.salt == s.writers[q].kek.salt
    ensures Exec(s, Crash(p)).Some?
    ensures var s' := Exec(s, Crash(p)).value;
            && s'.file == s.file && s'.log == s.log && s'.lock.None? && p !in s'.writers
            && Run(s', SoloSteps(q, call, edits)).Some?
            && OneMoreCommit(s, Run(s', SoloSteps(q, call, edits)).value, call, edits)
  {
    UninterruptedUpdate(Exec(s, Crash(p)).value, q, call, edits);
  }

  lemma SoloRun(s: System, p: Pid, call: CallId, edits: seq<Edit>) returns (s': System)
    requires s.lock.None? && p in s.writers && s.writers[p].phase.Idle? && call !in s.calls
    requires s.file.Some? ==> s.file.value.salt == s.writers[p].kek.salt
    ensures Run(s, SoloSteps(p, call, edits)) == Some(s')
    ensures s'.lock.None? && p in s'.writers && s'.writers[p].phase.Idle?
    ensures s'.writers[p].view
         == ApplyEdits(s.writers[p].kek, if s.file.Some? then s.file.value.entries else s.writers[p].view, edits)
    ensures s'.file == Some(Image(s.writers[p].kek.salt, s'.writers[p].view))
    ensures OneMoreCommit(s, s', call, edits)
  {
    var base := if s.file.Some? then s.file.value.entries else s.writers[p].view;
    var first, mid, last := [Lock(p, call, edits), Refresh(p)], Repeat(Apply(p), |edits|), [Write(p), Rename(p), Finish(p)];
    var s2 := SoloStart(s, p, call, edits);
    ApplyRest(s2, p, base);
    var s3 := Run(s2, mid).value;
    s' := SoloEnd(s3, p);
    Chain(s, first, s2, mid, s3, last, s');
  }

  lemma Chain(s: System, a: seq<Step>, s1: System, b: seq<Step>, s2: System, c: seq<Step>, s3: System)
    requires Run(s, a) == Some(s1) && Run(s1, b) == Some(s2) && Run(s2, c) == Some(s3)
    ensures Run(s, a + b + c) == Some(s3)
  {
    RunConcat(s, a, b);
    RunConcat(s, a + b, c);
  }

  lemma SoloStart(s: System, p: Pid, call: CallId, edits: seq<Edit>) returns (s2: System)
    requires s.lock.None? && p in s.writers && s.writers[p].phase.Idle? && call !in s.calls
    requires s.file.Some? ==> s.file.value.salt == s.writers[p].kek.salt
    ensures Run(s, [Lock(p, call, edits), Refresh(p)]) == Some(s2)
    ensures s2.file == s.file && s2.log == s.log && s2.lock == Some(p) && p in s2.writers
    ensures s2.writers[p].kek == s.writers[p].kek && s2.writers[p].phase == Editing(call, edits, s.file.Some?, 0)
    ensures s2.writers[p].view == ApplyEdits(s.writers[p].kek, if s.file.Some? then s.file.value.entries else s.writers[p].view, edits[..0])
  {
    var s1 := Exec(s, Lock(p, call, edits)).value;
    s2 := Exec(s1, Refresh(p)).value;
    RunTwo(s1, Refresh(p), []);
    RunTwo(s, Lock(p, call, edits), [Refresh(p)]);
    assert edits[..0] == [];
  }

  lemma SoloEnd(s3: System, p: Pid) returns (s6: System)
    requires s3.lock == Some(p) && p in s3.writers
    requires s3.writers[p].phase.Editing? && s3.writers[p].phase.done == |s3.writers[p].phase.edits|
    ensures Run(s3, [Write(p), Rename(p), Finish(p)]) == Some(s6)
    ensures s6.lock.None? && p in s6.writers && s6.writers[p].phase.Idle? && s6.writers[p].view == s3.writers[p].view
    ensures s6.file == Some(Image(s3.writers[p].kek.salt, s3.writers[p].view))
    ensures OneMoreCommit(s3, s6, s3.writers[p].phase.call, s3.writers[p].phase.edits)
  {
    var s4 := Exec(s3, Write(p)).value;
    var s5 := Exec(s4, Rename(p)).value;
    s6 := Exec(s5, Finish(p)).value;
    RunTwo(s5, Finish(p), []);
    RunTwo(s4, Rename(p), [Finish(p)]);
    RunTwo(s3, Write(p), [Rename(p), Finish(p)]);
  }
}
