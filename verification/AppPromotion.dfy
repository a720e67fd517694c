/** Replacing an installed app: copy aside, rename the old one away, rename the new one in, delete the old
    one; every exception before the last step rolls back.  The process may also die at any instant, in the
    middle of a copy or a delete, and a later call then meets whatever was left. */
module AppPromotion {

  type Tree = map<string, string>   // relative path to content; a partial delete is a sub-map

  datatype Entry = Folder(files: Tree) | PlainFile | Link(resolves: bool)

  // The three names in the install root that the update uses for one app, and everything else on the disk.
  datatype Place = Active | Staging | Backup | Elsewhere(path: string)

  type Fs = map<Place, Entry>

  predicate Part(a: Tree, b: Tree) { forall k :: k in a ==> k in b && a[k] == b[k] }

  // Path.exists follows links: a dangling link does not exist.
  predicate Exists(fs: Fs, p: Place) { p in fs && fs[p] != Link(false) }

  predicate IsApp(fs: Fs, p: Place, t: Tree) { p in fs && fs[p] == Folder(t) }

  function Renamed(fs: Fs, a: Place, b: Place): Fs
    requires a in fs
  {
    (fs - {a})[b := fs[a]]
  }

  // The checks made before anything is touched.
  predicate MayStart(fs: Fs) {
    Active in fs && fs[Active].Folder? && !Exists(fs, Staging) && !Exists(fs, Backup)
  }

  datatype Pc =
    | Idle | Copying | Staged | SetAside | Promoted | DeletingOld
    | Recovering | ClearingActive | Restoring | CheckingStaging | ClearingStaging

  datatype Answer = NoCall | Refused | RolledBack | Success | Broken | Crashed

  // `start` and `offered` describe the current call; `known` collects every complete app ever seen.
  datatype State = State(fs: Fs, pc: Pc, start: Fs, offered: Tree, known: set<Tree>, answer: Answer)

  // `same` says that the offered app resolves to the active one.
  datatype Event =
    | Begin(app: Tree, same: bool) | Copy(part: Tree) | CopyDone | MoveOldAside | MoveNewIn | Complete
    | Raise | Recover | Shrink(part: Tree) | Removed | Restore | RaiseAgain | Crash

  function Fresh(fs: Fs, known: set<Tree>): State { State(fs, Idle, fs, map[], known, NoCall) }

  // The place a delete in progress works on.
  function Target(pc: Pc): Place {
    if pc.ClearingActive? then Active else if pc.ClearingStaging? then Staging else Backup
  }

  predicate Deleting(pc: Pc) { pc.ClearingActive? || pc.ClearingStaging? || pc.DeletingOld? }

  function Next(s: State, e: Event): State {
    match e
    case Begin(app, same) =>
      if !s.pc.Idle? then s
      else if !MayStart(s.fs) || same then s.(answer := Refused)
      else s.(pc := Copying, start := s.fs, offered := app, known := s.known + {app})
    case Copy(part) =>
      // any content at all: a file may be half written
      if s.pc.Copying? && (Staging !in s.fs || s.fs[Staging].Folder?)
      then s.(fs := s.fs[Staging := Folder(part)]) else s
    case CopyDone => if s.pc.Copying? && IsApp(s.fs, Staging, s.offered) then s.(pc := Staged) else s
    case MoveOldAside =>
      if s.pc.Staged? && Active in s.fs && Backup !in s.fs
      then s.(fs := Renamed(s.fs, Active, Backup), pc := SetAside) else s
    case MoveNewIn =>
      if s.pc.SetAside? && Staging in s.fs && Active !in s.fs
      then s.(fs := Renamed(s.fs, Staging, Active), pc := Promoted) else s
    case Complete => if s.pc.Promoted? then s.(pc := DeletingOld) else s
    case Raise =>
      if s.pc.Copying? || s.pc.Staged? || s.pc.SetAside? || s.pc.Promoted? then s.(pc := Recovering) else s
    case Recover =>
      if s.pc.Recovering? then
        s.(pc := if !Exists(s.fs, Backup) then CheckingStaging
                 else if Exists(s.fs, Active) then ClearingActive else Restoring)
      else if s.pc.CheckingStaging? then
        if Exists(s.fs, Staging) then s.(pc := ClearingStaging) else s.(pc := Idle, answer := RolledBack)
      else s
    case Shrink(part) =>
      if Deleting(s.pc) && Target(s.pc) in s.fs && s.fs[Target(s.pc)].Folder? && Part(part, s.fs[Target(s.pc)].files)
      then s.(fs := s.fs[Target(s.pc) := Folder(part)]) else s
    case Removed =>
      if !Deleting(s.pc) then s
      else
        var t := s.(fs := s.fs - {Target(s.pc)});
        if s.pc.ClearingActive? then t.(pc := Restoring)
        else t.(pc := Idle, answer := if s.pc.DeletingOld? then Success else RolledBack)
    case Restore =>
      if s.pc.Restoring? && Backup in s.fs && Active !in s.fs
      then s.(fs := Renamed(s.fs, Backup, Active), pc := CheckingStaging) else s
    // an exception inside the recovery or the final delete leaves the call as it stands
    case RaiseAgain =>
      if Deleting(s.pc) || s.pc.Recovering? || s.pc.Restoring? || s.pc.CheckingStaging?
      then s.(pc := Idle, answer := Broken) else s
    case Crash => s.(pc := Idle, answer := Crashed)
  }

  function RunFrom(s: State, es: seq<Event>): State
    decreases |es|
  {
    if es == [] then s else RunFrom(Next(s, es[0]), es[1..])
  }

  // ---- invariant ----

  function OldApp(s: State): Tree {
    if Active in s.start && s.start[Active].Folder? then s.start[Active].files else map[]
  }

  ghost predicate HasComplete(fs: Fs, known: set<Tree>) {
    exists t :: t in known && (IsApp(fs, Active, t) || IsApp(fs, Backup, t))
  }

  ghost predicate SameElsewhere(a: Fs, b: Fs) {
    forall p: Place :: p.Elsewhere? ==> (p in a <==> p in b) && (p in a ==> a[p] == b[p])
  }

  predicate SameAt(a: Fs, b: Fs, p: Place) { (p in a <==> p in b) && (p in a ==> a[p] == b[p]) }

  // A staging folder made by this call, or the staging place exactly as the call found it.
  predicate StagingOurs(s: State) {
    SameAt(s.fs, s.start, Staging) || (Staging !in s.start && Staging in s.fs && s.fs[Staging].Folder?)
  }

  // Where things are at each point of a call, `was` being the app it found.
  predicate Placed(s: State) {
    var was := OldApp(s);
    match s.pc
    case Copying => IsApp(s.fs, Active, was) && SameAt(s.fs, s.start, Backup) && StagingOurs(s)
    case Staged => IsApp(s.fs, Active, was) && SameAt(s.fs, s.start, Backup)
                   && IsApp(s.fs, Staging, s.offered) && Staging !in s.start
    case SetAside => Active !in s.fs && IsApp(s.fs, Backup, was) && Backup !in s.start
                     && IsApp(s.fs, Staging, s.offered) && Staging !in s.start
    case Promoted => IsApp(s.fs, Active, s.offered) && IsApp(s.fs, Backup, was) && Backup !in s.start
                     && Staging !in s.fs && Staging !in s.start
    case DeletingOld => IsApp(s.fs, Active, s.offered) && Backup !in s.start && Staging !in s.fs && Staging !in s.start
                        && (Backup in s.fs ==> s.fs[Backup].Folder?)
    case Recovering =>
      && StagingOurs(s)
      && (|| (IsApp(s.fs, Active, was) && SameAt(s.fs, s.start, Backup))
          || (IsApp(s.fs, Backup, was) && Backup !in s.start && (Active !in s.fs || IsApp(s.fs, Active, s.offered))))
    case ClearingActive => IsApp(s.fs, Backup, was) && Backup !in s.start && StagingOurs(s)
    case Restoring => Active !in s.fs && IsApp(s.fs, Backup, was) && Backup !in s.start && StagingOurs(s)
    case CheckingStaging => IsApp(s.fs, Active, was) && SameAt(s.fs, s.start, Backup) && StagingOurs(s)
    case ClearingStaging => IsApp(s.fs, Active, was) && SameAt(s.fs, s.start, Backup) && Staging !in s.start
                            && Staging in s.fs && s.fs[Staging].Folder?
    case Idle => true
  }

  ghost predicate Inv(s: State) {
    && HasComplete(s.fs, s.known)
    && (!s.pc.Idle? ==> MayStart(s.start) && SameElsewhere(s.fs, s.start)
                        && OldApp(s) in s.known && s.offered in s.known && Placed(s))
    && (s.pc.Idle? && s.answer.RolledBack? ==> s.fs == s.start)
    && (s.pc.Idle? && s.answer.Success? ==>
          s.fs == s.start[Active := Folder(s.offered)] && Staging !in s.fs && Backup !in s.fs)
  }

  lemma MapsEqual(a: Fs, b: Fs)
    requires SameElsewhere(a, b) && SameAt(a, b, Active) && SameAt(a, b, Staging) && SameAt(a, b, Backup)
    ensures a == b
  {
    forall p | p in a || p in b ensures SameAt(a, b, p) { }
  }

  // Wherever a call stands, one complete app is in sight.
  lemma PlacedIsComplete(s: State)
    requires !s.pc.Idle? && Placed(s) && OldApp(s) in s.known && s.offered in s.known
    ensures HasComplete(s.fs, s.known)
    ensures IsApp(s.fs, Active, OldApp(s)) || IsApp(s.fs, Backup, OldApp(s)) || IsApp(s.fs, Active, s.offered)
  { }

  ghost predicate InCall(s: State) {
    && !s.pc.Idle? && MayStart(s.start) && SameElsewhere(s.fs, s.start)
    && OldApp(s) in s.known && s.offered in s.known && Placed(s)
  }

  lemma ForwardStep(s: State, e: Event)
    requires InCall(s)
    requires e.Copy? || e.CopyDone? || e.MoveOldAside? || e.MoveNewIn? || e.Complete? || e.Raise?
    ensures InCall(Next(s, e))
  { }

  predicate EndsCall(s: State, e: Event) { !s.pc.Idle? && Next(s, e).pc.Idle? }

  lemma BackwardStep(s: State, e: Event)
    requires InCall(s) && (e.Recover? || e.Shrink? || e.Removed? || e.Restore?) && !EndsCall(s, e)
    ensures InCall(Next(s, e))
  { }

  lemma EndStep(s: State, e: Event)
    requires InCall(s) && (e.Recover? || e.Removed?) && EndsCall(s, e)
    ensures var t := Next(s, e);
      || (t.answer == RolledBack && t.fs == t.start)
      || (t.answer == Success && t.fs == t.start[Active := Folder(t.offered)] && Staging !in t.fs && Backup !in t.fs)
  {
    var t := Next(s, e);
    assert SameElsewhere(t.fs, t.start);
    if t.answer.RolledBack? {
      MapsEqual(t.fs, t.start);
    } else {
      MapsEqual(t.fs, t.start[Active := Folder(t.offered)]);
    }
  }

  lemma EndIsComplete(s: State, e: Event)
    requires InCall(s) && Next(s, e).pc.Idle?
    ensures HasComplete(Next(s, e).fs, Next(s, e).known)
  {
    var t := Next(s, e);
    PlacedIsComplete(s);
    assert IsApp(t.fs, Active, OldApp(s)) || IsApp(t.fs, Backup, OldApp(s)) || IsApp(t.fs, Active, s.offered);
  }

  lemma InvStep(s: State, e: Event)
    requires Inv(s)
    ensures Inv(Next(s, e))
  {
    var t := Next(s, e);
    if s.pc.Idle? {
      var a :| a in s.known && (IsApp(s.fs, Active, a) || IsApp(s.fs, Backup, a));
      assert a in t.known;
    } else {
      assert InCall(s);
      PlacedIsComplete(s);
      if e.Recover? || e.Shrink? || e.Removed? || e.Restore? {
        if EndsCall(s, e) { EndStep(s, e); } else { BackwardStep(s, e); }
      } else if !(e.Begin? || e.RaiseAgain? || e.Crash?) {
        ForwardStep(s, e);
      }
      if !t.pc.Idle? {
        PlacedIsComplete(t);
      } else {
        EndIsComplete(s, e);
      }
    }
  }

  lemma {:induction false} InvFrom(s: State, es: seq<Event>)
    requires Inv(s)
    ensures Inv(RunFrom(s, es))
    decreases |es|
  {
    if es != [] {
      InvStep(s, es[0]);
      InvFrom(Next(s, es[0]), es[1..]);
    }
  }

  // ---- theorems over any number of calls, failures and crashes ----

  /** At every instant some complete app is at the active or the backup name; within a call it is the app the
      call found, at either name, or the new one, active. */
  lemma OneCompleteApp(fs: Fs, known: set<Tree>, es: seq<Event>)
    requires HasComplete(fs, known)
    ensures var s := RunFrom(Fresh(fs, known), es);
      && HasComplete(s.fs, s.known)
      && (!s.pc.Idle? ==>
            IsApp(s.fs, Active, OldApp(s)) || IsApp(s.fs, Backup, OldApp(s)) || IsApp(s.fs, Active, s.offered))
  {
    InvFrom(Fresh(fs, known), es);
    var s := RunFrom(Fresh(fs, known), es);
    if !s.pc.Idle? { PlacedIsComplete(s); }
  }

  /** A call that fails and finishes its recovery leaves the whole disk as it found it; a call that succeeds
      changes the active app into the offered one and nothing else, with no staging or backup left. */
  lemma CallsEndExactly(fs: Fs, known: set<Tree>, es: seq<Event>)
    requires HasComplete(fs, known) && RunFrom(Fresh(fs, known), es).pc.Idle?
    ensures var s := RunFrom(Fresh(fs, known), es);
      && (s.answer.RolledBack? ==> s.fs == s.start)
      && (s.answer.Success? ==>
            s.fs == s.start[Active := Folder(s.offered)] && Staging !in s.fs && Backup !in s.fs)
  {
    InvFrom(Fresh(fs, known), es);
  }

  lemma ElsewhereStep(s: State, e: Event)
    ensures SameElsewhere(Next(s, e).fs, s.fs)
  { }

  lemma {:induction false} ElsewhereFrom(s: State, es: seq<Event>)
    ensures SameElsewhere(RunFrom(s, es).fs, s.fs)
    decreases |es|
  {
    if es != [] {
      ElsewhereStep(s, es[0]);
      ElsewhereFrom(Next(s, es[0]), es[1..]);
    }
  }

  /** No run, interrupted or not, touches anything but the three names: user data is preserved. */
  lemma DataUntouched(fs: Fs, known: set<Tree>, es: seq<Event>)
    ensures SameElsewhere(RunFrom(Fresh(fs, known), es).fs, fs)
  {
    ElsewhereFrom(Fresh(fs, known), es);
  }

  // Something is left at a hidden name; a link that leads nowhere does not count.
  predicate Leftover(fs: Fs, p: Place) { p in fs && (fs[p].Link? ==> fs[p].resolves) }

  /** A call refuses exactly on a missing active app or one that is no folder of its own, on leftovers, or on an app
      that is the active one, and then changes nothing. */
  lemma RefusesIffUnsafe(s: State, app: Tree, same: bool)
    requires s.pc.Idle?
    ensures var t := Next(s, Begin(app, same));
      var refused :=
        Active !in s.fs || !s.fs[Active].Folder? || Leftover(s.fs, Staging) || Leftover(s.fs, Backup) || same;
      && t.fs == s.fs
      && (if refused then t.pc.Idle? && t.answer.Refused? else t.pc.Copying? && t.start == s.fs && t.offered == app)
  { }

  /** An exception inside the recovery or the last delete ends the call where it stands, as the end of the process does
      at any time; an exception before them starts the recovery. */
  lemma BreaksOff(s: State)
    ensures var recovering := s.pc.Recovering? || s.pc.ClearingActive? || s.pc.Restoring? || s.pc.CheckingStaging?
                              || s.pc.ClearingStaging? || s.pc.DeletingOld?;
      && Next(s, RaiseAgain) == (if recovering then s.(pc := Idle, answer := Broken) else s)
      && Next(s, Raise) == (if recovering || s.pc.Idle? then s else s.(pc := Recovering))
      && Next(s, Crash) == s.(pc := Idle, answer := Crashed)
  { }

  /** If the process dies at any instant of a call and a later call is still admitted, then that later call
      finds either exactly the disk from before or exactly the finished update: no torn state is built on. */
  lemma CrashIsNoticed(fs: Fs, known: set<Tree>, es: seq<Event>)
    requires HasComplete(fs, known)
    requires var s := RunFrom(Fresh(fs, known), es); !s.pc.Idle? && MayStart(Next(s, Crash).fs)
    ensures var s := RunFrom(Fresh(fs, known), es);
      s.fs == s.start || s.fs == s.start[Active := Folder(s.offered)]
  {
    InvFrom(Fresh(fs, known), es);
    var s := RunFrom(Fresh(fs, known), es);
    if s.pc.DeletingOld? {
      MapsEqual(s.fs, s.start[Active := Folder(s.offered)]);
    } else {
      MapsEqual(s.fs, s.start);
    }
  }

  // A run in which the process lives and every call that ends was refused or rolled back.
  predicate OnlyInterruptions(s: State, es: seq<Event>)
    decreases |es|
  {
    es == [] ||
    (var t := Next(s, es[0]);
     !es[0].Crash? && (t.pc.Idle? ==> t.answer in {NoCall, Refused, RolledBack}) && OnlyInterruptions(t, es[1..]))
  }

  // The disk between calls, or the disk the current call found.
  function Base(s: State): Fs { if s.pc.Idle? then s.fs else s.start }

  lemma InterruptionStep(s: State, e: Event)
    requires Inv(s) && !e.Crash? && (Next(s, e).pc.Idle? ==> Next(s, e).answer in {NoCall, Refused, RolledBack})
    ensures Base(Next(s, e)) == Base(s)
  {
    InvStep(s, e);
    if !s.pc.Idle? && Next(s, e).pc.Idle? { RollbackRestores(s, e); }
  }

  lemma RollbackRestores(s: State, e: Event)
    requires InCall(s) && Next(s, e).pc.Idle? && !e.Crash? && Next(s, e).answer in {NoCall, Refused, RolledBack}
    ensures Next(s, e).fs == s.start
  {
    EndStep(s, e);
  }

  lemma {:induction false} InterruptionsFrom(s: State, es: seq<Event>)
    requires Inv(s) && OnlyInterruptions(s, es)
    ensures Inv(RunFrom(s, es)) && Base(RunFrom(s, es)) == Base(s)
    decreases |es|
  {
    if es != [] {
      InterruptionStep(s, es[0]);
      InvStep(s, es[0]);
      InterruptionsFrom(Next(s, es[0]), es[1..]);
    }
  }

  /** Any number of refused and interrupted updates followed by a success: the new app is active, and nothing else
      on the disk has changed since before the first of them. */
  lemma InterruptionsThenSuccess(fs: Fs, known: set<Tree>, es: seq<Event>, last: Event)
    requires HasComplete(fs, known) && OnlyInterruptions(Fresh(fs, known), es)
    requires EndsCall(RunFrom(Fresh(fs, known), es), last)
    requires Next(RunFrom(Fresh(fs, known), es), last).answer.Success?
    ensures var t := Next(RunFrom(Fresh(fs, known), es), last);
      t.fs == fs[Active := Folder(t.offered)] && Staging !in t.fs && Backup !in t.fs
  {
    InterruptionsFrom(Fresh(fs, known), es);
    InvStep(RunFrom(Fresh(fs, known), es), last);
  }

  // ---- calls that nothing disturbs ----

  // A call in which every operation works: to its end, or interrupted in the given phase (after the copy, after the
  // first rename, after the second) and recovered.
  function Undisturbed(app: Tree, phase: nat): seq<Event>
    requires phase <= 3
  {
    [Begin(app, false), Copy(app), CopyDone] +
    match phase
    case 0 => [MoveOldAside, MoveNewIn, Complete, Removed]
    case 1 => [Raise, Recover, Recover, Removed]
    case 2 => [MoveOldAside, Raise, Recover, Restore] + [Recover, Removed]
    case _ => [MoveOldAside, MoveNewIn, Raise, Recover] + [Removed, Restore, Recover]
  }

  lemma {:induction false} RunAppend(s: State, a: seq<Event>, b: seq<Event>)
    ensures RunFrom(s, a + b) == RunFrom(RunFrom(s, a), b)
    decreases |a|
  {
    if a == [] {
      assert a + b == b;
    } else {
      assert (a + b)[0] == a[0] && (a + b)[1..] == a[1..] + b;
      RunAppend(Next(s, a[0]), a[1..], b);
    }
  }

  lemma RunTwo(s: State, a: Event, b: Event)
    ensures RunFrom(s, [a, b]) == Next(Next(s, a), b)
  {
    assert [a, b][1..] == [b] && [b][1..] == [];
    assert RunFrom(Next(s, a), [b]) == RunFrom(Next(Next(s, a), b), []);
  }

  lemma RunThree(s: State, a: Event, b: Event, c: Event)
    ensures RunFrom(s, [a, b, c]) == Next(Next(Next(s, a), b), c)
  {
    assert [a, b, c][1..] == [b, c];
    RunTwo(Next(s, a), b, c);
  }

  lemma RunFour(s: State, a: Event, b: Event, c: Event, d: Event)
    ensures RunFrom(s, [a, b, c, d]) == Next(Next(Next(Next(s, a), b), c), d)
  {
    assert [a, b, c, d][1..] == [b, c, d];
    RunThree(Next(s, a), b, c, d);
  }

  // The old app active, the new one complete beside it.
  predicate StagedFor(s: State, fs: Fs, app: Tree) {
    && s.pc.Staged? && s.start == fs && s.offered == app && s.fs == fs[Staging := Folder(app)]
    && Active in fs && fs[Active].Folder? && Staging !in fs && Backup !in fs
  }

  lemma ReachesStaged(s: State, app: Tree)
    requires s.pc.Idle? && Active in s.fs && s.fs[Active].Folder? && Staging !in s.fs && Backup !in s.fs
    ensures StagedFor(Next(Next(Next(s, Begin(app, false)), Copy(app)), CopyDone), s.fs, app)
  { }

  lemma StagedSucceeds(s: State, fs: Fs, app: Tree)
    requires StagedFor(s, fs, app)
    ensures var t := Next(Next(Next(Next(s, MoveOldAside), MoveNewIn), Complete), Removed);
      t.pc.Idle? && t.answer.Success? && t.fs == fs[Active := Folder(app)]
  {
    MapsEqual(Next(Next(Next(Next(s, MoveOldAside), MoveNewIn), Complete), Removed).fs, fs[Active := Folder(app)]);
  }

  lemma StagedRollsBack(s: State, fs: Fs, app: Tree)
    requires StagedFor(s, fs, app)
    ensures var t := Next(Next(Next(Next(s, Raise), Recover), Recover), Removed);
      t.pc.Idle? && t.answer.RolledBack? && t.fs == fs
  {
    MapsEqual(Next(Next(Next(Next(s, Raise), Recover), Recover), Removed).fs, fs);
  }

  lemma AsideRollsBack(s: State, fs: Fs, app: Tree)
    requires StagedFor(s, fs, app)
    ensures var t := Next(Next(Next(Next(Next(Next(s, MoveOldAside), Raise), Recover), Restore), Recover), Removed);
      t.pc.Idle? && t.answer.RolledBack? && t.fs == fs
  {
    var u := Next(Next(Next(Next(s, MoveOldAside), Raise), Recover), Restore);
    MapsEqual(u.fs, s.fs);
    MapsEqual(Next(Next(u, Recover), Removed).fs, fs);
  }

  lemma PromotedRecovers(s: State, fs: Fs, app: Tree)
    requires StagedFor(s, fs, app)
    ensures var u := Next(Next(Next(Next(s, MoveOldAside), MoveNewIn), Raise), Recover);
      u.pc.ClearingActive? && u.fs == fs[Backup := fs[Active]][Active := Folder(app)]
  {
    MapsEqual(Next(Next(s, MoveOldAside), MoveNewIn).fs, fs[Backup := fs[Active]][Active := Folder(app)]);
  }

  lemma ClearedRollsBack(u: State, fs: Fs, app: Tree)
    requires Active in fs && fs[Active].Folder? && Staging !in fs && Backup !in fs
    requires u.pc.ClearingActive? && u.fs == fs[Backup := fs[Active]][Active := Folder(app)]
    ensures var t := Next(Next(Next(u, Removed), Restore), Recover);
      t.pc.Idle? && t.answer.RolledBack? && t.fs == fs
  {
    MapsEqual(Next(Next(u, Removed), Restore).fs, fs);
  }

  /** An update that nothing disturbs succeeds on every disk that admits it, with the new app active and nothing else
      changed; interrupted after any of its phases, with nothing going wrong in the recovery, it rolls back. */
  lemma UndisturbedCalls(s: State, app: Tree, phase: nat)
    requires s.pc.Idle? && phase <= 3
    requires Active in s.fs && s.fs[Active].Folder? && Staging !in s.fs && Backup !in s.fs
    ensures var t := RunFrom(s, Undisturbed(app, phase));
      && t.pc.Idle?
      && (if phase == 0 then t.answer.Success? && t.fs == s.fs[Active := Folder(app)]
          else t.answer.RolledBack? && t.fs == s.fs)
  {
    var first := [Begin(app, false), Copy(app), CopyDone];
    var u := Next(Next(Next(s, Begin(app, false)), Copy(app)), CopyDone);
    RunThree(s, Begin(app, false), Copy(app), CopyDone);
    ReachesStaged(s, app);
    match phase
    case 0 =>
      RunAppend(s, first, [MoveOldAside, MoveNewIn, Complete, Removed]);
      RunFour(u, MoveOldAside, MoveNewIn, Complete, Removed);
      StagedSucceeds(u, s.fs, app);
    case 1 =>
      RunAppend(s, first, [Raise, Recover, Recover, Removed]);
      RunFour(u, Raise, Recover, Recover, Removed);
      StagedRollsBack(u, s.fs, app);
    case 2 =>
      RunAppend(s, first, [MoveOldAside, Raise, Recover, Restore] + [Recover, Removed]);
      RunAppend(u, [MoveOldAside, Raise, Recover, Restore], [Recover, Removed]);
      RunFour(u, MoveOldAside, Raise, Recover, Restore);
      RunTwo(Next(Next(Next(Next(u, MoveOldAside), Raise), Recover), Restore), Recover, Removed);
      AsideRollsBack(u, s.fs, app);
    case _ =>
      RunAppend(s, first, [MoveOldAside, MoveNewIn, Raise, Recover] + [Removed, Restore, Recover]);
      RunAppend(u, [MoveOldAside, MoveNewIn, Raise, Recover], [Removed, Restore, Recover]);
      RunFour(u, MoveOldAside, MoveNewIn, Raise, Recover);
      RunThree(Next(Next(Next(Next(u, MoveOldAside), MoveNewIn), Raise), Recover), Removed, Restore, Recover);
      PromotedRecovers(u, s.fs, app);
      ClearedRollsBack(Next(Next(Next(Next(u, MoveOldAside), MoveNewIn), Raise), Recover), s.fs, app);
  }

  lemma DeletingReached(s: State, fs: Fs, app: Tree)
    requires StagedFor(s, fs, app)
    ensures var t := Next(Next(Next(s, MoveOldAside), MoveNewIn), Complete);
      t.pc.DeletingOld? && t.fs == fs[Active := Folder(app)][Backup := fs[Active]]
  {
    MapsEqual(Next(Next(Next(s, MoveOldAside), MoveNewIn), Complete).fs,
              fs[Active := Folder(app)][Backup := fs[Active]]);
  }

  lemma DeleteStops(s: State, e: Event, part: Tree)
    requires s.pc.DeletingOld? && Backup in s.fs && s.fs[Backup].Folder? && (e == Crash || e == RaiseAgain)
    requires forall k :: k in part ==> k in s.fs[Backup].files && part[k] == s.fs[Backup].files[k]
    ensures var t := Next(Next(s, Shrink(part)), e);
      t.pc.Idle? && t.answer == (if e == Crash then Crashed else Broken) && t.fs == s.fs[Backup := Folder(part)]
  { }

  /** What a failed clean-up leaves: if the last delete stops after any part of the old app, by an exception or with the
      process, the new app is active, the rest of the old one is at its hidden name, and any further update is
      refused. */
  lemma FailedDeleteBlocks(s: State, app: Tree, part: Tree, e: Event, next: Tree, same: bool)
    requires s.pc.Idle? && Active in s.fs && s.fs[Active].Folder? && Staging !in s.fs && Backup !in s.fs
    requires forall k :: k in part ==> k in s.fs[Active].files && part[k] == s.fs[Active].files[k]
    requires e == Crash || e == RaiseAgain
    ensures
      var t := RunFrom(s, [Begin(app, false), Copy(app), CopyDone] + [MoveOldAside, MoveNewIn, Complete]
                          + [Shrink(part), e]);
      && t.pc.Idle? && t.answer == (if e == Crash then Crashed else Broken)
      && t.fs == s.fs[Active := Folder(app)][Backup := Folder(part)]
      && Next(t, Begin(next, same)) == t.(answer := Refused)
  {
    var first := [Begin(app, false), Copy(app), CopyDone];
    var u := Next(Next(Next(s, Begin(app, false)), Copy(app)), CopyDone);
    var v := Next(Next(Next(u, MoveOldAside), MoveNewIn), Complete);
    ReachesStaged(s, app);
    DeletingReached(u, s.fs, app);
    DeleteStops(v, e, part);
    RunThree(s, Begin(app, false), Copy(app), CopyDone);
    RunThree(u, MoveOldAside, MoveNewIn, Complete);
    RunTwo(v, Shrink(part), e);
    RunAppend(s, first, [MoveOldAside, MoveNewIn, Complete]);
    RunAppend(s, first + [MoveOldAside, MoveNewIn, Complete], [Shrink(part), e]);
    Overwritten(s.fs[Active := Folder(app)], s.fs[Active], Folder(part));
  }

  lemma Overwritten(fs: Fs, x: Entry, y: Entry)
    ensures fs[Backup := x][Backup := y] == fs[Backup := y]
  { }

  // ---- the update itself ----

  // The operations on the disk that can fail.
  datatype Op = CopyNew | SetOldAside | PutNewIn | DeleteOld | ClearActive | RestoreOld | ClearStaging

  lemma MapUpdates(m: Fs, p: Place, x: Entry, y: Entry)
    ensures m[p := x][p := y] == m[p := y]
    ensures m[p := x] - {p} == m - {p}
    ensures p in m && m[p] == x ==> m[p := x] == m
  { }

  class InstallRoot {
    var fs: Fs

    constructor (fs: Fs)
      ensures this.fs == fs
    {
      this.fs := fs;
    }

    /** copytree into the staging name: failing, it may stop after any part of the files. */
    method CopyTree(app: Tree, fails: bool) returns (ok: bool)
      modifies this
      ensures ok <==> !fails && Staging !in old(fs)
      ensures ok ==> fs == old(fs)[Staging := Folder(app)]
      ensures !ok ==> fs == old(fs) || (Staging !in old(fs) && exists part :: fs == old(fs)[Staging := Folder(part)])
    {
      if Staging in fs { return false; }
      var copied: Tree := map[];
      var todo := app.Keys;
      fs := fs[Staging := Folder(copied)];
      while todo != {}
        invariant todo <= app.Keys && copied == map k | k in app.Keys - todo :: app[k]
        invariant fs == old(fs)[Staging := Folder(copied)]
        decreases |todo|
      {
        if fails {
          var now := *;
          if now { return false; }
        }
        var k :| k in todo;
        todo, copied := todo - {k}, copied[k := app[k]];
        fs := fs[Staging := Folder(copied)];
      }
      assert copied == app;
      ok := !fails;
    }

    method Replace(a: Place, b: Place, fails: bool) returns (ok: bool)
      modifies this
      ensures ok <==> !fails && a in old(fs) && b !in old(fs)
      ensures fs == if ok then Renamed(old(fs), a, b) else old(fs)
    {
      ok := !fails && a in fs && b !in fs;
      if ok { fs := Renamed(fs, a, b); }
    }

    /** _cleanup_tree: failing, it may leave a folder half deleted; a link or a plain file goes at once or not at
        all. */
    method CleanupTree(p: Place, fails: bool) returns (ok: bool)
      modifies this
      ensures ok <==> !fails || p !in old(fs)
      ensures ok ==> fs == old(fs) - {p}
      ensures !ok ==>
        || fs == old(fs)
        || (p in old(fs) && old(fs)[p].Folder? && exists part :: fs == old(fs)[p := Folder(part)])
    {
      if p !in fs { return true; }
      if fs[p].Folder? {
        var rest := fs[p].files;
        MapUpdates(old(fs), p, Folder(rest), Folder(rest));
        while rest != map[]
          invariant fs == old(fs)[p := Folder(rest)]
          decreases |rest|
        {
          if fails {
            var now := *;
            if now { return false; }
          }
          var k :| k in rest.Keys;
          MapUpdates(old(fs), p, Folder(rest), Folder(rest - {k}));
          rest := rest - {k};
          fs := fs[p := Folder(rest)];
        }
        if fails { return false; }
        MapUpdates(old(fs), p, Folder(rest), Folder(rest));
        fs := fs - {p};
        return true;
      }
      ok := !fails;
      if ok { fs := fs - {p}; }
    }

    /** Puts the old app back; a raise inside leaves the disk as it stands. */
    method Recover(faults: set<Op>) returns (ok: bool)
      modifies this
      ensures ok ==> fs == (if !Exists(old(fs), Backup) then old(fs)
                            else (old(fs) - {Backup})[Active := old(fs)[Backup]])
                           - (if Exists(old(fs), Staging) then {Staging} else {})
      ensures !ok ==> (forall p: Place :: p.Elsewhere? ==> SameAt(fs, old(fs), p))
      ensures !ok && Exists(old(fs), Backup) ==>
        SameAt(fs, old(fs), Backup) || (Active in fs && fs[Active] == old(fs)[Backup])
      ensures !ok && !Exists(old(fs), Backup) ==> SameAt(fs, old(fs), Active)
      ensures faults == {} && (Active in old(fs) ==> Exists(old(fs), Active)) ==> ok
    {
      ok := true;
      if Exists(fs, Backup) {
        if Exists(fs, Active) {
          ok := CleanupTree(Active, ClearActive in faults);
          if !ok { return; }
        }
        ok := Replace(Backup, Active, RestoreOld in faults);
        if !ok { return; }
      }
      if Exists(fs, Staging) {
        ok := CleanupTree(Staging, ClearStaging in faults);
      }
    }

    /** The whole update.  `same` says that the new app resolves to the active one; `interrupt` is the injected failure
        phase: 0 none, 1 after the copy, 2 after the first rename, 3 after the second; `faults` are the operations that
        fail if they are reached. */
    method Promote(app: Tree, same: bool, interrupt: nat, faults: set<Op>) returns (answer: Answer)
      modifies this
      ensures answer in {Refused, RolledBack, Success, Broken}
      ensures answer.Refused? <==>
        || Active !in old(fs) || !old(fs)[Active].Folder? || same
        || Leftover(old(fs), Staging) || Leftover(old(fs), Backup)
      ensures answer.Refused? || answer.RolledBack? ==> fs == old(fs)
      ensures answer.Success? ==> interrupt !in {1, 2, 3} && Staging !in fs && Backup !in fs
      ensures answer.Success? ==> fs == old(fs)[Active := Folder(app)]
      ensures answer.Broken? ==> SameElsewhere(fs, old(fs))
      ensures answer.Broken? ==>
            (|| (Active in fs && (fs[Active] == old(fs)[Active] || fs[Active] == Folder(app)))
            || (Backup in fs && fs[Backup] == old(fs)[Active]))
      ensures faults == {} && !answer.Refused? ==>
        answer == (if interrupt in {1, 2, 3} || Staging in old(fs) || Backup in old(fs) then RolledBack else Success)
    {
      if !MayStart(fs) || same { return Refused; }
      ghost var was := fs;
      var ok := CopyTree(app, CopyNew in faults);
      ok := ok && interrupt != 1;
      if ok {
        ok := Replace(Active, Backup, SetOldAside in faults);
        ok := ok && interrupt != 2;
      }
      if ok {
        ok := Replace(Staging, Active, PutNewIn in faults);
        ok := ok && interrupt != 3;
      }
      if !ok {
        ok := Recover(faults);
        if ok { MapsEqual(fs, was); }
        return if ok then RolledBack else Broken;
      }
      ok := CleanupTree(Backup, DeleteOld in faults);
      if ok { MapsEqual(fs, was[Active := Folder(app)]); }
      return if ok then Success else Broken;
    }

    /** The audit loop: updates interrupted at each of the phases, then one that is not.  If none of the interrupted
        ones broke and the last one succeeded, only the active app has changed; and on a disk without leftovers it
        passes unless an operation fails. */
    method RunAudit(app: Tree, faults: seq<set<Op>>) returns (passed: bool)
      requires |faults| == 4
      modifies this
      ensures passed ==> fs == old(fs)[Active := Folder(app)] && Staging !in fs && Backup !in fs
      ensures Active in old(fs) && old(fs)[Active].Folder? && Staging !in old(fs) && Backup !in old(fs) ==>
        faults == [{}, {}, {}, {}] ==> passed
    {
      for phase := 1 to 4
        invariant fs == old(fs)
      {
        var answer := Promote(app, false, phase, faults[phase - 1]);
        if !answer.RolledBack? { return false; }
      }
      var answer := Promote(app, false, 0, faults[3]);
      passed := answer.Success?;
    }
  }
}
