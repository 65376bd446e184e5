/** The installer's completed-step store and its two files. */
module StateStore {

  datatype Option<T> = None | Some(value: T)

  /** The two state files (None: missing or corrupt) and whether the target's /etc exists. */
  datatype Disk = Disk(runFile: Option<set<string>>, targetFile: Option<set<string>>, targetThere: bool)

  function ReadFile(file: Option<set<string>>): set<string> {
    if file.Some? then file.value else {}
  }

  /** What a freshly constructed store knows. */
  function Loaded(d: Disk): set<string> {
    ReadFile(d.runFile) + if d.targetThere then ReadFile(d.targetFile) else {}
  }

  /** A running store and the disk under it. */
  datatype Session = Session(done: set<string>, disk: Disk)

  function Reloaded(d: Disk): Session {
    Session(Loaded(d), d)
  }

  /** Once the target is there, the live-session marks migrate into its file. */
  function Saved(s: Session): Session {
    if s.disk.targetThere then
      var done := s.done + ReadFile(s.disk.runFile);
      Session(done, s.disk.(targetFile := Some(done)))
    else
      s.(disk := s.disk.(runFile := Some(s.done)))
  }

  function Marked(s: Session, key: string): Session {
    Saved(s.(done := s.done + {key}))
  }

  /** A mark whose save fails is remembered only in memory. */
  function MarkedUnsaved(s: Session, key: string): Session {
    s.(done := s.done + {key} + if s.disk.targetThere then ReadFile(s.disk.runFile) else {})
  }

  function TargetAppeared(s: Session): Session {
    s.(disk := s.disk.(targetThere := true))
  }

  /** A reboot drops the live-session file; the target may be mounted again or not. */
  function Rebooted(d: Disk, targetBack: bool): Disk {
    d.(runFile := None, targetThere := targetBack)
  }

  // --- Whole histories ---

  datatype Event =
    | Mark(key: string)
    | TargetAppears
    | Crash                      // the process dies and a new store loads
    | Reboot(targetBack: bool)   // also drops the live-session file

  /** `known` is the ledger: the marks on disk at the start and every mark made. `settled`
      is whether some mark was saved while the target was there. */
  datatype History = History(session: Session, known: set<string>, settled: bool)

  function Begin(d: Disk): History {
    History(Reloaded(d), Loaded(d), false)
  }

  function After(h: History, e: Event): History {
    match e
    case Mark(key) =>
      History(Marked(h.session, key), h.known + {key}, h.settled || h.session.disk.targetThere)
    case TargetAppears => h.(session := TargetAppeared(h.session))
    case Crash => h.(session := Reloaded(h.session.disk))
    case Reboot(back) => h.(session := Reloaded(Rebooted(h.session.disk, back)))
  }

  /** Reboots happen after a mark was saved on the target, with the target mounted again
      before the store loads. Everything else may happen at any time. */
  predicate Allowed(h: History, e: Event) {
    e.Reboot? ==> h.settled && e.targetBack
  }

  predicate AllAllowed(h: History, es: seq<Event>)
    decreases es
  {
    es == [] || (Allowed(h, es[0]) && AllAllowed(After(h, es[0]), es[1..]))
  }

  function Play(h: History, es: seq<Event>): History
    decreases es
  {
    if es == [] then h else Play(After(h, es[0]), es[1..])
  }

  /** The disk alone remembers the whole ledger. */
  predicate DiskRemembers(d: Disk, known: set<string>) {
    if d.targetThere then Loaded(d) == known
    else ReadFile(d.runFile) == known && ReadFile(d.targetFile) <= known
  }

  predicate Remembers(h: History) {
    && h.session.done == h.known
    && DiskRemembers(h.session.disk, h.known)
    && (h.settled ==> h.session.disk.targetThere && ReadFile(h.session.disk.targetFile) == h.known)
  }

  lemma {:induction false} HistoryRemembers(h: History, es: seq<Event>)
    requires Remembers(h) && AllAllowed(h, es)
    ensures Remembers(Play(h, es))
    decreases es
  {
    if es != [] {
      HistoryRemembers(After(h, es[0]), es[1..]);
    }
  }

  /** All keys marked in a history. */
  function Keys(es: seq<Event>): set<string> {
    if es == [] then {} else (if es[0].Mark? then {es[0].key} else {}) + Keys(es[1..])
  }

  lemma {:induction false} LedgerIsMarks(h: History, es: seq<Event>)
    ensures Play(h, es).known == h.known + Keys(es)
    decreases es
  {
    if es != [] {
      LedgerIsMarks(After(h, es[0]), es[1..]);
    }
  }

  // --- Main results ---

  /** Starting with no state file on the target, over any allowed history of marks,
      target arrivals, crashes and reboots: a store loaded now holds exactly the marks
      that were on disk at the start and every mark made since. */
  lemma ReloadForgetsNothing(d: Disk, es: seq<Event>)
    requires d.targetFile.None? || d.targetThere
    requires AllAllowed(Begin(d), es)
    ensures Loaded(Play(Begin(d), es).session.disk) == Loaded(d) + Keys(es)
    ensures Play(Begin(d), es).session.done == Loaded(d) + Keys(es)
  {
    HistoryRemembers(Begin(d), es);
    LedgerIsMarks(Begin(d), es);
  }

  // --- When a mark is lost ---

  /** Everything the disk holds, whether or not the target is mounted right now. */
  function OnDisk(d: Disk): set<string> {
    ReadFile(d.runFile) + ReadFile(d.targetFile)
  }

  /** The known marks an event is about to lose: a mark saved on the target replaces its
      file, and a reboot drops the live-session file. */
  function Drops(h: History, e: Event): set<string> {
    var s := h.session;
    match e
    case Mark(key) =>
      if s.disk.targetThere then h.known * ReadFile(s.disk.targetFile) - s.done - {key} else {}
    case Reboot(_) => h.known * ReadFile(s.disk.runFile) - ReadFile(s.disk.targetFile)
    case _ => {}
  }

  /** What holds in every history, harmless or not. */
  predicate Coherent(h: History) {
    ReadFile(h.session.disk.runFile) <= h.session.done <= OnDisk(h.session.disk)
  }

  lemma StepLosesExactly(h: History, e: Event)
    requires Coherent(h) && h.known <= OnDisk(h.session.disk)
    ensures Coherent(After(h, e))
    ensures After(h, e).known - OnDisk(After(h, e).session.disk) == Drops(h, e)
  {
  }

  ghost predicate NeverDrops(h: History, es: seq<Event>)
    decreases es
  {
    es == [] || (Drops(h, es[0]) == {} && NeverDrops(After(h, es[0]), es[1..]))
  }

  /** At every moment of the history the disk holds the whole ledger. */
  ghost predicate AlwaysHeld(h: History, es: seq<Event>)
    decreases es
  {
    && h.known <= OnDisk(h.session.disk)
    && (es == [] || AlwaysHeld(After(h, es[0]), es[1..]))
  }

  lemma {:induction false} AlwaysHeldIff(h: History, es: seq<Event>)
    requires Coherent(h) && h.known <= OnDisk(h.session.disk)
    ensures AlwaysHeld(h, es) <==> NeverDrops(h, es)
    decreases es
  {
    if es != [] {
      StepLosesExactly(h, es[0]);
      var next := After(h, es[0]);
      assert AlwaysHeld(next, es[1..]) ==> next.known <= OnDisk(next.session.disk);
      if Drops(h, es[0]) == {} {
        AlwaysHeldIff(next, es[1..]);
      }
    }
  }

  /** From any disk and over any history whatever, unrestricted: no mark is ever missing
      from the disk if and only if no mark is saved on a target whose known marks the store
      does not know, and no reboot comes while the live-session file alone knows a mark. */
  lemma NothingIsLostIff(d: Disk, es: seq<Event>)
    ensures AlwaysHeld(Begin(d), es) <==> NeverDrops(Begin(d), es)
  {
    AlwaysHeldIff(Begin(d), es);
  }

  // --- After a reboot ---

  predicate NoReboot(es: seq<Event>) {
    forall i :: 0 <= i < |es| ==> !es[i].Reboot?
  }

  /** Once the target is there: does the store load again before the next mark (or is there
      no next mark)? */
  predicate ReloadsFirst(es: seq<Event>) {
    es == [] || es[0].Crash? || (!es[0].Mark? && ReloadsFirst(es[1..]))
  }

  /** The target comes back, and the store loads again before it marks anything there. */
  predicate TargetIsReadFirst(es: seq<Event>) {
    es != [] && if es[0].TargetAppears? then ReloadsFirst(es[1..]) else TargetIsReadFirst(es[1..])
  }

  /** The target is mounted; it and the store know `kept`, or the store does not know it yet
      and still will if it loads first. */
  lemma {:induction false} MountedRun(h: History, es: seq<Event>)
    requires NoReboot(es) && h.session.disk.targetThere
    requires ReadFile(h.session.disk.runFile) <= h.session.done <= Loaded(h.session.disk)
    ensures Loaded(Play(h, es).session.disk) ==
              Keys(es) + if ReloadsFirst(es) then Loaded(h.session.disk) else h.session.done
    decreases es
  {
    if es != [] {
      MountedRun(After(h, es[0]), es[1..]);
      if es[0].Mark? || es[0].Crash? {
        var next := After(h, es[0]).session;
        assert next.done == Loaded(next.disk);
      }
    }
  }

  lemma {:induction false} UnmountedRun(h: History, es: seq<Event>)
    requires NoReboot(es) && !h.session.disk.targetThere
    requires h.session.done == ReadFile(h.session.disk.runFile)
    ensures Loaded(Play(h, es).session.disk) ==
              h.session.done + Keys(es) + if TargetIsReadFirst(es) then ReadFile(h.session.disk.targetFile) else {}
    decreases es
  {
    if es != [] {
      if es[0].TargetAppears? {
        MountedRun(After(h, es[0]), es[1..]);
      } else {
        UnmountedRun(After(h, es[0]), es[1..]);
      }
    }
  }

  /** What survives a reboot, for every run of marks, target arrivals and restarts that
      follows it. The marks on the target survive if it was read before it was written: if it
      was mounted when the first store loaded, or if after it came back a store loaded before
      the next mark. */
  function Kept(h: History, back: bool, es: seq<Event>): set<string> {
    if back || TargetIsReadFirst(es) then ReadFile(h.session.disk.targetFile) else {}
  }

  /** The exact condition: a store loaded at the end knows every mark ever made if and only
      if the marks before the reboot survived it or were made again. */
  lemma RebootForgetsNothingIff(h: History, back: bool, es: seq<Event>)
    requires NoReboot(es)
    ensures var end := Play(After(h, Reboot(back)), es);
            && Loaded(end.session.disk) == Keys(es) + Kept(h, back, es)
            && end.known == h.known + Keys(es)
            && (end.known <= Loaded(end.session.disk) <==> h.known <= Keys(es) + Kept(h, back, es))
            && (Remembers(h) ==> (Loaded(end.session.disk) == end.known <==> h.known <= Keys(es) + Kept(h, back, es)))
  {
    var h' := After(h, Reboot(back));
    LedgerIsMarks(h', es);
    if back {
      MountedRun(h', es);
    } else {
      UnmountedRun(h', es);
    }
  }

  /** The history the ledger does not survive: after a reboot the store is loaded before
      the target is mounted; the first mark then erases every earlier one. */
  lemma EarlyReloadLosesMarks(old_: set<string>, key: string)
    requires key !in old_ && old_ != {}
    ensures var d := Disk(None, Some(old_), false);
            var s := Marked(TargetAppeared(Reloaded(d)), key);
            Loaded(s.disk) == {key} && !(old_ <= Loaded(s.disk))
  {
    var x :| x in old_;
    assert x != key;
  }

  // --- Two stores on the same files ---

  function MarkedAll(s: Session, keys: seq<string>): Session
    decreases keys
  {
    if keys == [] then s else MarkedAll(Marked(s, keys[0]), keys[1..])
  }

  /** A store that is behind, another one having marked steps in the live session, carries
      those marks over with its first save on the target: after a reboot they are there,
      with its own. */
  lemma {:induction false} MigrationKeepsLiveMarks(s: Session, keys: seq<string>)
    requires s.disk.targetThere && keys != []
    ensures var end := MarkedAll(s, keys);
            var all := s.done + ReadFile(s.disk.runFile) + set k | k in keys;
            && Loaded(Rebooted(end.disk, true)) == end.done == all
            && end.disk == s.disk.(targetFile := Some(all))
    decreases keys
  {
    var next := Marked(s, keys[0]);
    assert (set k | k in keys) == {keys[0]} + set k | k in keys[1..];
    if |keys| > 1 {
      MigrationKeepsLiveMarks(next, keys[1..]);
    } else {
      assert keys[1..] == [];
    }
  }

  /** In memory a mark whose save fails is as good as a saved one; before the target is
      there a save writes the live-session file, and that alone. */
  lemma SavedOrNot(s: Session, key: string)
    ensures MarkedUnsaved(s, key) == s.(done := Marked(s, key).done)
    ensures !s.disk.targetThere ==>
              Marked(s, key) == Session(s.done + {key}, s.disk.(runFile := Some(s.done + {key})))
  {
  }

  // --- The store object ---

  /** The files themselves, shared by every store opened on the target. */
  class StateFiles {
    var disk: Disk

    constructor (disk: Disk)
      ensures this.disk == disk
    {
      this.disk := disk;
    }
  }

  /** `files` is null for a store that is in memory only. */
  class Store {
    var done: set<string>
    const files: StateFiles?

    constructor (files: StateFiles?)
      ensures this.files == files
      ensures done == if files == null then {} else Loaded(files.disk)
    {
      this.files := files;
      done := {};
      new;
      if files != null {
        done := done + ReadFile(files.disk.runFile);
        if files.disk.targetThere {
          done := done + ReadFile(files.disk.targetFile);
        }
      }
    }

    method MarkStep(key: string)
      modifies this, files
      ensures files == null ==> done == old(done) + {key}
      ensures files != null ==> Session(done, files.disk) == Marked(Session(old(done), old(files.disk)), key)
    {
      done := done + {key};
      if files != null {
        Save();
      }
    }

    method Save()
      requires files != null
      modifies this, files
      ensures Session(done, files.disk) == Saved(Session(old(done), old(files.disk)))
    {
      if files.disk.targetThere {
        done := done + ReadFile(files.disk.runFile);
        files.disk := files.disk.(targetFile := Some(done));
      } else {
        files.disk := files.disk.(runFile := Some(done));
      }
    }
  }
}
