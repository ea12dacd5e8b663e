/**
 * The earlier, self-contained backup runner.  Its tracker file holds a
 * cursor and one record per work item; the loop copies items from the
 * cursor on, stops at the first failing copy without moving the cursor, and
 * after the loop the tracker file is always moved to the log directory.
 */
module Backup {
  import opened Wrappers
  import opened Keys
  import opened Rclone
  import opened Segments
  import opened Sequences
  import opened Walk
  import BaseTracker
  import BackupTracker

  // ----- The store -----

  /** One entry of `sources`: the path, and the completion stamp once it has been copied. */
  datatype Record = Record(path: string, done: Option<string>)

  /** The `_tracker` dictionary: the cursor and the records; this variant keeps no failure count. */
  datatype Store = Store(next: nat, sources: map<string, Record>)

  /**
   * The store `make_fresh_tracker` builds: cursor 0, and item i, keyed by
   * `str(i)`, holding only the i-th path.
   */
  function FreshStore(paths: seq<string>): (st: Store)
    ensures st.next == 0
    ensures forall i :: 0 <= i < |paths| ==> KeyOf(i) in st.sources && st.sources[KeyOf(i)] == Record(paths[i], None)
    ensures forall key :: key in st.sources ==> exists i :: 0 <= i < |paths| && key == KeyOf(i)
  {
    KeyOfInjective();
    Store(0, map i | 0 <= i < |paths| :: KeyOf(i) := Record(paths[i], None))
  }

  /** The copy command of an item: from the path itself to the destination prefix followed by the path. */
  function BackupCommand(destPrefix: string, path: string): seq<string> {
    ["rclone", "copy", path, destPrefix + path]
  }

  /**
   * The command is the one the current backup tracker issues at verbosity
   * 0, and the destination prefix is built the same way.
   */
  lemma SameCommandAsCurrent(remote: string, bucket: string, hostname: string, path: string)
    ensures var dest := BackupTracker.DestPrefix(remote, bucket, hostname);
      BackupCommand(dest, path) == BaseTracker.Command(BackupTracker.SourcePrefix(), dest, path, 0)
      && BackupCommand(dest, path)[3] == remote + ":" + bucket + "/" + hostname + path
  {
    var dest := BackupTracker.DestPrefix(remote, bucket, hostname);
    assert BackupTracker.SourcePrefix() + path == path;
  }

  // ----- The loop of `resume_backups` -----

  /** A successful copy of the item at the cursor: the cursor moves on and only that record is stamped. */
  function Advance(st: Store, now: string): (r: Store)
    requires KeyOf(st.next) in st.sources
    ensures r.next == st.next + 1 && r.sources.Keys == st.sources.Keys
    ensures forall key :: key in st.sources && key != KeyOf(st.next) ==> r.sources[key] == st.sources[key]
    ensures r.sources[KeyOf(st.next)] == st.sources[KeyOf(st.next)].(done := Some(now))
  {
    var key := KeyOf(st.next);
    Store(st.next + 1, st.sources[key := st.sources[key].(done := Some(now))])
  }

  /** Why the loop ended: the interrupt flag, no record at the cursor, or a failed copy. */
  datatype Stop = Interrupted | Exhausted | Failed

  /** A run of the loop: the final store, the store as saved after each copy, the number of successful copies, and why it ended. */
  datatype Run = Run(final: Store, saved: seq<Store>, copies: nat, stop: Stop)

  /**
   * The loop from store `st`: unless the interrupt flag is set, fetch the
   * record at the cursor; if there is one, copy it; on success advance,
   * stamp and save, on failure leave the loop.
   */
  function BackupRun(st: Store, env: Env): Run
    decreases |Pending(st.sources.Keys, st.next)|
  {
    if env.interrupted(st.next) then Run(st, [], 0, Interrupted)
    else if KeyOf(st.next) !in st.sources then Run(st, [], 0, Exhausted)
    else if env.outcome(st.next).Failure? then Run(st, [], 0, Failed)
    else
      var st' := Advance(st, env.clock(st.next));
      PendingShrinks(st.sources.Keys, st.next);
      var rest := BackupRun(st', env);
      Run(rest.final, [st'] + rest.saved, rest.copies + 1, rest.stop)
  }

  /** One successful turn of the loop, seen from the run it starts. */
  lemma BackupUnfold(st: Store, env: Env)
    requires !env.interrupted(st.next) && KeyOf(st.next) in st.sources && env.outcome(st.next).Success?
    ensures var st' := Advance(st, env.clock(st.next));
      var r, rest := BackupRun(st, env), BackupRun(st', env);
      r.final == rest.final && r.saved == [st'] + rest.saved && r.copies == rest.copies + 1 && r.stop == rest.stop
  {
  }

  /**
   * The cursor ends at its start plus the number of successful copies, one
   * save follows each of them with the cursor already advanced, the last
   * save is the final store, and the key set never changes.
   */
  lemma {:induction false} BackupProgress(st: Store, env: Env)
    ensures var r := BackupRun(st, env);
      && r.final.next == st.next + r.copies
      && r.final.sources.Keys == st.sources.Keys
      && |r.saved| == r.copies
      && (r.copies == 0 ==> r.final == st)
      && (r.copies > 0 ==> r.saved[r.copies - 1] == r.final)
      && (forall i :: 0 <= i < r.copies ==> r.saved[i].next == st.next + i + 1)
    decreases BackupRun(st, env).copies
  {
    var r := BackupRun(st, env);
    if !env.interrupted(st.next) && KeyOf(st.next) in st.sources && env.outcome(st.next).Success? {
      var st' := Advance(st, env.clock(st.next));
      BackupProgress(st', env);
      BackupUnfold(st, env);
      var rest := BackupRun(st', env);
      forall i | 0 < i < r.copies
        ensures r.saved[i].next == st.next + i + 1
      {
        assert r.saved[i] == rest.saved[i - 1];
      }
    }
  }

  /**
   * Items are taken in ascending id order from the cursor: each item the
   * run copied was present, the flag was clear before it and its copy
   * succeeded.
   */
  lemma {:induction false} BackupChecks(st: Store, env: Env)
    ensures var r := BackupRun(st, env);
      forall id :: st.next <= id < st.next + r.copies ==>
        !env.interrupted(id) && KeyOf(id) in st.sources && env.outcome(id).Success?
    decreases BackupRun(st, env).copies
  {
    if !env.interrupted(st.next) && KeyOf(st.next) in st.sources && env.outcome(st.next).Success? {
      var st' := Advance(st, env.clock(st.next));
      BackupChecks(st', env);
      BackupUnfold(st, env);
    }
  }

  /**
   * The run stops at the first id where the flag is set, where no record
   * exists, or where the copy fails, checked in that order.
   */
  lemma {:induction false} BackupStop(st: Store, env: Env)
    ensures var r := BackupRun(st, env);
      var at := st.next + r.copies;
      && (r.stop == Interrupted <==> env.interrupted(at))
      && (r.stop == Exhausted <==> !env.interrupted(at) && KeyOf(at) !in st.sources)
      && (r.stop == Failed <==> !env.interrupted(at) && KeyOf(at) in st.sources && env.outcome(at).Failure?)
    decreases BackupRun(st, env).copies
  {
    var r := BackupRun(st, env);
    if !env.interrupted(st.next) && KeyOf(st.next) in st.sources && env.outcome(st.next).Success? {
      var st' := Advance(st, env.clock(st.next));
      BackupStop(st', env);
      BackupUnfold(st, env);
      var rest := BackupRun(st', env);
      assert st.next + r.copies == st'.next + rest.copies;
      assert st'.sources.Keys == st.sources.Keys;
    }
  }

  /** The record of an item the run copied is its old record with `done` stamped. */
  lemma {:induction false} BackupVisited(st: Store, env: Env, id: nat)
    requires st.next <= id < st.next + BackupRun(st, env).copies
    ensures KeyOf(id) in st.sources
    ensures var r := BackupRun(st, env);
      KeyOf(id) in r.final.sources && r.final.sources[KeyOf(id)] == st.sources[KeyOf(id)].(done := Some(env.clock(id)))
    decreases BackupRun(st, env).copies
  {
    assert !env.interrupted(st.next) && KeyOf(st.next) in st.sources && env.outcome(st.next).Success?;
    var st' := Advance(st, env.clock(st.next));
    BackupUnfold(st, env);
    KeyOfInjective();
    if id == st.next {
      BackupUntouched(st', env, KeyOf(id));
    } else {
      BackupVisited(st', env, id);
    }
  }

  /**
   * A record under a key the run did not copy, the failed item's included,
   * keeps its contents, whatever other keys the loaded store holds.
   */
  lemma {:induction false} BackupUntouched(st: Store, env: Env, key: string)
    requires key in st.sources
    requires forall id :: st.next <= id < st.next + BackupRun(st, env).copies ==> key != KeyOf(id)
    ensures var r := BackupRun(st, env);
      key in r.final.sources && r.final.sources[key] == st.sources[key]
    decreases BackupRun(st, env).copies
  {
    if !env.interrupted(st.next) && KeyOf(st.next) in st.sources && env.outcome(st.next).Success? {
      var st' := Advance(st, env.clock(st.next));
      BackupUnfold(st, env);
      assert key != KeyOf(st.next);
      BackupUntouched(st', env, key);
    }
  }

  /**
   * After a failure, the cursor rests on the failed item and its record is
   * as it was before the run, so the next run from this store tries that
   * same item first.
   */
  lemma RetriesFailedItem(st: Store, env: Env)
    requires BackupRun(st, env).stop == Failed
    ensures var r := BackupRun(st, env);
      && KeyOf(r.final.next) in st.sources && KeyOf(r.final.next) in r.final.sources
      && r.final.sources[KeyOf(r.final.next)] == st.sources[KeyOf(r.final.next)]
      && env.outcome(r.final.next).Failure?
  {
    var r := BackupRun(st, env);
    BackupProgress(st, env);
    BackupStop(st, env);
    KeyOfInjective();
    BackupUntouched(st, env, KeyOf(r.final.next));
  }

  // ----- Consecutive starts of the program -----

  /**
   * One start of the program: the run it makes, what it leaves at the
   * tracker file's path (None once the file has been moved), and the store
   * it moved to the log directory.  The tracker file always holds the last
   * store saved, which is the run's final store.
   */
  datatype Invocation = Invocation(run: Run, left: Option<Store>, archived: Option<Store>)

  /** `__init__`: the store on disk if there is one, otherwise a fresh one. */
  function StartStore(disk: Option<Store>, paths: seq<string>): Store {
    if disk.Some? then disk.value else FreshStore(paths)
  }

  /** As written: the tracker file is moved to the log directory after every run. */
  function InvokeAsWritten(disk: Option<Store>, paths: seq<string>, env: Env): Invocation {
    var run := BackupRun(StartStore(disk, paths), env);
    Invocation(run, None, Some(run.final))
  }

  /**
   * A run that is interrupted with items left loses its progress: the next
   * start finds no tracker file and begins again at item 0.  Here two items
   * are enumerated, the first is copied and the flag is set before the second.
   */
  lemma AsWrittenLosesProgress()
    ensures var paths, env := ["/a/b", "/a"], Env(_ => Outcome.Success([], []), id => id == 1, _ => "t");
      var first := InvokeAsWritten(None, paths, env);
      && first.run.stop == Interrupted && first.run.final.next == 1 && KeyOf(1) in first.run.final.sources
      && StartStore(first.left, paths).next == 0
  {
    var paths, env := ["/a/b", "/a"], Env(_ => Outcome.Success([], []), id => id == 1, _ => "t");
    var st := FreshStore(paths);
    assert KeyOf(0) in st.sources && KeyOf(1) in st.sources;
    var st' := Advance(st, env.clock(0));
    BackupUnfold(st, env);
    assert BackupRun(st', env) == Run(st', [], 0, Interrupted);
  }

  /** Corrected: the tracker file is moved to the log directory only once no item is left. */
  function Invoke(disk: Option<Store>, paths: seq<string>, env: Env): Invocation {
    var run := BackupRun(StartStore(disk, paths), env);
    if run.stop == Exhausted then Invocation(run, None, Some(run.final))
    else Invocation(run, Some(run.final), None)
  }

  /**
   * With the correction, a run that was interrupted or hit a failure is
   * resumed by the next start from exactly where it stopped, so items
   * already copied are not copied again; only a run that ran out of items
   * archives the file, and the next start then begins a fresh enumeration.
   */
  lemma ResumesWhereStopped(disk: Option<Store>, paths: seq<string>, env: Env, env': Env)
    ensures var first := Invoke(disk, paths, env);
      var second := Invoke(first.left, paths, env');
      && (first.run.stop != Exhausted ==>
            && first.archived == None
            && second.run == BackupRun(first.run.final, env')
            && first.run.final.next == StartStore(disk, paths).next + first.run.copies)
      && (first.run.stop == Exhausted ==>
            && first.archived == Some(first.run.final)
            && second.run == BackupRun(FreshStore(paths), env'))
  {
    BackupProgress(StartStore(disk, paths), env);
  }

  // ----- The tracker object -----

  /**
   * `BackupTracker` of the earlier runner: its settings, the
   * `_detailed_sources` list the enumeration appends to, and the `_tracker`
   * store.  `saved` records the store as each `_save_to_disk` writes it.
   */
  class Tracker {
    const filename: string
    const topLevelSources: seq<string>
    const remoteName: string
    const bucketName: string
    const logdir: string
    var detailedSources: seq<string>
    var next: nat
    var sources: map<string, Record>
    ghost var saved: seq<Store>

    /** The `_tracker` dictionary as one value. */
    function Current(): Store
      reads this
    {
      Store(next, sources)
    }

    /**
     * `__init__`: the settings are stored; an existing tracker file is
     * loaded, otherwise a fresh tracker is made and saved.
     */
    constructor(filename: string, sources: seq<string>, remoteName: string, bucketName: string, logdir: string,
                existing: Option<Store>, fs: BackupTracker.FileSystem)
      ensures this.filename == filename && topLevelSources == sources && this.remoteName == remoteName
      ensures this.bucketName == bucketName && this.logdir == logdir
      ensures existing.Some? ==> detailedSources == [] && Current() == existing.value && saved == []
      ensures existing.None? ==>
        && ExpandAll(sources, BackupTracker.Local(fs)).Success?
        && detailedSources == ExpandAll(sources, BackupTracker.Local(fs)).value
        && Current() == FreshStore(detailedSources) && saved == [Current()]
    {
      this.filename := filename;
      topLevelSources := sources;
      this.remoteName := remoteName;
      this.bucketName := bucketName;
      this.logdir := logdir;
      detailedSources := [];
      next := 0;
      this.sources := map[];
      saved := [];
      new;
      if existing.Some? {
        next := existing.value.next;
        this.sources := existing.value.sources;
      } else {
        MakeFreshTracker(fs);
        saved := saved + [Current()];
      }
    }

    /**
     * `_populate_sources_from_disk`: for each top-level source, every
     * directory the bottom-up walk reports, then the source, appended to
     * the items already listed.
     */
    method PopulateSourcesFromDisk(fs: BackupTracker.FileSystem)
      modifies this`detailedSources
      ensures ExpandAll(topLevelSources, BackupTracker.Local(fs)).Success?
      ensures detailedSources == old(detailedSources) + ExpandAll(topLevelSources, BackupTracker.Local(fs)).value
    {
      ghost var items: seq<string> := [];
      var i := 0;
      while i < |topLevelSources|
        invariant 0 <= i <= |topLevelSources|
        invariant ExpandAll(topLevelSources[..i], BackupTracker.Local(fs)) == Result.Success(items)
        invariant detailedSources == old(detailedSources) + items
      {
        var source := topLevelSources[i];
        assert topLevelSources[..i + 1][..i] == topLevelSources[..i];
        assert BackupTracker.Local(fs)(source) == Result.Success(Expand(source, fs(source)));
        detailedSources := AppendWalk(detailedSources, source, fs(source));
        AppendAssociative(old(detailedSources), items, Expand(source, fs(source)));
        items := items + Expand(source, fs(source));
        i := i + 1;
      }
      assert topLevelSources[..i] == topLevelSources;
    }

    /**
     * `make_fresh_tracker`: enumerate, then key every listed item by its
     * position, with the cursor at 0.
     */
    method MakeFreshTracker(fs: BackupTracker.FileSystem)
      modifies this`detailedSources, this`next, this`sources
      ensures ExpandAll(topLevelSources, BackupTracker.Local(fs)).Success?
      ensures detailedSources == old(detailedSources) + ExpandAll(topLevelSources, BackupTracker.Local(fs)).value
      ensures Current() == FreshStore(detailedSources)
    {
      PopulateSourcesFromDisk(fs);
      var initial := FreshStore(detailedSources);
      next := initial.next;
      sources := initial.sources;
    }

    /**
     * `resume_backups`: copy items from the cursor on until the interrupt
     * flag is seen, no record is left or a copy fails, stamping and saving
     * after each successful copy; then move the tracker file to the log
     * directory, whatever ended the loop, and return where it went.
     */
    method ResumeBackups(env: Env, stamp: string) returns (archivedAs: string)
      modifies this`next, this`sources, this`saved
      ensures var run := BackupRun(old(Current()), env);
        Current() == run.final && saved == old(saved) + run.saved
      ensures archivedAs == BaseTracker.ArchivePath(logdir, stamp, filename)
    {
      ghost var run := BackupRun(Current(), env);
      ghost var rest := run;
      while !env.interrupted(next) && KeyOf(next) in sources
        invariant rest == BackupRun(Current(), env)
        invariant rest.final == run.final
        invariant saved + rest.saved == old(saved) + run.saved
        decreases rest.copies
      {
        var key := KeyOf(next);
        var source := sources[key];
        if env.outcome(next).Failure? {
          break;
        }
        ghost var before, savedBefore := Current(), saved;
        BackupUnfold(before, env);
        var now := env.clock(next);
        next := next + 1;
        sources := sources[key := source.(done := Some(now))];
        saved := saved + [Current()];
        assert Current() == Advance(before, env.clock(before.next));
        ghost var rest' := BackupRun(Current(), env);
        AppendAssociative(savedBefore, [Current()], rest'.saved);
        rest := rest';
      }
      archivedAs := BaseTracker.ArchivePath(logdir, stamp, filename);
    }
  }
}
