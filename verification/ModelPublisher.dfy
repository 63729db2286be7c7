/** Publishing a trained model across a database and a file tree, with any step failing (src/orchestration/model_publisher.cpp). */
module ModelPublisher {
  import opened Common

  datatype Request = Request(runId: string, modelId: string, interval: string, horizonBars: int, manifestPath: string)

  // What the run's staging directory holds.
  datatype Dir = Dir(hasModel: bool, hasReport: bool, content: int)

  datatype Content = Manifest(modelId: string, runId: string, interval: string, publishedAt: int) | Junk(tag: int)

  datatype RunRow = RunRow(modelId: string, interval: string, horizonBars: int, manifestPath: string, trainedAt: int, publishedAt: int,
                           active: bool)

  datatype StateRow = StateRow(activeRun: string, manifestPath: string, version: int, updatedAt: int)

  type Key = (string, string)

  datatype Tables = Tables(runs: map<string, RunRow>, state: map<Key, StateRow>)

  // Every step whose outcome the code does not control. A step fails when `fails` says so.
  datatype Step =
    | StagingContained | OpenDb | Pragmas | ReadState | ArtifactContained | ReadReport | ManifestDir | WriteTmp | Begin
    | Upsert | UpdateState | StateRowPresent | ArtifactDir | ArtifactPreflight | CopyArtifact | DropOldBackup | ManifestPreflight
    | BackupManifest | SwapManifest | Commit | DropBackup | DropStaging
    | UndoArtifact | UndoManifest | UndoTmp | UndoBackup

  function Tmp(path: string): string { path + ".tmp" }

  function Backup(path: string): string { path + ".bak_publish" }

  predicate SafeId(id: string) {
    && 1 <= |id| <= 128
    && forall k | 0 <= k < |id| :: 'a' <= id[k] <= 'z' || 'A' <= id[k] <= 'Z' || '0' <= id[k] <= '9' || id[k] == '_' || id[k] == '-'
  }

  // ----- What a publish comes to -----

  // Everything outside the process: files by path, artifact runs by model and run, staged runs, committed tables.
  datatype Disk = Disk(files: map<string, Content>, artifacts: map<(string, string), Dir>, staging: map<string, Dir>, tables: Tables)

  // A run id already in the table keeps the columns the conflict clause does not set.
  function UpsertedRow(runs: map<string, RunRow>, r: Request, now: int): RunRow {
    if r.runId in runs then runs[r.runId].(manifestPath := r.manifestPath, publishedAt := now, active := true)
    else RunRow(r.modelId, r.interval, r.horizonBars, r.manifestPath, now, now, true)
  }

  function Upserted(t: Tables, r: Request, now: int): Tables {
    t.(runs := t.runs[r.runId := UpsertedRow(t.runs, r, now)])
  }

  function Advanced(t: Tables, r: Request, now: int): Tables
    requires (r.modelId, r.interval) in t.state
  {
    var key := (r.modelId, r.interval);
    t.(state := t.state[key := StateRow(r.runId, r.manifestPath, t.state[key].version + 1, now)])
  }

  function NewManifest(r: Request, now: int): Content { Manifest(r.modelId, r.runId, r.interval, now) }

  // The same file, or its absence, at a path.
  predicate SameAt(a: map<string, Content>, b: map<string, Content>, path: string) {
    (path in a <==> path in b) && (path in a ==> a[path] == b[path])
  }

  // Only the manifest's temporary and backup files may differ.
  ghost predicate SameFiles(a: map<string, Content>, b: map<string, Content>, path: string) {
    forall p | p != Tmp(path) && p != Backup(path) :: SameAt(a, b, p)
  }

  // Nor any but those and the manifest itself.
  ghost predicate SameOthers(a: map<string, Content>, b: map<string, Content>, path: string) {
    forall p | p != path && p != Tmp(path) && p != Backup(path) :: SameAt(a, b, p)
  }

  ghost predicate Untouched(before: Disk, after: Disk, r: Request) {
    && SameFiles(before.files, after.files, r.manifestPath)
    && after.artifacts == before.artifacts && after.staging == before.staging && after.tables == before.tables
  }

  ghost predicate Published(before: Disk, after: Disk, r: Request, now: int) {
    && SafeId(r.runId) && SafeId(r.modelId) && r.runId in before.staging
    && before.staging[r.runId].hasModel && before.staging[r.runId].hasReport
    && (r.modelId, r.runId) !in before.artifacts && (r.modelId, r.interval) in before.tables.state
    && r.manifestPath in after.files && after.files[r.manifestPath] == NewManifest(r, now)
    && SameOthers(before.files, after.files, r.manifestPath)
    && Tmp(r.manifestPath) !in after.files
    && after.artifacts == before.artifacts[(r.modelId, r.runId) := before.staging[r.runId]]
    && after.tables == Advanced(Upserted(before.tables, r, now), r, now)
    && (after.staging == before.staging || after.staging == before.staging - {r.runId})
  }

  // What a request must find to be published.
  predicate Publishable(disk: Disk, r: Request) {
    && SafeId(r.runId) && SafeId(r.modelId)
    && r.runId in disk.staging && disk.staging[r.runId].hasModel && disk.staging[r.runId].hasReport
    && (r.modelId, r.interval) in disk.tables.state && (r.modelId, r.runId) !in disk.artifacts
  }

  // The steps a publish cannot do without. A backup is made only of a manifest there is; leftovers may stay.
  predicate NeededWork(disk: Disk, r: Request, fails: Step -> bool) {
    && ChecksWork(fails) && !fails(WriteTmp) && !fails(Begin) && TablesWork(fails) && CopyWorks(fails)
    && SwapWorks(fails, r.manifestPath in disk.files) && !fails(Commit)
  }

  predicate ChecksWork(fails: Step -> bool) {
    && !fails(StagingContained) && !fails(OpenDb) && !fails(Pragmas) && !fails(ReadState)
    && !fails(ArtifactContained) && !fails(ReadReport) && !fails(ManifestDir)
  }

  predicate TablesWork(fails: Step -> bool) { !fails(Upsert) && !fails(UpdateState) && !fails(StateRowPresent) }

  predicate CopyWorks(fails: Step -> bool) { !fails(ArtifactDir) && !fails(ArtifactPreflight) && !fails(CopyArtifact) }

  predicate SwapWorks(fails: Step -> bool, hadManifest: bool) {
    !fails(ManifestPreflight) && !fails(SwapManifest) && (hadManifest ==> !fails(BackupManifest))
  }

  // The undo steps work.
  predicate Undoes(fails: Step -> bool) {
    !fails(UndoArtifact) && !fails(UndoManifest) && !fails(UndoTmp) && !fails(UndoBackup)
  }

  // ----- The code -----

  class Publisher {
    var disk: Disk
    var open: Option<Tables>  // the tables as the open transaction sees them

    constructor (disk: Disk)
      ensures this.disk == disk && open == None
    {
      this.disk := disk;
      open := None;
    }

    method Remove(path: string)
      modifies this`disk
      ensures disk == old(disk).(files := old(disk).files - {path})
    {
      disk := disk.(files := disk.files - {path});
    }

    method Rollback()
      modifies this`open
      ensures open == None
    {
      open := None;
    }

    method RollbackFilesystem(r: Request, fails: Step -> bool, copied: bool, swapped: bool, hadPrevious: bool)
      modifies this`disk
      ensures disk.tables == old(disk).tables && disk.staging == old(disk).staging
      ensures disk.artifacts == if copied && !fails(UndoArtifact) then old(disk).artifacts - {(r.modelId, r.runId)} else old(disk).artifacts
      ensures !swapped ==> SameFiles(old(disk).files, disk.files, r.manifestPath)
      ensures swapped && hadPrevious && !fails(UndoManifest) && Backup(r.manifestPath) in old(disk).files ==>
                disk.files == old(disk).files[r.manifestPath := old(disk).files[Backup(r.manifestPath)]] - {Backup(r.manifestPath)}
      ensures swapped && !hadPrevious && !fails(UndoManifest) ==> disk.files == old(disk).files - {r.manifestPath}
      ensures !swapped && Undoes(fails) ==> Tmp(r.manifestPath) !in disk.files && Backup(r.manifestPath) !in disk.files
    {
      if copied && !fails(UndoArtifact) {
        disk := disk.(artifacts := disk.artifacts - {(r.modelId, r.runId)});
      }
      if swapped {
        if hadPrevious {
          if !fails(UndoManifest) && Backup(r.manifestPath) in disk.files {
            disk := disk.(files := disk.files[r.manifestPath := disk.files[Backup(r.manifestPath)]] - {Backup(r.manifestPath)});
          }
        } else if !fails(UndoManifest) {
          Remove(r.manifestPath);
        }
      } else {
        if !fails(UndoTmp) {
          Remove(Tmp(r.manifestPath));
        }
        if !fails(UndoBackup) {
          Remove(Backup(r.manifestPath));
        }
      }
    }

    static method CheckId(id: string) returns (safe: bool)
      ensures safe <==> SafeId(id)
    {
      if id == "" || |id| > 128 {
        return false;
      }
      for k := 0 to |id|
        invariant forall j | 0 <= j < k :: 'a' <= id[j] <= 'z' || 'A' <= id[j] <= 'Z' || '0' <= id[j] <= '9' || id[j] in "_-"
      {
        var c := id[k];
        var letter := ('a' <= c && c <= 'z') || ('A' <= c && c <= 'Z');
        var digit := '0' <= c && c <= '9';
        if !letter && !digit && c != '_' && c != '-' {
          return false;
        }
      }
      return true;
    }

    // Everything checked before anything is written.
    method Preflight(r: Request, fails: Step -> bool) returns (ok: bool)
      ensures ok <==> && SafeId(r.runId) && SafeId(r.modelId) && r.runId in disk.staging && disk.staging[r.runId].hasModel
                      && disk.staging[r.runId].hasReport && (r.modelId, r.interval) in disk.tables.state && ChecksWork(fails)
    {
      var safeRun := CheckId(r.runId);
      var safeModel := CheckId(r.modelId);
      if !safeRun || !safeModel || fails(StagingContained) {
        return false;
      }
      if r.runId !in disk.staging || !disk.staging[r.runId].hasModel || !disk.staging[r.runId].hasReport {
        return false;
      }
      if fails(OpenDb) || fails(Pragmas) || fails(ReadState) || (r.modelId, r.interval) !in disk.tables.state {
        return false;
      }
      return !fails(ArtifactContained) && !fails(ReadReport) && !fails(ManifestDir);
    }

    // The run row and the runtime row, inside the transaction.
    method WriteTables(r: Request, now: int, fails: Step -> bool) returns (ok: bool)
      requires open == Some(disk.tables) && (r.modelId, r.interval) in disk.tables.state
      modifies this`open
      ensures ok <==> TablesWork(fails)
      ensures ok ==> open == Some(Advanced(Upserted(disk.tables, r, now), r, now))
    {
      if fails(Upsert) {
        return false;
      }
      var runs := open.value.runs;
      if r.runId in runs {
        runs := runs[r.runId := runs[r.runId].(manifestPath := r.manifestPath, publishedAt := now, active := true)];
      } else {
        runs := runs[r.runId := RunRow(r.modelId, r.interval, r.horizonBars, r.manifestPath, now, now, true)];
      }
      open := Some(open.value.(runs := runs));
      if fails(UpdateState) || fails(StateRowPresent) {
        return false;
      }
      var key := (r.modelId, r.interval);
      var version := open.value.state[key].version;
      open := Some(open.value.(state := open.value.state[key := StateRow(r.runId, r.manifestPath, version + 1, now)]));
      return true;
    }

    // A failing copy may leave part of the directory.
    method CopyRun(r: Request, fails: Step -> bool, part: Option<Dir>) returns (ok: bool, copied: bool)
      requires r.runId in disk.staging
      modifies this`disk
      ensures disk.files == old(disk).files && disk.staging == old(disk).staging && disk.tables == old(disk).tables
      ensures ok <==> CopyWorks(fails) && (r.modelId, r.runId) !in old(disk).artifacts
      ensures copied ==> (r.modelId, r.runId) !in old(disk).artifacts
                         && disk.artifacts - {(r.modelId, r.runId)} == old(disk).artifacts
      ensures !copied ==> disk.artifacts == old(disk).artifacts && !ok
      ensures ok ==> disk.artifacts == old(disk).artifacts[(r.modelId, r.runId) := disk.staging[r.runId]]
    {
      if fails(ArtifactDir) || (r.modelId, r.runId) in disk.artifacts || fails(ArtifactPreflight) {
        return false, false;
      }
      if fails(CopyArtifact) {
        if part.Some? {
          disk := disk.(artifacts := disk.artifacts[(r.modelId, r.runId) := part.value]);
        }
        return false, true;
      }
      disk := disk.(artifacts := disk.artifacts[(r.modelId, r.runId) := disk.staging[r.runId]]);
      return true, true;
    }

    // Back up the manifest there is and put the new one in its place.
    method ReplaceManifest(r: Request, fails: Step -> bool, junk: Content) returns (ok: bool, hadPrevious: bool)
      requires Tmp(r.manifestPath) in disk.files
      modifies this`disk
      ensures disk.artifacts == old(disk).artifacts && disk.staging == old(disk).staging && disk.tables == old(disk).tables
      ensures ok <==> SwapWorks(fails, r.manifestPath in old(disk).files)
      ensures !ok ==> SameFiles(old(disk).files, disk.files, r.manifestPath)
      ensures ok ==> r.manifestPath in disk.files && disk.files[r.manifestPath] == old(disk).files[Tmp(r.manifestPath)]
                     && Tmp(r.manifestPath) !in disk.files
      ensures ok ==> SameOthers(old(disk).files, disk.files, r.manifestPath)
      ensures ok ==> (hadPrevious <==> r.manifestPath in old(disk).files)
      ensures ok && hadPrevious ==> Backup(r.manifestPath) in disk.files
                                    && disk.files[Backup(r.manifestPath)] == old(disk).files[r.manifestPath]
    {
      PathsDiffer(r.manifestPath);
      if !fails(DropOldBackup) {
        Remove(Backup(r.manifestPath));
      }
      hadPrevious := r.manifestPath in disk.files;
      if fails(ManifestPreflight) {
        return false, hadPrevious;
      }
      if hadPrevious {
        if fails(BackupManifest) {
          disk := disk.(files := disk.files[Backup(r.manifestPath) := junk]);
          return false, hadPrevious;
        }
        disk := disk.(files := disk.files[Backup(r.manifestPath) := disk.files[r.manifestPath]]);
      }
      if fails(SwapManifest) {
        return false, hadPrevious;
      }
      disk := disk.(files := disk.files[r.manifestPath := disk.files[Tmp(r.manifestPath)]] - {Tmp(r.manifestPath)});
      return true, hadPrevious;
    }

    // From the open transaction to its commit, with the undo on every failing path.
    method Transact(r: Request, now: int, fails: Step -> bool, junk: Content, part: Option<Dir>) returns (ok: bool)
      requires open == Some(disk.tables) && r.runId in disk.staging && (r.modelId, r.interval) in disk.tables.state
      requires Tmp(r.manifestPath) in disk.files && disk.files[Tmp(r.manifestPath)] == NewManifest(r, now)
      modifies this
      ensures open == None
      ensures ok <==> && TablesWork(fails) && CopyWorks(fails) && (r.modelId, r.runId) !in old(disk).artifacts
                      && SwapWorks(fails, r.manifestPath in old(disk).files) && !fails(Commit)
      ensures ok ==> Committed(old(disk), disk, r, now)
      ensures !ok && Undoes(fails) ==> Untouched(old(disk), disk, r)
    {
      PathsDiffer(r.manifestPath);
      ok := WriteTables(r, now, fails);
      if !ok {
        Rollback();
        RollbackFilesystem(r, fails, false, false, false);
        return;
      }
      var copied;
      ok, copied := CopyRun(r, fails, part);
      if !ok {
        Rollback();
        RollbackFilesystem(r, fails, copied, false, false);
        return;
      }
      var hadPrevious;
      ghost var files := disk.files;
      ok, hadPrevious := ReplaceManifest(r, fails, junk);
      ghost var replaced := disk.files;
      if !ok {
        Rollback();
        RollbackFilesystem(r, fails, true, false, hadPrevious);
        SameFilesTransitive(files, replaced, disk.files, r.manifestPath);
        return;
      }
      if fails(Commit) {
        Rollback();
        RollbackFilesystem(r, fails, true, true, hadPrevious);
        if Undoes(fails) {
          SwapUndone(files, replaced, disk.files, r.manifestPath, hadPrevious);
        }
        return false;
      }
      disk := disk.(tables := open.value);
      open := None;
    }

    /** A publishable request is published exactly when no step it needs fails; otherwise, if the undo steps work, nothing changes.
        `junk` and `part` are what failing writes leave. */
    method Publish(r: Request, now: int, fails: Step -> bool, junk: Content, part: Option<Dir>) returns (ok: bool)
      requires open == None
      modifies this
      ensures open == None
      ensures ok <==> Publishable(old(disk), r) && NeededWork(old(disk), r, fails)
      ensures ok ==> Published(old(disk), disk, r, now)
      ensures !ok && Undoes(fails) ==> Untouched(old(disk), disk, r)
      ensures ok ==> fails(DropBackup) || Backup(r.manifestPath) !in disk.files
    {
      PathsDiffer(r.manifestPath);
      ok := Preflight(r, fails);
      if !ok {
        return;
      }
      if fails(WriteTmp) {
        disk := disk.(files := disk.files[Tmp(r.manifestPath) := junk]);
        return false;
      }
      disk := disk.(files := disk.files[Tmp(r.manifestPath) := Manifest(r.modelId, r.runId, r.interval, now)]);
      if fails(Begin) {
        if !fails(UndoTmp) {
          Remove(Tmp(r.manifestPath));
        }
        return false;
      }
      open := Some(disk.tables);
      ghost var files := disk.files;
      ok := Transact(r, now, fails, junk, part);
      if !ok {
        if Undoes(fails) {
          SameFilesTransitive(old(disk).files, files, disk.files, r.manifestPath);
        }
        return;
      }
      ghost var committed := disk.files;
      if !fails(DropBackup) {
        Remove(Backup(r.manifestPath));
      }
      OthersSame(old(disk).files, files, committed, disk.files, r.manifestPath);
      if !fails(DropStaging) {
        disk := disk.(staging := disk.staging - {r.runId});
      }
    }
  }

  // What the transaction adds to a disk that holds the new manifest's temporary file.
  ghost predicate Committed(before: Disk, after: Disk, r: Request, now: int) {
    && (r.modelId, r.runId) !in before.artifacts && r.runId in before.staging && (r.modelId, r.interval) in before.tables.state
    && r.manifestPath in after.files && after.files[r.manifestPath] == NewManifest(r, now)
    && SameOthers(before.files, after.files, r.manifestPath)
    && Tmp(r.manifestPath) !in after.files
    && after.artifacts == before.artifacts[(r.modelId, r.runId) := before.staging[r.runId]]
    && after.tables == Advanced(Upserted(before.tables, r, now), r, now)
    && after.staging == before.staging
  }

  lemma OthersSame(a: map<string, Content>, b: map<string, Content>, c: map<string, Content>, d: map<string, Content>, path: string)
    requires SameFiles(a, b, path) && SameOthers(b, c, path) && SameFiles(c, d, path)
    ensures SameOthers(a, d, path)
  {
    forall p | p != path && p != Tmp(path) && p != Backup(path)
      ensures SameAt(a, d, p)
    {
      assert SameAt(a, b, p) && SameAt(b, c, p) && SameAt(c, d, p);
    }
  }

  // Putting the backup back, or removing a manifest that was not there, undoes the swap.
  lemma SwapUndone(files: map<string, Content>, replaced: map<string, Content>, after: map<string, Content>, path: string,
                   hadPrevious: bool)
    requires SameOthers(files, replaced, path) && (hadPrevious <==> path in files)
    requires hadPrevious ==> Backup(path) in replaced && replaced[Backup(path)] == files[path]
                             && after == replaced[path := replaced[Backup(path)]] - {Backup(path)}
    requires !hadPrevious ==> after == replaced - {path}
    ensures SameFiles(files, after, path)
  {
    PathsDiffer(path);
    forall p | p != Tmp(path) && p != Backup(path)
      ensures SameAt(files, after, p)
    {
      if p != path {
        assert SameAt(files, replaced, p);
      }
    }
  }

  lemma SameFilesTransitive(a: map<string, Content>, b: map<string, Content>, c: map<string, Content>, path: string)
    requires SameFiles(a, b, path) && SameFiles(b, c, path)
    ensures SameFiles(a, c, path)
  {
    forall p | p != Tmp(path) && p != Backup(path)
      ensures SameAt(a, c, p)
    {
      assert SameAt(a, b, p) && SameAt(b, c, p);
    }
  }

  lemma PathsDiffer(path: string)
    ensures path != Tmp(path) && path != Backup(path) && Tmp(path) != Backup(path)
  {
    assert |Tmp(path)| == |path| + 4 && |Backup(path)| == |path| + 12;
  }

  // ----- Any number of publishes -----

  datatype Attempt = Attempt(request: Request, now: int, ok: bool)

  // disks[i + 1] is what attempt i makes of disks[i].
  ghost predicate History(disks: seq<Disk>, attempts: seq<Attempt>) {
    && |disks| == |attempts| + 1
    && forall i | 0 <= i < |attempts| :: Attempted(disks[i], disks[i + 1], attempts[i])
  }

  ghost predicate Attempted(before: Disk, after: Disk, a: Attempt) {
    if a.ok then Published(before, after, a.request, a.now) else Untouched(before, after, a.request)
  }

  // Each manifest path belongs to one model and interval, and is not another one's temporary or backup file.
  ghost predicate OwnPaths(owner: map<string, Key>, attempts: seq<Attempt>) {
    && (forall p, q | p in owner && q in owner :: p != Tmp(q) && p != Backup(q))
    && (forall a | a in attempts :: a.request.manifestPath in owner
                                    && owner[a.request.manifestPath] == (a.request.modelId, a.request.interval))
  }

  // The runtime row of a published model names a run whose manifest, artifact and table row are all in place.
  ghost predicate InPlace(owner: map<string, Key>, disk: Disk, key: Key) {
    key in disk.tables.state &&
    var s := disk.tables.state[key];
    && s.manifestPath in owner && owner[s.manifestPath] == key
    && s.manifestPath in disk.files && disk.files[s.manifestPath] == Manifest(key.0, s.activeRun, key.1, s.updatedAt)
    && (key.0, s.activeRun) in disk.artifacts
    && s.activeRun in disk.tables.runs && disk.tables.runs[s.activeRun].active
  }

  // Successful attempts for a model and interval.
  function Successes(attempts: seq<Attempt>, key: Key): nat {
    if attempts == [] then 0
    else
      var a := attempts[|attempts| - 1];
      Successes(attempts[..|attempts| - 1], key) + if a.ok && (a.request.modelId, a.request.interval) == key then 1 else 0
  }

  ghost predicate VersionGrows(before: Disk, after: Disk, key: Key, n: nat) {
    key in before.tables.state ==>
      (key in after.tables.state && after.tables.state[key].version == before.tables.state[key].version + n)
  }

  lemma AttemptKeeps(owner: map<string, Key>, before: Disk, after: Disk, a: Attempt, key: Key)
    requires OwnPaths(owner, [a]) && Attempted(before, after, a)
    ensures InPlace(owner, before, key) ==> InPlace(owner, after, key)
    ensures a.ok && (a.request.modelId, a.request.interval) == key ==> InPlace(owner, after, key)
    ensures VersionGrows(before, after, key, Successes([a], key))
  {
    var r := a.request;
    assert a in [a] && [a][..0] == [];
    PathsDiffer(r.manifestPath);
    if InPlace(owner, before, key) {
      var s := before.tables.state[key];
      assert s.manifestPath != Tmp(r.manifestPath) && s.manifestPath != Backup(r.manifestPath);
      if !(a.ok && (r.modelId, r.interval) == key) {
        assert SameAt(before.files, after.files, s.manifestPath);
      }
    }
  }

  /** Over any sequence of publishes, failing anywhere but with working undo steps: a model once published stays in place,
      manifest, artifact, run row and runtime row naming the same run, and its version counts its successful publishes. */
  lemma {:induction false} PublishesStayConsistent(owner: map<string, Key>, disks: seq<Disk>, attempts: seq<Attempt>, key: Key)
    requires History(disks, attempts) && OwnPaths(owner, attempts)
    ensures InPlace(owner, disks[0], key) || Successes(attempts, key) > 0 ==> InPlace(owner, disks[|attempts|], key)
    ensures VersionGrows(disks[0], disks[|attempts|], key, Successes(attempts, key))
    decreases |attempts|
  {
    if attempts != [] {
      var n := |attempts| - 1;
      var front, a := attempts[..n], attempts[n];
      assert History(disks[..|attempts|], front);
      PublishesStayConsistent(owner, disks[..|attempts|], front, key);
      assert a in attempts && [a][..0] == [];
      AttemptKeeps(owner, disks[n], disks[n + 1], a, key);
    }
  }

  /** A run is published at most once: after a success, every later attempt at the same model and run fails. */
  lemma {:induction false} PublishedOnce(disks: seq<Disk>, attempts: seq<Attempt>, i: nat, j: nat)
    requires History(disks, attempts) && i < j < |attempts|
    requires attempts[i].ok && attempts[i].request.modelId == attempts[j].request.modelId
    requires attempts[i].request.runId == attempts[j].request.runId
    ensures !attempts[j].ok
  {
    assert Attempted(disks[i], disks[i + 1], attempts[i]) && Attempted(disks[j], disks[j + 1], attempts[j]);
    ArtifactsStay(disks, attempts, i + 1, j, (attempts[i].request.modelId, attempts[i].request.runId));
  }

  lemma {:induction false} ArtifactsStay(disks: seq<Disk>, attempts: seq<Attempt>, i: nat, j: nat, run: (string, string))
    requires History(disks, attempts) && i <= j <= |attempts| && run in disks[i].artifacts
    ensures run in disks[j].artifacts
    decreases j - i
  {
    if i < j {
      assert Attempted(disks[i], disks[i + 1], attempts[i]);
      ArtifactsStay(disks, attempts, i + 1, j, run);
    }
  }

  // Everything of a published model but its manifest: runtime row, artifact and run row.
  ghost predicate RestWhole(disk: Disk, key: Key, s: StateRow) {
    && key in disk.tables.state && disk.tables.state[key] == s && (key.0, s.activeRun) in disk.artifacts
    && s.activeRun in disk.tables.runs && disk.tables.runs[s.activeRun].active
  }

  predicate ManifestWhole(disk: Disk, key: Key, s: StateRow) {
    s.manifestPath in disk.files && disk.files[s.manifestPath] == Manifest(key.0, s.activeRun, key.1, s.updatedAt)
  }

  /** What another model's publish does to a whole one: runtime row, artifact and run row stay. The manifest, at the same path, now
      names the other model; anywhere else it is as it was. */
  lemma ManifestIsTaken(before: Disk, after: Disk, r: Request, now: int, key: Key, s: StateRow)
    requires Published(before, after, r, now) && RestWhole(before, key, s) && key != (r.modelId, r.interval)
    requires s.manifestPath != Tmp(r.manifestPath) && s.manifestPath != Backup(r.manifestPath)
    ensures RestWhole(after, key, s)
    ensures ManifestWhole(after, key, s) <==> ManifestWhole(before, key, s) && s.manifestPath != r.manifestPath
    ensures s.manifestPath == r.manifestPath ==> after.files[s.manifestPath] == NewManifest(r, now)
  {
    if s.manifestPath != r.manifestPath {
      assert SameAt(before.files, after.files, s.manifestPath);
    }
  }

  /** Without own paths: over any run of other models' attempts, a whole model keeps its runtime row, artifact and run row, and its
      manifest exactly as long as none of them succeeds at the same path. */
  lemma {:induction false} WholeUntilTaken(disks: seq<Disk>, attempts: seq<Attempt>, key: Key, s: StateRow)
    requires History(disks, attempts) && RestWhole(disks[0], key, s) && ManifestWhole(disks[0], key, s)
    requires forall a | a in attempts :: (a.request.modelId, a.request.interval) != key
    requires forall a | a in attempts :: s.manifestPath != Tmp(a.request.manifestPath) && s.manifestPath != Backup(a.request.manifestPath)
    ensures RestWhole(disks[|attempts|], key, s)
    ensures ManifestWhole(disks[|attempts|], key, s) <==> forall a | a in attempts :: a.ok ==> a.request.manifestPath != s.manifestPath
    decreases |attempts|
  {
    if attempts != [] {
      var n := |attempts| - 1;
      var front, a := attempts[..n], attempts[n];
      assert attempts == front + [a] && History(disks[..|attempts|], front);
      WholeUntilTaken(disks[..|attempts|], front, key, s);
      assert Attempted(disks[n], disks[n + 1], a) && a in attempts;
      if a.ok {
        ManifestIsTaken(disks[n], disks[n + 1], a.request, a.now, key, s);
      } else {
        assert SameAt(disks[n].files, disks[n + 1].files, s.manifestPath);
      }
    }
  }

  /** The run row names the request's model, interval and horizon exactly when the run id was new to the table or its row
      already did: the conflict clause leaves those columns alone. */
  lemma RunRowNamesModel(before: Disk, after: Disk, r: Request, now: int)
    requires Published(before, after, r, now)
    ensures r.runId in after.tables.runs && after.tables.runs[r.runId].manifestPath == r.manifestPath
    ensures var row := after.tables.runs[r.runId];
            row.modelId == r.modelId && row.interval == r.interval && row.horizonBars == r.horizonBars <==>
            r.runId in before.tables.runs ==>
              before.tables.runs[r.runId].modelId == r.modelId && before.tables.runs[r.runId].interval == r.interval
              && before.tables.runs[r.runId].horizonBars == r.horizonBars
  {}

  /** A run id the table has for model "a": after model "b" published under it, its row still names "a". */
  lemma RunRowNamesOther(before: Disk, after: Disk, r: Request, now: int, row: RunRow)
    requires Published(before, after, r, now) && before.tables.runs == map[r.runId := row] && row.modelId == "a" && r.modelId == "b"
    ensures r.runId in after.tables.runs && after.tables.runs[r.runId].modelId == "a" && (r.modelId, r.runId) in after.artifacts
  {
    RunRowNamesModel(before, after, r, now);
  }
}
