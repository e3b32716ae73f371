/**
 * backup.py: every configured source folder is copied into its destination
 * under a name built from the source's basename and one shared timestamp,
 * skipping a fixed set of file and folder names; an error in one backup is
 * reported and the next one still runs.
 */
module Backup {
  import opened Common
  import opened PyStr

  /** `skip_items` */
  const SkipItems: set<string> := {
    ".git", ".DS_Store", "__pycache__", "node_modules", ".env", ".vscode", "Thumbs.db",
    ".gitignore", "wandb", ".ipynb_checkpoints", ".pytest_cache", ".ruff_cache",
    ".mypy_cache", ".cache.sqlite", ".python-version" }

  /** `should_skip(path, names)`: the names that are in `skip_items`, in order, repeats kept. */
  function ShouldSkip(path: string, names: seq<string>): seq<string>
    decreases |names|
  {
    if names == [] then []
    else if names[0] in SkipItems then [names[0]] + ShouldSkip(path, names[1..])
    else ShouldSkip(path, names[1..])
  }

  /**
   * The result is a subsequence of `names` of skip items only, with every
   * skip item as often as in `names`; the directory `path` plays no part.
   */
  lemma {:induction false} ShouldSkipIsFilter(path: string, names: seq<string>)
    ensures var r := ShouldSkip(path, names);
      && IsSubsequence(r, names)
      && (forall i | 0 <= i < |r| :: r[i] in SkipItems)
      && (forall x :: multiset(r)[x] == if x in SkipItems then multiset(names)[x] else 0)
      && (forall other :: ShouldSkip(other, names) == r)
    decreases |names|
  {
    if names != [] {
      var rest := ShouldSkip(path, names[1..]);
      ShouldSkipIsFilter(path, names[1..]);
      assert names == [names[0]] + names[1..];
      assert multiset(names) == multiset{names[0]} + multiset(names[1..]);
      if names[0] in SkipItems {
        assert ([names[0]] + rest)[1..] == rest;
        assert multiset([names[0]] + rest) == multiset{names[0]} + multiset(rest);
      } else {
        SubsequenceOfTail(rest, names[1..], names[0]);
      }
      forall other ensures ShouldSkip(other, names) == ShouldSkip(path, names) {
        ShouldSkipIsFilter(other, names[1..]);
      }
    }
  }

  /** Filtering what was already filtered changes nothing. */
  lemma {:induction false} ShouldSkipIdempotent(path: string, names: seq<string>)
    ensures ShouldSkip(path, ShouldSkip(path, names)) == ShouldSkip(path, names)
    decreases |names|
  {
    if names != [] {
      ShouldSkipIdempotent(path, names[1..]);
      if names[0] in SkipItems {
        var r := ShouldSkip(path, names);
        assert r[0] == names[0] && r[1..] == ShouldSkip(path, names[1..]);
      }
    }
  }

  /** Matching is exact membership: no prefixes, no patterns. */
  lemma ExactNames()
    ensures ShouldSkip("/src", [".git", ".github", "wandb", "wandb_logs"]) == [".git", "wandb"]
  {
    assert ".github" !in SkipItems && "wandb_logs" !in SkipItems;
  }

  /** `s.rstrip('/')` */
  function RStripSlash(s: string): string {
    if s != [] && s[|s| - 1] == '/' then RStripSlash(s[..|s| - 1]) else s
  }

  /** What `rstrip('/')` leaves is `s` without its trailing run of `/`. */
  lemma {:induction false} RStripSlashSpec(s: string)
    ensures var r := RStripSlash(s);
      && |r| <= |s| && r == s[..|r|]
      && (r == [] || r[|r| - 1] != '/')
      && (forall k | |r| <= k < |s| :: s[k] == '/')
    decreases |s|
  {
    if s != [] && s[|s| - 1] == '/' {
      RStripSlashSpec(s[..|s| - 1]);
    }
  }

  /** `os.path.basename(p)`: what follows the last `/`. */
  function Basename(p: string): string {
    if p == [] || p[|p| - 1] == '/' then []
    else Basename(p[..|p| - 1]) + [p[|p| - 1]]
  }

  /** The basename is the part of `p` after its last `/`, or all of `p` without one. */
  lemma {:induction false} BasenameSpec(p: string)
    ensures var r := Basename(p);
      && |r| <= |p| && r == p[|p| - |r|..]
      && '/' !in r
      && (|r| < |p| ==> p[|p| - |r| - 1] == '/')
    decreases |p|
  {
    if p != [] && p[|p| - 1] != '/' {
      var r := Basename(p[..|p| - 1]);
      BasenameSpec(p[..|p| - 1]);
      assert p[|p| - 1 - |r|..] == r + [p[|p| - 1]];
    }
  }

  /** `os.path.join(a, b)` for two parts. */
  function JoinPath(a: string, b: string): string {
    if b != [] && b[0] == '/' then b
    else if a == [] || a[|a| - 1] == '/' then a + b
    else a + "/" + b
  }

  /** `f"{source_name}_backup_{timestamp}"` */
  function BackupName(source: string, timestamp: string): string {
    Basename(RStripSlash(source)) + "_backup_" + timestamp
  }

  /** `backup_path` */
  function BackupPath(destination: string, source: string, timestamp: string): string {
    JoinPath(destination, BackupName(source, timestamp))
  }

  /**
   * The backup lands directly inside `destination`: the path is the
   * destination, a separating `/` unless it already ends in one, and a name
   * with no `/` in it when the timestamp has none.
   */
  lemma BackupPathShape(destination: string, source: string, timestamp: string)
    requires '/' !in timestamp
    ensures var name := BackupName(source, timestamp);
      && '/' !in name
      && (destination == [] || destination[|destination| - 1] == '/' ==>
            BackupPath(destination, source, timestamp) == destination + name)
      && (destination != [] && destination[|destination| - 1] != '/' ==>
            BackupPath(destination, source, timestamp) == destination + "/" + name)
  {
    var base := Basename(RStripSlash(source));
    var name := BackupName(source, timestamp);
    BasenameSpec(RStripSlash(source));
    assert name == base + "_backup_" + timestamp;
    assert forall k | 0 <= k < |name| :: name[k] != '/' by {
      forall k | 0 <= k < |name| ensures name[k] != '/' {
        if k < |base| {
          assert name[k] == base[k];
        } else if k < |base| + 8 {
          assert name[k] == "_backup_"[k - |base|];
        } else {
          assert name[k] == timestamp[k - |base| - 8];
        }
      }
    }
    assert name[0] != '/';
  }

  /** `n` slashes. */
  function Slashes(n: nat): (r: string)
    ensures |r| == n && forall k | 0 <= k < n :: r[k] == '/'
  {
    if n == 0 then [] else Slashes(n - 1) + "/"
  }

  /** The name comes from the source's last folder, with trailing `/` ignored. */
  lemma {:induction false} BasenameOfFolder(dir: string, folder: string, n: nat)
    requires folder != [] && '/' !in folder
    ensures Basename(RStripSlash(dir + "/" + folder + Slashes(n))) == folder
    decreases n
  {
    var p := dir + "/" + folder;
    if n == 0 {
      assert p + Slashes(0) == p;
      assert p[|p| - 1] == folder[|folder| - 1];
      BasenameOfSlashed(dir, folder);
    } else {
      var s := p + Slashes(n);
      assert s[..|s| - 1] == p + Slashes(n - 1);
      assert s[|s| - 1] == '/';
      BasenameOfFolder(dir, folder, n - 1);
    }
  }

  lemma {:induction false} BasenameOfSlashed(dir: string, folder: string)
    requires folder != [] && '/' !in folder
    ensures Basename(dir + "/" + folder) == folder
    decreases |folder|
  {
    var p := dir + "/" + folder;
    var last := folder[|folder| - 1];
    assert p[|p| - 1] == last;
    assert p[..|p| - 1] == dir + "/" + folder[..|folder| - 1];
    if |folder| == 1 {
      var q := dir + "/";
      assert p[..|p| - 1] == q && q[|q| - 1] == '/';
      assert folder == [last];
    } else {
      BasenameOfSlashed(dir, folder[..|folder| - 1]);
      assert folder == folder[..|folder| - 1] + [last];
    }
  }

  /** A source `dir/folder` with `n` trailing slashes is backed up under `folder`'s name. */
  lemma BackupNameOfFolder(dir: string, folder: string, n: nat, timestamp: string)
    requires folder != [] && '/' !in folder
    ensures BackupName(dir + "/" + folder + Slashes(n), timestamp) == folder + "_backup_" + timestamp
  {
    BasenameOfFolder(dir, folder, n);
  }

  /** `"/Users/janduplessis/Documents/"` is backed up as `"Documents_backup_<timestamp>"`. */
  lemma DocumentsName(timestamp: string)
    ensures BackupName("/Users/janduplessis/Documents/", timestamp) == "Documents_backup_" + timestamp
  {
    var folder := "Documents";
    assert '/' !in folder;
    BackupNameOfFolder("/Users/janduplessis", folder, 1, timestamp);
    assert "/Users/janduplessis" + "/" + folder + Slashes(1) == "/Users/janduplessis/Documents/";
  }

  /** One entry of `backup_configs`. */
  datatype Config = Config(source: string, destination: string)

  /** The exception a step raised, by the `except` clause that catches it. */
  datatype ErrorKind = FileExists | Permission | FileNotFound | OtherError(message: string)

  /** What the script reports for one config. */
  datatype Outcome =
    | Completed(path: string)
    | AlreadyExists(path: string)
    | PermissionDenied
    | SourceNotFound(source: string)
    | Failed(message: string)

  /** The `except` chain, tried in order. */
  function Report(e: ErrorKind, cfg: Config, path: string): (o: Outcome)
    ensures !o.Completed?
  {
    match e
    case FileExists => AlreadyExists(path)
    case Permission => PermissionDenied
    case FileNotFound => SourceNotFound(cfg.source)
    case OtherError(m) => Failed(m)
  }

  /**
   * The faults the file system raises, by 1-based config index:
   * `makedirs` in `os.makedirs(backup_folder, exist_ok=True)`; `scan` when
   * `copytree` lists an existing source (`PermissionError` for an unreadable
   * one, `NotADirectoryError` for a file); `create` when it makes the new
   * backup folder; and `copy`, the message of the one `shutil.Error` that
   * gathers what failed while copying into that folder.
   */
  datatype Faults = Faults(
    makedirs: nat -> Option<ErrorKind>,
    scan: nat -> Option<ErrorKind>,
    create: nat -> Option<ErrorKind>,
    copy: nat -> Option<string>)

  /** What one config reports, and the folders that exist after it. */
  datatype Attempt = Attempt(outcome: Outcome, dirs: set<string>)

  /** What the run has reported so far, and the folders that exist. */
  datatype State = State(outcomes: seq<Outcome>, dirs: set<string>)

  /**
   * One config, whose backup path is `path`: make the destination, then
   * `copytree`, which lists the source first (`FileNotFoundError` for a
   * missing one), then makes the backup folder (`FileExistsError` for one
   * that exists), and only then copies into it, where whatever fails is
   * raised as one `shutil.Error`.
   */
  function BackupOne(dirs: set<string>, cfg: Config, path: string, i: nat, f: Faults): Attempt {
    match f.makedirs(i)
    case Some(e) => Attempt(Report(e, cfg, path), dirs)
    case None =>
      var made := dirs + {cfg.destination};
      if cfg.source !in made then Attempt(Report(FileNotFound, cfg, path), made)
      else if f.scan(i).Some? then Attempt(Report(f.scan(i).value, cfg, path), made)
      else if path in made then Attempt(Report(FileExists, cfg, path), made)
      else if f.create(i).Some? then Attempt(Report(f.create(i).value, cfg, path), made)
      else
        var copied := made + {path};
        match f.copy(i)
        case Some(m) => Attempt(Failed(m), copied)
        case None => Attempt(Completed(path), copied)
  }

  /** The `for i, config in enumerate(backup_configs, 1)` loop: one report per config. */
  function Backups(dirs: set<string>, configs: seq<Config>, timestamp: string, f: Faults): (s: State)
    ensures |s.outcomes| == |configs|
    decreases |configs|
  {
    if configs == [] then State([], dirs)
    else
      var before := Backups(dirs, configs[..|configs| - 1], timestamp, f);
      var cfg := configs[|configs| - 1];
      var one := BackupOne(before.dirs, cfg, BackupPath(cfg.destination, cfg.source, timestamp), |configs|, f);
      State(before.outcomes + [one.outcome], one.dirs)
  }

  /**
   * One config only adds folders; it completes only at its own backup path,
   * which did not exist before and does after; each error report names the
   * path or source of this config.
   */
  lemma BackupOneShape(dirs: set<string>, cfg: Config, path: string, i: nat, f: Faults)
    ensures var a := BackupOne(dirs, cfg, path, i, f);
      && dirs <= a.dirs
      && (a.outcome.Completed? ==> a.outcome.path == path && path in a.dirs && path !in dirs)
      && (a.outcome.AlreadyExists? ==> a.outcome.path == path)
      && (a.outcome.SourceNotFound? ==> a.outcome.source == cfg.source)
      && (path in dirs ==> !a.outcome.Completed?)
  {
  }

  /**
   * The only folders one config can add are its destination and, for a
   * completed or a failed copy, its backup folder: every error raised
   * before `copytree` makes the backup folder leaves it unmade.
   */
  lemma BackupOneFolders(dirs: set<string>, cfg: Config, path: string, i: nat, f: Faults)
    ensures var a := BackupOne(dirs, cfg, path, i, f);
      && a.dirs <= dirs + {cfg.destination, path}
      && (!a.outcome.Completed? && !a.outcome.Failed? ==> a.dirs <= dirs + {cfg.destination})
      && (a.outcome.Failed? && f.makedirs(i).None? && f.scan(i).None? && f.create(i).None? ==>
            a.outcome.message == f.copy(i).value)
  {
  }

  /**
   * Each `except` clause names its own cause: an existing target is
   * reported at the backup path, a missing source by the source's own
   * path, and any other error by its message.
   */
  lemma ReportCases(e: ErrorKind, cfg: Config, path: string)
    ensures var o := Report(e, cfg, path);
      && (o == AlreadyExists(path) <==> e == FileExists)
      && (o == PermissionDenied <==> e == Permission)
      && (o == SourceNotFound(cfg.source) <==> e == FileNotFound)
      && (forall m :: o == Failed(m) <==> e == OtherError(m))
  {
  }

  /**
   * A config completes exactly when no step raised, its source exists
   * (possibly as its own destination) and its backup folder did not; it
   * then leaves the destination and the backup folder made.
   */
  lemma BackupOneCompletes(dirs: set<string>, cfg: Config, path: string, i: nat, f: Faults)
    ensures var a := BackupOne(dirs, cfg, path, i, f);
      var made := dirs + {cfg.destination};
      && (a.outcome == Completed(path) <==>
            f.makedirs(i).None? && cfg.source in made && f.scan(i).None?
            && path !in made && f.create(i).None? && f.copy(i).None?)
      && (a.outcome == Completed(path) ==> a.dirs == dirs + {cfg.destination, path})
  {
  }

  /**
   * The first step that raises decides the report, and the folders left
   * behind are those made before it: a `makedirs` fault leaves `dirs`, a
   * listing or creation fault leaves the destination made, and a copy
   * fault leaves the backup folder made too.
   */
  lemma BackupOneFirstFault(dirs: set<string>, cfg: Config, path: string, i: nat, f: Faults)
    ensures var a := BackupOne(dirs, cfg, path, i, f);
      var made := dirs + {cfg.destination};
      && (f.makedirs(i).Some? ==> a == Attempt(Report(f.makedirs(i).value, cfg, path), dirs))
      && (f.makedirs(i).None? && cfg.source !in made ==>
            a == Attempt(SourceNotFound(cfg.source), made))
      && (f.makedirs(i).None? && cfg.source in made && f.scan(i).Some? ==>
            a == Attempt(Report(f.scan(i).value, cfg, path), made))
      && (f.makedirs(i).None? && cfg.source in made && f.scan(i).None? && path in made ==>
            a == Attempt(AlreadyExists(path), made))
      && (f.makedirs(i).None? && cfg.source in made && f.scan(i).None? && path !in made
          && f.create(i).Some? ==>
            a == Attempt(Report(f.create(i).value, cfg, path), made))
      && (f.makedirs(i).None? && cfg.source in made && f.scan(i).None? && path !in made
          && f.create(i).None? && f.copy(i).Some? ==>
            a == Attempt(Failed(f.copy(i).value), made + {path}))
  {
  }

  /**
   * Every config is reported, in list order, whatever failed before it; a
   * completed backup sits at the path built from that config and the one
   * shared timestamp; and folders are only ever added.
   */
  lemma {:induction false} BackupsReportEach(dirs: set<string>, configs: seq<Config>, timestamp: string, f: Faults)
    ensures var s := Backups(dirs, configs, timestamp, f);
      && dirs <= s.dirs
      && (forall k | 0 <= k < |configs| && s.outcomes[k].Completed? ::
            s.outcomes[k].path == BackupPath(configs[k].destination, configs[k].source, timestamp)
            && s.outcomes[k].path in s.dirs)
    decreases |configs|
  {
    if configs != [] {
      var init := configs[..|configs| - 1];
      var cfg := configs[|configs| - 1];
      var before := Backups(dirs, init, timestamp, f);
      BackupsReportEach(dirs, init, timestamp, f);
      BackupOneShape(before.dirs, cfg, BackupPath(cfg.destination, cfg.source, timestamp), |configs|, f);
      assert forall k | 0 <= k < |init| :: init[k] == configs[k];
    }
  }

  /** What config `n` reports is decided by the folders after configs `0..n`, and later ones only add folders. */
  lemma {:induction false} BackupsAt(dirs: set<string>, configs: seq<Config>, n: nat, timestamp: string, f: Faults)
    requires n < |configs|
    ensures var before := Backups(dirs, configs[..n], timestamp, f);
      var cfg := configs[n];
      var one := BackupOne(before.dirs, cfg, BackupPath(cfg.destination, cfg.source, timestamp), n + 1, f);
      && Backups(dirs, configs, timestamp, f).outcomes[n] == one.outcome
      && one.dirs <= Backups(dirs, configs, timestamp, f).dirs
    decreases |configs|
  {
    var init := configs[..|configs| - 1];
    if n < |configs| - 1 {
      BackupsAt(dirs, init, n, timestamp, f);
      assert init[..n] == configs[..n] && init[n] == configs[n];
      var cfg := configs[|configs| - 1];
      var before := Backups(dirs, init, timestamp, f);
      BackupOneShape(before.dirs, cfg, BackupPath(cfg.destination, cfg.source, timestamp), |configs|, f);
    } else {
      assert init == configs[..n];
    }
  }

  /**
   * Two configs that build the same backup path (same destination, same
   * source basename) cannot both complete: once the first has, the second
   * finds its path taken.
   */
  lemma SamePathCompletesOnce(dirs: set<string>, configs: seq<Config>, i: nat, j: nat, timestamp: string, f: Faults)
    requires i < j < |configs|
    requires BackupPath(configs[i].destination, configs[i].source, timestamp)
      == BackupPath(configs[j].destination, configs[j].source, timestamp)
    ensures var s := Backups(dirs, configs, timestamp, f);
      s.outcomes[i].Completed? ==> !s.outcomes[j].Completed?
  {
    var path := BackupPath(configs[j].destination, configs[j].source, timestamp);
    var prefix := configs[..j];
    var before := Backups(dirs, prefix, timestamp, f);
    BackupsPrefix(dirs, configs, j, timestamp, f);
    BackupsReportEach(dirs, prefix, timestamp, f);
    assert prefix[i] == configs[i];
    BackupsAt(dirs, configs, j, timestamp, f);
    BackupOneShape(before.dirs, configs[j], path, j + 1, f);
  }

  /** The reports for the first `n` configs do not depend on the configs after them. */
  lemma {:induction false} BackupsPrefix(dirs: set<string>, configs: seq<Config>, n: nat, timestamp: string, f: Faults)
    requires n <= |configs|
    ensures Backups(dirs, configs[..n], timestamp, f).outcomes == Backups(dirs, configs, timestamp, f).outcomes[..n]
    decreases |configs|
  {
    if n < |configs| {
      var init := configs[..|configs| - 1];
      BackupsPrefix(dirs, init, n, timestamp, f);
      assert init[..n] == configs[..n];
    } else {
      assert configs[..n] == configs;
    }
  }

  /** The file system: the set of folders that exist. */
  class Disk {
    var dirs: set<string>

    constructor (existing: set<string>)
      ensures dirs == existing
    {
      dirs := existing;
    }

    /** `os.makedirs(folder, exist_ok=True)`; `fault` is what it raises, if anything. */
    method MakeDirs(folder: string, fault: Option<ErrorKind>) returns (err: Option<ErrorKind>)
      modifies this
      ensures err == fault
      ensures fault.Some? ==> dirs == old(dirs)
      ensures fault.None? ==> dirs == old(dirs) + {folder}
    {
      err := fault;
      if fault.None? {
        dirs := dirs + {folder};
      }
    }

    /**
     * `shutil.copytree(source, target, ignore=should_skip, symlinks=False)`:
     * listing the source (`os.scandir`) raises `FileNotFoundError` for a
     * missing one, or `scanFault`; making the target raises
     * `FileExistsError` for one that exists, or `createFault`; all of these
     * leave the folders as they were. Otherwise the target is made, and
     * `copyFault` is the message of the `shutil.Error` raised for what could
     * not be copied into it.
     */
    method CopyTree(source: string, target: string, scanFault: Option<ErrorKind>,
                    createFault: Option<ErrorKind>, copyFault: Option<string>)
      returns (err: Option<ErrorKind>)
      modifies this
      ensures source !in old(dirs) ==> err == Some(FileNotFound) && dirs == old(dirs)
      ensures source in old(dirs) && scanFault.Some? ==> err == scanFault && dirs == old(dirs)
      ensures source in old(dirs) && scanFault.None? && target in old(dirs) ==>
        err == Some(FileExists) && dirs == old(dirs)
      ensures source in old(dirs) && scanFault.None? && target !in old(dirs) && createFault.Some? ==>
        err == createFault && dirs == old(dirs)
      ensures source in old(dirs) && scanFault.None? && target !in old(dirs) && createFault.None? ==>
        && dirs == old(dirs) + {target}
        && err == (if copyFault.Some? then Some(OtherError(copyFault.value)) else None)
    {
      if source !in dirs {
        return Some(FileNotFound);
      }
      if scanFault.Some? {
        return scanFault;
      }
      if target in dirs {
        return Some(FileExists);
      }
      if createFault.Some? {
        return createFault;
      }
      dirs := dirs + {target};
      if copyFault.Some? {
        return Some(OtherError(copyFault.value));
      }
      return None;
    }

    /** The `try` block for config number `i`, with its `except` clauses. */
    method BackupConfig(cfg: Config, path: string, i: nat, f: Faults) returns (outcome: Outcome)
      modifies this
      ensures Attempt(outcome, dirs) == BackupOne(old(dirs), cfg, path, i, f)
    {
      var err := MakeDirs(cfg.destination, f.makedirs(i));
      if err.None? {
        err := CopyTree(cfg.source, path, f.scan(i), f.create(i), f.copy(i));
      }
      match err {
        case Some(e) => outcome := Report(e, cfg, path);
        case None => outcome := Completed(path);
      }
    }
  }

  /** The script: every config in turn, 1-based, with the one timestamp taken at the start. */
  method RunBackups(disk: Disk, configs: seq<Config>, timestamp: string, f: Faults) returns (outcomes: seq<Outcome>)
    modifies disk
    ensures State(outcomes, disk.dirs) == Backups(old(disk.dirs), configs, timestamp, f)
  {
    ghost var start := disk.dirs;
    outcomes := [];
    for i := 0 to |configs|
      invariant State(outcomes, disk.dirs) == Backups(start, configs[..i], timestamp, f)
    {
      assert configs[..i + 1][..i] == configs[..i];
      var cfg := configs[i];
      var path := BackupPath(cfg.destination, cfg.source, timestamp);
      var outcome := disk.BackupConfig(cfg, path, i + 1, f);
      outcomes := outcomes + [outcome];
    }
    assert configs[..|configs|] == configs;
  }
}
