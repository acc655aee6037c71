/** `RestoreDbHandler`: restores a PostgreSQL database from a build archive in four
    traced steps (copy the archive into the working directory, unzip it, create the
    database, run pg_restore on the first backup file), each run through
    `ExecuteWithTrace`, which invokes its action twice. The database server, the
    connection-string parser and the process launcher are oracles. */
module RestoreDb {
  import opened Common
  import opened Text
  import opened Paths
  import opened Files
  import opened AgentSettings
  import opened Base

  const TypeName: string := "RestoreDbHandler"
  const ZipKey: string := "CreatioBuildZipPath"
  const NameKey: string := "Name"

  /** The method names `ExecuteWithTrace` is given (`nameof`). */
  const CopyName: string := "CopyFileToWorkingDirectory"
  const UnzipName: string := "UnzipFile"
  const CreateName: string := "CreatePgDatabase"
  const LaunchName: string := "LaunchPgRestoreProcess"

  const PgRestoreExe: string := "pg_restore.exe"

  const ZipPathIsNull: Error := Fail("RestoreDbHandler.CreatioBuildZipPathIsNull", "CreatioBuildZipPath is null")
  const NameIsNull: Error := Fail("RestoreDbHandler.NameIsNull", "Name is null")
  const InvalidPath: Error := Invalid("CopyFileToWorkingDirectory.InvalidPath", "Invalid path, value cannot be null or empty")
  const CopiedMissing: Error := Fail("File not found", "File not found")
  const DbSettingsNotFound: Error := Fail("RestoreDb.DbSettingsNotFound", "Db settings not found")
  const ConnectionStringNotFound: Error := Fail("RestoreDb.ConnectionStringNotFound", "Connection string not found")
  const DbCreationFailed: Error := Fail("RestoreDb.DbCreationFailed", "Database creation failed")
  const BinPathNotFound: Error := Fail("RestoreDb.BinPathNotFound", "Bin path not found")
  const BackupNotFound: Error := Fail("RestoreDb.BackupNotFound", "No backup file found")
  const RestoreFailed: Error := Fail("RestoreDb.RestoreFailed", "Failed to start pg_restore process")
  const UnzippedMissing: Error := Fail("UnzipFile.DirectoryNotFound", "Directory not found")

  /** The message of the `ArgumentException` that `string.Replace` throws for an empty
      string to replace. */
  const EmptyOldValueText: string := "String cannot be of zero length. (Parameter 'oldValue')"
  /** The message of the `ArgumentException` that `DbConnectionStringBuilder` throws for
      a connection string it cannot parse. */
  const BadConnectionStringText: string := "Format of the initialization string does not conform to specification starting at index 0."

  function SourceNotFound(from: string): Error {
    Fail("CopyFileToWorkingDirectory.FileNotFound", "File " + from + " not found")
  }

  function CopyException(m: string): Error {
    Fail("CopyFileToWorkingDirectory.Exception", m)
  }

  function UnzipException(m: string): Error {
    Fail("UnzipFile.Exception", m)
  }

  /** How a step's action ends: with its ErrorOr value, or with an exception that no
      catch block of the handler stops. */
  datatype Call<T> = Returns(result: Result<T>) | Throws(message: string)

  // ---------------------------------------------------------------------------------
  // Step 1: CopyFileToWorkingDirectory

  /** `Path.Combine(WorkingDirectoryPath, Path.GetFileName(from))`. */
  function WorkingCopy(wd: string, from: string): string {
    Combine(wd, GetFileName(from))
  }

  /** The body of `CopyFileToWorkingDirectory` after the path check, as written, copying
      `from` to `to`: a copy already in place is deleted before it is copied onto itself. */
  function CopyTo(s: FsState, wd: string, from: string, to: string): (FsState, Result<string>) {
    match EnsureDir(s, wd)
    case Threw(m) => (s, Err([CopyException(m)]))
    case Value(s1) =>
      if from !in s1.files then (s1, Err([SourceNotFound(from)]))
      else
        var s2 := if to in s1.files then Unlink(s1, to) else s1;
        match CopyFile(s2, from, to, false)
        case Threw(m) => (s2, Err([CopyException(m)]))
        case Value(s3) => if to in s3.files then (s3, Ok(to)) else (s3, Err([CopiedMissing]))
  }

  /** `CopyFileToWorkingDirectory(from)` as written. */
  function CopyAsWritten(s: FsState, wd: string, from: string): (FsState, Result<string>) {
    if from == "" then (s, Err([InvalidPath])) else CopyTo(s, wd, from, WorkingCopy(wd, from))
  }

  /** `CopyTo`, except that a source that is its own destination is left where it is. */
  function CopyOrKeep(s: FsState, wd: string, from: string, to: string): (FsState, Result<string>) {
    if to == from && from in s.files then
      match EnsureDir(s, wd)
      case Threw(m) => (s, Err([CopyException(m)]))
      case Value(s1) => (s1, Ok(from))
    else CopyTo(s, wd, from, to)
  }

  /** Copying an archive onto itself, as written, deletes it and then fails because the
      source is gone. */
  lemma SelfCopyDeletesArchive(s: FsState, wd: string, from: string)
    requires from in s.files && wd in s.dirs
    ensures CopyTo(s, wd, from, from) == (Unlink(s, from), Err([CopyException(FileNotFoundText(from))]))
    ensures from !in CopyTo(s, wd, from, from).0.files
  {
  }

  /** The working directory "C:\work" holding the archive "C:\work\build.zip": copying it
      to the working directory, as written, deletes it. */
  lemma SelfCopyExample()
    ensures WorkingCopy("C:\\work", "C:\\work\\build.zip") == "C:\\work\\build.zip"
    ensures var s := FsState(map["C:\\work\\build.zip" := "PK"], {"C:\\work"});
      && CopyAsWritten(s, "C:\\work", "C:\\work\\build.zip").1.Err?
      && "C:\\work\\build.zip" !in CopyAsWritten(s, "C:\\work", "C:\\work\\build.zip").0.files
  {
    var p := "C:\\work\\build.zip";
    assert p[7] == Sep && p[2] == Sep;
    assert NameStart(p) == 8;
    assert GetFileName(p) == p[8..] == "build.zip";
    assert !IsRooted("build.zip");
    assert Combine("C:\\work", "build.zip") == "C:\\work" + [Sep] + "build.zip" == p;
    var s := FsState(map[p := "PK"], {"C:\\work"});
    SelfCopyDeletesArchive(s, "C:\\work", p);
  }

  /** What the copy comes to for a destination `to`: a Failure naming a missing source,
      with no file changed; otherwise exactly the copy at `to` with the source's content,
      the source kept, and the working directory present. The final "File not found"
      failure cannot occur. */
  lemma CopyOrKeepOutcome(s: FsState, wd: string, from: string, to: string)
    ensures var r := CopyOrKeep(s, wd, from, to);
      && (EnsureDir(s, wd).Value? && from !in s.files ==> r.1 == Err([SourceNotFound(from)]) && r.0.files == s.files)
      && (r.1.Ok? <==> (EnsureDir(s, wd).Value? && from in s.files && (to == from || (to != wd && to !in s.dirs))))
      && (r.1.Ok? ==> r.1.value == to && wd in r.0.dirs && r.0.files == s.files[to := s.files[from]])
      && (from in s.files ==> from in r.0.files && r.0.files[from] == s.files[from])
      && r.1 != Err([CopiedMissing])
  {
    if EnsureDir(s, wd).Value? && from in s.files {
      var s1 := EnsureDir(s, wd).value;
      if to == from {
        assert s.files[to := s.files[from]] == s.files;
      } else {
        var s2 := if to in s1.files then Unlink(s1, to) else s1;
        assert from in s2.files && s2.files[from] == s.files[from];
        if CopyFile(s2, from, to, false).Value? {
          assert s2.files[to := s2.files[from]] == s.files[to := s.files[from]];
        }
      }
    }
  }

  /** What the copy as written comes to for a destination `to`: a Failure naming a
      missing source, with no file changed; success exactly when the source exists and
      the destination is another path that is not a directory, and then exactly the copy
      at `to` with the source's content; a source that is its own destination is deleted
      and the copy fails. The final "File not found" failure cannot occur. */
  lemma CopyToOutcome(s: FsState, wd: string, from: string, to: string)
    ensures var r := CopyTo(s, wd, from, to);
      && (EnsureDir(s, wd).Value? && from !in s.files ==> r.1 == Err([SourceNotFound(from)]) && r.0.files == s.files)
      && (r.1.Ok? <==> (EnsureDir(s, wd).Value? && from in s.files && to != from && to != wd && to !in s.dirs))
      && (r.1.Ok? ==> r.1.value == to && wd in r.0.dirs && r.0.files == s.files[to := s.files[from]])
      && (from in s.files && to != from ==> from in r.0.files && r.0.files[from] == s.files[from])
      && (EnsureDir(s, wd).Value? && from in s.files && to == from ==>
            r.1 == Err([CopyException(FileNotFoundText(from))]) && r.0.files == s.files - {from})
      && r.1 != Err([CopiedMissing])
  {
    if EnsureDir(s, wd).Value? && from in s.files && to == from {
      var e := EnsureDir(s, wd).value;
      assert EnsureDir(e, wd) == Value(e);
      SelfCopyDeletesArchive(e, wd, from);
      assert CopyTo(s, wd, from, to) == CopyTo(e, wd, from, to);
    } else {
      CopyOrKeepOutcome(s, wd, from, to);
      assert CopyOrKeep(s, wd, from, to) == CopyTo(s, wd, from, to);
    }
  }

  /** What `CopyFileToWorkingDirectory` comes to: the Validation error for an empty path,
      and otherwise the copy as written to `WorkingCopy(wd, from)`, whose success leaves
      the archive's content there. */
  lemma CopyOutcome(s: FsState, wd: string, from: string)
    ensures var r := CopyAsWritten(s, wd, from);
      && (from == "" ==> r == (s, Err([InvalidPath])))
      && (from != "" ==> r == CopyTo(s, wd, from, WorkingCopy(wd, from)))
      && (r.1.Ok? ==> from in s.files && r.1.value == WorkingCopy(wd, from) && r.1.value in r.0.files && r.0.files[r.1.value] == s.files[from])
      && r.1 != Err([CopiedMissing])
  {
    if from != "" {
      CopyToOutcome(s, wd, from, WorkingCopy(wd, from));
    }
  }

  /** With the correction, invoking the copy a second time, as `ExecuteWithTrace` does,
      changes nothing more and returns the same result. */
  lemma CopyOrKeepAgain(s: FsState, wd: string, from: string, to: string)
    ensures var (s1, r1) := CopyOrKeep(s, wd, from, to);
      CopyOrKeep(s1, wd, from, to) == (s1, r1)
  {
    if EnsureDir(s, wd).Value? {
      var e := EnsureDir(s, wd).value;
      if to == from && from in s.files {
        assert EnsureDir(e, wd) == Value(e);
      } else if from !in s.files {
        assert CopyTo(s, wd, from, to) == (e, Err([SourceNotFound(from)]));
        assert EnsureDir(e, wd) == Value(e);
      } else {
        assert CopyOrKeep(s, wd, from, to) == CopyTo(e, wd, from, to);
        CopyAgainCopied(e, wd, from, to);
        assert CopyOrKeep(CopyTo(e, wd, from, to).0, wd, from, to) == CopyTo(CopyTo(e, wd, from, to).0, wd, from, to);
      }
    }
  }

  /** The second copy over a first one, once the working directory exists. */
  lemma CopyAgainCopied(e: FsState, wd: string, from: string, to: string)
    requires wd in e.dirs && from in e.files && to != from
    ensures var (s1, r1) := CopyTo(e, wd, from, to);
      CopyTo(s1, wd, from, to) == (s1, r1)
  {
    var s2 := if to in e.files then Unlink(e, to) else e;
    var (s1, r1) := CopyTo(e, wd, from, to);
    assert EnsureDir(e, wd) == Value(e);
    if CopyFile(s2, from, to, false).Value? {
      assert s1 == s2.(files := s2.files[to := s2.files[from]]);
      assert EnsureDir(s1, wd) == Value(s1);
      assert (s1.files - {to})[to := s1.files[from]] == s1.files;
    } else {
      assert s1 == s2 && to !in s2.files;
      assert EnsureDir(s1, wd) == Value(s1);
    }
  }

  /** The second invocation of `CopyFileToWorkingDirectory`, as `ExecuteWithTrace` makes
      it, changes nothing more and succeeds exactly when the first did, with the same
      result. After a self-copy it reports the archive it deleted as not found. */
  lemma CopyAgain(s: FsState, wd: string, from: string)
    ensures var (s1, r1) := CopyAsWritten(s, wd, from);
      var (s2, r2) := CopyAsWritten(s1, wd, from);
      && s2 == s1
      && (r2.Ok? <==> r1.Ok?)
      && (r1.Ok? ==> r2 == r1)
      && (from != "" && WorkingCopy(wd, from) == from && from in s.files && EnsureDir(s, wd).Value? ==>
            r2 == Err([SourceNotFound(from)]))
  {
    if from != "" {
      var to := WorkingCopy(wd, from);
      if to == from && from in s.files && EnsureDir(s, wd).Value? {
        CopyToOutcome(s, wd, from, to);
        var s1 := CopyTo(s, wd, from, to).0;
        assert s1 == Unlink(EnsureDir(s, wd).value, from);
        assert EnsureDir(s1, wd) == Value(s1);
      } else {
        CopyOrKeepAgain(s, wd, from, to);
        assert CopyOrKeep(s, wd, from, to) == CopyTo(s, wd, from, to);
        var s1 := CopyTo(s, wd, from, to).0;
        // Either the source is still missing, or the working directory still cannot be made.
        assert EnsureDir(s, wd).Threw? ==> s1 == s;
        assert CopyOrKeep(s1, wd, from, to) == CopyTo(s1, wd, from, to);
      }
    }
  }

  // ---------------------------------------------------------------------------------
  // Step 2: UnzipFile

  /** `Path.Combine(WorkingDirectoryPath, stem.Replace(extension, ""))` for the copied
      archive; `None` when the extension is empty, where `Replace` throws. */
  function ExtractDir(wd: string, zip: string): (r: Option<string>)
    ensures r.Some? <==> GetExtension(zip) != ""
  {
    var ext := GetExtension(zip);
    if ext == "" then None else Some(Combine(wd, RemoveAll(GetFileNameWithoutExtension(zip), ext)))
  }

  /** The body of `UnzipFile` once the extraction directory `dir` is known: an existing
      `dir` is deleted with its contents and created anew, and the archive is extracted
      into it. */
  function UnzipInto(s: FsState, zip: string, dir: string, unzip: Unzipper): (FsState, Result<string>) {
    var s1 := if dir in s.dirs then RemoveTree(s, dir) else s;
    match MkDir(s1, dir)
    case Threw(m) => (s1, Err([UnzipException(m)]))
    case Value(s2) =>
      match Unpack(s2, zip, dir, unzip)
      case Threw(m) => (s2, Err([UnzipException(m)]))
      case Value(s3) => if dir in s3.dirs then (s3, Ok(dir)) else (s3, Err([UnzippedMissing]))
  }

  /** `UnzipFile(zip)`. */
  function UnzipRun(s: FsState, wd: string, zip: string, unzip: Unzipper): (FsState, Result<string>) {
    match ExtractDir(wd, zip)
    case None => (s, Err([UnzipException(EmptyOldValueText)]))
    case Some(dir) => UnzipInto(s, zip, dir, unzip)
  }

  /** A completed extraction into `dir` returns `dir`, which exists and holds every entry
      of the archive at its place, and, when it existed before, nothing else; files
      outside it are kept. The final "Directory not found" failure cannot occur. */
  lemma UnzipIntoOutcome(s: FsState, zip: string, dir: string, unzip: Unzipper)
    ensures var r := UnzipInto(s, zip, dir, unzip);
      && r.1 != Err([UnzippedMissing])
      && (r.1.Ok? ==>
            && r.1.value == dir && dir in r.0.dirs && zip in s.files && unzip(s.files[zip]).Some?
            && Extracted(s, r.0, unzip(s.files[zip]).value, dir)
            && (dir in s.dirs ==> forall f :: f in r.0.files && IsUnder(f, dir) ==>
                  exists k :: k in unzip(s.files[zip]).value && f == DirPrefix(dir) + k))
  {
    var s1 := if dir in s.dirs then RemoveTree(s, dir) else s;
    if MkDir(s1, dir).Value? {
      var s2 := MkDir(s1, dir).value;
      if Unpack(s2, zip, dir, unzip).Value? {
        assert zip in s2.files && s2.files[zip] == s.files[zip];
        UnpackFacts(s2, zip, dir, unzip);
        assert forall f :: f in s.files && !IsUnder(f, dir) ==> f in s2.files;
        if dir in s.dirs {
          assert FilesUnder(s2, dir) == {};
        }
      }
    }
  }

  /** Unzipping an archive whose name has no extension always fails with the
      exception's message and changes nothing; otherwise it extracts into `ExtractDir`. */
  lemma UnzipOutcome(s: FsState, wd: string, zip: string, unzip: Unzipper)
    ensures GetExtension(zip) == "" ==> UnzipRun(s, wd, zip, unzip) == (s, Err([UnzipException(EmptyOldValueText)]))
    ensures GetExtension(zip) != "" ==> UnzipRun(s, wd, zip, unzip) == UnzipInto(s, zip, ExtractDir(wd, zip).value, unzip)
  {
  }

  // ---------------------------------------------------------------------------------
  // Step 3: CreatePgDatabase

  /** The first "PGSQL" section and its first server's connection string, as both
      database steps look them up. */
  function DbConnection(settings: Settings): (r: Result<(Db, string)>)
    ensures r.Ok? ==> PgSection(settings).Some? && r.value.0 == PgSection(settings).value && r.value.1 != ""
  {
    match PgSection(settings)
    case None => Err([DbSettingsNotFound])
    case Some(d) =>
      var cs := ConnectionString(d);
      if cs == "" then Err([ConnectionStringNotFound]) else Ok((d, cs))
  }

  /** A call the PostgreSQL client makes on the server. */
  datatype PgCall = CheckExists(name: string) | Drop(name: string) | Create(name: string)

  /** The PostgreSQL server as the handler's client sees it: which names it creates a
      database for when asked, and which calls throw, with the exception's message. */
  datatype PgServer = PgServer(accepts: string -> bool, fault: PgCall -> Option<string>)

  /** `CreatePgDatabase(name)` on the names of the server's databases: look the settings
      up, drop a database of that name if the server holds one, then create it. Each of
      the three server calls may throw, and no catch block stops the exception. */
  function CreateDbRun(dbs: set<string>, pg: PgServer, settings: Settings, name: string): (set<string>, Call<Unit>) {
    match DbConnection(settings)
    case Err(e) => (dbs, Returns(Err(e)))
    case Ok(_) =>
      if pg.fault(CheckExists(name)).Some? then (dbs, Throws(pg.fault(CheckExists(name)).value))
      else if name in dbs && pg.fault(Drop(name)).Some? then (dbs, Throws(pg.fault(Drop(name)).value))
      else
        var dropped := dbs - {name};
        if pg.fault(Create(name)).Some? then (dropped, Throws(pg.fault(Create(name)).value))
        else if pg.accepts(name) then (dropped + {name}, Returns(Ok(Unit)))
        else (dropped, Returns(Err([DbCreationFailed])))
  }

  /** Whether the calls one creation makes all return: the check, the drop when the
      server holds the name, and the creation. */
  predicate Unfaulted(dbs: set<string>, pg: PgServer, name: string) {
    && pg.fault(CheckExists(name)).None?
    && (name in dbs ==> pg.fault(Drop(name)).None?)
    && pg.fault(Create(name)).None?
  }

  /** Database creation fails on missing settings with no database touched. Otherwise
      only the database of that name can change; a database of that name is dropped
      first, so a refused creation loses it; the step succeeds exactly when no server
      call throws and the server creates the database; and an exception is the one a
      server call reported. */
  lemma CreateDbOutcome(dbs: set<string>, pg: PgServer, settings: Settings, name: string)
    ensures var r := CreateDbRun(dbs, pg, settings, name);
      && (PgSection(settings).None? ==> r == (dbs, Returns(Err([DbSettingsNotFound]))))
      && (PgSection(settings).Some? && ConnectionString(PgSection(settings).value) == "" ==>
            r == (dbs, Returns(Err([ConnectionStringNotFound]))))
      && (DbConnection(settings).Err? ==> r.0 == dbs && r.1.Returns? && r.1.result.Err?)
      && (DbConnection(settings).Ok? ==>
            && r.0 - {name} == dbs - {name}
            && (r.1 == Returns(Ok(Unit)) <==> Unfaulted(dbs, pg, name) && pg.accepts(name))
            && (r.1 == Returns(Ok(Unit)) ==> name in r.0)
            && (r.1.Returns? && r.1.result.Err? ==> r == (dbs - {name}, Returns(Err([DbCreationFailed]))))
            && (r.1.Throws? <==> !Unfaulted(dbs, pg, name))
            && (r.1.Throws? ==>
                  Some(r.1.message) in {pg.fault(CheckExists(name)), pg.fault(Drop(name)), pg.fault(Create(name))})
            && (name in r.0 && name !in dbs ==> r.1 == Returns(Ok(Unit))))
  {
  }

  /** A second creation, as `ExecuteWithTrace` invokes it, leaves the databases the first
      left, and returns what the first did unless the first created the database and
      the server throws on dropping it again. */
  lemma CreateDbAgain(dbs: set<string>, pg: PgServer, settings: Settings, name: string)
    ensures var (d1, r1) := CreateDbRun(dbs, pg, settings, name);
      var (d2, r2) := CreateDbRun(d1, pg, settings, name);
      && d2 == d1
      && (r1 != Returns(Ok(Unit)) || pg.fault(Drop(name)).None? ==> r2 == r1)
      && (r1 == Returns(Ok(Unit)) && pg.fault(Drop(name)).Some? ==> r2 == Throws(pg.fault(Drop(name)).value))
  {
    var (d1, r1) := CreateDbRun(dbs, pg, settings, name);
    if DbConnection(settings).Ok? && r1 == Returns(Ok(Unit)) {
      assert (d1 - {name}) + {name} == (dbs - {name}) + {name};
    }
  }

  // ---------------------------------------------------------------------------------
  // Step 4: LaunchPgRestoreProcess

  /** `DbConnectionStringBuilder` on a connection string: its keys, in lower case since
      the builder compares keys ignoring case, with their values; `None` when the
      string cannot be parsed. */
  type CsParser = string -> Option<map<string, string>>

  /** The keys the handler reads from the builder ("Server", "Port", "password",
      "User ID"), in the lower case the builder compares them in. */
  const ServerKey: string := "server"
  const PortKey: string := "port"
  const PasswordKey: string := "password"
  const UserIdKey: string := "user id"

  /** `builder.TryGetValue(key)` rendered by string interpolation: "" when absent. */
  function Field(fields: map<string, string>, key: string): string {
    if key in fields then fields[key] else ""
  }

  /** `ProcessStartInfo`: the program, its argument list, its working directory, the
      variables added to the inherited environment, and the three flags it sets. */
  datatype StartInfo = StartInfo(
    fileName: string, arguments: seq<string>, workingDirectory: string, environment: map<string, string>,
    useShellExecute: bool, redirectStandardOutput: bool, redirectStandardError: bool)

  /** What `Process.Start` and `WaitForExit` come to: the lines the process wrote to its
      standard output and error streams (`null` where the stream signalled its end) and
      its exit code; `null` from `Process.Start`; or an exception from it. */
  datatype Process = Exited(stdout: seq<Option<string>>, stderr: seq<Option<string>>, exitCode: int) | NoProcess | StartThrew(message: string)

  type Launcher = StartInfo -> Process

  /** The start information of pg_restore for database `name` and backup file `backup`,
      with the server's address and user from the connection string and its password in
      the environment. */
  function PgRestoreStart(name: string, fields: map<string, string>, bin: string, backup: string): StartInfo {
    StartInfo(Combine(bin, PgRestoreExe),
      ["--dbname=" + name, "--verbose", "--no-owner", "--no-privileges", "--jobs=4",
       "--username=" + Field(fields, UserIdKey), "--host=" + Field(fields, ServerKey), "--port=" + Field(fields, PortKey),
       backup],
      bin, map["PGPASSWORD" := Field(fields, PasswordKey)], false, true, true)
  }

  /** The lines a data-received handler keeps: every non-null line, in arrival order. */
  function Present(lines: seq<Option<string>>): (r: seq<string>)
    ensures |r| <= |lines|
  {
    if lines == [] then []
    else
      var last := lines[|lines| - 1];
      Present(lines[..|lines| - 1]) + (if last.Some? then [last.value] else [])
  }

  /** Keeping lines distributes over consecutive batches of lines. */
  lemma {:induction false} PresentAppend(a: seq<Option<string>>, b: seq<Option<string>>)
    ensures Present(a + b) == Present(a) + Present(b)
    decreases |b|
  {
    if b != [] {
      var b' := b[..|b| - 1];
      assert (a + b)[..|a + b| - 1] == a + b';
      PresentAppend(a, b');
    } else {
      assert a + b == a;
    }
  }

  /** A line is kept exactly when it arrived and was not null. */
  lemma {:induction false} PresentMembers(lines: seq<Option<string>>)
    ensures forall l :: l in Present(lines) <==> Some(l) in lines
    decreases |lines|
  {
    if lines != [] {
      var init := lines[..|lines| - 1];
      PresentMembers(init);
      assert lines == init + [lines[|lines| - 1]];
    }
  }

  /** Every file of `xs` that is a backup file, in order. */
  function Backups(xs: seq<string>): (r: seq<string>)
    ensures forall f :: f in r <==> f in xs && IsBackup(f)
  {
    if xs == [] then []
    else (if IsBackup(xs[0]) then [xs[0]] else []) + Backups(xs[1..])
  }

  /** `xs[i]` is the earliest backup file of `xs`. */
  predicate FirstBackupAt(xs: seq<string>, i: int) {
    0 <= i < |xs| && IsBackup(xs[i]) && forall j :: 0 <= j < i ==> !IsBackup(xs[j])
  }

  /** The first backup file is the earliest backup file of the listing. */
  lemma {:induction false} FirstBackup(xs: seq<string>)
    requires Backups(xs) != []
    ensures exists i :: FirstBackupAt(xs, i) && xs[i] == Backups(xs)[0]
  {
    if IsBackup(xs[0]) {
      assert FirstBackupAt(xs, 0);
    } else {
      var tail := xs[1..];
      assert Backups(xs) == Backups(tail);
      FirstBackup(tail);
      var i :| FirstBackupAt(tail, i) && tail[i] == Backups(tail)[0];
      forall j | 0 <= j < i + 1 ensures !IsBackup(xs[j]) {
        if j > 0 {
          assert xs[j] == tail[j - 1];
        }
      }
      assert FirstBackupAt(xs, i + 1);
    }
  }

  /** `dir.GetFiles("*.backup", SearchOption.AllDirectories)`: the backup files below
      `dir` in listing order; it throws for a directory that does not exist. */
  function BackupFilesIn(s: FsState, order: Lister, dir: string): Attempt<seq<string>> {
    if dir !in s.dirs then Threw(DirectoryNotFoundText(dir)) else Value(Backups(Listing(s, order, dir)))
  }

  /** Starting the process and waiting for it: the non-null lines of both streams once it
      has run, whatever its exit code. */
  function RunPgRestore(launch: Launcher, info: StartInfo): Call<(seq<string>, seq<string>)> {
    match launch(info)
    case NoProcess => Returns(Err([RestoreFailed]))
    case StartThrew(m) => Throws(m)
    case Exited(out, err, _) => Returns(Ok((Present(out), Present(err))))
  }

  /** The body of `LaunchPgRestoreProcess` once the connection string has been parsed
      into `fields` and the bin folder is known. */
  function RestoreWith(s: FsState, order: Lister, launch: Launcher, name: string, fields: map<string, string>, bin: string, dir: string)
    : Call<(seq<string>, seq<string>)>
  {
    if bin == "" then Returns(Err([BinPathNotFound]))
    else match BackupFilesIn(s, order, dir)
      case Threw(m) => Throws(m)
      case Value(backups) =>
        if backups == [] then Returns(Err([BackupNotFound]))
        else RunPgRestore(launch, PgRestoreStart(name, fields, bin, backups[0]))
  }

  /** `LaunchPgRestoreProcess(name, dir)` on a state, given the listing order. */
  function LaunchRun(s: FsState, order: Lister, settings: Settings, parse: CsParser, launch: Launcher, name: string, dir: string)
    : Call<(seq<string>, seq<string>)>
  {
    match DbConnection(settings)
    case Err(e) => Returns(Err(e))
    case Ok((d, cs)) =>
      match parse(cs)
      case None => Throws(BadConnectionStringText)
      case Some(fields) => RestoreWith(s, order, launch, name, fields, BinFolderPath(d), dir)
  }

  /** The backup files below an existing directory: none exactly when no file below it
      is a backup file, and otherwise first the earliest backup file of the listing. */
  lemma BackupFilesFacts(s: FsState, order: Lister, dir: string)
    requires Enumerates(order) && dir in s.dirs
    ensures var bs := BackupFilesIn(s, order, dir).value;
      && (bs == [] <==> forall f :: f in s.files && IsUnder(f, dir) ==> !IsBackup(f))
      && (bs != [] ==>
            && bs[0] in s.files && IsUnder(bs[0], dir) && IsBackup(bs[0])
            && exists i :: FirstBackupAt(Listing(s, order, dir), i) && Listing(s, order, dir)[i] == bs[0])
  {
    var xs := Listing(s, order, dir);
    ListingFacts(s, order, dir);
    if Backups(xs) != [] {
      FirstBackup(xs);
      assert Backups(xs)[0] in Backups(xs);
    } else {
      forall f | f in s.files && IsUnder(f, dir) ensures !IsBackup(f) {
        assert f in xs;
      }
    }
  }

  /** The restore consults the same settings as the creation, and stops on them first;
      a connection string the builder cannot parse throws; otherwise the restore goes on
      with the parsed fields and the first server's bin folder. */
  lemma LaunchConfig(s: FsState, order: Lister, settings: Settings, parse: CsParser, launch: Launcher, name: string, dir: string)
    ensures var o := LaunchRun(s, order, settings, parse, launch, name, dir);
      && (DbConnection(settings).Err? ==> o == Returns(Err(DbConnection(settings).errors)))
      && (PgSection(settings).None? ==> o == Returns(Err([DbSettingsNotFound])))
      && (PgSection(settings).Some? && ConnectionString(PgSection(settings).value) == "" ==>
            o == Returns(Err([ConnectionStringNotFound])))
      && (DbConnection(settings).Ok? && parse(DbConnection(settings).value.1).None? ==> o == Throws(BadConnectionStringText))
      && (DbConnection(settings).Ok? && parse(DbConnection(settings).value.1).Some? ==>
            o == RestoreWith(s, order, launch, name, parse(DbConnection(settings).value.1).value,
                   BinFolderPath(PgSection(settings).value), dir))
  {
  }

  /** An empty bin folder fails with "RestoreDb.BinPathNotFound"; with one, and an
      existing extraction directory, the restore fails with "RestoreDb.BackupNotFound"
      exactly when no file below the directory is a backup file, and otherwise
      pg_restore is started on the first backup file of the listing: if the process
      starts, the restore succeeds whatever its exit code, with the non-null lines of
      both streams; a `null` process fails with "RestoreDb.RestoreFailed", and an
      exception from the start escapes. */
  lemma RestoreWithOutcome(s: FsState, order: Lister, launch: Launcher, name: string, fields: map<string, string>, bin: string, dir: string)
    requires Enumerates(order)
    ensures var o := RestoreWith(s, order, launch, name, fields, bin, dir);
      && (bin == "" ==> o == Returns(Err([BinPathNotFound])))
      && (bin != "" && dir !in s.dirs ==> o == Throws(DirectoryNotFoundText(dir)))
      && (bin != "" && dir in s.dirs ==>
            var bs := BackupFilesIn(s, order, dir).value;
            && (o == Returns(Err([BackupNotFound])) <==> forall f :: f in s.files && IsUnder(f, dir) ==> !IsBackup(f))
            && (bs != [] ==>
                  var p := launch(PgRestoreStart(name, fields, bin, bs[0]));
                  && (p.Exited? ==> o == Returns(Ok((Present(p.stdout), Present(p.stderr)))))
                  && (p.NoProcess? ==> o == Returns(Err([RestoreFailed])))
                  && (p.StartThrew? ==> o == Throws(p.message))))
  {
    if bin != "" && dir in s.dirs {
      BackupFilesFacts(s, order, dir);
    }
  }

  // ---------------------------------------------------------------------------------
  // The job

  /** How far a traced step got: not run, finished with the outcome of its second
      invocation, or aborted by an exception after its Started event. */
  datatype Mark = NotRun | Done(ok: bool) | Aborted

  /** The oracles and settings a handler is built with. */
  datatype Env = Env(settings: Settings, unzip: Unzipper, parse: CsParser, launch: Launcher)

  /** Both invocations of the copy action: the state after both and both results. */
  function CopyTwice(s: FsState, wd: string, from: string): (FsState, Result<string>, Result<string>) {
    var (s1, r1) := CopyAsWritten(s, wd, from);
    var (s2, r2) := CopyAsWritten(s1, wd, from);
    (s2, r1, r2)
  }

  /** Both invocations of the unzip action. */
  function UnzipTwice(s: FsState, wd: string, zip: string, unzip: Unzipper): (FsState, Result<string>, Result<string>) {
    var (s1, r1) := UnzipRun(s, wd, zip, unzip);
    var (s2, r2) := UnzipRun(s1, wd, zip, unzip);
    (s2, r1, r2)
  }

  /** Both invocations of the database creation: the databases after them, the first
      invocation's outcome, and the outcome that ends the step, which is the first's
      exception, when it threw and so the second was never made, or else the second's
      outcome. */
  function CreateTwice(dbs: set<string>, pg: PgServer, settings: Settings, name: string): (r: (set<string>, Call<Unit>, Call<Unit>))
    ensures r.2.Returns? ==> r.1.Returns?
  {
    var (d1, r1) := CreateDbRun(dbs, pg, settings, name);
    if r1.Throws? then (d1, r1, r1)
    else
      var (d2, r2) := CreateDbRun(d1, pg, settings, name);
      (d2, r1, r2)
  }

  /** What the two file steps come to: the files after them, the extraction directory or
      the errors that end the job, and how far each step got. */
  datatype Prepared = Prepared(state: FsState, result: Result<string>, copy: Mark, unzip: Mark)

  function PrepareRun(s: FsState, wd: string, zip: string, unzip: Unzipper): Prepared {
    var c := CopyTwice(s, wd, zip);
    if c.1.Err? then Prepared(c.0, Err(c.1.errors), Done(c.2.Ok?), NotRun)
    else
      var u := UnzipTwice(c.0, wd, c.1.value, unzip);
      Prepared(u.0, u.1, Done(c.2.Ok?), Done(u.2.Ok?))
  }

  /** What the two database steps come to: the server's databases after them, how the
      job ends, and how far each step got. */
  datatype Provisioned = Provisioned(databases: set<string>, outcome: Run, create: Mark, restore: Mark)

  function ProvisionRun(s: FsState, order: Lister, dbs: set<string>, pg: PgServer, env: Env, name: string, dir: string): Provisioned {
    var k := CreateTwice(dbs, pg, env.settings, name);
    if k.2.Throws? then Provisioned(k.0, Escaped(k.2.message), Aborted, NotRun)
    else if k.1.result.Err? then Provisioned(k.0, Returned(Err(k.1.result.errors)), Done(k.2.result.Ok?), NotRun)
    else match LaunchRun(s, order, env.settings, env.parse, env.launch, name, dir)
      case Throws(m) => Provisioned(k.0, Escaped(m), Done(k.2.result.Ok?), Aborted)
      case Returns(l) => Provisioned(k.0, Returned(if l.Ok? then Ok(Unit) else Err(l.errors)), Done(k.2.result.Ok?), Done(l.Ok?))
  }

  /** What a whole `InternalExecute` comes to. */
  datatype Restoration = Restoration(state: FsState, databases: set<string>, outcome: Run, copy: Mark, unzip: Mark, create: Mark, restore: Mark)

  /** `InternalExecute(cmd)`: both command values must be present and non-empty, the
      archive path first; then copy, unzip, create and restore in turn, each step run
      only when the first invocation of the previous one succeeded. */
  function RestoreRun(s: FsState, order: Lister, dbs: set<string>, pg: PgServer, env: Env, cmd: CommandObj): Restoration {
    var zip := Arg(cmd, ZipKey);
    var name := Arg(cmd, NameKey);
    if zip == "" then Restoration(s, dbs, Returned(Err([ZipPathIsNull])), NotRun, NotRun, NotRun, NotRun)
    else if name == "" then Restoration(s, dbs, Returned(Err([NameIsNull])), NotRun, NotRun, NotRun, NotRun)
    else
      var p := PrepareRun(s, env.settings.workingDirectoryPath, zip, env.unzip);
      if p.result.Err? then Restoration(p.state, dbs, Returned(Err(p.result.errors)), p.copy, p.unzip, NotRun, NotRun)
      else
        var q := ProvisionRun(p.state, order, dbs, pg, env, name, p.result.value);
        Restoration(p.state, q.databases, q.outcome, p.copy, p.unzip, q.create, q.restore)
  }

  /** The traced steps after one more step that got as far as `m`. */
  function MarkStep(steps: seq<Step>, name: string, m: Mark, sid: Guid): seq<Step> {
    if m.Done? then steps + [Step(name, sid, m.ok)] else steps
  }

  /** The event log after one more step that got as far as `m`: its Started event, and
      its terminal event when it finished. */
  function MarkLog(log: seq<JobEvent>, job: Guid, name: string, m: Mark, sid: Guid): seq<JobEvent> {
    match m
    case NotRun => log
    case Done(ok) => log + [StepStarted(job, name, sid)] + [StepFinished(job, Step(name, sid, ok))]
    case Aborted => log + [StepStarted(job, name, sid)]
  }

  function RestoreSteps(steps: seq<Step>, r: Restoration, sid1: Guid, sid2: Guid, sid3: Guid, sid4: Guid): seq<Step> {
    MarkStep(MarkStep(MarkStep(MarkStep(steps, CopyName, r.copy, sid1), UnzipName, r.unzip, sid2), CreateName, r.create, sid3), LaunchName, r.restore, sid4)
  }

  function RestoreLog(log: seq<JobEvent>, job: Guid, r: Restoration, sid1: Guid, sid2: Guid, sid3: Guid, sid4: Guid): seq<JobEvent> {
    MarkLog(MarkLog(MarkLog(MarkLog(log, job, CopyName, r.copy, sid1), job, UnzipName, r.unzip, sid2), job, CreateName, r.create, sid3), job, LaunchName, r.restore, sid4)
  }

  /** The Started and terminal events of a step that finished are the trace events of
      one more step. */
  lemma MarkLogTrace(pre: seq<JobEvent>, job: Guid, steps: seq<Step>, name: string, m: Mark, sid: Guid)
    requires m != Aborted
    ensures MarkLog(pre + TraceEvents(job, steps), job, name, m, sid) == pre + TraceEvents(job, MarkStep(steps, name, m, sid))
  {
    if m.Done? {
      var more := steps + [Step(name, sid, m.ok)];
      assert more[..|more| - 1] == steps;
    }
  }

  /** The copy step's mark is its first invocation's outcome; the unzip step runs
      exactly when the copy succeeded, and its first invocation then decides the
      result. */
  lemma PrepareOutcome(s: FsState, wd: string, zip: string, unzip: Unzipper)
    ensures var p := PrepareRun(s, wd, zip, unzip);
      var c := CopyAsWritten(s, wd, zip);
      && p.copy == Done(c.1.Ok?)
      && (c.1.Err? ==> p.unzip == NotRun && p.state == c.0 && p.result == c.1)
      && (c.1.Ok? ==> p.unzip.Done? && p.result == UnzipRun(c.0, wd, c.1.value, unzip).1)
  {
    CopyAgain(s, wd, zip);
  }

  /** The creation step is aborted when its first invocation throws, and also when the
      first created the database and the server throws on the second's drop; otherwise
      its mark is its first invocation's outcome. The restore step runs exactly when the
      creation succeeded; an exception from either step is the only way the job escapes;
      and the job succeeds exactly when the database was created and pg_restore ran. */
  lemma ProvisionOutcome(s: FsState, order: Lister, dbs: set<string>, pg: PgServer, env: Env, name: string, dir: string)
    ensures var q := ProvisionRun(s, order, dbs, pg, env, name, dir);
      var k := CreateDbRun(dbs, pg, env.settings, name);
      var l := LaunchRun(s, order, env.settings, env.parse, env.launch, name, dir);
      var dropFault := pg.fault(Drop(name));
      && q.databases == k.0
      && (k.1.Throws? ==> q.create == Aborted && q.restore == NotRun && q.outcome == Escaped(k.1.message))
      && (k.1.Returns? && k.1.result.Err? ==>
            q.create == Done(false) && q.restore == NotRun && q.outcome == Returned(Err(k.1.result.errors)))
      && (k.1 == Returns(Ok(Unit)) && dropFault.Some? ==>
            q.create == Aborted && q.restore == NotRun && q.outcome == Escaped(dropFault.value))
      && (k.1 == Returns(Ok(Unit)) && dropFault.None? ==> q.create == Done(true) && q.restore != NotRun)
      && (q.create == Aborted ==> q.restore == NotRun)
      && (q.outcome.Escaped? <==> q.create == Aborted || q.restore == Aborted)
      && (q.outcome == Returned(Ok(Unit)) <==> k.1 == Returns(Ok(Unit)) && dropFault.None? && l.Returns? && l.result.Ok?)
      && (q.outcome == Returned(Ok(Unit)) ==> q.create == Done(true) && q.restore == Done(true))
  {
    CreateDbAgain(dbs, pg, env.settings, name);
  }

  /** A missing archive path or database name fails the job before any step: no file and
      no database is touched, and the archive path is checked first. */
  lemma RestoreValidates(s: FsState, order: Lister, dbs: set<string>, pg: PgServer, env: Env, cmd: CommandObj)
    requires Arg(cmd, ZipKey) == "" || Arg(cmd, NameKey) == ""
    ensures var r := RestoreRun(s, order, dbs, pg, env, cmd);
      && r.state == s && r.databases == dbs
      && r.copy == NotRun && r.unzip == NotRun && r.create == NotRun && r.restore == NotRun
      && r.outcome == Returned(Err([if Arg(cmd, ZipKey) == "" then ZipPathIsNull else NameIsNull]))
  {
  }

  /** An archive that does not exist, with the working directory in place, fails the
      copy step (on both invocations) with "File {path} not found", and nothing changes. */
  lemma RestoreMissingArchive(s: FsState, order: Lister, dbs: set<string>, pg: PgServer, env: Env, cmd: CommandObj)
    requires Arg(cmd, ZipKey) != "" && Arg(cmd, NameKey) != ""
    requires env.settings.workingDirectoryPath in s.dirs && Arg(cmd, ZipKey) !in s.files
    ensures var r := RestoreRun(s, order, dbs, pg, env, cmd);
      && r.state == s && r.databases == dbs
      && r.copy == Done(false) && r.unzip == NotRun && r.create == NotRun && r.restore == NotRun
      && r.outcome == Returned(Err([SourceNotFound(Arg(cmd, ZipKey))]))
  {
    var wd, zip := env.settings.workingDirectoryPath, Arg(cmd, ZipKey);
    assert EnsureDir(s, wd) == Value(s);
    assert CopyAsWritten(s, wd, zip) == (s, Err([SourceNotFound(zip)]));
    PrepareOutcome(s, wd, zip, env.unzip);
  }

  /** A restore whose archive already sits in the working directory, as the job runs it:
      the copy deletes the archive and the job fails with the exception that reports it
      missing, before any database is touched. */
  lemma RestoreSelfCopyLosesArchive(s: FsState, order: Lister, dbs: set<string>, pg: PgServer, env: Env, cmd: CommandObj)
    requires Arg(cmd, ZipKey) != "" && Arg(cmd, NameKey) != ""
    requires WorkingCopy(env.settings.workingDirectoryPath, Arg(cmd, ZipKey)) == Arg(cmd, ZipKey)
    requires env.settings.workingDirectoryPath in s.dirs && Arg(cmd, ZipKey) in s.files
    ensures var r := RestoreRun(s, order, dbs, pg, env, cmd);
      && r.state.files == s.files - {Arg(cmd, ZipKey)} && r.databases == dbs
      && r.copy == Done(false) && r.unzip == NotRun && r.create == NotRun && r.restore == NotRun
      && r.outcome == Returned(Err([CopyException(FileNotFoundText(Arg(cmd, ZipKey)))]))
  {
    var wd, zip := env.settings.workingDirectoryPath, Arg(cmd, ZipKey);
    assert EnsureDir(s, wd) == Value(s);
    CopyToOutcome(s, wd, zip, zip);
    PrepareOutcome(s, wd, zip, env.unzip);
  }

  /** A job past its argument checks is its file steps, then its database steps on the
      extraction directory when the file steps succeeded. */
  lemma RestoreComposes(s: FsState, order: Lister, dbs: set<string>, pg: PgServer, env: Env, cmd: CommandObj)
    requires Arg(cmd, ZipKey) != "" && Arg(cmd, NameKey) != ""
    ensures var r := RestoreRun(s, order, dbs, pg, env, cmd);
      var p := PrepareRun(s, env.settings.workingDirectoryPath, Arg(cmd, ZipKey), env.unzip);
      && r.state == p.state && r.copy == p.copy && r.unzip == p.unzip
      && (p.result.Err? ==> r.databases == dbs && r.create == NotRun && r.restore == NotRun && r.outcome == Returned(Err(p.result.errors)))
      && (p.result.Ok? ==>
            var q := ProvisionRun(p.state, order, dbs, pg, env, Arg(cmd, NameKey), p.result.value);
            r.databases == q.databases && r.outcome == q.outcome && r.create == q.create && r.restore == q.restore)
  {
  }

  /** The server's databases change only once the archive was copied and unzipped and
      the creation step ran; a step that changed them without finishing ended the job
      with its exception. */
  lemma RestoreTouchesDatabasesLast(s: FsState, order: Lister, dbs: set<string>, pg: PgServer, env: Env, cmd: CommandObj)
    ensures var r := RestoreRun(s, order, dbs, pg, env, cmd);
      r.databases != dbs ==>
        && Arg(cmd, ZipKey) in s.files && Arg(cmd, NameKey) != ""
        && r.copy == Done(true) && r.unzip.Done? && r.create != NotRun
        && (r.create == Aborted ==> r.outcome.Escaped?)
  {
    var r := RestoreRun(s, order, dbs, pg, env, cmd);
    var wd, zip, name := env.settings.workingDirectoryPath, Arg(cmd, ZipKey), Arg(cmd, NameKey);
    if r.databases != dbs {
      assert zip != "" && name != "";
      RestoreComposes(s, order, dbs, pg, env, cmd);
      var p := PrepareRun(s, wd, zip, env.unzip);
      assert p.result.Ok?;
      PrepareOutcome(s, wd, zip, env.unzip);
      CopyOutcome(s, wd, zip);
      ProvisionOutcome(p.state, order, dbs, pg, env, name, p.result.value);
    }
  }

  /** A job that succeeds copied and unzipped the archive, left a database of the given
      name that the server accepted, and every one of its steps finished successfully
      except that the unzip step's second invocation may have failed. */
  lemma RestoreSucceeded(s: FsState, order: Lister, dbs: set<string>, pg: PgServer, env: Env, cmd: CommandObj)
    ensures var r := RestoreRun(s, order, dbs, pg, env, cmd);
      r.outcome == Returned(Ok(Unit)) ==>
        && Arg(cmd, ZipKey) in s.files && Arg(cmd, NameKey) in r.databases && pg.accepts(Arg(cmd, NameKey))
        && DbConnection(env.settings).Ok?
        && r.copy == Done(true) && r.unzip.Done? && r.create == Done(true) && r.restore == Done(true)
  {
    var r := RestoreRun(s, order, dbs, pg, env, cmd);
    var wd, zip, name := env.settings.workingDirectoryPath, Arg(cmd, ZipKey), Arg(cmd, NameKey);
    if r.outcome == Returned(Ok(Unit)) {
      assert zip != "" && name != "";
      RestoreComposes(s, order, dbs, pg, env, cmd);
      var p := PrepareRun(s, wd, zip, env.unzip);
      assert p.result.Ok?;
      PrepareOutcome(s, wd, zip, env.unzip);
      CopyOutcome(s, wd, zip);
      ProvisionOutcome(p.state, order, dbs, pg, env, name, p.result.value);
      CreateDbOutcome(dbs, pg, env.settings, name);
    }
  }

  /** The job escapes with an exception exactly when the creation step or the restore
      step was aborted, and the restore step never runs after an aborted creation. */
  lemma RestoreEscapes(s: FsState, order: Lister, dbs: set<string>, pg: PgServer, env: Env, cmd: CommandObj)
    ensures var r := RestoreRun(s, order, dbs, pg, env, cmd);
      && (r.outcome.Escaped? <==> r.create == Aborted || r.restore == Aborted)
      && (r.create == Aborted ==> r.restore == NotRun)
  {
    var wd, zip, name := env.settings.workingDirectoryPath, Arg(cmd, ZipKey), Arg(cmd, NameKey);
    if zip != "" && name != "" {
      RestoreComposes(s, order, dbs, pg, env, cmd);
      var p := PrepareRun(s, wd, zip, env.unzip);
      if p.result.Ok? {
        ProvisionOutcome(p.state, order, dbs, pg, env, name, p.result.value);
      }
    }
  }

  /** A job that returns raises exactly the events of the base protocol for the steps it
      ran; one that escapes raises the job's Started event, the events of the steps that
      finished, and the aborted step's Started event, and no terminal event. */
  lemma RestoreJobEvents(job: Guid, r: Restoration, sid1: Guid, sid2: Guid, sid3: Guid, sid4: Guid)
    requires r.copy != Aborted && r.unzip != Aborted && (r.create == Aborted ==> r.restore == NotRun)
    ensures var steps := RestoreSteps([], r, sid1, sid2, sid3, sid4);
      var log := RestoreLog([JobStarted(job, TypeName)], job, r, sid1, sid2, sid3, sid4);
      var started := [JobStarted(job, TypeName)] + TraceEvents(job, steps);
      && (r.create != Aborted && r.restore != Aborted ==>
            forall ok :: log + [JobFinished(job, TypeName, ok)] == JobEvents(job, TypeName, steps, ok))
      && (r.create == Aborted ==> log == started + [StepStarted(job, CreateName, sid3)])
      && (r.restore == Aborted ==> log == started + [StepStarted(job, LaunchName, sid4)])
  {
    var pre := [JobStarted(job, TypeName)];
    assert pre == pre + TraceEvents(job, []);
    MarkLogTrace(pre, job, [], CopyName, r.copy, sid1);
    var st1 := MarkStep([], CopyName, r.copy, sid1);
    MarkLogTrace(pre, job, st1, UnzipName, r.unzip, sid2);
    var st2 := MarkStep(st1, UnzipName, r.unzip, sid2);
    if r.create != Aborted {
      MarkLogTrace(pre, job, st2, CreateName, r.create, sid3);
      var st3 := MarkStep(st2, CreateName, r.create, sid3);
      if r.restore != Aborted {
        MarkLogTrace(pre, job, st3, LaunchName, r.restore, sid4);
      }
    }
  }

  /** Collecting the lines of one stream as its data-received handler does: each
      non-null line is appended in arrival order. */
  method CollectLines(lines: seq<Option<string>>) returns (collected: seq<string>)
    ensures collected == Present(lines)
  {
    collected := [];
    var i := 0;
    while i < |lines|
      invariant 0 <= i <= |lines|
      invariant collected == Present(lines[..i])
    {
      assert lines[..i + 1][..i] == lines[..i];
      if lines[i].Some? {
        collected := collected + [lines[i].value];
      }
      i := i + 1;
    }
    assert lines[..|lines|] == lines;
  }

  /** The PostgreSQL client on the server the connection string reaches (`Postgres`). */
  class Postgres {
    /** The names of the server's databases. */
    var databases: set<string>
    /** Which names the server creates a database for, and which calls throw. */
    const server: PgServer

    constructor (databases: set<string>, server: PgServer)
      ensures this.databases == databases && this.server == server
    {
      this.databases := databases;
      this.server := server;
    }

    method CheckDbExists(name: string) returns (o: Attempt<bool>)
      ensures server.fault(CheckExists(name)).Some? ==> o == Threw(server.fault(CheckExists(name)).value)
      ensures server.fault(CheckExists(name)).None? ==> o == Value(name in databases)
    {
      var fault := server.fault(CheckExists(name));
      if fault.Some? {
        return Threw(fault.value);
      }
      o := Value(name in databases);
    }

    /** Dropping removes the database unless the call throws; the message of the
        exception is returned. */
    method DropDb(name: string) returns (thrown: Option<string>)
      modifies this
      ensures thrown == server.fault(Drop(name))
      ensures databases == if thrown.Some? then old(databases) else old(databases) - {name}
    {
      thrown := server.fault(Drop(name));
      if thrown.None? {
        databases := databases - {name};
      }
    }

    /** Creation fails for a name the server refuses or already holds. */
    method CreateDb(name: string) returns (o: Attempt<bool>)
      modifies this
      ensures server.fault(Create(name)).Some? ==>
        o == Threw(server.fault(Create(name)).value) && databases == old(databases)
      ensures server.fault(Create(name)).None? ==>
        && o.Value?
        && (o.value <==> name !in old(databases) && server.accepts(name))
        && databases == if o.value then old(databases) + {name} else old(databases)
    {
      var fault := server.fault(Create(name));
      if fault.Some? {
        return Threw(fault.value);
      }
      var created := name !in databases && server.accepts(name);
      if created {
        databases := databases + {name};
      }
      o := Value(created);
    }
  }

  class RestoreDbHandler {
    const base: BaseHandler
    const fs: FileSystem
    const db: Postgres
    const env: Env

    ghost predicate Valid()
      reads this, base, base.guids
    {
      base.Valid() && base.typeName == TypeName
    }

    constructor (base: BaseHandler, fs: FileSystem, db: Postgres, env: Env)
      requires base.Valid() && base.typeName == TypeName
      ensures Valid() && this.base == base && this.fs == fs && this.db == db && this.env == env
    {
      this.base := base;
      this.fs := fs;
      this.db := db;
      this.env := env;
    }

    /** `if (!Directory.Exists(wd)) Directory.CreateDirectory(wd)`. */
    method EnsureDirectory(wd: string) returns (o: Attempt<Unit>)
      modifies fs
      ensures fs.State() == After(old(fs.State()), EnsureDir(old(fs.State()), wd))
      ensures o == Outcome(EnsureDir(old(fs.State()), wd))
    {
      if fs.DirectoryExists(wd) {
        return Value(Unit);
      }
      o := fs.CreateDirectory(wd);
    }

    /** The body of `CopyFileToWorkingDirectory` after the path check, copying `from`
        to `to`. */
    method CopyInto(wd: string, from: string, to: string) returns (r: Result<string>)
      modifies fs
      ensures (fs.State(), r) == CopyTo(old(fs.State()), wd, from, to)
    {
      var made := EnsureDirectory(wd);
      if made.Threw? {
        return Err([CopyException(made.message)]);
      }
      if !fs.FileExists(from) {
        return Err([SourceNotFound(from)]);
      }
      if fs.FileExists(to) {
        fs.DeleteFile(to);
      }
      var copied := fs.Copy(from, to, false);
      if copied.Threw? {
        return Err([CopyException(copied.message)]);
      }
      if !fs.FileExists(to) {
        return Err([CopiedMissing]);
      }
      r := Ok(to);
    }

    /** `CopyFileToWorkingDirectory(from)`. */
    method CopyFileToWorkingDirectory(from: string) returns (r: Result<string>)
      modifies fs
      ensures (fs.State(), r) == CopyAsWritten(old(fs.State()), env.settings.workingDirectoryPath, from)
    {
      if from == "" {
        return Err([InvalidPath]);
      }
      var wd := env.settings.workingDirectoryPath;
      r := CopyInto(wd, from, WorkingCopy(wd, from));
    }

    /** `UnzipFile(zip)`. */
    method UnzipFile(zip: string) returns (r: Result<string>)
      modifies fs
      ensures (fs.State(), r) == UnzipRun(old(fs.State()), env.settings.workingDirectoryPath, zip, env.unzip)
    {
      var ext := GetExtension(zip);
      if ext == "" {
        return Err([UnzipException(EmptyOldValueText)]);
      }
      var dir := Combine(env.settings.workingDirectoryPath, RemoveAll(GetFileNameWithoutExtension(zip), ext));
      if fs.DirectoryExists(dir) {
        fs.DeleteDirectory(dir);
      }
      var made := fs.CreateDirectory(dir);
      if made.Threw? {
        return Err([UnzipException(made.message)]);
      }
      var unpacked := fs.ExtractToDirectory(zip, dir, env.unzip);
      if unpacked.Threw? {
        return Err([UnzipException(unpacked.message)]);
      }
      if !fs.DirectoryExists(dir) {
        return Err([UnzippedMissing]);
      }
      r := Ok(dir);
    }

    /** `CreatePgDatabase(name)`. */
    method CreatePgDatabase(name: string) returns (r: Call<Unit>)
      modifies db
      ensures (db.databases, r) == CreateDbRun(old(db.databases), db.server, env.settings, name)
    {
      var conn := DbConnection(env.settings);
      if conn.Err? {
        return Returns(Err(conn.errors));
      }
      var held := db.CheckDbExists(name);
      if held.Threw? {
        return Throws(held.message);
      }
      if held.value {
        var thrown := db.DropDb(name);
        if thrown.Some? {
          return Throws(thrown.value);
        }
      } else {
        assert db.databases == old(db.databases) - {name};
      }
      var created := db.CreateDb(name);
      if created.Threw? {
        return Throws(created.message);
      }
      if !created.value {
        return Returns(Err([DbCreationFailed]));
      }
      r := Returns(Ok(Unit));
    }

    /** Starting pg_restore and waiting for it, collecting both output streams. */
    method StartPgRestore(info: StartInfo) returns (o: Call<(seq<string>, seq<string>)>)
      ensures o == RunPgRestore(env.launch, info)
    {
      match env.launch(info)
      case NoProcess =>
        o := Returns(Err([RestoreFailed]));
      case StartThrew(m) =>
        o := Throws(m);
      case Exited(out, err, _) =>
        var output := CollectLines(out);
        var errors := CollectLines(err);
        o := Returns(Ok((output, errors)));
    }

    /** The body of `LaunchPgRestoreProcess` once the connection string is parsed: the
        search for "*.backup" files is the listing of `dir` filtered to backup files. */
    method RestoreFrom(name: string, fields: map<string, string>, bin: string, dir: string) returns (o: Call<(seq<string>, seq<string>)>)
      ensures o == RestoreWith(fs.State(), fs.order, env.launch, name, fields, bin, dir)
    {
      if bin == "" {
        return Returns(Err([BinPathNotFound]));
      }
      var listing := fs.GetFiles(dir);
      if listing.Threw? {
        return Throws(listing.message);
      }
      var backups := Backups(listing.value);
      if backups == [] {
        return Returns(Err([BackupNotFound]));
      }
      o := StartPgRestore(PgRestoreStart(name, fields, bin, backups[0]));
    }

    /** `LaunchPgRestoreProcess(name, dir)`. */
    method LaunchPgRestoreProcess(name: string, dir: string) returns (o: Call<(seq<string>, seq<string>)>)
      ensures o == LaunchRun(fs.State(), fs.order, env.settings, env.parse, env.launch, name, dir)
    {
      var conn := DbConnection(env.settings);
      if conn.Err? {
        return Returns(Err(conn.errors));
      }
      var (section, cs) := conn.value;
      var fields := env.parse(cs);
      if fields.None? {
        return Throws(BadConnectionStringText);
      }
      o := RestoreFrom(name, fields.value, BinFolderPath(section), dir);
    }

    /** `ExecuteWithTrace(() => CopyFileToWorkingDirectory(zip))`, whose action runs
        twice. */
    method CopyStep(zip: string) returns (r: Result<string>, second: Result<string>, sid: Guid)
      requires base.Valid()
      modifies fs, base`events, base`steps, base.guids
      ensures base.Valid() && base.id == old(base.id)
      ensures CopyTwice(old(fs.State()), env.settings.workingDirectoryPath, zip) == (fs.State(), r, second)
      ensures base.steps == old(base.steps) + [Step(CopyName, sid, second.Ok?)]
      ensures base.events == old(base.events) + [StepStarted(base.id, CopyName, sid)] + [StepFinished(base.id, Step(CopyName, sid, second.Ok?))]
    {
      sid := base.StepBegin(CopyName);
      r := CopyFileToWorkingDirectory(zip);
      second := CopyFileToWorkingDirectory(zip);
      base.StepEnd(CopyName, sid, second.Ok?);
    }

    /** `ExecuteWithTrace(() => UnzipFile(copied))`. */
    method UnzipStep(zip: string) returns (r: Result<string>, second: Result<string>, sid: Guid)
      requires base.Valid()
      modifies fs, base`events, base`steps, base.guids
      ensures base.Valid() && base.id == old(base.id)
      ensures UnzipTwice(old(fs.State()), env.settings.workingDirectoryPath, zip, env.unzip) == (fs.State(), r, second)
      ensures base.steps == old(base.steps) + [Step(UnzipName, sid, second.Ok?)]
      ensures base.events == old(base.events) + [StepStarted(base.id, UnzipName, sid)] + [StepFinished(base.id, Step(UnzipName, sid, second.Ok?))]
    {
      sid := base.StepBegin(UnzipName);
      r := UnzipFile(zip);
      second := UnzipFile(zip);
      base.StepEnd(UnzipName, sid, second.Ok?);
    }

    /** `ExecuteWithTrace(() => CreatePgDatabase(name))`: `ending` is the exception of
        the first invocation, which leaves the step with its Started event only, or else
        the second invocation's outcome. */
    method CreateStep(name: string) returns (r: Call<Unit>, ending: Call<Unit>, sid: Guid)
      requires base.Valid()
      modifies db, base`events, base`steps, base.guids
      ensures base.Valid() && base.id == old(base.id)
      ensures CreateTwice(old(db.databases), db.server, env.settings, name) == (db.databases, r, ending)
      ensures ending.Throws? ==> base.steps == old(base.steps) && base.events == old(base.events) + [StepStarted(base.id, CreateName, sid)]
      ensures ending.Returns? ==>
        && base.steps == old(base.steps) + [Step(CreateName, sid, ending.result.Ok?)]
        && base.events == old(base.events) + [StepStarted(base.id, CreateName, sid)] + [StepFinished(base.id, Step(CreateName, sid, ending.result.Ok?))]
    {
      sid := base.StepBegin(CreateName);
      r := CreatePgDatabase(name);
      if r.Throws? {
        ending := r;
        return;
      }
      ending := CreatePgDatabase(name);
      if ending.Throws? {
        return;
      }
      base.StepEnd(CreateName, sid, ending.result.Ok?);
    }

    /** `ExecuteWithTrace(() => LaunchPgRestoreProcess(name, dir))`: an exception from
        the first invocation leaves the step with its Started event only. The second
        invocation sees the same files and settings, so it returns what the first did. */
    method LaunchStep(name: string, dir: string) returns (o: Call<(seq<string>, seq<string>)>, sid: Guid)
      requires base.Valid()
      modifies base`events, base`steps, base.guids
      ensures base.Valid() && base.id == old(base.id)
      ensures o == LaunchRun(fs.State(), fs.order, env.settings, env.parse, env.launch, name, dir)
      ensures o.Throws? ==> base.steps == old(base.steps) && base.events == old(base.events) + [StepStarted(base.id, LaunchName, sid)]
      ensures o.Returns? ==>
        && base.steps == old(base.steps) + [Step(LaunchName, sid, o.result.Ok?)]
        && base.events == old(base.events) + [StepStarted(base.id, LaunchName, sid)] + [StepFinished(base.id, Step(LaunchName, sid, o.result.Ok?))]
    {
      sid := base.StepBegin(LaunchName);
      o := LaunchPgRestoreProcess(name, dir);
      if o.Throws? {
        return;
      }
      var again := LaunchPgRestoreProcess(name, dir);
      base.StepEnd(LaunchName, sid, again.result.Ok?);
    }

    /** The two file steps, the second only when the first invocation of the copy
        succeeded. */
    method Prepare(zip: string) returns (dir: Result<string>, ghost p: Prepared, ghost sid1: Guid, ghost sid2: Guid)
      requires base.Valid()
      modifies fs, base`events, base`steps, base.guids
      ensures base.Valid() && base.id == old(base.id)
      ensures p == PrepareRun(old(fs.State()), env.settings.workingDirectoryPath, zip, env.unzip)
      ensures fs.State() == p.state && dir == p.result
      ensures base.steps == MarkStep(MarkStep(old(base.steps), CopyName, p.copy, sid1), UnzipName, p.unzip, sid2)
      ensures base.events == MarkLog(MarkLog(old(base.events), base.id, CopyName, p.copy, sid1), base.id, UnzipName, p.unzip, sid2)
    {
      var copied, again, s1 := CopyStep(zip);
      sid1, sid2 := s1, s1;
      if copied.Err? {
        dir := Err(copied.errors);
        p := Prepared(fs.State(), dir, Done(again.Ok?), NotRun);
        return;
      }
      var unzipped, second, s2 := UnzipStep(copied.value);
      sid2 := s2;
      dir := unzipped;
      p := Prepared(fs.State(), dir, Done(again.Ok?), Done(second.Ok?));
    }

    /** The two database steps, the second only when the first invocation of the
        creation succeeded. */
    method Provision(name: string, dir: string) returns (run: Run, ghost q: Provisioned, ghost sid3: Guid, ghost sid4: Guid)
      requires base.Valid()
      modifies db, base`events, base`steps, base.guids
      ensures base.Valid() && base.id == old(base.id)
      ensures q == ProvisionRun(fs.State(), fs.order, old(db.databases), db.server, env, name, dir)
      ensures db.databases == q.databases && run == q.outcome
      ensures base.steps == MarkStep(MarkStep(old(base.steps), CreateName, q.create, sid3), LaunchName, q.restore, sid4)
      ensures base.events == MarkLog(MarkLog(old(base.events), base.id, CreateName, q.create, sid3), base.id, LaunchName, q.restore, sid4)
    {
      var created, ending, s3 := CreateStep(name);
      sid3, sid4 := s3, s3;
      if ending.Throws? {
        run := Escaped(ending.message);
        q := Provisioned(db.databases, run, Aborted, NotRun);
        return;
      }
      if created.result.Err? {
        run := Returned(Err(created.result.errors));
        q := Provisioned(db.databases, run, Done(ending.result.Ok?), NotRun);
        return;
      }
      var o, s4 := LaunchStep(name, dir);
      sid4 := s4;
      match o
      case Throws(m) =>
        run := Escaped(m);
        q := Provisioned(db.databases, run, Done(ending.result.Ok?), Aborted);
      case Returns(l) =>
        run := Returned(if l.Ok? then Ok(Unit) else Err(l.errors));
        q := Provisioned(db.databases, run, Done(ending.result.Ok?), Done(l.Ok?));
    }

    /** `InternalExecute(cmd)`. `r` is what the job comes to and `sid1` to `sid4` are the
        ids of its steps. */
    method InternalExecute(cmd: CommandObj) returns (run: Run, ghost r: Restoration, ghost sid1: Guid, ghost sid2: Guid, ghost sid3: Guid, ghost sid4: Guid)
      requires Valid()
      modifies fs, db, base`events, base`steps, base.guids
      ensures Valid() && base.id == old(base.id)
      ensures r == RestoreRun(old(fs.State()), fs.order, old(db.databases), db.server, env, cmd)
      ensures fs.State() == r.state && db.databases == r.databases && run == r.outcome
      ensures base.steps == RestoreSteps(old(base.steps), r, sid1, sid2, sid3, sid4)
      ensures base.events == RestoreLog(old(base.events), base.id, r, sid1, sid2, sid3, sid4)
    {
      sid1, sid2, sid3, sid4 := EmptyGuid, EmptyGuid, EmptyGuid, EmptyGuid;
      var zip := Arg(cmd, ZipKey);
      if zip == "" {
        run := Returned(Err([ZipPathIsNull]));
        r := Restoration(fs.State(), db.databases, run, NotRun, NotRun, NotRun, NotRun);
        return;
      }
      var name := Arg(cmd, NameKey);
      if name == "" {
        run := Returned(Err([NameIsNull]));
        r := Restoration(fs.State(), db.databases, run, NotRun, NotRun, NotRun, NotRun);
        return;
      }
      var dir;
      ghost var p, s1, s2;
      dir, p, s1, s2 := Prepare(zip);
      sid1, sid2 := s1, s2;
      if dir.Err? {
        run := Returned(Err(dir.errors));
        r := Restoration(fs.State(), db.databases, run, p.copy, p.unzip, NotRun, NotRun);
        return;
      }
      ghost var q, s3, s4;
      run, q, s3, s4 := Provision(name, dir.value);
      sid3, sid4 := s3, s4;
      r := Restoration(fs.State(), db.databases, run, p.copy, p.unzip, q.create, q.restore);
    }

    /** `Execute(cmd)`: the job's Started event, the internal execution, and the job's
        terminal event unless an exception escaped. */
    method Execute(cmd: CommandObj) returns (run: Run, ghost r: Restoration, ghost sid1: Guid, ghost sid2: Guid, ghost sid3: Guid, ghost sid4: Guid)
      requires Valid()
      modifies fs, db, base`events, base`steps, base.guids
      ensures Valid() && base.id == old(base.id)
      ensures r == RestoreRun(old(fs.State()), fs.order, old(db.databases), db.server, env, cmd)
      ensures fs.State() == r.state && db.databases == r.databases && run == r.outcome
      ensures base.steps == RestoreSteps(old(base.steps), r, sid1, sid2, sid3, sid4)
      ensures base.events == RestoreLog(old(base.events) + [JobStarted(base.id, TypeName)], base.id, r, sid1, sid2, sid3, sid4)
        + (if run.Returned? then [JobFinished(base.id, TypeName, run.result.Ok?)] else [])
    {
      base.JobBegin();
      ghost var started := base.events;
      run, r, sid1, sid2, sid3, sid4 := InternalExecute(cmd);
      ghost var traced := base.events;
      assert traced == RestoreLog(started, base.id, r, sid1, sid2, sid3, sid4);
      if run.Returned? {
        var result := base.JobEnd(run.result);
      }
    }
  }
}
