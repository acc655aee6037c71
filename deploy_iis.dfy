/** `DeployIISHandler`: copies an unzipped site into `<SiteFolderPath>\<SiteName>`,
    skipping ".backup" files, then has a `ConnectionStringsFileHandler` rewrite the
    copied ConnectionStrings.config with fixed local values. Both steps run through
    `ExecuteWithTrace`, which invokes each action twice. */
module DeployIis {
  import opened Common
  import opened Text
  import opened Paths
  import opened Files
  import opened Base
  import opened Annotations
  import CS = ConnectionStrings

  const TypeName: string := "DeployIISHandler"
  const ArgsType: string := "DeploySiteHandlerArgs"
  const TraceName: string := "InternalExecute"
  const CopyCode: string := "CopyFile.Exception"
  const MinPort: int := 1025
  const MaxPort: int := 65535

  const LocalDb: string :=
    "Server=127.0.0.1;Port=5434;" + "Database=semse_net472;User ID=postgres;" + "password=Supervisor;Timeout=500;"
    + " CommandTimeout=400;MaxPoolSize=1024;"
  const LocalRedis: string := "host=127.0.0.1;db=67;port=6379"

  /** `DeploySiteHandlerArgs`. */
  datatype Args = Args(unzippedFolderPath: string, siteFolderPath: string, siteName: string, sitePort: int)

  function RequiredMessage(member: string): string {
    "Value for " + DisplayName(ArgsType, member) + " is required, and cannot be empty"
  }

  function RangeMessage(member: string): string {
    "Value for " + DisplayName(ArgsType, member) + " must be between 1025 and 65535"
  }

  /** The record `GetArgsFromCommandObj` builds: absent strings read as "", and a port
      that `int.TryParse` rejects reads as 0. */
  function ArgsRecord(cmd: CommandObj): (a: Args)
    ensures a.unzippedFolderPath == Arg(cmd, "UnzippedFolderPath")
    ensures a.siteFolderPath == Arg(cmd, "SiteFolderPath") && a.siteName == Arg(cmd, "SiteName")
    ensures ParseInt32(Arg(cmd, "SitePort")).Some? ==> a.sitePort == ParseInt32(Arg(cmd, "SitePort")).value
    ensures ParseInt32(Arg(cmd, "SitePort")).None? ==> a.sitePort == 0
  {
    var port := ParseInt32(Arg(cmd, "SitePort"));
    Args(Arg(cmd, "UnzippedFolderPath"), Arg(cmd, "SiteFolderPath"), Arg(cmd, "SiteName"),
      if port.Some? then port.value else 0)
  }

  /** The validator's failures, in the order the record declares its properties. */
  function Failures(a: Args): seq<string> {
    Check(RequiredHolds(a.siteFolderPath), "SiteFolderPath", RequiredMessage("SiteFolderPath"))
    + Check(RequiredHolds(a.siteName), "SiteName", RequiredMessage("SiteName"))
    + Check(RangeHolds(a.sitePort, MinPort, MaxPort), "SitePort", RangeMessage("SitePort"))
    + Check(RequiredHolds(a.unzippedFolderPath), "UnzippedFolderPath", RequiredMessage("UnzippedFolderPath"))
  }

  predicate ArgsValid(a: Args) {
    && RequiredHolds(a.siteFolderPath) && RequiredHolds(a.siteName)
    && RangeHolds(a.sitePort, MinPort, MaxPort) && RequiredHolds(a.unzippedFolderPath)
  }

  /** `GetArgsFromCommandObj`: the record when every rule holds, otherwise one Validation
      error per broken rule. */
  function GetArgsFromCommandObj(cmd: CommandObj): (r: Result<Args>)
    ensures r.Ok? <==> ArgsValid(ArgsRecord(cmd))
    ensures r.Ok? ==> r.value == ArgsRecord(cmd)
    ensures r.Err? ==> r.errors == ToErrors(Failures(ArgsRecord(cmd))) && 1 <= |r.errors| <= 4
  {
    var failures := Failures(ArgsRecord(cmd));
    if failures == [] then Ok(ArgsRecord(cmd)) else Err(ToErrors(failures))
  }

  /** A port outside 1025..65535 is refused with exactly one failure, the port's, when the
      other three values are present. */
  lemma PortOutOfRange(a: Args)
    requires RequiredHolds(a.siteFolderPath) && RequiredHolds(a.siteName) && RequiredHolds(a.unzippedFolderPath)
    ensures ArgsValid(a) <==> MinPort <= a.sitePort <= MaxPort
    ensures !ArgsValid(a) ==> Failures(a) == [Annotations.Failure("SitePort", RangeMessage("SitePort"))]
  {
  }

  /** A port written as a number is read back as that number, and accepted exactly when
      it lies in 1025..65535, both bounds included. */
  lemma PortAccepted(p: int)
    requires MinInt32 <= p <= MaxInt32
    ensures ArgsRecord(map["SitePort" := IntString(p)]).sitePort == p
    ensures RangeHolds(ArgsRecord(map["SitePort" := IntString(p)]).sitePort, MinPort, MaxPort) <==> 1025 <= p <= 65535
  {
    IntStringParses(p);
  }

  /** A port that is not a number reads as 0, which the range rule refuses. */
  lemma UnparsedPortRefused(cmd: CommandObj)
    requires ParseInt32(Arg(cmd, "SitePort")).None?
    ensures GetArgsFromCommandObj(cmd).Err?
  {
  }

  /** An empty command object fails all four rules. */
  lemma EmptyCommandRejected()
    ensures |GetArgsFromCommandObj(map[]).errors| == 4
  {
    assert ParseInt32("") == None by {
      assert TrimNumberWhite(TrimTrailingNuls("")) == "";
    }
  }

  /** `Path.Combine(SiteFolderPath, SiteName)`: the site's directory. */
  function SiteDir(a: Args): string {
    Combine(a.siteFolderPath, a.siteName)
  }

  /** `Path.GetRelativePath(from, f)` for a file the listing of `from` returned. A path
      outside `from` never occurs there, and is kept whole. */
  function RelativePath(f: string, from: string): (r: string)
    ensures IsUnder(f, from) ==> DirPrefix(from) + r == f
  {
    if IsUnder(f, from) then Relative(f, from) else f
  }

  /** Where file `f`, found below `from`, is copied below `to`: at the same relative path. */
  function DestFile(f: string, from: string, to: string): (r: string)
    ensures IsUnder(f, from) ==> IsUnder(r, to)
  {
    DirPrefix(to) + RelativePath(f, from)
  }

  /** The directory `DestFile` lands in, which is created when it does not exist. */
  function DestDir(f: string, from: string, to: string): string {
    var rel := RelativePath(f, from);
    var k := NameStart(rel);
    if k == 0 then to else DirPrefix(to) + rel[..k - 1]
  }

  lemma DestFileInjective(f: string, g: string, from: string, to: string)
    requires IsUnder(f, from) && IsUnder(g, from)
    requires DestFile(f, from, to) == DestFile(g, from, to)
    ensures f == g
  {
    var pre := DirPrefix(to);
    assert RelativePath(f, from) == DestFile(f, from, to)[|pre|..];
    assert RelativePath(g, from) == DestFile(g, from, to)[|pre|..];
    RelativeInjective(f, g, from);
  }

  function MissingDirText(from: string): string {
    "Directory " + from + " does not exist"
  }

  function CopyFailedText(m: string): string {
    "CopyFiles failed with " + m
  }

  /** Where a run of copies got to: the state reached, and the message of the exception
      that stopped it, if one did. */
  datatype Progress = Progress(state: FsState, fault: Option<string>)

  /** One iteration of the copy loop. A directory it created stays when the copy
      after it throws. */
  function CopyOne(s: FsState, from: string, to: string, f: string): Progress
  {
    if IsBackup(f) then Progress(s, None)
    else
      match if DestDir(f, from, to) in s.dirs then Value(s) else MkDir(s, DestDir(f, from, to))
      case Threw(m) => Progress(s, Some(m))
      case Value(s1) =>
        match CopyFile(s1, f, DestFile(f, from, to), true)
        case Threw(m) => Progress(s1, Some(m))
        case Value(s2) => Progress(s2, None)
  }

  /** The copy loop over a listing, stopping at the first exception. */
  function CopyAll(s: FsState, from: string, to: string, xs: seq<string>): Progress
    decreases |xs|
  {
    if xs == [] then Progress(s, None)
    else
      var p := CopyOne(s, from, to, xs[0]);
      if p.fault.Some? then p else CopyAll(p.state, from, to, xs[1..])
  }

  /** No file of the listing is the destination of a copied one. */
  ghost predicate NoClash(s: FsState, from: string, to: string, xs: seq<string>)
  {
    && (forall f :: f in xs ==> f in s.files)
    && forall f, g :: f in xs && g in xs && !IsBackup(g) ==> DestFile(g, from, to) != f
  }

  /** One successful iteration: a backup is skipped; any other file is copied over its
      destination, whose directory now exists, and only that destination changes. */
  lemma CopyOneFacts(s: FsState, from: string, to: string, x: string)
    requires CopyOne(s, from, to, x).fault.None?
    ensures var t := CopyOne(s, from, to, x).state;
      && (IsBackup(x) ==> t == s)
      && (!IsBackup(x) ==>
            && x in s.files && t.files == s.files[DestFile(x, from, to) := s.files[x]]
            && t.dirs == s.dirs + {DestDir(x, from, to)} && DestFile(x, from, to) !in t.dirs
            && (DestDir(x, from, to) !in s.dirs ==> DestDir(x, from, to) !in s.files))
  {
  }

  /** A finished copy loop only adds files and directories, and makes no path both. */
  lemma {:induction false} CopyAllGrows(s: FsState, from: string, to: string, xs: seq<string>)
    requires CopyAll(s, from, to, xs).fault.None?
    ensures var t := CopyAll(s, from, to, xs).state;
      && (forall p :: p in s.files ==> p in t.files)
      && s.dirs <= t.dirs
      && (forall p :: p in t.dirs && p in t.files ==> p in s.dirs && p in s.files)
    decreases |xs|
  {
    if xs != [] {
      CopyOneFacts(s, from, to, xs[0]);
      var s1 := CopyOne(s, from, to, xs[0]).state;
      assert forall f :: f in xs[1..] ==> f in xs;
      CopyAllGrows(s1, from, to, xs[1..]);
    }
  }

  /** A finished copy loop changes no file and adds no directory other than the
      destinations of the non-backup files it lists. */
  lemma {:induction false} CopyAllOthers(s: FsState, from: string, to: string, xs: seq<string>)
    requires CopyAll(s, from, to, xs).fault.None?
    ensures var t := CopyAll(s, from, to, xs).state;
      && (forall p :: p in t.files && (forall f :: f in xs && !IsBackup(f) ==> p != DestFile(f, from, to)) ==>
            p in s.files && t.files[p] == s.files[p])
      && (forall d :: d in t.dirs && (forall f :: f in xs && !IsBackup(f) ==> d != DestDir(f, from, to)) ==> d in s.dirs)
    decreases |xs|
  {
    if xs != [] {
      CopyOneFacts(s, from, to, xs[0]);
      var s1 := CopyOne(s, from, to, xs[0]).state;
      assert forall f :: f in xs[1..] ==> f in xs;
      CopyAllOthers(s1, from, to, xs[1..]);
    }
  }

  /** A file and a directory that no iteration of a finished copy loop writes are still
      there after it, the file with its content and still not a directory. */
  lemma LandsAfter(s: FsState, from: string, to: string, xs: seq<string>, p: string, d: string)
    requires CopyAll(s, from, to, xs).fault.None?
    requires p in s.files && p !in s.dirs && d in s.dirs
    requires forall g :: g in xs && !IsBackup(g) ==> p != DestFile(g, from, to)
    ensures var t := CopyAll(s, from, to, xs).state;
      p in t.files && t.files[p] == s.files[p] && d in t.dirs && p !in t.dirs
  {
    CopyAllGrows(s, from, to, xs);
    CopyAllOthers(s, from, to, xs);
  }

  /** The first iteration of a copy loop without clashes keeps the rest of the listing
      free of clashes, with its contents. */
  lemma CopyOneKeepsRest(s: FsState, from: string, to: string, xs: seq<string>)
    requires xs != [] && NoClash(s, from, to, xs)
    requires CopyOne(s, from, to, xs[0]).fault.None?
    ensures var s1 := CopyOne(s, from, to, xs[0]).state;
      && NoClash(s1, from, to, xs[1..])
      && forall f :: f in xs[1..] ==> s1.files[f] == s.files[f]
  {
    CopyOneFacts(s, from, to, xs[0]);
    assert forall f :: f in xs[1..] ==> f in xs;
  }

  /** A finished copy loop leaves every non-backup file it lists at its destination,
      with its original content, in a directory that exists. */
  lemma {:induction false} CopyAllLands(s: FsState, from: string, to: string, xs: seq<string>)
    requires forall f :: f in xs ==> IsUnder(f, from)
    requires NoClash(s, from, to, xs)
    requires CopyAll(s, from, to, xs).fault.None?
    ensures var t := CopyAll(s, from, to, xs).state;
      forall f :: f in xs && !IsBackup(f) ==>
        && DestFile(f, from, to) in t.files && t.files[DestFile(f, from, to)] == s.files[f]
        && DestDir(f, from, to) in t.dirs && DestFile(f, from, to) !in t.dirs
    decreases |xs|
  {
    if xs != [] {
      var x, rest := xs[0], xs[1..];
      var s1 := CopyOne(s, from, to, x).state;
      CopyOneKeepsRest(s, from, to, xs);
      assert forall f :: f in rest ==> f in xs;
      CopyAllLands(s1, from, to, rest);
      var t := CopyAll(s1, from, to, rest).state;
      if !IsBackup(x) && x !in rest {
        CopyOneFacts(s, from, to, x);
        var dx := DestFile(x, from, to);
        forall g | g in rest && !IsBackup(g) ensures dx != DestFile(g, from, to) {
          if dx == DestFile(g, from, to) {
            DestFileInjective(g, x, from, to);
          }
        }
        LandsAfter(s1, from, to, rest, dx, DestDir(x, from, to));
      }
      forall f | f in xs && !IsBackup(f)
        ensures && DestFile(f, from, to) in t.files && t.files[DestFile(f, from, to)] == s.files[f]
                && DestDir(f, from, to) in t.dirs && DestFile(f, from, to) !in t.dirs
      {
        if f !in rest {
          assert f == x;
        }
      }
    }
  }

  /** Copying again over a finished copy changes nothing. */
  lemma {:induction false} CopyAllFixpoint(t: FsState, from: string, to: string, ys: seq<string>)
    requires forall f :: f in ys && !IsBackup(f) ==>
      && f in t.files && DestDir(f, from, to) in t.dirs && DestFile(f, from, to) !in t.dirs
      && DestFile(f, from, to) in t.files && t.files[DestFile(f, from, to)] == t.files[f]
    ensures CopyAll(t, from, to, ys) == Progress(t, None)
    decreases |ys|
  {
    if ys != [] {
      var y := ys[0];
      if !IsBackup(y) {
        assert t.files[DestFile(y, from, to) := t.files[y]] == t.files;
      }
      assert forall f :: f in ys[1..] ==> f in ys;
      CopyAllFixpoint(t, from, to, ys[1..]);
    }
  }

  /** `CopyFiles(args)` on a state, given the order in which `GetFiles` lists the
      unzipped files; it returns the site directory. */
  function CopyFilesRun(s: FsState, a: Args, xs: seq<string>): (r: (FsState, Result<string>))
    ensures r.1.Ok? ==> r.1.value == SiteDir(a)
  {
    var from, to := a.unzippedFolderPath, SiteDir(a);
    if from !in s.dirs then (s, Err([Fail("", MissingDirText(from))]))
    else
      match EnsureDir(s, to)
      case Threw(m) => (s, Err([Fail(CopyCode, m)]))
      case Value(s1) =>
        var p := CopyAll(s1, from, to, xs);
        if p.fault.Some? then (p.state, Err([Fail(CopyCode, p.fault.value)])) else (p.state, Ok(to))
  }

  /** The unzipped files in the order `GetFiles` lists them on state `s`. */
  function Unzipped(s: FsState, order: Lister, a: Args): seq<string> {
    Listing(s, order, a.unzippedFolderPath)
  }

  /** The event the catch block raises, for the result of one `CopyFiles`. */
  function CatchEvents(job: Guid, r: Result<string>): seq<JobEvent> {
    if r.Err? && |r.errors| == 1 && r.errors[0].code == CopyCode
    then [JobEvent(job, Failed, CopyFailedText(r.errors[0].description), EmptyGuid)]
    else []
  }

  /** A successful `CopyFiles` found the unzipped folder, had the site directory, and ran
      the copy loop to its end. */
  lemma CopyFilesRunOk(s: FsState, a: Args, xs: seq<string>)
    requires CopyFilesRun(s, a, xs).1.Ok?
    ensures a.unzippedFolderPath in s.dirs && EnsureDir(s, SiteDir(a)).Value?
    ensures var p := CopyAll(EnsureDir(s, SiteDir(a)).value, a.unzippedFolderPath, SiteDir(a), xs);
      p.fault.None? && CopyFilesRun(s, a, xs) == (p.state, Ok(SiteDir(a)))
  {
  }

  /** A copy that reaches the end yields the site directory, holding every unzipped file
      that is not a backup under its relative path, with its content; a backup file's
      destination is not created. */
  lemma CopyFilesLands(s: FsState, a: Args, xs: seq<string>)
    requires forall f :: f in xs ==> IsUnder(f, a.unzippedFolderPath)
    requires NoClash(s, a.unzippedFolderPath, SiteDir(a), xs)
    requires CopyFilesRun(s, a, xs).1.Ok?
    ensures CopyFilesRun(s, a, xs).1.value == SiteDir(a) && SiteDir(a) in CopyFilesRun(s, a, xs).0.dirs
    ensures forall f :: f in xs && !IsBackup(f) ==>
      var d := DestFile(f, a.unzippedFolderPath, SiteDir(a));
      d in CopyFilesRun(s, a, xs).0.files && CopyFilesRun(s, a, xs).0.files[d] == s.files[f]
    ensures forall f :: f in xs && IsBackup(f) && DestFile(f, a.unzippedFolderPath, SiteDir(a)) !in s.files ==>
      DestFile(f, a.unzippedFolderPath, SiteDir(a)) !in CopyFilesRun(s, a, xs).0.files
  {
    var from, to := a.unzippedFolderPath, SiteDir(a);
    CopyFilesRunOk(s, a, xs);
    var s1 := EnsureDir(s, to).value;
    var t := CopyAll(s1, from, to, xs).state;
    assert NoClash(s1, from, to, xs);
    CopyAllLands(s1, from, to, xs);
    CopyAllGrows(s1, from, to, xs);
    CopyAllOthers(s1, from, to, xs);
    forall f | f in xs && IsBackup(f) && DestFile(f, from, to) !in s.files
      ensures DestFile(f, from, to) !in t.files
    {
      forall g | g in xs && !IsBackup(g) ensures DestFile(f, from, to) != DestFile(g, from, to) {
        if DestFile(f, from, to) == DestFile(g, from, to) {
          DestFileInjective(f, g, from, to);
        }
      }
    }
  }

  /** The second invocation `ExecuteWithTrace` makes repeats a successful copy without
      changing anything, as long as it lists no file the first did not. */
  lemma CopyFilesTwice(s: FsState, a: Args, xs: seq<string>, ys: seq<string>)
    requires forall f :: f in xs ==> IsUnder(f, a.unzippedFolderPath)
    requires NoClash(s, a.unzippedFolderPath, SiteDir(a), xs)
    requires CopyFilesRun(s, a, xs).1.Ok?
    requires forall f :: f in ys ==> f in xs
    ensures forall f :: f in ys ==> IsUnder(f, a.unzippedFolderPath)
    ensures CopyFilesRun(CopyFilesRun(s, a, xs).0, a, ys) == CopyFilesRun(s, a, xs)
  {
    var from, to := a.unzippedFolderPath, SiteDir(a);
    CopyFilesRunOk(s, a, xs);
    var s1 := EnsureDir(s, to).value;
    var t := CopyAll(s1, from, to, xs).state;
    assert NoClash(s1, from, to, xs);
    CopyAllLands(s1, from, to, xs);
    CopyAllGrows(s1, from, to, xs);
    CopyAllOthers(s1, from, to, xs);
    forall f | f in ys && !IsBackup(f) ensures f in t.files && t.files[f] == s1.files[f] {
      forall g | g in xs && !IsBackup(g) ensures f != DestFile(g, from, to) {
      }
    }
    CopyAllFixpoint(t, from, to, ys);
    assert from in t.dirs && EnsureDir(t, to) == Value(t);
  }

  /** A missing unzipped folder is reported without touching the file system. */
  lemma MissingSourceReported(s: FsState, a: Args, xs: seq<string>)
    requires a.unzippedFolderPath !in s.dirs
    ensures CopyFilesRun(s, a, xs) == (s, Err([Fail("", MissingDirText(a.unzippedFolderPath))]))
    ensures CatchEvents(0, CopyFilesRun(s, a, xs).1) == []
  {
  }

  /** The command object `AdjustConnectionStringsFile` passes to the connection strings
      handler, with the database and Redis connection strings `db` and `redis`. */
  function AdjustCommand(dir: string, db: string, redis: string): CommandObj {
    map["FolderPath" := dir, "DbConnectionString" := db, "RedisConnectionString" := redis,
        "IsNetFramework" := BoolString(true)]
  }

  /** A path that ends in a non-blank name is not blank. */
  lemma NotBlankSuffix(r: string, b: string)
    requires EndsWith(r, b) && !IsNullOrWhiteSpace(b)
    ensures !IsNullOrWhiteSpace(r)
  {
    var i :| 0 <= i < |b| && !IsWhiteSpace(b[i]);
    assert r[|r| - |b| + i] == b[i];
  }

  lemma LocalValuesPresent()
    ensures RequiredHolds(LocalDb) && RequiredHolds(LocalRedis)
  {
    assert LocalDb[0] == 'S' && LocalRedis[0] == 'h';
  }

  /** The nested handler accepts the command object for any non-blank directory and
      connection strings, and treats the site as a .NET Framework one. */
  lemma AdjustCommandAccepted(dir: string, db: string, redis: string)
    requires !IsNullOrWhiteSpace(dir) && RequiredHolds(db) && RequiredHolds(redis)
    ensures CS.GetArgsFromCommandObj(AdjustCommand(dir, db, redis)) == Ok(CS.Args(db, dir, true, redis))
  {
    BoolStringParses(true);
    var cmd := AdjustCommand(dir, db, redis);
    assert Arg(cmd, "FolderPath") == dir;
    assert Arg(cmd, "DbConnectionString") == db;
    assert Arg(cmd, "RedisConnectionString") == redis;
    assert Arg(cmd, "IsNetFramework") == BoolString(true);
  }

  /** The site directory of validated arguments is never blank, so the nested handler
      never throws on its arguments. */
  lemma AdjustArgsAccepted(a: Args)
    requires ArgsValid(a)
    ensures CS.GetArgsFromCommandObj(AdjustCommand(SiteDir(a), LocalDb, LocalRedis)) == Ok(CS.Args(LocalDb, SiteDir(a), true, LocalRedis))
  {
    NotBlankSuffix(SiteDir(a), a.siteName);
    LocalValuesPresent();
    AdjustCommandAccepted(SiteDir(a), LocalDb, LocalRedis);
  }

  /** The traced copy step: `CopyFiles` invoked twice, on the listings `xs1` and `xs2`.
      The state after both, the first result, and the second result, which sets the
      step's outcome. */
  function CopyTwice(s: FsState, order: Lister, a: Args): (FsState, Result<string>, Result<string>)
  {
    var (s1, r1) := CopyFilesRun(s, a, Unzipped(s, order, a));
    var (s2, r2) := CopyFilesRun(s1, a, Unzipped(s1, order, a));
    (s2, r1, r2)
  }

  /** A first copy that succeeds yields the site directory. */
  lemma CopyTwiceSite(s: FsState, order: Lister, a: Args)
    ensures CopyTwice(s, order, a).1.Ok? ==> CopyTwice(s, order, a).1.value == SiteDir(a)
  {
  }

  /** The traced adjusting step: the nested connection strings handler invoked twice on
      site directory `dir`, which it takes for a .NET Framework site. The state after
      both, and both results. */
  function AdjustRun(s: FsState, codec: CS.XmlCodec, dir: string, db: string, redis: string): (FsState, Result<Unit>, Result<Unit>)
  {
    var cs := CS.Args(db, dir, true, redis);
    var (s1, c1) := CS.Handle(s, codec, cs);
    var (s2, c2) := CS.Handle(s1, codec, cs);
    (s2, c1, c2)
  }

  /** What a deployment with valid arguments comes to: the final state, the result
      `InternalExecute` returns, both invocations of `CopyFiles`, and the outcome of the
      second invocation of the adjusting step when that step ran. */
  datatype Deployment = Deployment(state: FsState, result: Result<Unit>, first: Result<string>,
                                   second: Result<string>, adjusted: Option<bool>)

  /** `InternalExecute` once the arguments are valid, on a file system state: two copies,
      and, when the first succeeded, two rewrites of the copied ConnectionStrings.config.
      The result is the first invocation's of each step. */
  function DeployRun(s: FsState, order: Lister, codec: CS.XmlCodec, a: Args, db: string, redis: string): Deployment
  {
    var (s2, r1, r2) := CopyTwice(s, order, a);
    if r1.Err? then Deployment(s2, Err(r1.errors), r1, r2, None)
    else
      var (s4, c1, c2) := AdjustRun(s2, codec, r1.value, db, redis);
      Deployment(s4, c1, r1, r2, Some(c2.Ok?))
  }

  /** When the site directory and the unzipped folder are apart, a successful copy of
      a listed folder clashes with nothing and puts nothing below the unzipped folder, so
      the second invocation lists the same files. */
  lemma CopyKeepsUnzipped(s: FsState, order: Lister, a: Args)
    requires Enumerates(order) && Apart(a.unzippedFolderPath, SiteDir(a))
    requires CopyFilesRun(s, a, Unzipped(s, order, a)).1.Ok?
    ensures var xs := Unzipped(s, order, a);
      && (forall f :: f in xs ==> IsUnder(f, a.unzippedFolderPath))
      && NoClash(s, a.unzippedFolderPath, SiteDir(a), xs)
      && Unzipped(CopyFilesRun(s, a, xs).0, order, a) == xs
  {
    var from, to, xs := a.unzippedFolderPath, SiteDir(a), Unzipped(s, order, a);
    ListingFacts(s, order, from);
    forall f, g | f in xs && g in xs && !IsBackup(g) ensures DestFile(g, from, to) != f {
      ApartNotUnder(DestFile(g, from, to), from, to);
    }
    CopyFilesRunOk(s, a, xs);
    var s1 := EnsureDir(s, to).value;
    var t := CopyAll(s1, from, to, xs).state;
    CopyAllGrows(s1, from, to, xs);
    CopyAllOthers(s1, from, to, xs);
    forall p | p in t.files && IsUnder(p, from) ensures p in s.files {
      forall g | g in xs && !IsBackup(g) ensures p != DestFile(g, from, to) {
        ApartNotUnder(DestFile(g, from, to), from, to);
      }
    }
    assert FilesUnder(t, from) == FilesUnder(s, from);
  }

  /** A successful deployment with a round-tripping XML writer, onto a site directory
      apart from the unzipped folder, leaves the site as one copy followed by one rewrite
      would: the repeated invocations change nothing. */
  lemma DeployRunOnce(s: FsState, order: Lister, codec: CS.XmlCodec, a: Args, db: string, redis: string)
    requires Enumerates(order) && Apart(a.unzippedFolderPath, SiteDir(a))
    requires CopyFilesRun(s, a, Unzipped(s, order, a)).1.Ok?
    requires forall e :: codec.parse(codec.render(e)) == Value(e)
    ensures var s1 := CopyFilesRun(s, a, Unzipped(s, order, a)).0;
      var cn := Join(SiteDir(a), CS.ConnectionStringsFileName);
      var once := CS.ConfigureFile(s1, codec, cn, db, redis);
      DeployRun(s, order, codec, a, db, redis).state == once.0 && DeployRun(s, order, codec, a, db, redis).result == once.1
  {
    var xs := Unzipped(s, order, a);
    CopyKeepsUnzipped(s, order, a);
    CopyFilesTwice(s, a, xs, xs);
    CopyFilesLands(s, a, xs);
    var s1 := CopyFilesRun(s, a, xs).0;
    var cn := Join(SiteDir(a), CS.ConnectionStringsFileName);
    var once := CS.ConfigureFile(s1, codec, cn, db, redis);
    CS.ConfigureFileTwice(s1, codec, cn, db, redis);
    var cs := CS.Args(db, SiteDir(a), true, redis);
    assert CS.Handle(s1, codec, cs) == once;
    assert CS.Handle(once.0, codec, cs) == once;
    assert CopyTwice(s, order, a).0 == s1;
  }

  /** The traced steps after a deployment, starting from `steps`, with step ids `sid1`
      and `sid2`: the copy step, whose outcome is its second invocation's, then the
      adjusting step when it ran. */
  function DeploySteps(steps: seq<Step>, d: Deployment, sid1: Guid, sid2: Guid): seq<Step> {
    var copied := steps + [Step(TraceName, sid1, d.second.Ok?)];
    if d.adjusted.Some? then copied + [Step(TraceName, sid2, d.adjusted.value)] else copied
  }


  /** The event log after the traced steps of a deployment, starting from log `log`: the
      copy step around the events of both `CopyFiles` invocations, then the adjusting
      step when there is one. */
  function DeployLog(log: seq<JobEvent>, job: Guid, d: Deployment, sid1: Guid, sid2: Guid): seq<JobEvent> {
    var copied := log + [StepStarted(job, TraceName, sid1)] + CatchEvents(job, d.first) + CatchEvents(job, d.second)
      + [StepFinished(job, Step(TraceName, sid1, d.second.Ok?))];
    if d.adjusted.Some? then copied + [StepStarted(job, TraceName, sid2)] + [StepFinished(job, Step(TraceName, sid2, d.adjusted.value))]
    else copied
  }

  class DeployIisHandler {
    const base: BaseHandler
    const cs: CS.ConnectionStringsFileHandler
    const fs: FileSystem

    ghost predicate Valid()
      reads this, base, base.guids, cs, cs.base, cs.base.guids
    {
      && base.Valid() && base.typeName == TypeName
      && cs.Valid() && cs.fs == fs && cs.base != base && cs.base.guids != base.guids
    }

    constructor (base: BaseHandler, cs: CS.ConnectionStringsFileHandler, fs: FileSystem)
      requires base.Valid() && base.typeName == TypeName
      requires cs.Valid() && cs.fs == fs && cs.base != base && cs.base.guids != base.guids
      ensures Valid() && this.base == base && this.cs == cs && this.fs == fs
    {
      this.base := base;
      this.cs := cs;
      this.fs := fs;
    }

    /** One iteration of the copy loop of `CopyFiles`. */
    method CopyEntry(f: string, from: string, to: string) returns (fault: Option<string>)
      modifies fs
      ensures Progress(fs.State(), fault) == CopyOne(old(fs.State()), from, to, f)
    {
      if IsBackup(f) {
        return None;
      }
      var dd := DestDir(f, from, to);
      if !fs.DirectoryExists(dd) {
        var made := fs.CreateDirectory(dd);
        if made.Threw? {
          return Some(made.message);
        }
      }
      var copied := fs.Copy(f, DestFile(f, from, to), true);
      fault := if copied.Threw? then Some(copied.message) else None;
    }

    /** The copy loop of `CopyFiles` over a listing, up to the first exception. */
    method CopyLoop(from: string, to: string, files: seq<string>) returns (fault: Option<string>)
      modifies fs
      ensures Progress(fs.State(), fault) == CopyAll(old(fs.State()), from, to, files)
    {
      var i := 0;
      while i < |files|
        invariant 0 <= i <= |files|
        invariant CopyAll(old(fs.State()), from, to, files) == CopyAll(fs.State(), from, to, files[i..])
        modifies fs
      {
        assert files[i..][0] == files[i] && files[i..][1..] == files[i + 1..];
        fault := CopyEntry(files[i], from, to);
        if fault.Some? {
          return;
        }
        i := i + 1;
      }
      fault := None;
    }

    /** `CopyFiles(args)`. */
    method CopyFiles(a: Args) returns (r: Result<string>)
      modifies fs, base`events
      ensures (fs.State(), r) == CopyFilesRun(old(fs.State()), a, Unzipped(old(fs.State()), fs.order, a))
      ensures r.Ok? ==> r.value == SiteDir(a)
      ensures base.events == old(base.events) + CatchEvents(base.id, r)
      ensures base.steps == old(base.steps) && base.id == old(base.id)
    {
      var from := a.unzippedFolderPath;
      if !fs.DirectoryExists(from) {
        return Err([Fail("", MissingDirText(from))]);
      }
      ghost var s0 := fs.State();
      var to := SiteDir(a);
      var fault := None;
      if !fs.DirectoryExists(to) {
        var made := fs.CreateDirectory(to);
        if made.Threw? {
          fault := Some(made.message);
        }
      }
      if fault.None? {
        assert EnsureDir(s0, to) == Value(fs.State());
        assert FilesUnder(fs.State(), from) == FilesUnder(s0, from);
        var listing := fs.GetFiles(from);
        fault := CopyLoop(from, to, listing.value);
      }
      if fault.Some? {
        r := Err([Fail(CopyCode, fault.value)]);
        base.Raise(JobEvent(base.id, Failed, CopyFailedText(fault.value), EmptyGuid));
      } else {
        r := Ok(to);
      }
    }

    /** The action of the first traced step, invoked twice as `ExecuteWithTrace` does. */
    method CopyFilesTwice(a: Args) returns (r: Result<string>, second: Result<string>)
      modifies fs, base`events
      ensures CopyTwice(old(fs.State()), fs.order, a) == (fs.State(), r, second)
      ensures r.Ok? ==> r.value == SiteDir(a)
      ensures base.events == old(base.events) + CatchEvents(base.id, r) + CatchEvents(base.id, second)
      ensures base.steps == old(base.steps) && base.id == old(base.id)
    {
      r := CopyFiles(a);
      second := CopyFiles(a);
    }

    /** The first traced step, `ExecuteWithTrace(() => CopyFiles(args))`: the results of
        both invocations, the state after both, and the step's events around the events of
        both invocations; the step's outcome is the second invocation's, and `r` is the
        first. */
    method CopyStep(a: Args) returns (r: Result<string>, second: Result<string>, sid: Guid)
      requires base.Valid()
      modifies fs, base`events, base`steps, base.guids
      ensures base.Valid() && base.id == old(base.id)
      ensures CopyTwice(old(fs.State()), fs.order, a) == (fs.State(), r, second)
      ensures base.steps == old(base.steps) + [Step(TraceName, sid, second.Ok?)]
      ensures base.events == old(base.events) + [StepStarted(base.id, TraceName, sid)]
        + CatchEvents(base.id, r) + CatchEvents(base.id, second) + [StepFinished(base.id, Step(TraceName, sid, second.Ok?))]
    {
      sid := base.StepBegin(TraceName);
      r, second := CopyFilesTwice(a);
      base.StepEnd(TraceName, sid, second.Ok?);
    }

    /** The action of the second traced step, invoked twice as `ExecuteWithTrace` does:
        the nested handler's `Execute` on the fixed command object. */
    method AdjustTwice(dir: string) returns (c: Result<Unit>, again: Result<Unit>)
      requires cs.Valid() && cs.fs == fs && !IsNullOrWhiteSpace(dir)
      modifies fs, cs.base
      ensures cs.Valid()
      ensures AdjustRun(old(fs.State()), cs.codec, dir, LocalDb, LocalRedis) == (fs.State(), c, again)
    {
      var cmd := AdjustCommand(dir, LocalDb, LocalRedis);
      LocalValuesPresent();
      AdjustCommandAccepted(dir, LocalDb, LocalRedis);
      var first := cs.Execute(cmd);
      var second := cs.Execute(cmd);
      c, again := first.result, second.result;
    }

    /** The second traced step, `ExecuteWithTrace(() => AdjustConnectionStringsFile(dir))`:
        the nested handler's results and the files after both invocations; the step's
        outcome is the second result. The nested handler raises its events to its own
        subscribers, not to this handler's. */
    method AdjustStep(dir: string) returns (c: Result<Unit>, again: Result<Unit>, sid: Guid)
      requires Valid() && !IsNullOrWhiteSpace(dir)
      modifies fs, base`events, base`steps, base.guids, cs.base
      ensures Valid() && base.id == old(base.id)
      ensures AdjustRun(old(fs.State()), cs.codec, dir, LocalDb, LocalRedis) == (fs.State(), c, again)
      ensures base.steps == old(base.steps) + [Step(TraceName, sid, again.Ok?)]
      ensures base.events == old(base.events) + [StepStarted(base.id, TraceName, sid)]
        + [StepFinished(base.id, Step(TraceName, sid, again.Ok?))]
    {
      sid := base.StepBegin(TraceName);
      c, again := AdjustTwice(dir);
      base.StepEnd(TraceName, sid, again.Ok?);
    }

    /** The two traced steps of `InternalExecute` for validated arguments, the second
        only when the first invocation of the copy succeeded. `d` is what the deployment
        comes to, and `sid1` and `sid2` are the ids of its steps. */
    method Deploy(a: Args) returns (result: Result<Unit>, ghost d: Deployment, ghost sid1: Guid, ghost sid2: Guid)
      requires Valid() && ArgsValid(a)
      modifies fs, base`events, base`steps, base.guids, cs.base
      ensures Valid() && base.id == old(base.id)
      ensures d == DeployRun(old(fs.State()), fs.order, cs.codec, a, LocalDb, LocalRedis)
      ensures fs.State() == d.state && result == d.result
      ensures base.steps == DeploySteps(old(base.steps), d, sid1, sid2)
      ensures base.events == DeployLog(old(base.events), base.id, d, sid1, sid2)
    {
      ghost var s0 := fs.State();
      var copied, again, id1 := CopyStep(a);
      sid1 := id1;
      CopyTwiceSite(s0, fs.order, a);
      if copied.Err? {
        d := Deployment(fs.State(), Err(copied.errors), copied, again, None);
        return Err(copied.errors), d, sid1, EmptyGuid;
      }
      NotBlankSuffix(SiteDir(a), a.siteName);
      var adjusted, again2, id2 := AdjustStep(copied.value);
      sid2 := id2;
      result := adjusted;
      d := Deployment(fs.State(), adjusted, copied, again, Some(again2.Ok?));
    }

    /** `InternalExecute`: invalid arguments are returned as their Validation errors;
        otherwise the two traced steps of `Deploy`. */
    method InternalExecute(cmd: CommandObj) returns (run: Run, ghost d: Deployment, ghost sid1: Guid, ghost sid2: Guid)
      requires Valid()
      modifies fs, base`events, base`steps, base.guids, cs.base
      ensures Valid() && run.Returned? && base.id == old(base.id)
      ensures GetArgsFromCommandObj(cmd).Err? ==>
        && run.result == Err(GetArgsFromCommandObj(cmd).errors) && fs.State() == old(fs.State())
        && base.events == old(base.events) && base.steps == old(base.steps)
      ensures GetArgsFromCommandObj(cmd).Ok? ==>
        && d == DeployRun(old(fs.State()), fs.order, cs.codec, GetArgsFromCommandObj(cmd).value, LocalDb, LocalRedis)
        && fs.State() == d.state && run.result == d.result
        && base.steps == DeploySteps(old(base.steps), d, sid1, sid2)
        && base.events == DeployLog(old(base.events), base.id, d, sid1, sid2)
    {
      var args := GetArgsFromCommandObj(cmd);
      if args.Err? {
        run, sid1, sid2 := Returned(Err(args.errors)), EmptyGuid, EmptyGuid;
        d := Deployment(fs.State(), Err(args.errors), Err(args.errors), Err(args.errors), None);
        return;
      }
      var result;
      result, d, sid1, sid2 := Deploy(args.value);
      run := Returned(result);
    }

    /** `Execute`: the job's Started event, `InternalExecute`, and the terminal event. */
    method Execute(cmd: CommandObj) returns (run: Run, ghost d: Deployment, ghost sid1: Guid, ghost sid2: Guid)
      requires Valid()
      modifies fs, base`events, base`steps, base.guids, cs.base
      ensures Valid() && run.Returned? && base.id == old(base.id)
      ensures GetArgsFromCommandObj(cmd).Err? ==>
        && run.result == Err(GetArgsFromCommandObj(cmd).errors) && fs.State() == old(fs.State())
        && base.steps == old(base.steps)
        && base.events == old(base.events) + [JobStarted(base.id, TypeName)] + [JobFinished(base.id, TypeName, false)]
      ensures GetArgsFromCommandObj(cmd).Ok? ==>
        && d == DeployRun(old(fs.State()), fs.order, cs.codec, GetArgsFromCommandObj(cmd).value, LocalDb, LocalRedis)
        && fs.State() == d.state && run.result == d.result
        && base.steps == DeploySteps(old(base.steps), d, sid1, sid2)
        && base.events == DeployLog(old(base.events) + [JobStarted(base.id, TypeName)], base.id, d, sid1, sid2)
             + [JobFinished(base.id, TypeName, d.result.Ok?)]
    {
      base.JobBegin();
      run, d, sid1, sid2 := InternalExecute(cmd);
      var result := base.JobEnd(run.result);
      run := Returned(result);
    }
  }
}
