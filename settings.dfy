/** The agent's configuration records and the lookups the restore steps make in them:
    the first database section of type "PGSQL" and its first server. The records the
    core never reads (CreatioProducts, TraceServer, Logging) are not represented. */
module AgentSettings {
  import opened Common

  datatype Server = Server(name: Option<string>, connectionString: Option<string>, binFolderPath: Option<string>)

  /** `Db(Type, Servers)`; a null `Servers` array is `None`. */
  datatype Db = Db(dbType: string, servers: Option<seq<Server>>)

  /** `Settings(..., Db, WorkingDirectoryPath, ...)`; a null `Db` array is `None`. */
  datatype Settings = Settings(db: Option<seq<Db>>, workingDirectoryPath: string)

  const PgType: string := "PGSQL"

  /** `ds[i]` is the first section of type "PGSQL". */
  predicate FirstPgAt(ds: seq<Db>, i: int) {
    0 <= i < |ds| && ds[i].dbType == PgType && forall j :: 0 <= j < i ==> ds[j].dbType != PgType
  }

  /** `FirstOrDefault(db => db.Type == "PGSQL")` over a list of sections. */
  function FirstPg(ds: seq<Db>): (r: Option<Db>)
    ensures r.Some? ==> exists i :: FirstPgAt(ds, i) && ds[i] == r.value
    ensures r.None? ==> forall i :: 0 <= i < |ds| ==> ds[i].dbType != PgType
  {
    if ds == [] then None
    else if ds[0].dbType == PgType then
      assert FirstPgAt(ds, 0);
      Some(ds[0])
    else
      var r := FirstPg(ds[1..]);
      assert r.Some? ==> exists i :: FirstPgAt(ds, i) && ds[i] == r.value by {
        if r.Some? {
          var i :| FirstPgAt(ds[1..], i) && ds[1..][i] == r.value;
          forall j | 0 <= j < i + 1 ensures ds[j].dbType != PgType {
            if j > 0 {
              assert ds[j] == ds[1..][j - 1];
            }
          }
          assert FirstPgAt(ds, i + 1);
        }
      }
      r
  }

  /** `settings.Db?.FirstOrDefault(db => db.Type == "PGSQL")`. */
  function PgSection(s: Settings): (r: Option<Db>)
    ensures s.db.None? ==> r.None?
  {
    if s.db.None? then None else FirstPg(s.db.value)
  }

  /** `section.Servers?.FirstOrDefault()`. */
  function FirstServer(d: Db): (r: Option<Server>)
    ensures r.Some? <==> d.servers.Some? && |d.servers.value| > 0
    ensures r.Some? ==> r.value == d.servers.value[0]
  {
    if d.servers.None? || d.servers.value == [] then None else Some(d.servers.value[0])
  }

  /** `x ?? string.Empty`. */
  function OrEmpty(x: Option<string>): (r: string)
    ensures x.Some? ==> r == x.value
    ensures x.None? ==> r == ""
  {
    if x.Some? then x.value else ""
  }

  /** `section.Servers?.FirstOrDefault()?.ConnectionString ?? string.Empty`. */
  function ConnectionString(d: Db): string {
    match FirstServer(d)
    case None => ""
    case Some(sv) => OrEmpty(sv.connectionString)
  }

  /** `section.Servers?.FirstOrDefault()?.BinFolderPath ?? string.Empty`. */
  function BinFolderPath(d: Db): string {
    match FirstServer(d)
    case None => ""
    case Some(sv) => OrEmpty(sv.binFolderPath)
  }

  /** Only the first server of a section is ever consulted. */
  lemma OnlyFirstServerCounts(d: Db, rest: seq<Server>)
    requires d.servers.Some? && |d.servers.value| > 0
    ensures ConnectionString(d) == ConnectionString(d.(servers := Some([d.servers.value[0]] + rest)))
    ensures BinFolderPath(d) == BinFolderPath(d.(servers := Some([d.servers.value[0]] + rest)))
  {
  }
}
