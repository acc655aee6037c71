/** `ConnectionStringsFileHandler`: rewrites the connection strings of a site's
    ConnectionStrings.config and, for a .NET Core site, the cookie mode of its web
    config. The XML parser and writer are parameters (`XmlCodec`); the document is a
    tree value that the handler edits one node at a time. */
module ConnectionStrings {
  import opened Common
  import opened Text
  import opened Paths
  import opened Xml
  import opened Files
  import opened Base
  import opened Annotations

  const TypeName: string := "ConnectionStringsFileHandler"
  const ArgsType: string := "ConnectionStringsFileHandlerArgs"
  const ConnectionStringsFileName: string := "ConnectionStrings.config"
  const WebConfigFileName: string := "Terrasoft.WebHost.dll.config"
  const CsAttr: string := "connectionString"
  const ConfigureCode: string := "ConfigureConnectionStrings"
  const WebConfigCode: string := "UpdateWebConfig"

  const DbPostgreSqlNode: Selector := AddWith("name", "dbPostgreSql")
  const DbNode: Selector := AddWith("name", "db")
  const RedisNode: Selector := AddWith("name", "redis")
  const CookiesNode: Selector := AddWith("key", "CookiesSameSiteMode")

  /** The exception text of the missing node the handler catches. */
  const NullReferenceText: string := "Object reference not set to an instance of an object."

  /** `XmlDocument.LoadXml`, with the message of the exception it throws, and
      `XmlDocument.Save`'s output. */
  datatype XmlCodec = XmlCodec(parse: string -> Attempt<Element>, render: Element -> string)

  /** `ConnectionStringsFileHandlerArgs`. */
  datatype Args = Args(dbConnectionString: string, folderPath: string, isNetFramework: bool, redisConnectionString: string)

  /** The record `GetArgsFromCommandObj` builds: absent keys read as "", and an absent
      or unparseable IsNetFramework as false. */
  function ArgsRecord(cmd: CommandObj): (a: Args)
    ensures a.dbConnectionString == Arg(cmd, "DbConnectionString")
    ensures a.folderPath == Arg(cmd, "FolderPath")
    ensures a.redisConnectionString == Arg(cmd, "RedisConnectionString")
    ensures a.isNetFramework <==> ParseBool(Arg(cmd, "IsNetFramework")) == Some(true)
  {
    var parsed := ParseBool(Arg(cmd, "IsNetFramework"));
    Args(Arg(cmd, "DbConnectionString"), Arg(cmd, "FolderPath"), parsed.Some? && parsed.value,
      Arg(cmd, "RedisConnectionString"))
  }

  function RequiredFailures(a: Args): seq<string> {
    Check(RequiredHolds(a.dbConnectionString), "DbConnectionString",
      RequiredDefaultMessage(DisplayName(ArgsType, "DbConnectionString")))
    + Check(RequiredHolds(a.folderPath), "FolderPath", RequiredDefaultMessage(DisplayName(ArgsType, "FolderPath")))
    + Check(RequiredHolds(a.redisConnectionString), "RedisConnectionString",
      RequiredDefaultMessage(DisplayName(ArgsType, "RedisConnectionString")))
  }

  /** `GetArgsFromCommandObj`: the record, or one Validation error per `[Required]`
      string that is empty or white space. `[Required]` on the bool never fails. */
  function GetArgsFromCommandObj(cmd: CommandObj): (r: Result<Args>)
    ensures var a := ArgsRecord(cmd);
      r.Ok? <==> RequiredHolds(a.dbConnectionString) && RequiredHolds(a.folderPath) && RequiredHolds(a.redisConnectionString)
    ensures r.Ok? ==> r.value == ArgsRecord(cmd)
    ensures r.Err? ==> 1 <= |r.errors| <= 3 && forall i :: 0 <= i < |r.errors| ==> r.errors[i].kind == Validation
  {
    var failures := RequiredFailures(ArgsRecord(cmd));
    if failures == [] then Ok(ArgsRecord(cmd)) else Err(ToErrors(failures))
  }

  /** An empty command object is rejected on all three strings. */
  lemma EmptyCommandRejected()
    ensures ArgsRecord(map[]) == Args("", "", false, "")
    ensures GetArgsFromCommandObj(map[]).Err? && |GetArgsFromCommandObj(map[]).errors| == 3
  {
    assert ParseBool("") == None by {
      assert TrimParseBlanks("") == "";
    }
  }

  /** `SelectSingleNode(sel)` on the root, then `Attributes[attr].Value = value` on the
      node found: nothing happens when none is found, and a found node without that
      attribute is a null reference (`None`). */
  function SetOnFirst(e: Element, sel: Selector, attr: string, value: string): Option<Element> {
    match FirstDescendant(e, sel)
    case None => Some(e)
    case Some(p) =>
      FirstDescendantSound(e, sel);
      if attr in At(e, p).attrs then Some(SetAttr(e, p, attr, value)) else None
  }

  /** The rewrite `ConfigureConnectionStrings` applies to the parsed document. */
  function Rewrite(root: Element, db: string, redis: string): Option<Element> {
    match SetOnFirst(root, DbPostgreSqlNode, CsAttr, db)
    case None => None
    case Some(r1) =>
      match SetOnFirst(r1, DbNode, CsAttr, db)
      case None => None
      case Some(r2) => SetOnFirst(r2, RedisNode, CsAttr, redis)
  }

  /** What one `SetOnFirst` does: it fails exactly when the node found lacks the
      attribute; otherwise it sets that one attribute of that one node, keeps every path,
      and leaves the result of every search on other attributes as it was. */
  lemma SetOnFirstFacts(e: Element, sel: Selector, attr: string, value: string)
    requires sel.attr != attr
    ensures FirstDescendant(e, sel).Some? ==> ValidPath(e, FirstDescendant(e, sel).value)
    ensures SetOnFirst(e, sel, attr, value).None? <==>
      FirstDescendant(e, sel).Some? && attr !in At(e, FirstDescendant(e, sel).value).attrs
    ensures SetOnFirst(e, sel, attr, value).Some? ==>
      var r := SetOnFirst(e, sel, attr, value).value;
      && Agree(e, r, attr)
      && (forall q :: ValidPath(r, q) <==> ValidPath(e, q))
      && (forall q :: ValidPath(e, q) ==>
            At(r, q).attrs == if FirstDescendant(e, sel) == Some(q) then At(e, q).attrs[attr := value] else At(e, q).attrs)
      && (forall other: Selector :: other.attr != attr ==> FirstDescendant(r, other) == FirstDescendant(e, other))
  {
    FirstDescendantSound(e, sel);
    match FirstDescendant(e, sel)
    case None =>
      AgreeReflexive(e, attr);
    case Some(p) =>
      if attr in At(e, p).attrs {
        var r := SetAttr(e, p, attr, value);
        SetAttrAgrees(e, p, attr, value);
        forall q ensures ValidPath(r, q) <==> ValidPath(e, q) {
          SetAttrPaths(e, p, q, attr, value);
        }
        forall q | ValidPath(e, q)
          ensures At(r, q).attrs == if Some(p) == Some(q) then At(e, q).attrs[attr := value] else At(e, q).attrs
        {
          SetAttrAt(e, p, q, attr, value);
        }
        forall other: Selector | other.attr != attr ensures FirstDescendant(r, other) == FirstDescendant(e, other) {
          AgreeFirstDescendant(e, r, attr, other);
        }
      }
  }

  /** The three target searches never select the same node. */
  lemma TargetsDistinct(e: Element, p: Path, q: Path, s: Selector, t: Selector)
    requires s.attr == t.attr && s.value != t.value
    requires FirstDescendant(e, s) == Some(p) && FirstDescendant(e, t) == Some(q)
    ensures p != q
  {
    FirstDescendantSound(e, s);
    FirstDescendantSound(e, t);
  }

  /** The rewrite fails exactly when one of the three nodes it finds has no
      connectionString attribute. */
  lemma RewriteFails(root: Element, db: string, redis: string)
    ensures Rewrite(root, db, redis).None? <==>
      exists sel :: sel in {DbPostgreSqlNode, DbNode, RedisNode} && FirstDescendant(root, sel).Some? &&
        (FirstDescendantSound(root, sel); CsAttr !in At(root, FirstDescendant(root, sel).value).attrs)
  {
    FirstDescendantSound(root, DbPostgreSqlNode);
    FirstDescendantSound(root, DbNode);
    FirstDescendantSound(root, RedisNode);
    SetOnFirstFacts(root, DbPostgreSqlNode, CsAttr, db);
    match SetOnFirst(root, DbPostgreSqlNode, CsAttr, db)
    case None =>
    case Some(r1) =>
      SetOnFirstFacts(r1, DbNode, CsAttr, db);
      if FirstDescendant(root, DbNode).Some? && FirstDescendant(root, DbPostgreSqlNode).Some? {
        TargetsDistinct(root, FirstDescendant(root, DbPostgreSqlNode).value, FirstDescendant(root, DbNode).value,
          DbPostgreSqlNode, DbNode);
      }
      match SetOnFirst(r1, DbNode, CsAttr, db)
      case None =>
      case Some(r2) =>
        SetOnFirstFacts(r2, RedisNode, CsAttr, redis);
        if FirstDescendant(root, RedisNode).Some? && FirstDescendant(root, DbPostgreSqlNode).Some? {
          TargetsDistinct(root, FirstDescendant(root, DbPostgreSqlNode).value, FirstDescendant(root, RedisNode).value,
            DbPostgreSqlNode, RedisNode);
        }
        if FirstDescendant(root, RedisNode).Some? && FirstDescendant(root, DbNode).Some? {
          TargetsDistinct(root, FirstDescendant(root, DbNode).value, FirstDescendant(root, RedisNode).value,
            DbNode, RedisNode);
        }
  }

  /** The node at `q` after the rewrite: the first "dbPostgreSql" and the first "db"
      node get the db value, the first "redis" node the redis value, and every other
      node and attribute is as before. */
  function Expected(root: Element, q: Path, db: string, redis: string): map<string, string>
    requires ValidPath(root, q)
  {
    if FirstDescendant(root, DbPostgreSqlNode) == Some(q) then At(root, q).attrs[CsAttr := db]
    else if FirstDescendant(root, DbNode) == Some(q) then At(root, q).attrs[CsAttr := db]
    else if FirstDescendant(root, RedisNode) == Some(q) then At(root, q).attrs[CsAttr := redis]
    else At(root, q).attrs
  }

  lemma RewriteResult(root: Element, db: string, redis: string)
    requires Rewrite(root, db, redis).Some?
    ensures var r := Rewrite(root, db, redis).value;
      && Agree(root, r, CsAttr)
      && (forall q :: ValidPath(r, q) <==> ValidPath(root, q))
      && (forall q :: ValidPath(root, q) ==> At(r, q).attrs == Expected(root, q, db, redis))
      && (forall sel: Selector :: sel.attr != CsAttr ==> FirstDescendant(r, sel) == FirstDescendant(root, sel))
  {
    SetOnFirstFacts(root, DbPostgreSqlNode, CsAttr, db);
    var r1 := SetOnFirst(root, DbPostgreSqlNode, CsAttr, db).value;
    SetOnFirstFacts(r1, DbNode, CsAttr, db);
    var r2 := SetOnFirst(r1, DbNode, CsAttr, db).value;
    SetOnFirstFacts(r2, RedisNode, CsAttr, redis);
    var r := SetOnFirst(r2, RedisNode, CsAttr, redis).value;
    AgreeTransitive(root, r1, r2, CsAttr);
    AgreeTransitive(root, r2, r, CsAttr);
    forall q | ValidPath(root, q) ensures At(r, q).attrs == Expected(root, q, db, redis) {
      var p1, p2, p3 := FirstDescendant(root, DbPostgreSqlNode), FirstDescendant(root, DbNode), FirstDescendant(root, RedisNode);
      if p1.Some? && p2.Some? {
        TargetsDistinct(root, p1.value, p2.value, DbPostgreSqlNode, DbNode);
      }
      if p1.Some? && p3.Some? {
        TargetsDistinct(root, p1.value, p3.value, DbPostgreSqlNode, RedisNode);
      }
      if p2.Some? && p3.Some? {
        TargetsDistinct(root, p2.value, p3.value, DbNode, RedisNode);
      }
    }
  }

  lemma {:induction false} AgreeTransitive(a: Element, b: Element, c: Element, k: string)
    requires Agree(a, b, k) && Agree(b, c, k)
    ensures Agree(a, c, k)
    decreases a
  {
    forall i | 0 <= i < |a.children| ensures Agree(a.children[i], c.children[i], k) {
      AgreeTransitive(a.children[i], b.children[i], c.children[i], k);
    }
  }

  /** Setting already-set values is no change. */
  lemma SetOnFirstUnchanged(e: Element, sel: Selector, attr: string, value: string)
    requires FirstDescendant(e, sel).Some? ==>
      (FirstDescendantSound(e, sel);
       attr in At(e, FirstDescendant(e, sel).value).attrs && At(e, FirstDescendant(e, sel).value).attrs[attr] == value)
    ensures SetOnFirst(e, sel, attr, value) == Some(e)
  {
    FirstDescendantSound(e, sel);
    if FirstDescendant(e, sel).Some? {
      SetAttrUnchanged(e, FirstDescendant(e, sel).value, attr, value);
    }
  }

  /** Applying the rewrite twice is applying it once. */
  lemma RewriteIdempotent(root: Element, db: string, redis: string)
    requires Rewrite(root, db, redis).Some?
    ensures Rewrite(Rewrite(root, db, redis).value, db, redis) == Rewrite(root, db, redis)
  {
    var r := Rewrite(root, db, redis).value;
    RewriteResult(root, db, redis);
    FirstDescendantSound(root, DbPostgreSqlNode);
    FirstDescendantSound(root, DbNode);
    FirstDescendantSound(root, RedisNode);
    var p1, p2, p3 := FirstDescendant(root, DbPostgreSqlNode), FirstDescendant(root, DbNode), FirstDescendant(root, RedisNode);
    if p1.Some? && p2.Some? {
      TargetsDistinct(root, p1.value, p2.value, DbPostgreSqlNode, DbNode);
    }
    if p1.Some? && p3.Some? {
      TargetsDistinct(root, p1.value, p3.value, DbPostgreSqlNode, RedisNode);
    }
    if p2.Some? && p3.Some? {
      TargetsDistinct(root, p2.value, p3.value, DbNode, RedisNode);
    }
    SetOnFirstUnchanged(r, DbPostgreSqlNode, CsAttr, db);
    SetOnFirstUnchanged(r, DbNode, CsAttr, db);
    SetOnFirstUnchanged(r, RedisNode, CsAttr, redis);
  }

  /** A document with none of the three nodes comes out unchanged. */
  lemma AbsentTargetsSkipped(root: Element, db: string, redis: string)
    requires FirstDescendant(root, DbPostgreSqlNode).None? && FirstDescendant(root, DbNode).None?
    requires FirstDescendant(root, RedisNode).None?
    ensures Rewrite(root, db, redis) == Some(root)
  {
  }

  function ConfigureFailedText(path: string): string {
    "Configuring connection strings in " + path
  }

  function WebConfigFailedText(path: string): string {
    "Configuring webConfig in " + path + " failed"
  }

  /** The two edits the handler makes: the three connection strings of
      ConnectionStrings.config, and the cookies SameSite mode of the web host's config. */
  datatype Edit = ConnectionStringsEdit(db: string, redis: string) | CookiesEdit

  /** The edited document, or `None` where a node found lacks the attribute set. */
  function ApplyEdit(e: Edit, doc: Element): Option<Element> {
    match e
    case ConnectionStringsEdit(db, redis) => Rewrite(doc, db, redis)
    case CookiesEdit => SetOnFirst(doc, CookiesNode, "value", "Lax")
  }

  /** Load, edit and save one XML file; any fault is one Failure with `code`, and the
      file system is then as before. */
  function EditXmlFile(s: FsState, codec: XmlCodec, path: string, code: string, edit: Edit): (FsState, Result<Unit>)
  {
    match Read(s, path)
    case Threw(m) => (s, Err([Fail(code, m)]))
    case Value(text) =>
      match codec.parse(text)
      case Threw(m) => (s, Err([Fail(code, m)]))
      case Value(doc) =>
        match ApplyEdit(edit, doc)
        case None => (s, Err([Fail(code, NullReferenceText)]))
        case Some(out) =>
          match Write(s, path, codec.render(out))
          case Threw(m) => (s, Err([Fail(code, m)]))
          case Value(s1) => (s1, Ok(Unit))
  }

  /** `ConfigureConnectionStrings(path, db, redis)` on a file system state. */
  function ConfigureFile(s: FsState, codec: XmlCodec, path: string, db: string, redis: string): (FsState, Result<Unit>) {
    EditXmlFile(s, codec, path, ConfigureCode, ConnectionStringsEdit(db, redis))
  }

  /** `UpdateWebConfig(path)` on a file system state. */
  function WebConfigFile(s: FsState, codec: XmlCodec, path: string): (FsState, Result<Unit>) {
    EditXmlFile(s, codec, path, WebConfigCode, CookiesEdit)
  }

  /** The outcome of a successful rewrite: the file holds the rewritten document and
      nothing else changed. A fault returns one Failure coded "ConfigureConnectionStrings"
      and leaves the file system as it was. */
  lemma ConfigureFileOutcome(s: FsState, codec: XmlCodec, path: string, db: string, redis: string)
    ensures var (s1, r) := ConfigureFile(s, codec, path, db, redis);
      && (r.Ok? <==> path in s.files && path !in s.dirs && codec.parse(s.files[path]).Value?
                     && Rewrite(codec.parse(s.files[path]).value, db, redis).Some?)
      && (r.Ok? ==> s1 == s.(files := s.files[path := codec.render(Rewrite(codec.parse(s.files[path]).value, db, redis).value)]))
      && (r.Err? ==> s1 == s && |r.errors| == 1 && r.errors[0].kind == Failure && r.errors[0].code == ConfigureCode)
      && (Read(s, path).Value? && codec.parse(Read(s, path).value).Threw? ==>
            r == Err([Fail(ConfigureCode, codec.parse(Read(s, path).value).message)]))
  {
  }

  /** Rewriting a file a second time leaves it as the first rewrite did and gives the
      same result, provided the XML writer's output parses back to the document written. */
  lemma ConfigureFileTwice(s: FsState, codec: XmlCodec, path: string, db: string, redis: string)
    requires forall e :: codec.parse(codec.render(e)) == Value(e)
    ensures ConfigureFile(ConfigureFile(s, codec, path, db, redis).0, codec, path, db, redis) == ConfigureFile(s, codec, path, db, redis)
  {
    ConfigureFileOutcome(s, codec, path, db, redis);
    if ConfigureFile(s, codec, path, db, redis).1.Err? {
      return;
    }
    var r := Rewrite(codec.parse(s.files[path]).value, db, redis).value;
    RewriteIdempotent(codec.parse(s.files[path]).value, db, redis);
    var s1 := ConfigureFile(s, codec, path, db, redis).0;
    assert Read(s1, path) == Value(codec.render(r));
    assert codec.parse(codec.render(r)) == Value(r);
    assert ApplyEdit(ConnectionStringsEdit(db, redis), r) == Some(r);
    assert s1.files[path := codec.render(r)] == s1.files;
  }

  /** The whole of `InternalExecute` for validated arguments: the connection strings
      file first, and the web config only when the site is not .NET Framework and the
      first rewrite succeeded. */
  function Handle(s: FsState, codec: XmlCodec, a: Args): (FsState, Result<Unit>) {
    var c := ConfigureFile(s, codec, Join(a.folderPath, ConnectionStringsFileName), a.dbConnectionString, a.redisConnectionString);
    if c.1.Err? || a.isNetFramework then c
    else WebConfigFile(c.0, codec, Join(a.folderPath, WebConfigFileName))
  }

  /** The text of the event raised when `Handle` fails: the connection strings file's
      when that rewrite failed, the web config's otherwise. */
  function FaultText(s: FsState, codec: XmlCodec, a: Args): string {
    var cn := Join(a.folderPath, ConnectionStringsFileName);
    if ConfigureFile(s, codec, cn, a.dbConnectionString, a.redisConnectionString).1.Err? then ConfigureFailedText(cn)
    else WebConfigFailedText(Join(a.folderPath, WebConfigFileName))
  }

  /** The web config is left alone for a .NET Framework site and after a failed
      connection-strings rewrite, whose errors are the result. */
  lemma WebConfigOnlyForCore(s: FsState, codec: XmlCodec, a: Args)
    ensures var c := ConfigureFile(s, codec, Join(a.folderPath, ConnectionStringsFileName), a.dbConnectionString, a.redisConnectionString);
      (a.isNetFramework || c.1.Err?) ==> Handle(s, codec, a) == c
    ensures var c := ConfigureFile(s, codec, Join(a.folderPath, ConnectionStringsFileName), a.dbConnectionString, a.redisConnectionString);
      c.1.Err? ==> Handle(s, codec, a).0 == s
    ensures a.isNetFramework ==>
      var web := Join(a.folderPath, WebConfigFileName);
      var cn := Join(a.folderPath, ConnectionStringsFileName);
      web != cn ==>
        && (web in Handle(s, codec, a).0.files <==> web in s.files)
        && (web in s.files ==> Handle(s, codec, a).0.files[web] == s.files[web])
  {
    ConfigureFileOutcome(s, codec, Join(a.folderPath, ConnectionStringsFileName), a.dbConnectionString, a.redisConnectionString);
  }

  class ConnectionStringsFileHandler {
    const base: BaseHandler
    const fs: FileSystem
    const codec: XmlCodec

    ghost predicate Valid()
      reads this, base, base.guids
    {
      base.Valid() && base.typeName == TypeName
    }

    constructor (base: BaseHandler, fs: FileSystem, codec: XmlCodec)
      requires base.Valid() && base.typeName == TypeName
      ensures Valid() && this.base == base && this.fs == fs && this.codec == codec
    {
      this.base := base;
      this.fs := fs;
      this.codec := codec;
    }

    /** `SelectSingleNode` and set, in place on the document; `None` when the node
        found has no such attribute. */
    method SetOnFirstNode(doc: Element, sel: Selector, attr: string, value: string) returns (r: Option<Element>)
      ensures r == SetOnFirst(doc, sel, attr, value)
    {
      var found := FirstDescendant(doc, sel);
      if found.None? {
        return Some(doc);
      }
      FirstDescendantSound(doc, sel);
      if attr !in At(doc, found.value).attrs {
        return None;
      }
      r := Some(SetAttr(doc, found.value, attr, value));
    }

    method ConfigureConnectionStrings(path: string, db: string, redis: string) returns (r: Result<Unit>)
      modifies fs, base
      ensures (fs.State(), r) == ConfigureFile(old(fs.State()), codec, path, db, redis)
      ensures r.Ok? ==> base.events == old(base.events)
      ensures r.Err? ==> base.events == old(base.events) + [JobEvent(base.id, Failed, ConfigureFailedText(path), EmptyGuid)]
      ensures base.steps == old(base.steps) && base.id == old(base.id)
    {
      var text := fs.ReadAllText(path);
      if text.Threw? {
        base.Raise(JobEvent(base.id, Failed, ConfigureFailedText(path), EmptyGuid));
        return Err([Fail(ConfigureCode, text.message)]);
      }
      var parsed := codec.parse(text.value);
      if parsed.Threw? {
        base.Raise(JobEvent(base.id, Failed, ConfigureFailedText(path), EmptyGuid));
        return Err([Fail(ConfigureCode, parsed.message)]);
      }
      var doc := parsed.value;
      var step := SetOnFirstNode(doc, DbPostgreSqlNode, CsAttr, db);
      if step.Some? {
        doc := step.value;
        step := SetOnFirstNode(doc, DbNode, CsAttr, db);
        if step.Some? {
          doc := step.value;
          step := SetOnFirstNode(doc, RedisNode, CsAttr, redis);
        }
      }
      if step.None? {
        base.Raise(JobEvent(base.id, Failed, ConfigureFailedText(path), EmptyGuid));
        return Err([Fail(ConfigureCode, NullReferenceText)]);
      }
      doc := step.value;
      var saved := fs.WriteAllText(path, codec.render(doc));
      if saved.Threw? {
        base.Raise(JobEvent(base.id, Failed, ConfigureFailedText(path), EmptyGuid));
        return Err([Fail(ConfigureCode, saved.message)]);
      }
      r := Ok(Unit);
    }

    method UpdateWebConfig(path: string) returns (r: Result<Unit>)
      modifies fs, base
      ensures (fs.State(), r) == WebConfigFile(old(fs.State()), codec, path)
      ensures r.Ok? ==> base.events == old(base.events)
      ensures r.Err? ==> base.events == old(base.events) + [JobEvent(base.id, Failed, WebConfigFailedText(path), EmptyGuid)]
      ensures base.steps == old(base.steps) && base.id == old(base.id)
    {
      var text := fs.ReadAllText(path);
      if text.Threw? {
        base.Raise(JobEvent(base.id, Failed, WebConfigFailedText(path), EmptyGuid));
        return Err([Fail(WebConfigCode, text.message)]);
      }
      var parsed := codec.parse(text.value);
      if parsed.Threw? {
        base.Raise(JobEvent(base.id, Failed, WebConfigFailedText(path), EmptyGuid));
        return Err([Fail(WebConfigCode, parsed.message)]);
      }
      var step := SetOnFirstNode(parsed.value, CookiesNode, "value", "Lax");
      if step.None? {
        base.Raise(JobEvent(base.id, Failed, WebConfigFailedText(path), EmptyGuid));
        return Err([Fail(WebConfigCode, NullReferenceText)]);
      }
      var saved := fs.WriteAllText(path, codec.render(step.value));
      if saved.Threw? {
        base.Raise(JobEvent(base.id, Failed, WebConfigFailedText(path), EmptyGuid));
        return Err([Fail(WebConfigCode, saved.message)]);
      }
      r := Ok(Unit);
    }

    /** The body of `InternalExecute` once the arguments are bound. */
    method Apply(a: Args) returns (r: Result<Unit>)
      modifies fs, base
      ensures (fs.State(), r) == Handle(old(fs.State()), codec, a)
      ensures r.Ok? ==> base.events == old(base.events)
      ensures r.Err? ==> base.events == old(base.events) + [JobEvent(base.id, Failed, FaultText(old(fs.State()), codec, a), EmptyGuid)]
      ensures base.steps == old(base.steps) && base.id == old(base.id)
    {
      var cnPath := Join(a.folderPath, ConnectionStringsFileName);
      r := ConfigureConnectionStrings(cnPath, a.dbConnectionString, a.redisConnectionString);
      if r.Ok? && !a.isNetFramework {
        r := UpdateWebConfig(Join(a.folderPath, WebConfigFileName));
      }
    }

    /** `InternalExecute`. The arguments are used without looking at whether their
        validation failed, so invalid arguments end in an exception. */
    method InternalExecute(cmd: CommandObj) returns (run: Run)
      modifies fs, base
      ensures GetArgsFromCommandObj(cmd).Err? ==> run.Escaped? && fs.State() == old(fs.State()) && base.events == old(base.events)
      ensures GetArgsFromCommandObj(cmd).Ok? ==>
        var a := GetArgsFromCommandObj(cmd).value;
        && run.Returned?
        && (fs.State(), run.result) == Handle(old(fs.State()), codec, a)
        && (run.result.Ok? ==> base.events == old(base.events))
        && (run.result.Err? ==> base.events == old(base.events) + [JobEvent(base.id, Failed, FaultText(old(fs.State()), codec, a), EmptyGuid)])
      ensures base.steps == old(base.steps) && base.id == old(base.id)
    {
      var args := GetArgsFromCommandObj(cmd);
      if args.Err? {
        return Escaped(NullReferenceText);
      }
      var r := Apply(args.value);
      run := Returned(r);
    }

    /** `Execute`: the job's Started event, the internal execution, and the terminal
        event, unless an exception escaped. */
    method Execute(cmd: CommandObj) returns (run: Run)
      requires Valid()
      modifies fs, base
      ensures Valid()
      ensures GetArgsFromCommandObj(cmd).Err? ==>
        run.Escaped? && fs.State() == old(fs.State()) && base.events == old(base.events) + [JobStarted(base.id, TypeName)]
      ensures GetArgsFromCommandObj(cmd).Ok? ==>
        var a := GetArgsFromCommandObj(cmd).value;
        && run.Returned?
        && (fs.State(), run.result) == Handle(old(fs.State()), codec, a)
        && (run.result.Ok? ==>
              base.events == old(base.events) + [JobStarted(base.id, TypeName)] + [JobFinished(base.id, TypeName, true)])
        && (run.result.Err? ==>
              base.events == old(base.events) + [JobStarted(base.id, TypeName)]
                + [JobEvent(base.id, Failed, FaultText(old(fs.State()), codec, a), EmptyGuid)]
                + [JobFinished(base.id, TypeName, false)])
      ensures base.steps == old(base.steps) && base.id == old(base.id)
    {
      base.JobBegin();
      run := InternalExecute(cmd);
      if run.Returned? {
        var result := base.JobEnd(run.result);
        run := Returned(result);
      }
    }
  }
}
