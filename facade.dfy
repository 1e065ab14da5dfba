/** The FileSystem facade of lib/nhdfs.js: option validation, the connection
    parameters fixed by the constructor, the createFS factory, and the
    decisions the one-shot calls make on what a native callback hands back.
    The native calls themselves are outside the model: each one is
    represented by the `(err, data)` its callback receives. */
module Facade {
  import opened Js
  import opened Config

  const DefaultPathLength := 1024
  const DefaultService := "default"

  /* ---------- getOptions ---------- */

  /** getOptions(options, defaultOptions): null, undefined or a function give
      the defaults, an object is returned as it is, anything else throws. */
  function GetOptions(options: Value, defaultOptions: Value): (r: Result<Value>)
    ensures options.Null? || options.Undefined? || options.Func? ==> r == Ok(defaultOptions)
    ensures options.Obj? ==> r == Ok(options)
    ensures r.Err? <==> options.Boolean? || options.Number? || options.Str?
    ensures r.Err? ==> r.error == OptionsNotObject
  {
    if options == Null || options == Undefined || TypeOf(options) == "function" then
      Ok(defaultOptions)
    else if TypeOf(options) != "object" then
      Err(OptionsNotObject)
    else
      Ok(options)
  }

  /* ---------- the FileSystem constructor ---------- */

  /** The object the FileSystem constructor destructures. */
  datatype FsArgs = FsArgs(service: Value, port: Value, user: Value, kerbTicketCachePath: Value,
                           authToken: Value, options: Value)

  /** What the constructor fixes: `this.maxPath` and the arguments of the native connection. */
  datatype Connection = Connection(maxPath: int, service: Value, port: Value, params: map<string, Value>)

  /** `params` holds exactly the truthy ones among user, kerbTicketCachePath and authToken, with their values. */
  predicate CredentialParams(params: map<string, Value>, user: Value, kerbTicketCachePath: Value, authToken: Value) {
    && params.Keys <= {"user", "kerbTicketCachePath", "authToken"}
    && ("user" in params <==> Truthy(user))
    && ("kerbTicketCachePath" in params <==> Truthy(kerbTicketCachePath))
    && ("authToken" in params <==> Truthy(authToken))
    && ("user" in params ==> params["user"] == user)
    && ("kerbTicketCachePath" in params ==> params["kerbTicketCachePath"] == kerbTicketCachePath)
    && ("authToken" in params ==> params["authToken"] == authToken)
  }

  /** `if (v) params[key] = v`. */
  function AddIfTruthy(params: map<string, Value>, key: string, v: Value): map<string, Value> {
    if Truthy(v) then params[key := v] else params
  }

  /** new FileSystem({...}): reading `options.maxPathLength` throws when options is null or undefined;
      otherwise the path length, port and service are defaulted and the credentials filtered. */
  function NewFileSystem(a: FsArgs): (r: Result<Connection>)
    ensures r.Err? <==> a.options.Null? || a.options.Undefined?
    ensures r.Ok? ==> r.value.maxPath > 0
    ensures r.Ok? ==> var m := Property(a.options, "maxPathLength").value;
                      if IsPositiveInteger(m) then r.value.maxPath as real == m.n
                      else r.value.maxPath == DefaultPathLength
    ensures r.Ok? ==> r.value.port == if Truthy(a.port) then a.port else Number(0.0)
    ensures r.Ok? ==> r.value.service == if Truthy(a.service) then a.service else Str(DefaultService)
    ensures r.Ok? ==> CredentialParams(r.value.params, a.user, a.kerbTicketCachePath, a.authToken)
  {
    match Property(a.options, "maxPathLength")
    case Err(e) => Err(e)
    case Ok(m) =>
      var maxPath := if IsInteger(m) && m.n > 0.0 then m.n.Floor else DefaultPathLength;
      var port := if !Truthy(a.port) then Number(0.0) else a.port;
      var service := if !Truthy(a.service) then Str(DefaultService) else a.service;
      var params := AddIfTruthy(AddIfTruthy(AddIfTruthy(map[], "user", a.user),
                                            "kerbTicketCachePath", a.kerbTicketCachePath),
                                "authToken", a.authToken);
      Ok(Connection(maxPath, service, port, params))
  }

  /* ---------- createFS ---------- */

  /** The argument of createFS; configurationPath and useHadoopConfEnv are
      given after their defaults ('' and true) have been applied. */
  datatype CreateArgs = CreateArgs(service: Value, port: Value, configurationPath: string, useHadoopConfEnv: bool,
                                   user: Value, kerbTicketCachePath: Value, authToken: Value, options: Value)

  /** The object createFS hands to the FileSystem constructor, as written:
      kerbTicketCachePath and authToken are destructured and then not passed on. */
  function CreateFsArgsAsWritten(c: CreateArgs): (r: FsArgs)
    ensures r.service == c.service && r.port == c.port
    ensures r.user == (if c.user.Undefined? then Str("") else c.user)
    ensures r.options == (if c.options.Undefined? then Obj(map[]) else c.options)
    ensures r.kerbTicketCachePath.Undefined? && r.authToken.Undefined?
  {
    FsArgs(c.service, c.port, WithDefault(c.user, Str("")), Undefined, Undefined, WithDefault(c.options, Obj(map[])))
  }

  /** The object createFS evidently means to hand over: every destructured field, defaults applied. */
  function CreateFsArgs(c: CreateArgs): (r: FsArgs)
    ensures r.service == c.service && r.port == c.port
    ensures r.user == (if c.user.Undefined? then Str("") else c.user)
    ensures r.options == (if c.options.Undefined? then Obj(map[]) else c.options)
    ensures r.kerbTicketCachePath == (if c.kerbTicketCachePath.Undefined? then Str("") else c.kerbTicketCachePath)
    ensures r.authToken == (if c.authToken.Undefined? then Str("") else c.authToken)
    ensures r.(kerbTicketCachePath := Undefined, authToken := Undefined) == CreateFsArgsAsWritten(c)
  {
    FsArgs(c.service, c.port, WithDefault(c.user, Str("")), WithDefault(c.kerbTicketCachePath, Str("")),
           WithDefault(c.authToken, Str("")), WithDefault(c.options, Obj(map[])))
  }

  /** As written, a connection made by createFS never carries a ticket cache path or a token. */
  lemma CreateFsDropsCredentials(c: CreateArgs)
    requires NewFileSystem(CreateFsArgsAsWritten(c)).Ok?
    ensures NewFileSystem(CreateFsArgsAsWritten(c)).value.params.Keys <= {"user"}
  {
  }

  /** A concrete input: createFS({authToken: "t"}) connects without the token. */
  lemma CreateFsDropsToken()
    ensures var c := CreateArgs(Undefined, Undefined, "", true, Undefined, Undefined, Str("t"), Undefined);
            var r := NewFileSystem(CreateFsArgsAsWritten(c));
            r.Ok? && "authToken" !in r.value.params
  {
    var c := CreateArgs(Undefined, Undefined, "", true, Undefined, Undefined, Str("t"), Undefined);
    assert CreateFsArgsAsWritten(c).options == Obj(map[]);
  }

  /** With every field passed on, the connection carries exactly the truthy credentials,
      and createFS fails only for an explicit null options. */
  lemma CreateFsForwardsCredentials(c: CreateArgs)
    ensures var r := NewFileSystem(CreateFsArgs(c));
            && (r.Err? <==> c.options.Null?)
            && (r.Ok? ==> CredentialParams(r.value.params, c.user, c.kerbTicketCachePath, c.authToken))
  {
    var a := CreateFsArgs(c);
    assert Truthy(a.user) <==> Truthy(c.user);
    assert Truthy(a.kerbTicketCachePath) <==> Truthy(c.kerbTicketCachePath);
    assert Truthy(a.authToken) <==> Truthy(c.authToken);
  }

  /** createFS(args): point libhdfs3 at its configuration, then construct the FileSystem. */
  method CreateFS(env: Environment, c: CreateArgs, readable: set<string>) returns (r: Result<Connection>)
    modifies env
    ensures env.vars == ResolveConf(old(env.vars), c.configurationPath, c.useHadoopConfEnv, readable)
    ensures r == NewFileSystem(CreateFsArgs(c))
    ensures r.Ok? ==> CredentialParams(r.value.params, c.user, c.kerbTicketCachePath, c.authToken)
  {
    env.SetConfPath(c.configurationPath, c.useHadoopConfEnv, readable);
    CreateFsForwardsCredentials(c);
    r := NewFileSystem(CreateFsArgs(c));
  }

  /* ---------- one-shot calls ---------- */

  /** The promise every one-shot call builds around its native callback `(err, data)`:
      a truthy error rejects with it, otherwise the data resolves. */
  function Settle<T>(err: Option<Error>, data: T): (r: Result<T>)
    ensures r.Err? <==> Raised(err)
    ensures r.Err? ==> r.error == err.value
    ensures r.Ok? ==> r.value == data
  {
    if Raised(err) then Err(err.value) else Ok(data)
  }

  /** A native error passed as an empty message string is falsy, so the call
      resolves; one passed as an object rejects, whatever its message. */
  lemma EmptyMessageResolves<T>(data: T, message: string, errno: int)
    ensures Settle(Some(Native("")), data) == Ok(data)
    ensures Settle(Some(NativeObject(message, errno)), data) == Err(NativeObject(message, errno))
  {
  }

  /** A directory entry as the native layer builds it. */
  datatype Entry = Entry(path: string, kind: string, size: int, replication: int, blockSize: int,
                         owner: string, group: string, permissions: int, lastMod: int, lastAccess: int)

  /** The native file-kind tag: 'F' is "file", 'D' is "directory", anything else "other". */
  function KindTag(kind: char): (t: string)
    ensures t == "file" <==> kind == 'F'
    ensures t == "directory" <==> kind == 'D'
  {
    if kind == 'F' then "file" else if kind == 'D' then "directory" else "other"
  }

  predicate StartsWith(s: string, prefix: string) {
    |prefix| <= |s| && s[..|prefix|] == prefix
  }

  predicate EndsWith(s: string, suffix: string) {
    |suffix| <= |s| && s[|s| - |suffix|..] == suffix
  }

  /** The path correction list applies to every entry. */
  function NormalisePath(p: string): (r: string)
    ensures |p| >= 2 && p[0] == '/' && p[1] == '/' ==> r == p[1..]
    ensures !(|p| >= 2 && p[0] == '/' && p[1] == '/') && |p| > 1 && p[|p| - 1] == '/' ==> r == p[..|p| - 1]
    ensures !(|p| >= 2 && p[0] == '/' && p[1] == '/') && !(|p| > 1 && p[|p| - 1] == '/') ==> r == p
    ensures |r| == |p| || |r| + 1 == |p|
  {
    if StartsWith(p, "//") then p[1..]
    else if EndsWith(p, "/") && |p| > 1 then p[..|p| - 1]
    else p
  }

  /** The root and the doubled root both come out as the root. */
  lemma NormaliseRoot()
    ensures NormalisePath("/") == "/"
    ensures NormalisePath("//") == "/"
  {
    assert StartsWith("//", "//");
  }

  /** Without a doubled leading or a doubled trailing separator, the corrected
      path has no trailing separator unless it is the root. */
  lemma NormaliseDropsTrailingSeparator(p: string)
    requires !StartsWith(p, "//") && !EndsWith(p, "//")
    ensures NormalisePath(p) == "/" || !EndsWith(NormalisePath(p), "/")
  {
    var r := NormalisePath(p);
    if EndsWith(p, "/") && |p| > 1 {
      assert r == p[..|p| - 1];
    }
  }

  /** Without a tripled leading separator, the corrected path has no doubled leading separator. */
  lemma NormaliseDropsDoubledLead(p: string)
    requires !StartsWith(p, "///")
    ensures !StartsWith(NormalisePath(p), "//")
  {
    var r := NormalisePath(p);
    if StartsWith(p, "//") {
      assert r == p[1..];
    }
  }

  /** Only one of the two corrections is applied: "//a/" keeps its trailing separator. */
  lemma OneCorrectionOnly()
    ensures NormalisePath("//a/") == "/a/"
  {
    assert StartsWith("//a/", "//");
  }

  /** The entries `list` resolves with: each one with its path corrected, in order. */
  function NormaliseAll(entries: seq<Entry>): (r: seq<Entry>)
    ensures |r| == |entries|
    ensures forall i :: 0 <= i < |r| ==> r[i] == entries[i].(path := NormalisePath(entries[i].path))
  {
    if entries == [] then []
    else [entries[0].(path := NormalisePath(entries[0].path))] + NormaliseAll(entries[1..])
  }

  /** list(path): a truthy native error rejects; otherwise every entry comes back with its path corrected. */
  function List(err: Option<Error>, entries: seq<Entry>): (r: Result<seq<Entry>>)
    ensures r.Err? <==> Raised(err)
    ensures r.Ok? ==> |r.value| == |entries|
    ensures r.Ok? ==> forall i :: 0 <= i < |entries| ==>
                        r.value[i].path == NormalisePath(entries[i].path)
                        && r.value[i] == entries[i].(path := r.value[i].path)
  {
    match Settle(err, entries)
    case Err(e) => Err(e)
    case Ok(es) => Ok(NormaliseAll(es))
  }

  /** What the native Exists hands its callback: never an error, and in `data`
      whether hdfsExists found the path. */
  function ExistsCallback(present: bool): (r: (Option<Error>, Value))
    ensures r.0.None? && Truthy(r.1) == present
  {
    (None, Boolean(present))
  }

  /** exists(path) as written: it never rejects, resolves true exactly when the
      native callback's error is falsy, and never looks at `data`. */
  function Exists(err: Option<Error>): (r: Result<bool>)
    ensures r.Ok?
    ensures r.value <==> !Raised(err)
  {
    Ok(!Raised(err))
  }

  /** Because the native callback never passes an error, exists as written
      resolves true for a path that is missing. */
  lemma ExistsIgnoresAnswer()
    ensures Exists(ExistsCallback(false).0) == Ok(true)
  {
  }

  /** exists(path) as intended: it never rejects and resolves true exactly when
      the callback's error is falsy and its answer is true. */
  function ExistsIntended(err: Option<Error>, data: Value): (r: Result<bool>)
    ensures r.Ok?
    ensures r.value <==> !Raised(err) && Truthy(data)
  {
    if Raised(err) then Ok(false) else Ok(Truthy(data))
  }

  /** The intended exists reports what the native call found, present or missing. */
  lemma ExistsIntendedReportsPresence(present: bool)
    ensures ExistsIntended(ExistsCallback(present).0, ExistsCallback(present).1) == Ok(present)
  {
  }

  /** The data the native GetPathInfo passes: the entry when it succeeds, null
      when it fails. */
  function StatData(err: Option<Error>, stat: Entry): (d: Option<Entry>)
    ensures d.None? <==> err.Some?
    ensures d.Some? ==> d.value == stat
  {
    if err.Some? then None else Some(stat)
  }

  /** The property read `s.type` on what stats resolved with: null throws. */
  function TypeOfStat(d: Option<Entry>): (r: Result<string>)
    ensures r.Err? <==> d.None?
    ensures r.Err? ==> r.error == NullishProperty
    ensures r.Ok? ==> r.value == d.value.kind
  {
    match d
    case None => Err(NullishProperty)
    case Some(e) => Ok(e.kind)
  }

  /** isDirectory(path): a truthy stat error propagates; a failure whose message
      is empty resolves stats with null, and reading its type throws; otherwise the
      stat's type is compared with "directory". */
  function IsDirectory(err: Option<Error>, stat: Entry): (r: Result<bool>)
    ensures Raised(err) ==> r == Err(err.value)
    ensures err.Some? && !Raised(err) ==> r == Err(NullishProperty)
    ensures err.None? ==> r == Ok(stat.kind == "directory")
  {
    match Settle(err, StatData(err, stat))
    case Err(e) => Err(e)
    case Ok(d) =>
      match TypeOfStat(d)
      case Err(e) => Err(e)
      case Ok(kind) => Ok(kind == "directory")
  }

  /** isFile(path): as isDirectory, comparing the type with "file". */
  function IsFile(err: Option<Error>, stat: Entry): (r: Result<bool>)
    ensures Raised(err) ==> r == Err(err.value)
    ensures err.Some? && !Raised(err) ==> r == Err(NullishProperty)
    ensures err.None? ==> r == Ok(stat.kind == "file")
  {
    match Settle(err, StatData(err, stat))
    case Err(e) => Err(e)
    case Ok(d) =>
      match TypeOfStat(d)
      case Err(e) => Err(e)
      case Ok(kind) => Ok(kind == "file")
  }

  /** isDirectory and isFile on the same stat are never both true; on a stat
      whose tag came from the native kind, each is true exactly for its kind. */
  lemma DirectoryAndFileExclusive(err: Option<Error>, stat: Entry, kind: char)
    ensures !(IsDirectory(err, stat) == Ok(true) && IsFile(err, stat) == Ok(true))
    ensures stat.kind == KindTag(kind) && err.None? ==>
              (IsDirectory(err, stat) == Ok(true) <==> kind == 'D')
              && (IsFile(err, stat) == Ok(true) <==> kind == 'F')
  {
  }

  /** delete(path, recursive = false): the native flag is 1 for a truthy recursive, else 0. */
  function DeleteFlag(recursive: Value): (r: int)
    ensures r == 0 || r == 1
    ensures r == 1 <==> Truthy(recursive)
  {
    var recursive := WithDefault(recursive, Boolean(false));
    if Truthy(recursive) then 1 else 0
  }

  /** The buffer length getWorkingDirectory allocates: `pathLength` defaults to
      maxPath, and the guard that follows picks pathLength on both of its branches. */
  function WorkingDirectoryLength(pathLength: Value, maxPath: int): (l: Value)
    ensures pathLength.Undefined? ==> l == Number(maxPath as real)
    ensures !pathLength.Undefined? ==> l == pathLength
  {
    var pathLength := WithDefault(pathLength, Number(maxPath as real));
    var guard := IsInteger(pathLength) && (if IsInteger(pathLength) then 1 else 0) > 0;
    if guard then pathLength else pathLength
  }

  /** getWorkingDirectory: a length `Buffer.alloc` refuses rejects before any
      native call; then a native error rejects; otherwise the first `size` bytes
      of the buffer of the allocated length that the native call filled (UTF-8
      decoding is left out). */
  function WorkingDirectory(length: Value, err: Option<Error>, buf: seq<byte>, size: int): (r: Result<seq<byte>>)
    requires Alloc(length).Ok? ==> |buf| == Alloc(length).value
    ensures Alloc(length).Err? ==> r == Err(Alloc(length).error)
    ensures Alloc(length).Ok? && Raised(err) ==> r == Err(err.value)
    ensures r.Ok? <==> Alloc(length).Ok? && !Raised(err)
    ensures r.Ok? ==> |r.value| <= |buf| && r.value == buf[..|r.value|]
    ensures r.Ok? && 0 <= size <= |buf| ==> |r.value| == size
  {
    match Alloc(length)
    case Err(e) => Err(e)
    case Ok(_) =>
      match Settle(err, buf)
      case Err(e) => Err(e)
      case Ok(b) => Ok(Slice(b, size))
  }

  /** A negative requested length rejects with the RangeError of Buffer.alloc,
      whatever the native layer would have answered. */
  lemma NegativeLengthRejects(maxPath: int, n: real, err: Option<Error>, buf: seq<byte>, size: int)
    requires n < 0.0
    ensures WorkingDirectory(WorkingDirectoryLength(Number(n), maxPath), err, buf, size) == Err(SizeOutOfRange)
  {
  }
}
