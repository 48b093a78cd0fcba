/** `FileRouteProvider`: the seventeen file-system routes, the attribute
    bit-flag decomposition, and the handlers whose logic does not depend on
    the file system's contents. The handlers that read the disk are taken as
    parameters (`DiskHandlers`), and the two existence tests the OpenFolder
    route makes are taken as a `FileSystem`. */
module FileRoutes {
  import opened Wrappers
  import opened Text
  import opened Runtime
  import opened Messages
  import opened Responses
  import opened Requests
  import opened Routes
  import opened Routing

  const ProviderName := "FileRoute"
  /** `Key` is "Hularion." followed by `Name`. */
  const ProviderKey := "Hularion." + ProviderName
  const ProviderPurpose := "Provides routes for interacting with the file system."

  /** The base route and the three route prefixes built from it (see
      `RoutePrefixes`). */
  const BaseRoute := "hularion/host/disk"
  const DirectoryRoute := "hularion/host/disk/directory"
  const FileRoute := "hularion/host/disk/file"
  const SystemRoute := "hularion/host/disk/system"

  /** The prefixes are `{0}/directory`, `{0}/file` and `{0}/system` formatted
      with the base route. */
  lemma RoutePrefixes()
    ensures DirectoryRoute == BaseRoute + "/directory"
    ensures FileRoute == BaseRoute + "/file"
    ensures SystemRoute == BaseRoute + "/system"
  {
  }

  /** Text made only of lower-case ASCII letters and slashes. */
  predicate IsRouteText(s: string) {
    forall k :: 0 <= k < |s| ==> s[k] == '/' || 'a' <= s[k] <= 'z'
  }

  lemma PrefixesAreRouteText()
    ensures IsRouteText(BaseRoute) && IsRouteText(DirectoryRoute)
    ensures IsRouteText(FileRoute) && IsRouteText(SystemRoute)
  {
  }

  /** Route text is lower case. */
  lemma RouteTextIsLower(s: string)
    requires IsRouteText(s)
    ensures IsLower(s)
  {
  }

  /** Route texts joined by a slash are route text. */
  lemma RouteTextJoin(prefix: string, leaf: string)
    requires IsRouteText(prefix) && IsRouteText(leaf)
    ensures IsRouteText(prefix + "/" + leaf)
  {
    var k := prefix + "/" + leaf;
    forall j | 0 <= j < |k| ensures k[j] == '/' || 'a' <= k[j] <= 'z' {
      if j < |prefix| {
        assert k[j] == prefix[j];
      } else if j > |prefix| {
        assert k[j] == leaf[j - |prefix| - 1];
      }
    }
  }

  /** Non-empty route text is its own registry key. */
  lemma RouteTextIsKey(k: string)
    requires |k| > 0 && IsRouteText(k)
    ensures GetBaseRoute(k) == k
  {
    assert !IsWhiteSpace(k[0]);
    RouteTextIsLower(k);
    BaseRouteFixesKey(k);
  }

  /** `MakeRoute` under a route-text prefix, of a route whose lower-case form
      is route text: the prefix, a slash and the lowered route. */
  lemma MadeUnder(prefix: string, route: string, lowered: string, path: string)
    requires IsRouteText(prefix) && IsRouteText(lowered) && ToLower(route) == lowered
    requires prefix + "/" + lowered == path
    ensures MakeRoute(prefix, route) == path && IsRouteText(path)
  {
    RouteTextIsLower(prefix);
    LowerUnderLowerPrefix(prefix, route);
    RouteTextJoin(prefix, lowered);
  }

  /** The delimiter the provider reports and uses: one backslash. */
  const DirectoryDelimiter := "\\"
  const DelimiterChar := '\\'

  /** The header every unimplemented route puts on its error message. */
  const StubHeader := "Not Implemented - DirectoryCopyRequest"

  /** `Make*Route(route)`: "<prefix>/<route>", lower-cased as a whole. */
  function MakeRoute(prefix: string, route: string): (path: string)
    ensures IsLower(path)
    ensures IsLower(prefix) ==> path == prefix + "/" + ToLower(route)
  {
    ToLowerIsLower(prefix + "/" + route);
    LowerUnderLowerPrefix(prefix, route);
    ToLower(prefix + "/" + route)
  }

  lemma LowerUnderLowerPrefix(prefix: string, route: string)
    ensures IsLower(prefix) ==> ToLower(prefix + "/" + route) == prefix + "/" + ToLower(route)
  {
    ToLowerAppend(prefix, "/" + route);
    ToLowerAppend("/", route);
    if IsLower(prefix) {
      LowerIsFixedPoint(prefix);
    }
  }

  /** The four route builders: the prefix, a slash and the lower-cased route. */
  function MakeBaseRoute(route: string): (path: string)
    ensures path == BaseRoute + "/" + ToLower(route) && IsLower(path)
  {
    PrefixesAreRouteText();
    RouteTextIsLower(BaseRoute);
    MakeRoute(BaseRoute, route)
  }

  function MakeDirectoryRoute(route: string): (path: string)
    ensures path == DirectoryRoute + "/" + ToLower(route) && IsLower(path)
  {
    PrefixesAreRouteText();
    RouteTextIsLower(DirectoryRoute);
    MakeRoute(DirectoryRoute, route)
  }

  function MakeFileRoute(route: string): (path: string)
    ensures path == FileRoute + "/" + ToLower(route) && IsLower(path)
  {
    PrefixesAreRouteText();
    RouteTextIsLower(FileRoute);
    MakeRoute(FileRoute, route)
  }

  function MakeSystemRoute(route: string): (path: string)
    ensures path == SystemRoute + "/" + ToLower(route) && IsLower(path)
  {
    PrefixesAreRouteText();
    RouteTextIsLower(SystemRoute);
    MakeRoute(SystemRoute, route)
  }

  /** What a route's handler does: report the delimiter, fail as not
      implemented (with the given response type), open a folder, or read the
      disk through a handler given from outside. */
  datatype Behaviour =
    | ReportsDelimiter
    | NotImplemented(responseType: TypeTag)
    | OpensFolder
    | ReadsDisk(handler: TypedHandler)

  /** One entry of the route table: the route's payload type and handler. */
  datatype RouteSpec = RouteSpec(requestType: TypeTag, behaviour: Behaviour)

  /** A route's `Name`, `Method` and `Usage`. */
  datatype Description = Description(name: string, callName: string, usage: string)

  /** Whether a directory, and whether a file, exists at a path. */
  datatype FileSystem = FileSystem(directoryExists: string -> bool, fileExists: string -> bool)

  /** The handlers that read the disk, in the order their routes appear. */
  datatype DiskHandlers = DiskHandlers(
    directoryAllAttributes: TypedHandler,
    directoryAttributes: TypedHandler,
    directoryRead: TypedHandler,
    drives: TypedHandler,
    fileAllAttributes: TypedHandler,
    fileAttributes: TypedHandler,
    fs: FileSystem)

  /** The response of an unimplemented route: a new typed response (no key, no
      detail) set to failure with one error message that carries the request
      key and the stub header. */
  function StubResponse(request: Request, responseType: TypeTag): (r: Response)
    ensures r.state == Failure && r.isFailure && Consistent(r)
    ensures r.requestKey.None? && r.detail.None? && r.typeArg == Some(responseType)
    ensures |r.messages| == 1
    ensures var m := r.messages[0];
            m.isError && m.kind == Error && m.header == Some(StubHeader) && m.text.None?
            && m.requestKey == request.key
  {
    SetAsFailure(NewResponse(Some(responseType)), [CreateErrorMessage(request, Some(StubHeader), None)])
  }

  /** The typed handler of a route that is not implemented: every request
      gets the not-implemented response. */
  function StubHandler(responseType: TypeTag): (f: TypedHandler)
    ensures forall request :: f(request) == Ok(StubResponse(request, responseType))
  {
    request => Ok(StubResponse(request, responseType))
  }

  /** The delimiter route's answer: a new typed response whose detail reports
      the backslash; the request is not read. */
  function DelimiterResponse(): (r: Response)
    ensures r.state == Success && !r.isFailure && r.messages == [] && r.requestKey.None?
    ensures r.typeArg == Some(DelimiterResponseType)
    ensures r.detail == Some(Delimiter(DirectoryDelimiter))
  {
    NewResponse(Some(DelimiterResponseType)).(detail := Some(Delimiter(DirectoryDelimiter)))
  }

  /** The delimiter route's typed handler: every request gets the same answer. */
  function DelimiterHandler(): (f: TypedHandler)
    ensures forall request :: f(request) == Ok(DelimiterResponse())
  {
    request => Ok(DelimiterResponse())
  }

  /** `Directory.Exists` and `File.Exists`, both false for a null path. */
  function DirectoryExists(fs: FileSystem, path: Option<string>): bool {
    path.Some? && fs.directoryExists(path.value)
  }

  function FileExists(fs: FileSystem, path: Option<string>): bool {
    path.Some? && fs.fileExists(path.value)
  }

  /** The text before the last backslash. */
  function ParentOf(path: string): (parent: string)
    requires DelimiterChar in path
    ensures parent + [DelimiterChar] <= path
    ensures forall k :: |parent| < k < |path| ==> path[k] != DelimiterChar
  {
    var i := LastIndexOf(path, DelimiterChar);
    assert path[..i + 1] == path[..i] + [DelimiterChar];
    path[..i]
  }

  /** The folder OpenFolder opens, or `None` when it reports the folder
      missing: the requested directory when it exists; otherwise, for an
      existing file whose path has a backslash, the text before the last
      backslash when that is a directory. */
  function FolderToOpen(fs: FileSystem, directory: Option<string>): (folder: Option<string>)
    ensures folder.Some? ==> fs.directoryExists(folder.value)
    ensures DirectoryExists(fs, directory) ==> folder == directory
    ensures !DirectoryExists(fs, directory) ==>
              (folder.Some? <==>
                 && FileExists(fs, directory)
                 && DelimiterChar in directory.value
                 && fs.directoryExists(ParentOf(directory.value)))
    ensures !DirectoryExists(fs, directory) && folder.Some? ==> folder == Some(ParentOf(directory.value))
  {
    var candidate :=
      if !DirectoryExists(fs, directory) && FileExists(fs, directory) && DelimiterChar in directory.value
      then Some(ParentOf(directory.value))
      else directory;
    if DirectoryExists(fs, candidate) then candidate else None
  }

  /** The message OpenFolder adds when there is no folder to open. */
  function FolderNotFound(): Message {
    Message(Some("Folder not found."), Some("The requested folder was not found"), true, None, None, Error)
  }

  /** `OpenFolderRequest.Directory` of a request payload; a payload of another
      shape is read as a request whose directory is null. */
  function DirectoryOf(detail: Payload): Option<string> {
    if detail.Folder? then detail.directory else None
  }

  /** The OpenFolder route's answer. A missing folder sets `IsFailure` and adds
      one error message but leaves `State` at `Success`; a folder that is
      found is opened (not modelled) and the response is a plain success. */
  function OpenFolderResponse(request: Request, fs: FileSystem, directory: Option<string>): (r: Response)
    ensures r.requestKey == request.key && r.typeArg == Some(OpenFolderResponseType)
    ensures r.detail == Some(Fresh(OpenFolderResponseType))
    ensures r.state == Success
    ensures r.isFailure <==> FolderToOpen(fs, directory).None?
    ensures r.isFailure ==> r.messages == [FolderNotFound()]
    ensures !r.isFailure ==> r.messages == []
  {
    var response := CreateTypedResponse(request, OpenFolderResponseType);
    if FolderToOpen(fs, directory).None? then
      response.(isFailure := true, messages := response.messages + [FolderNotFound()])
    else response.(state := Success)
  }

  /** The typed OpenFolder handler: a null request detail is a null reference. */
  function OpenFolderHandler(fs: FileSystem): (f: TypedHandler)
    ensures forall request: Request :: request.detail.None? ==> f(request) == Err(NullReference)
    ensures forall request: Request :: request.detail.Some? ==>
              f(request) == Ok(OpenFolderResponse(request, fs, DirectoryOf(request.detail.value)))
  {
    (request: Request) =>
      if request.detail.None? then Err(NullReference)
      else Ok(OpenFolderResponse(request, fs, DirectoryOf(request.detail.value)))
  }

  /** A failed OpenFolder response has `IsFailure` set while `State` stays
      `Success`. */
  lemma OpenFolderFailureIsInconsistent(request: Request, fs: FileSystem, directory: Option<string>)
    requires FolderToOpen(fs, directory).None?
    ensures !Consistent(OpenFolderResponse(request, fs, directory))
  {
  }

  /** The typed handler a table entry installs. */
  function HandlerOf(b: Behaviour, fs: FileSystem): TypedHandler {
    match b
    case ReportsDelimiter => DelimiterHandler()
    case NotImplemented(t) => StubHandler(t)
    case OpensFolder => OpenFolderHandler(fs)
    case ReadsDisk(f) => f
  }

  function T(name: string): TypeTag { TypeTag(name) }

  /** Entry `i` of the route table, in registration order: its payload type
      and handler. Its path is `Paths[i]` and its description `Describe(i)`. */
  function Entry(disk: DiskHandlers, i: nat): RouteSpec
    requires i < 17
  {
    match i
    case 0 => RouteSpec(DelimiterRequestType, ReportsDelimiter)
    case 1 => RouteSpec(T("DirectoryAllAttributeRequest"), ReadsDisk(disk.directoryAllAttributes))
    case 2 => RouteSpec(T("DirectoryAttributeRequest"), ReadsDisk(disk.directoryAttributes))
    case 3 => RouteSpec(T("DirectoryCopyRequest"), NotImplemented(T("DirectoryCopyResponse")))
    case 4 => RouteSpec(T("DirectoryCreateRequest"), NotImplemented(T("DirectoryCreateResponse")))
    case 5 => RouteSpec(T("DirectoryDeleteRequest"), NotImplemented(T("DirectoryDeleteResponse")))
    case 6 => RouteSpec(T("DirectoryMoveRequest"), NotImplemented(T("DirectoryMoveResponse")))
    case 7 => RouteSpec(T("DirectoryReadRequest"), ReadsDisk(disk.directoryRead))
    case 8 => RouteSpec(T("DrivesRequest"), ReadsDisk(disk.drives))
    case 9 => RouteSpec(T("FileAllAttributeRequest"), ReadsDisk(disk.fileAllAttributes))
    case 10 => RouteSpec(T("FileAttributeRequest"), ReadsDisk(disk.fileAttributes))
    case 11 => RouteSpec(T("FileCopyRequest"), NotImplemented(T("FileCopyResponse")))
    case 12 => RouteSpec(T("FileCreateRequest"), NotImplemented(T("FileCreateResponse")))
    case 13 => RouteSpec(T("FileDeleteRequest"), NotImplemented(T("FileDeleteResponse")))
    case 14 => RouteSpec(T("FileMoveRequest"), NotImplemented(T("FileMoveResponse")))
    case 15 => RouteSpec(T("FileReadRequest"), NotImplemented(T("FileReadResponse")))
    case 16 => RouteSpec(OpenFolderRequestType, OpensFolder)
  }

  /** The `Name`, `Method` and `Usage` of entry `i`. */
  function Describe(i: nat): Description
    requires i < 17
  {
    match i
    case 0 => Description("Get Delimiter", "GetDelimiter",
                          "Retrieves the delimiter used to separate file names. (e.g. '' or '/')")
    case 1 => Description("Get All Possible Directory Attributes", "GetPossibleDirectoryAttributes",
                          "Returns all available attributes for directories.")
    case 2 => Description("Get Directory's Attributes", "GetDirectoryAttributes",
                          "Returns attributes of the provided directory.")
    case 3 => Description("Copy Directory", "CopyDirectory",
                          "Copies one or more directories from one location to another.")
    case 4 => Description("Create Directory", "CreateDirectory", "")
    case 5 => Description("Delete Directory", "DeleteDirectory", "")
    case 6 => Description("Move Directory", "MoveDirectory", "")
    case 7 => Description("Read Directory", "ReadDirectory",
                          "Reads the directory, returning all subdirectories and files matching the provided attributes.")
    case 8 => Description("Get Drives", "GetDrives",
                          "Returns the available logical drives.")
    case 9 => Description("Get All Possible File Attributes", "GetPossibleFileAttributes",
                          "Returns all available attributes of files.")
    case 10 => Description("Get File's Attributes", "GetFileAttributes",
                           "Returns the attributes of the specified file")
    case 11 => Description("Copy File", "CopyFile", "")
    case 12 => Description("Create File", "CreateFile", "")
    case 13 => Description("Delete File", "DeleteFile", "")
    case 14 => Description("Move File", "MoveFile", "")
    case 15 => Description("Read File", "ReadFile", "")
    case 16 => Description("Open Folder", "OpenFolder",
                           "Opens the folder using the operating system's viewer.")
  }

  /** The route table in registration order. */
  function Table(disk: DiskHandlers): (table: seq<RouteSpec>)
    ensures |table| == 17
    ensures forall i :: 0 <= i < 17 ==> table[i] == Entry(disk, i)
  {
    seq(17, i requires 0 <= i < 17 => Entry(disk, i))
  }

  /** The seventeen route paths, in table order: `AllPaths` shows each is
      the `Make*Route` result the constructor stores (the delimiter route's is
      formatted directly). */
  const Paths: seq<string> := [
    "hularion/host/disk/delimiter",
    "hularion/host/disk/directory/allattributes",
    "hularion/host/disk/directory/attributes",
    "hularion/host/disk/directory/copy",
    "hularion/host/disk/directory/create",
    "hularion/host/disk/directory/delete",
    "hularion/host/disk/directory/move",
    "hularion/host/disk/directory/read",
    "hularion/host/disk/drives",
    "hularion/host/disk/file/allattributes",
    "hularion/host/disk/file/attributes",
    "hularion/host/disk/file/copy",
    "hularion/host/disk/file/create",
    "hularion/host/disk/file/delete",
    "hularion/host/disk/file/move",
    "hularion/host/disk/file/read",
    "hularion/host/disk/system/openfolder"]

  lemma AllAttributesLowered()
    ensures ToLower("allAttributes") == "allattributes"
  {
  }

  /** The directory "allAttributes" route loses its capital. */
  lemma DirectoryAllAttributesPath()
    ensures MakeDirectoryRoute("allAttributes") == Paths[1] && IsRouteText(Paths[1])
  {
    PrefixesAreRouteText();
    AllAttributesLowered();
    MadeUnder(DirectoryRoute, "allAttributes", "allattributes", Paths[1]);
  }

  /** The file "allAttributes" route loses its capital. */
  lemma FileAllAttributesPath()
    ensures MakeFileRoute("allAttributes") == Paths[9] && IsRouteText(Paths[9])
  {
    PrefixesAreRouteText();
    AllAttributesLowered();
    MadeUnder(FileRoute, "allAttributes", "allattributes", Paths[9]);
  }

  /** The attribute routes. */
  lemma AttributesPaths()
    ensures MakeDirectoryRoute("attributes") == Paths[2] && IsRouteText(Paths[2])
    ensures MakeFileRoute("attributes") == Paths[10] && IsRouteText(Paths[10])
  {
    PrefixesAreRouteText();
    MadeUnder(DirectoryRoute, "attributes", "attributes", Paths[2]);
    MadeUnder(FileRoute, "attributes", "attributes", Paths[10]);
  }

  /** The copy routes. */
  lemma CopyPaths()
    ensures MakeDirectoryRoute("copy") == Paths[3] && IsRouteText(Paths[3])
    ensures MakeFileRoute("copy") == Paths[11] && IsRouteText(Paths[11])
  {
    PrefixesAreRouteText();
    MadeUnder(DirectoryRoute, "copy", "copy", Paths[3]);
    MadeUnder(FileRoute, "copy", "copy", Paths[11]);
  }

  /** The create routes. */
  lemma CreatePaths()
    ensures MakeDirectoryRoute("create") == Paths[4] && IsRouteText(Paths[4])
    ensures MakeFileRoute("create") == Paths[12] && IsRouteText(Paths[12])
  {
    PrefixesAreRouteText();
    MadeUnder(DirectoryRoute, "create", "create", Paths[4]);
    MadeUnder(FileRoute, "create", "create", Paths[12]);
  }

  /** The delete routes. */
  lemma DeletePaths()
    ensures MakeDirectoryRoute("delete") == Paths[5] && IsRouteText(Paths[5])
    ensures MakeFileRoute("delete") == Paths[13] && IsRouteText(Paths[13])
  {
    PrefixesAreRouteText();
    MadeUnder(DirectoryRoute, "delete", "delete", Paths[5]);
    MadeUnder(FileRoute, "delete", "delete", Paths[13]);
  }

  /** The move routes. */
  lemma MovePaths()
    ensures MakeDirectoryRoute("move") == Paths[6] && IsRouteText(Paths[6])
    ensures MakeFileRoute("move") == Paths[14] && IsRouteText(Paths[14])
  {
    PrefixesAreRouteText();
    MadeUnder(DirectoryRoute, "move", "move", Paths[6]);
    MadeUnder(FileRoute, "move", "move", Paths[14]);
  }

  /** The read routes. */
  lemma ReadPaths()
    ensures MakeDirectoryRoute("read") == Paths[7] && IsRouteText(Paths[7])
    ensures MakeFileRoute("read") == Paths[15] && IsRouteText(Paths[15])
  {
    PrefixesAreRouteText();
    MadeUnder(DirectoryRoute, "read", "read", Paths[7]);
    MadeUnder(FileRoute, "read", "read", Paths[15]);
  }

  /** The drives route. */
  lemma DrivesPath()
    ensures MakeBaseRoute("drives") == Paths[8] && IsRouteText(Paths[8])
  {
    PrefixesAreRouteText();
    MadeUnder(BaseRoute, "drives", "drives", Paths[8]);
  }

  /** The delimiter and OpenFolder routes; the delimiter route is not
      lower-cased, and needs not be. */
  lemma DelimiterAndSystemPaths()
    ensures BaseRoute + "/delimiter" == Paths[0] && IsRouteText(Paths[0])
    ensures MakeSystemRoute("openfolder") == Paths[16] && IsRouteText(Paths[16])
  {
    PrefixesAreRouteText();
    RouteTextJoin(BaseRoute, "delimiter");
    MadeUnder(SystemRoute, "openfolder", "openfolder", Paths[16]);
  }

  /** Every path is a `Make*Route` result and route text. */
  lemma AllPaths()
    ensures MakeDirectoryRoute("allAttributes") == Paths[1] && MakeFileRoute("allAttributes") == Paths[9]
    ensures MakeDirectoryRoute("attributes") == Paths[2] && MakeFileRoute("attributes") == Paths[10]
    ensures MakeDirectoryRoute("copy") == Paths[3] && MakeFileRoute("copy") == Paths[11]
    ensures MakeDirectoryRoute("create") == Paths[4] && MakeFileRoute("create") == Paths[12]
    ensures MakeDirectoryRoute("delete") == Paths[5] && MakeFileRoute("delete") == Paths[13]
    ensures MakeDirectoryRoute("move") == Paths[6] && MakeFileRoute("move") == Paths[14]
    ensures MakeDirectoryRoute("read") == Paths[7] && MakeFileRoute("read") == Paths[15]
    ensures BaseRoute + "/delimiter" == Paths[0] && MakeBaseRoute("drives") == Paths[8]
    ensures MakeSystemRoute("openfolder") == Paths[16]
    ensures forall i :: 0 <= i < 17 ==> IsRouteText(Paths[i])
  {
    DirectoryAllAttributesPath();
    FileAllAttributesPath();
    AttributesPaths();
    CopyPaths();
    CreatePaths();
    DeletePaths();
    MovePaths();
    ReadPaths();
    DrivesPath();
    DelimiterAndSystemPaths();
  }

  /** The seventeen paths are pairwise distinct. */
  lemma PathsDistinct()
    ensures |Paths| == 17
    ensures forall i, j :: 0 <= i < j < 17 ==> Paths[i] != Paths[j]
  {
  }

  /** Each path is its own registry key. */
  lemma PathIsKey(i: nat)
    requires i < 17
    ensures GetBaseRoute(Paths[i]) == Paths[i]
  {
    AllPaths();
    RouteTextIsKey(Paths[i]);
  }

  /** Exactly the nine routes at indices 3-6 and 11-15 are not implemented. */
  lemma NineStubs(disk: DiskHandlers)
    ensures forall i :: 0 <= i < 17 ==>
              (Entry(disk, i).behaviour.NotImplemented? <==> 3 <= i <= 6 || 11 <= i <= 15)
  {
  }

  /** The route's `Route`, `Name`, `Method` and `Usage` are `path` and `d`,
      and it is not open. */
  ghost predicate Described(route: RouteRecord, path: string, d: Description) {
    && route.path == path && route.name == Some(d.name) && route.callName == Some(d.callName)
    && route.usage == Some(d.usage) && !route.isOpen
  }

  /** The route at `id` has the entry's payload type and its own erased
      handler, over the entry's typed handler. */
  ghost predicate Installs(route: RouteRecord, spec: RouteSpec, fs: FileSystem, id: RouteId) {
    && route.messageType == spec.requestType && route.erased == id
    && route.handler == Some(HandlerOf(spec.behaviour, fs))
  }

  /** `routes.Add(new HularionRoute<...> { ... })` for each entry in order. */
  function DeclareAll(h: Heap, paths: seq<string>, ds: seq<Description>, specs: seq<RouteSpec>, fs: FileSystem)
    : (res: (Heap, seq<RouteId>))
    requires |paths| == |ds| == |specs|
    ensures |res.0.routes| == |h.routes| + |specs| && |res.1| == |specs|
    ensures Extends(h, res.0)
    ensures Valid(h) ==> Valid(res.0)
    ensures forall i :: 0 <= i < |specs| ==> res.1[i] == |h.routes| + i
    ensures forall i :: 0 <= i < |specs| ==> PathOf(res.0, |h.routes| + i) == paths[i]
    decreases |specs|
  {
    if |specs| == 0 then (h, [])
    else
      var n := |specs| - 1;
      var (h1, ids) := DeclareAll(h, paths[..n], ds[..n], specs[..n], fs);
      var d, s := ds[n], specs[n];
      var init := Init(Some(d.name), Some(d.callName), Some(d.usage), None, Some(HandlerOf(s.behaviour, fs)));
      var (h2, id) := Declare(h1, s.requestType, paths[n], init);
      (h2, ids + [id])
  }

  /** Declared route `i` carries description `i` and installs entry `i`. */
  lemma {:induction false} DeclaredRoute(h: Heap, paths: seq<string>, ds: seq<Description>, specs: seq<RouteSpec>,
                                         fs: FileSystem, i: nat)
    requires |paths| == |ds| == |specs| && i < |specs|
    ensures var h' := DeclareAll(h, paths, ds, specs, fs).0;
            && Described(h'.routes[|h.routes| + i], paths[i], ds[i])
            && Installs(h'.routes[|h.routes| + i], specs[i], fs, |h.routes| + i)
    decreases |specs|
  {
    var n := |specs| - 1;
    if i < n {
      DeclaredRoute(h, paths[..n], ds[..n], specs[..n], fs, i);
    }
  }

  /** The descriptions in table order. */
  function Descriptions(): (ds: seq<Description>)
    ensures |ds| == 17
    ensures forall i :: 0 <= i < 17 ==> ds[i] == Describe(i)
  {
    seq(17, i requires 0 <= i < 17 => Describe(i))
  }

  /** `new FileRouteProvider()`: the seventeen routes, declared in table
      order, and the provider "FileRoute" that exposes them. */
  function CreateFileRouteProvider(h: Heap, disk: DiskHandlers): (res: (Heap, ProviderId))
    ensures Extends(h, res.0.(providers := h.providers))
    ensures Valid(h) ==> Valid(res.0)
    ensures |res.0.routes| == |h.routes| + 17
    ensures res.1 == |h.providers| && |res.0.providers| == |h.providers| + 1
    ensures res.0.providers[..|h.providers|] == h.providers
    ensures var p := res.0.providers[res.1];
            && p.name == Some(ProviderName) && p.key == Some(ProviderKey) && p.purpose == Some(ProviderPurpose)
            && |p.routes| == 17
            && forall i :: 0 <= i < 17 ==> p.routes[i] == |h.routes| + i
    ensures forall i :: 0 <= i < 17 ==> PathOf(res.0, |h.routes| + i) == Paths[i]
  {
    var (h1, ids) := DeclareAll(h, Paths, Descriptions(), Table(disk), disk.fs);
    var provider := Provider(Some(ProviderName), Some(ProviderKey), Some(ProviderPurpose), ids);
    (h1.(providers := h1.providers + [provider]), |h1.providers|)
  }

  /** Route `i` of a new provider carries path `i` and entry `i`'s name,
      method name and usage, and is closed. */
  lemma CreatedRouteDescribed(h: Heap, disk: DiskHandlers, i: nat)
    requires i < 17
    ensures var h' := CreateFileRouteProvider(h, disk).0;
            && |h.routes| + i < |h'.routes|
            && var route := h'.routes[|h.routes| + i];
               && route.path == Paths[i] && !route.isOpen
               && route.name == Some(Describe(i).name) && route.callName == Some(Describe(i).callName)
               && route.usage == Some(Describe(i).usage)
  {
    DeclaredRoute(h, Paths, Descriptions(), Table(disk), disk.fs, i);
  }

  /** Route `i` of a new provider has entry `i`'s payload type and its own
      erased handler over entry `i`'s typed handler. */
  lemma CreatedRouteInstalls(h: Heap, disk: DiskHandlers, i: nat)
    requires i < 17
    ensures var h' := CreateFileRouteProvider(h, disk).0;
            && |h.routes| + i < |h'.routes|
            && Installs(h'.routes[|h.routes| + i], Entry(disk, i), disk.fs, |h.routes| + i)
  {
    DeclaredRoute(h, Paths, Descriptions(), Table(disk), disk.fs, i);
  }

  /** The new provider's routes are the seventeen new route records, in table
      order, with the seventeen paths. */
  lemma ProviderRoutePaths(h: Heap, disk: DiskHandlers)
    requires Valid(h)
    ensures var (h', pid) := CreateFileRouteProvider(h, disk);
            var ids := h'.providers[pid].routes;
            && CarriesPaths(h', pid)
            && forall j :: 0 <= j < 17 ==> ids[j] == |h.routes| + j
  {
  }

  /** The seventeen paths as a set. */
  function PathSet(): set<string> {
    set j | 0 <= j < 17 :: Paths[j]
  }

  lemma PathSetSize()
    ensures |PathSet()| == 17
  {
    PathsDistinct();
    DistinctSize(Paths);
  }

  /** A provider with a key whose routes carry the seventeen paths in order. */
  ghost predicate CarriesPaths(h: Heap, pid: ProviderId) {
    && Valid(h) && pid < |h.providers| && h.providers[pid].key.Some?
    && |h.providers[pid].routes| == 17
    && forall j :: 0 <= j < 17 ==> PathOf(h, h.providers[pid].routes[j]) == Paths[j]
  }

  /** Registering such a provider adds exactly the seventeen paths as keys. */
  lemma FileRouteKeys(r: Router, h: Heap, pid: ProviderId)
    requires CarriesPaths(h, pid)
    ensures var res := RegisterRouteProvider(r, h, pid);
            res.Ok? && res.value.routes.Keys == r.routes.Keys + PathSet()
  {
    var ids := h.providers[pid].routes;
    forall k ensures k in RegisterAll(r.routes, h, ids) <==> k in r.routes || k in PathSet() {
      RegisterAllKeys(r.routes, h, ids, k);
      if k in PathSet() {
        var j :| 0 <= j < 17 && Paths[j] == k;
        assert PathOf(h, ids[j]) == k;
      }
    }
  }

  /** After registering such a provider, looking up path `i` finds its route `i`. */
  lemma FileRouteLookup(r: Router, h: Heap, pid: ProviderId, i: nat)
    requires CarriesPaths(h, pid) && i < 17
    ensures var res := RegisterRouteProvider(r, h, pid);
            res.Ok? && GetRoute(res.value, Paths[i]) == Some(h.providers[pid].routes[i])
  {
    var ids := h.providers[pid].routes;
    PathsDistinct();
    PathIsKey(i);
    assert LastWithPath(h, ids, i);
    RegisterAllLastWins(r.routes, h, ids, i);
  }

  /** Registering a provider whose routes carry the seventeen paths adds
      exactly those paths as keys, each holding its own route (none overwrites
      another), so every route is reachable through `GetRoute` on its path;
      into a registry that has none of those paths, that is seventeen new
      entries. */
  lemma RegisteringCarrier(r: Router, h: Heap, pid: ProviderId, i: nat)
    requires CarriesPaths(h, pid) && i < 17
    ensures var res := RegisterRouteProvider(r, h, pid);
            && res.Ok?
            && res.value.routes.Keys == r.routes.Keys + PathSet()
            && (r.routes.Keys !! PathSet() ==> |res.value.routes| == |r.routes| + 17)
            && GetRoute(res.value, Paths[i]) == Some(h.providers[pid].routes[i])
  {
    var res := RegisterRouteProvider(r, h, pid);
    FileRouteKeys(r, h, pid);
    PathSetSize();
    FileRouteLookup(r, h, pid, i);
    if r.routes.Keys !! PathSet() {
      assert |res.value.routes.Keys| == |r.routes.Keys| + |PathSet()|;
    }
  }

  /** Route `i` of a new provider answers a request of its payload type with
      the handler its table entry installs. */
  lemma TableRouteAnswers(h: Heap, disk: DiskHandlers, i: nat, request: Request)
    requires Valid(h) && i < 17
    requires request.typeArg == Some(Entry(disk, i).requestType)
    ensures var h' := CreateFileRouteProvider(h, disk).0;
            Invoke(h', |h.routes| + i, request) == HandlerOf(Entry(disk, i).behaviour, disk.fs)(request)
  {
    var h' := CreateFileRouteProvider(h, disk).0;
    var id := |h.routes| + i;
    CreatedRouteInstalls(h, disk, i);
    assert h'.routes[id].erased == id && h'.routes[id].handler == Some(HandlerOf(Entry(disk, i).behaviour, disk.fs));
  }

  /** Each unimplemented route answers a request of its payload type with the
      stub failure for its response type. */
  lemma StubRoutesFail(h: Heap, disk: DiskHandlers, i: nat, request: Request)
    requires Valid(h) && i < 17 && Entry(disk, i).behaviour.NotImplemented?
    requires request.typeArg == Some(Entry(disk, i).requestType)
    ensures var h' := CreateFileRouteProvider(h, disk).0;
            Invoke(h', |h.routes| + i, request) == Ok(StubResponse(request, Entry(disk, i).behaviour.responseType))
  {
    TableRouteAnswers(h, disk, i, request);
  }

  /** The delimiter route answers every request of its payload type with the
      backslash. */
  lemma DelimiterRouteReportsBackslash(h: Heap, disk: DiskHandlers, request: Request)
    requires Valid(h) && request.typeArg == Some(DelimiterRequestType)
    ensures var h' := CreateFileRouteProvider(h, disk).0;
            Invoke(h', |h.routes|, request) == Ok(DelimiterResponse())
  {
    assert Entry(disk, 0).behaviour == ReportsDelimiter && Entry(disk, 0).requestType == DelimiterRequestType;
    TableRouteAnswers(h, disk, 0, request);
  }

  /** The OpenFolder route answers a request carrying a folder request with
      the OpenFolder response for that directory, and a request without a
      payload with a null reference. */
  lemma OpenFolderRouteDecides(h: Heap, disk: DiskHandlers, request: Request)
    requires Valid(h) && request.typeArg == Some(OpenFolderRequestType)
    ensures var h' := CreateFileRouteProvider(h, disk).0;
            && (request.detail.None? ==> Invoke(h', |h.routes| + 16, request) == Err(NullReference))
            && (request.detail.Some? ==>
                  Invoke(h', |h.routes| + 16, request)
                  == Ok(OpenFolderResponse(request, disk.fs, DirectoryOf(request.detail.value))))
  {
    assert Entry(disk, 16).behaviour == OpensFolder && Entry(disk, 16).requestType == OpenFolderRequestType;
    TableRouteAnswers(h, disk, 16, request);
  }
}
