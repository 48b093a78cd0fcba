/** What the source gets from the .NET runtime: the identity of a type (used
    where the source calls `typeof`, `GetType` or `MakeGenericType`), the
    payload objects a request or response carries in its `Detail`, and the
    exceptions that escape a call. */
module Runtime {
  import opened Wrappers

  /** The identity of a runtime type, compared by name. */
  datatype TypeTag = TypeTag(name: string)

  /** `System.Object`, the payload type of an anonymous route. */
  const ObjectType := TypeTag("object")

  /** Payload types that the providers inspect. */
  const MetaRouteRequestType := TypeTag("MetaRouteRequest")
  const MetaRouteResponseType := TypeTag("MetaRouteResponse")
  const DelimiterRequestType := TypeTag("DelimiterRequest")
  const DelimiterResponseType := TypeTag("DelimiterResponse")
  const OpenFolderRequestType := TypeTag("OpenFolderRequest")
  const OpenFolderResponseType := TypeTag("OpenFolderResponse")

  /** One row of the meta provider's listing (`RouteInfo`). */
  datatype RouteInfo = RouteInfo(name: Option<string>, route: string, usage: Option<string>, provider: Option<string>)

  /** A non-null payload object. Only the shapes that the modelled handlers
      read or write are spelled out; every other object is `Opaque`. */
  datatype Payload =
    | Fresh(freshTag: TypeTag)                 // made by the type's parameterless constructor, nothing assigned
    | Opaque(opaqueTag: TypeTag, id: nat)      // an object whose members the model does not look at
    | Delimiter(delimiter: string)             // DelimiterResponse
    | Folder(directory: Option<string>)        // OpenFolderRequest
    | MetaListing(routes: seq<RouteInfo>)      // MetaRouteResponse
  {
    /** The runtime type of the object (`GetType()`). */
    function Tag(): TypeTag {
      match this
      case Fresh(t) => t
      case Opaque(t, _) => t
      case Delimiter(_) => DelimiterResponseType
      case Folder(_) => OpenFolderRequestType
      case MetaListing(_) => MetaRouteResponseType
    }
  }

  /** Exceptions that escape an operation of the model. */
  datatype Fault =
    | InvalidCast                     // a downcast to the wrong generic instantiation
    | NullReference                   // a member accessed through a null reference
    | RouteNotOpen(route: string)     // RegisterAnonymousRoute on a closed route (ArgumentException)
    | InvalidPath(path: string)       // FileInformation on an empty or whitespace path (ArgumentException)
    | CollectionModified              // a list enumerated while it is being appended to
    | FileNotFound(file: string)      // FileInfo.Length of a path that is not an existing file
}
