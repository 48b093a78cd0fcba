# HularionPlugin routing core in Dafny

A functional model of the HularionPlugin message router and its two bundled route providers.

**What it models**
- Requests and responses travel in envelopes: `RoutedRequest`, `RoutedResponse` and `RoutedResponseMessage`.
- A request names a route string. The router normalises that string into a registry key (`GetBaseRoute`).
- The query part of the route string yields name/value variables.
- Each registered route is a `HularionRoute<Req, Resp>`. It carries a request payload type. It also carries a type-erased handler that casts the request and calls the route's typed handler as it is at call time.
- `HularionRouter` keeps four dictionaries:
  - primary routes by raw route string;
  - open-route overrides by normalised string;
  - providers by lower-cased key;
  - the owner of each route object.
- The router answers typed requests and JSON requests. A typed request goes to one of three places: an unknown-route response, the anonymous override, or the primary handler. A JSON request goes to the unknown-route response or the primary handler; overrides are never consulted.
- `RouterProvider` re-exposes another provider's routes. Without a prefix it shares the same route objects. With a prefix it clones them.
- `MetaRouter` lists the registry.
- `FileRouteProvider` declares seventeen file-system routes.
- `FileInformation` splits a path into directory segments, a name and an extension.

**Modules**
- `Wrappers`: `Option` and `Result`.
- `Runtime`: type tags, payload shapes and the exceptions that escape (`Fault`).
- `Text`: `seq<char>` primitives in .NET's terms.
- `Messages`, `Responses`, `Requests`: the envelopes.
- `Routes`: route records and the object heap. Routes and providers live in a `Heap` and are referred to by index, which gives them identity. A route's `erased` field names the route whose constructor built its erased handler. Clones copy that field, so they share the original's typed handler.
- `Routing`: the router.
- `RouterProviders`, `Meta`, `Files`, `FileAttributes`, `FileRoutes`: the providers and the file helpers.

**External behaviour taken as parameters**
- A thrown exception is an `Err(Fault)`.
- Handlers are Dafny function values.
- The JSON library is a `Codec` parameter. It has four parts, and each may fail: the `Route` member as the `Serializer`'s document parser reads it, the same member as the `Deserializer`'s parser reads it, a request read as a given type, and a response written out.
- The disk-reading handlers are a `DiskHandlers` parameter.
- `Directory.Exists` and `File.Exists` are a `FileSystem` parameter.
- Whether a path is an existing file, which decides whether `FileInfo.Length` throws in `FileInformation(path)`, is an `isFile` parameter.
- The order in which the route dictionary enumerates is a `keys` parameter.

## Behaviour worth knowing

- **`GetBaseRoute` is not idempotent on every input.** `" ?a"` gives `" "`, which gives `""`.
  - `Requests.BaseRouteNotIdempotentOnBlank` exhibits the counterexample.
  - `Requests.BaseRouteIdempotent` states exactly when idempotence holds.
- **Routes are stored under their raw `Route` string, while every lookup normalises.** `RegisterRoute`, `RegisterRoutes` and `RegisterRouteProvider` all store under the raw string.
  - A route whose path has an upper-case letter or a `?` can never be found.
  - Conversely, a blank key such as `" "` can be found, through `" ?a"`.
  - `Requests.BaseRouteImage` gives the exact set of keys a lookup can produce.
- **An unknown route gets `State = Failure` with `IsFailure` false and a non-error message.**
  - The one message has `IsError` false.
  - It carries the default `Type` and no `RequestKey`.
- **The OpenFolder failure response is inconsistent.** It sets `IsFailure` but leaves `State` at `Success`.
- **Two literal strings differ from what they appear to say.**
  - The delimiter route's usage text reads `(e.g. '' or '/')`, because the C# source writes `\'` inside a regular string literal.
  - All nine unimplemented routes use the header "Not Implemented - DirectoryCopyRequest".

## Model

| member | source | states |
|---|---|---|
| Text.ToLower | HularionPlugin/Route/RoutedRequest.cs:92-94 | lower-casing keeps the length and maps each character to its ASCII lower-case form (the stand-in for `String.ToLower`) |
| Text.IndexOf | HularionPlugin/Route/RoutedRequest.cs:62-64 | the result is -1 exactly when the character is absent; otherwise the character is at that position and nowhere before it |
| Text.IndexOfUnique | HularionPlugin/Route/RoutedRequest.cs:90-92 | any occurrence with no earlier occurrence is the one `IndexOf` finds |
| Text.LastIndexOf | HularionPlugin.FileSystem/FileInformation.cs:94 | the result is -1 exactly when the character is absent; otherwise the character is there and does not occur after it |
| Text.Split | HularionPlugin.FileSystem/FileInformation.cs:89 | `String.Split` on one character yields at least one piece, and no piece contains the separator |
| Text.JoinSplit | HularionPlugin.FileSystem/FileInformation.cs:89 | joining the pieces of a split with the separator gives back the text |
| Text.SplitJoin | HularionPlugin.FileSystem/FileInformation.cs:89 | splitting a join of separator-free pieces gives back the pieces |
| Text.SplitCount | HularionPlugin/Route/RoutedRequest.cs:65 | a split has one more piece than the text has separators |
| Messages.NewMessage | HularionPlugin/Route/RoutedResponseMessage.cs:52-55 | a parameterless message is not an error, has the default type, and has null header, text, key and attachment |
| Messages.MessageWith | HularionPlugin/Route/RoutedResponseMessage.cs:57-64 | each non-null argument is stored in its property; each null argument leaves its property at the parameterless default; `Other` is never set |
| Messages.AllNullIsDefault | HularionPlugin/Route/RoutedResponseMessage.cs:57-64 | with every argument null, the convenience constructor builds the parameterless message |
| Messages.MessageWithRoundTrip | HularionPlugin/Route/RoutedResponseMessage.cs:57-64 | every message without an attachment is rebuilt exactly by the convenience constructor from its own properties |
| Responses.NewResponse | HularionPlugin/Route/RoutedResponse.cs:30-46 | a new response is a success, not failed, with no messages, key or detail |
| Responses.SetAsFailure | HularionPlugin/Route/RoutedResponse.cs:48-53 | state becomes `Failure` and `IsFailure` true; the messages are appended after the old ones; key, type and detail are unchanged |
| Responses.SetAsSuccess | HularionPlugin/Route/RoutedResponse.cs:55-60 | state becomes `Success` and `IsFailure` false; the messages are appended; nothing else changes |
| Responses.SetAsEncodingNotSupported | HularionPlugin/Route/RoutedResponse.cs:62-66 | state becomes `EncodingNotSupported`, `IsFailure` is left as it was, and the messages are appended |
| Responses.SettersAndConsistency | HularionPlugin/Route/RoutedResponse.cs:38-66 | `IsFailure` agrees with `State == Failure` on a new response and after `SetAsFailure` or `SetAsSuccess`; after `SetAsEncodingNotSupported` it agrees exactly when the response was not failed |
| Responses.SettersAppendOnly | HularionPlugin/Route/RoutedResponse.cs:48-66 | after any sequence of setter calls, the old messages come first, followed by every passed message in call order; key, type and detail never change; the final state is the last setter's |
| Responses.FromAnonymous | HularionPlugin/Route/RoutedResponse.cs:86-94 | the detail is copied exactly when it is non-null and of the target runtime type; the result is always a success with no messages and no key |
| Responses.FromAnonymousReadsOnlyDetail | HularionPlugin/Route/RoutedResponse.cs:86-94 | two anonymous responses with the same detail convert to the same response |
| Requests.GetBaseRoute | HularionPlugin/Route/RoutedRequest.cs:87-95 | a blank route gives ""; any other route gives the longest query-free prefix of its lower-cased form, with no '?' and no upper-case letter |
| Requests.BaseRouteIdempotent | HularionPlugin/Route/RoutedRequest.cs:87-95 | normalising a key again leaves it unchanged exactly when the key is not a non-empty whitespace string |
| Requests.BaseRouteNotIdempotentOnBlank | HularionPlugin/Route/RoutedRequest.cs:89-92 | `" ?a"` normalises to `" "`, which normalises to `""` |
| Requests.BaseRouteFixesKey | HularionPlugin/Route/RoutedRequest.cs:89-94 | a non-blank, lower-case, '?'-free route is its own key |
| Requests.BaseRouteImage | HularionPlugin/Route/RoutedRequest.cs:87-95 | a string is the key of some route exactly when it is empty, or has neither '?' nor an upper-case letter |
| Requests.CollectNames | HularionPlugin/Route/RoutedRequest.cs:66-77 | the variables bind exactly the names some segment carries |
| Requests.CollectFirstWins | HularionPlugin/Route/RoutedRequest.cs:68-76 | a repeated name keeps the value of its first segment |
| Requests.Variables | HularionPlugin/Route/RoutedRequest.cs:48-80 | with no '?' there are no variables; otherwise the names are exactly those the query segments carry |
| Requests.VariablesFirstWins | HularionPlugin/Route/RoutedRequest.cs:48-80 | with no '?' there are no variables; otherwise the names are exactly the segments' names and the first occurrence wins; the route is parsed as given, case preserved |
| Requests.SegmentParts | HularionPlugin/Route/RoutedRequest.cs:68-71 | a segment with '=' binds the text before the first '=' to the '='-free text that follows it, up to the second '=' if there is one |
| Requests.SegmentWithoutEquals | HularionPlugin/Route/RoutedRequest.cs:73-76 | a segment without '=' binds itself to itself |
| Requests.TrailingQuestionMark | HularionPlugin/Route/RoutedRequest.cs:62-76 | a route whose only '?' is its last character has exactly the variable "" -> "" |
| Requests.CreateResponse | HularionPlugin/Route/RoutedRequest.cs:97-103 | the response carries the request's key and is otherwise a new untyped response |
| Requests.CreateTypedResponse | HularionPlugin/Route/RoutedRequest.cs:129-136 | the typed response carries the request's key and a freshly constructed detail of the requested type |
| Requests.CreateMessage | HularionPlugin/Route/RoutedRequest.cs:106-109 | the message carries the request's key; error flag and type default when not given; header and text are stored as given |
| Requests.CreateErrorMessage | HularionPlugin/Route/RoutedRequest.cs:111-114 | the message is an error of type `Error` carrying the request's key, header and text |
| Requests.MakeAnonymous | HularionPlugin/Route/RoutedRequest.cs:138-145 | the request is re-typed as `RoutedRequest<object>` with every envelope member kept |
| Routes.Declare | HularionPlugin/Route/HularionRoute.cs:84-88 | a new route records its payload type and its own erased handler; the initializer's members are stored; it is closed unless the initializer opens it; the heap only grows |
| Routes.SetHandler | HularionPlugin/Route/HularionRoute.cs:94-97 | the typed handler answers every request as the given function does; no other member or route changes |
| Routes.SetHandlerFacade | HularionPlugin/Route/HularionRoute.cs:103-106 | the typed handler becomes the given handler itself; nothing else changes |
| Routes.Invoke | HularionPlugin/Route/HularionRoute.cs:87 | the erased handler rejects a request of the wrong runtime type with an invalid cast, fails with a null reference when no typed handler is set, and otherwise runs the typed handler current at call time |
| Routes.InvokeSeesLaterHandler | HularionPlugin/Route/HularionRoute.cs:87-97 | after `SetHandler(f)` on the route that built a wrapper, every route holding that wrapper answers correctly typed requests with `f` |
| Routes.InvokeRejectsWrongType | HularionPlugin/Route/HularionRoute.cs:87 | a request of the wrong runtime type is rejected whatever handler is installed |
| Routes.DeclaredRouteRunsItsHandler | HularionPlugin/Route/HularionRoute.cs:84-88 | a freshly declared route runs its own typed handler on requests of its payload type |
| Routing.NewRouter | HularionPlugin/Route/HularionRouter.cs:33-75 | a new router has four empty dictionaries and keeps the base route path |
| Routing.RegisterRoute | HularionPlugin/Route/HularionRouter.cs:84-87 | the route is stored under its raw path, replacing any route there; no other key and no other dictionary changes |
| Routing.RegisterRoutes | HularionPlugin/Route/HularionRouter.cs:89-98 | the routes are stored in argument order; the other dictionaries are unchanged |
| Routing.RegisterAllKeys | HularionPlugin/Route/HularionRouter.cs:93-96 | registration adds exactly the given routes' raw paths as keys |
| Routing.RegisterAllLastWins | HularionPlugin/Route/HularionRouter.cs:93-96 | when two given routes share a path, the later one holds it |
| Routing.RegisterAllKeepsOthers | HularionPlugin/Route/HularionRouter.cs:93-96 | a key that none of the given routes has keeps its route |
| Routing.RegisterRouteProvider | HularionPlugin/Route/HularionRouter.cs:104-112 | a null key fails with a null reference; otherwise the provider is stored under its lower-cased key, its routes are registered in order, and each is owned by it; other owners are unchanged |
| Routing.GetRoute | HularionPlugin/Route/HularionRouter.cs:212-220 | the lookup under the normalised string: the route when there is one, null otherwise, never a fault; what registration makes findable is stated by `Routing.RegisteredRouteLookup` |
| Routing.HasProvider | HularionPlugin/Route/HularionRouter.cs:44 | true exactly when a provider is registered under the key as given, with no lower-casing; which keys registration creates is stated by `Routing.RegisteredProviderIsFound` |
| Routing.ProviderProvider | HularionPlugin/Route/HularionRouter.cs:44-58 | the provider registered under exactly the given key, or null exactly when `HasProvider` is false |
| Routing.RegisteredProviderIsFound | HularionPlugin/Route/HularionRouter.cs:44-58 | a registered provider is found under its lower-cased key; under its key as written only when that key is already lower case or was registered before |
| Routing.RegisteredRouteLookup | HularionPlugin/Route/HularionRouter.cs:212-220 | a route whose path is its own key is found by `GetRoute` on that path; a route whose path has '?' or an upper-case letter is invisible to every lookup |
| Routing.RegisterAnonymousRoute | HularionPlugin/Route/HularionRouter.cs:222-239 | under the normalised key: a registered closed route refuses the override and nothing changes; a registered open route gets the override and `routes` is unchanged; an unregistered key registers the route as primary and the overrides are unchanged |
| Routing.Deserialize | HularionPlugin/Route/HularionRouter.cs:135-136 | the library's request, of exactly the requested runtime type; it fails exactly when the library does, with the library's fault |
| Routing.MarkUnknown | HularionPlugin/Route/HularionRouter.cs:129-130 | the state becomes `Failure` while `IsFailure` is kept, and one message holding only the route text is appended |
| Routing.ProcessJsonRequest | HularionPlugin/Route/HularionRouter.cs:119-139 | the route is read by the `Serializer`'s parser, and a parser fault propagates; an unknown key gives the unknown-route response under the untyped request's key; a known key runs the primary route's erased handler on the request read as that route's payload type; a fault while reading the request propagates |
| Routing.NoContentResponse | HularionPlugin/Route/HularionRouter.cs:148-153 | a `Failure` response without key, detail or type whose `IsFailure` is false, holding exactly the no-content message |
| Routing.JsonResultResponse | HularionPlugin/Route/HularionRouter.cs:146-171 | a blank text gives the no-content response without parsing; otherwise the route is read by the `Deserializer`'s parser, and the answer is the JSON dispatch with that route and its own unknown-route code, faults propagating |
| Routing.ProcessJsonRequestToJsonResult | HularionPlugin/Route/HularionRouter.cs:146-173 | a blank text gives the printed no-content response; otherwise the printed dispatch response, with a dispatch fault propagating unprinted and a printing fault passed on |
| Routing.ProcessRequest | HularionPlugin/Route/HularionRouter.cs:182-205 | an unknown key gives a typed unknown-route response; an override runs on the anonymous request and its answer is converted back; otherwise the primary handler runs; an answer of the wrong runtime type is an invalid cast |
| Routing.JsonIgnoresOverrides | HularionPlugin/Route/HularionRouter.cs:119-173 | replacing the overrides changes neither JSON entry point's result |
| Routing.JsonDispatchRunsPrimary | HularionPlugin/Route/HularionRouter.cs:134-138 | JSON dispatch to a route answers with its handler applied to the request read as the route's payload type |
| Routing.JsonEntryPointsAgree | HularionPlugin/Route/HularionRouter.cs:119-173 | when both parsers read the same route from a non-blank text, a known key makes the two JSON entry points dispatch identically, and an unknown key gives both the same unknown-route response except for its code |
| Routing.OverrideTakesEffect | HularionPlugin/Route/HularionRouter.cs:193-198 | once an override is accepted, the primary entry is kept and `ProcessRequest` on that key answers with the override's converted response |
| Routing.PrimaryRunsWithoutOverride | HularionPlugin/Route/HularionRouter.cs:199-204 | without an override, `ProcessRequest` answers with the primary handler's response of the expected type |
| RouterProviders.NewRouterProvider | HularionPlugin/Route/RouterProvider.cs:37-39 | a new provider has null name, key and purpose and no routes |
| RouterProviders.CloneRoute | HularionPlugin/Route/RouterProvider.cs:73-78 | the clone keeps name, usage, openness, payload type and the erased handler; its path is `prefix/route`, not normalised; `Method` and the typed handler stay unset |
| RouterProviders.AssignSource | HularionPlugin/Route/RouterProvider.cs:56-82 | name and purpose are copied and the key is the prefix or the source's key; without a prefix the provider holds the source's routes, the same objects in the same order, in its own list; with a prefix, one clone per source route is appended in order and earlier entries are kept; assigning a provider to itself with a prefix fails with a modified collection |
| RouterProviders.AddRouteProvider | HularionPlugin/Route/RouterProvider.cs:51-54 | fails with a modified collection exactly on self-assignment with a prefix and routes; otherwise, as `AssignSource`: other providers and existing routes are unchanged, name and purpose are copied, the key is the prefix or the source's key, and the provider's own list is set to the source's routes (the same objects, in order) or gains one appended clone per source route, in order |
| RouterProviders.FromSource | HularionPlugin/Route/RouterProvider.cs:41-49 | a new provider built from a source has its name and purpose, the prefix or its key; without a prefix it holds the source's routes, the same objects in the same order, in its own list; with a prefix its routes are new clones of the source's routes, in order, appended to the heap; existing providers and routes are unchanged |
| RouterProviders.CloneAnswersLikeOriginal | HularionPlugin/Route/RouterProvider.cs:73-78 | a clone answers every request as its original does, also after a later `SetHandler` on the route whose wrapper they share |
| Meta.ViewOf | HularionPlugin/Route/HularionRouter.cs:42-58 | the registry as the meta route's delegates see it: one row per route key in enumeration order with its owner's key, and each provider's routes labelled with its key |
| Meta.Handle | HularionPlugin.PluginMeta/MetaRouter.cs:78-120 | the response echoes the request key, is a success with a listing; without the case-sensitive "provider" variable it lists every route; with it, the lower-cased value selects a provider's routes, or none plus one warning |
| Meta.CreateMetaRouter | HularionPlugin.PluginMeta/MetaRouter.cs:30-124 | the provider's name, key and purpose; one closed route "Meta Route" at `baseRoutePath/meta/routes` of payload type `MetaRouteRequest`, answering with the meta handler |
| Meta.UnfilteredListsEveryRoute | HularionPlugin.PluginMeta/MetaRouter.cs:104-117 | without a filter, every registry entry is listed exactly once with its name, path, usage and owner's key (null without an owner) |
| Meta.FilteredListsProviderRoutes | HularionPlugin.PluginMeta/MetaRouter.cs:82-97 | a filter naming a registered provider lists exactly its routes in order, labelled with the lower-cased key, with no messages |
| Meta.UnknownProviderWarns | HularionPlugin.PluginMeta/MetaRouter.cs:99-102 | a filter naming no provider lists nothing, stays a success, and adds one warning naming the lower-cased key |
| Files.SplitName | HularionPlugin.FileSystem/FileInformation.cs:90-97 | without the extension delimiter the name is the whole segment and there is no extension; with it, name + delimiter + extension is the segment and the extension is delimiter-free |
| Files.SplitNameAtLast | HularionPlugin.FileSystem/FileInformation.cs:94-96 | the split is at the last extension delimiter |
| Files.FromPath | HularionPlugin.FileSystem/FileInformation.cs:74-98 | a blank path is rejected as invalid; a non-blank path that is not an existing file fails as not found; otherwise the segments join back to the path and hold no directory delimiter; the name has no directory delimiter; name and extension come from the last segment |
| Files.SegmentsRoundTrip | HularionPlugin.FileSystem/FileInformation.cs:89 | joining delimiter-free segments into the path of an existing file and reading it back gives the same segments |
| Files.NameAndExtension | HularionPlugin.FileSystem/FileInformation.cs:89-97 | the path of an existing file ending in name, extension delimiter and extension yields exactly that name and extension |
| FileAttributes.GetAttributes | HularionPlugin.FileSystem/FileRouteProvider.cs:102-113 | over the sixteen `FileAttributes` values, in `Enum.GetValues` order: a value is in the result exactly when it is one of them and wholly contained in the word, and the result keeps the table's order |
| FileAttributes.SelectContained | HularionPlugin.FileSystem/FileRouteProvider.cs:104-112 | the loop over any value list keeps, in the list's order, exactly the values wholly contained in the word |
| FileAttributes.SelectedMember | HularionPlugin.FileSystem/FileRouteProvider.cs:105-111 | a value is selected exactly when it is enumerated and contained |
| FileRoutes.RoutePrefixes | HularionPlugin.FileSystem/FileRouteProvider.cs:60-62 | the directory, file and system prefixes are the base route followed by "/directory", "/file" and "/system" |
| FileRoutes.MakeRoute | HularionPlugin.FileSystem/FileRouteProvider.cs:82-100 | the result is lower case and, under a lower-case prefix, is the prefix, a slash and the lower-cased route |
| FileRoutes.MakeBaseRoute | HularionPlugin.FileSystem/FileRouteProvider.cs:82-85 | the base route, a slash and the lower-cased route, all lower case |
| FileRoutes.MakeDirectoryRoute | HularionPlugin.FileSystem/FileRouteProvider.cs:87-90 | the directory prefix, a slash and the lower-cased route, all lower case |
| FileRoutes.MakeFileRoute | HularionPlugin.FileSystem/FileRouteProvider.cs:92-95 | the file prefix, a slash and the lower-cased route, all lower case |
| FileRoutes.MakeSystemRoute | HularionPlugin.FileSystem/FileRouteProvider.cs:97-100 | the system prefix, a slash and the lower-cased route, all lower case |
| FileRoutes.AllPaths | HularionPlugin.FileSystem/FileRouteProvider.cs:60-401 | each of the seventeen stored paths is the matching `Make*Route` result, and all are lower-case letters and slashes |
| FileRoutes.PathsDistinct | HularionPlugin.FileSystem/FileRouteProvider.cs:64-430 | the seventeen paths are pairwise distinct |
| FileRoutes.PathIsKey | HularionPlugin.FileSystem/FileRouteProvider.cs:82-100 | each path is its own registry key |
| FileRoutes.NineStubs | HularionPlugin.FileSystem/FileRouteProvider.cs:167-392 | exactly the directory copy/create/delete/move and the file copy/create/delete/move/read routes are not implemented |
| FileRoutes.StubHandler | HularionPlugin.FileSystem/FileRouteProvider.cs:173-178 | every request gets the not-implemented response for the route's response type |
| FileRoutes.DelimiterHandler | HularionPlugin.FileSystem/FileRouteProvider.cs:70-74 | every request gets the same response reporting the backslash |
| FileRoutes.StubResponse | HularionPlugin.FileSystem/FileRouteProvider.cs:173-178 | an unimplemented route answers with a failed, consistent typed response without key or detail, with one error message carrying the request key and the stub header |
| FileRoutes.DelimiterResponse | HularionPlugin.FileSystem/FileRouteProvider.cs:50-74 | the delimiter route answers with a default success whose detail reports one backslash, without a key |
| FileRoutes.ParentOf | HularionPlugin.FileSystem/FileRouteProvider.cs:413 | the text before the last backslash |
| FileRoutes.FolderToOpen | HularionPlugin.FileSystem/FileRouteProvider.cs:408-416 | an existing directory is opened as is; otherwise an existing file path with a backslash falls back to its parent when that is a directory; anything else gives no folder |
| FileRoutes.OpenFolderHandler | HularionPlugin.FileSystem/FileRouteProvider.cs:405-429 | a request without a payload is a null reference; any other request gets the OpenFolder response for its directory |
| FileRoutes.OpenFolderResponse | HularionPlugin.FileSystem/FileRouteProvider.cs:405-429 | the response echoes the request key; `IsFailure` is set, with one "Folder not found." error, exactly when there is no folder to open; `State` stays `Success` |
| FileRoutes.OpenFolderFailureIsInconsistent | HularionPlugin.FileSystem/FileRouteProvider.cs:416-421 | a failed OpenFolder response has `IsFailure` set while `State` is `Success` |
| FileRoutes.Table | HularionPlugin.FileSystem/FileRouteProvider.cs:64-430 | the route table has seventeen entries in registration order |
| FileRoutes.DeclareAll | HularionPlugin.FileSystem/FileRouteProvider.cs:57-79 | declaring the routes in order appends one route per entry with consecutive ids and the given paths |
| FileRoutes.DeclaredRoute | HularionPlugin.FileSystem/FileRouteProvider.cs:64-430 | declared route `i` carries path and description `i`, is closed, and installs entry `i`'s payload type and handler behind its own erased handler |
| FileRoutes.CreateFileRouteProvider | HularionPlugin.FileSystem/FileRouteProvider.cs:38-80 | the provider "FileRoute" with key "Hularion.FileRoute" and its purpose exposes seventeen new routes in table order at the seventeen paths |
| FileRoutes.CreatedRouteDescribed | HularionPlugin.FileSystem/FileRouteProvider.cs:64-430 | route `i` of a new provider has path `i`, entry `i`'s name, method and usage, and is closed |
| FileRoutes.CreatedRouteInstalls | HularionPlugin.FileSystem/FileRouteProvider.cs:64-430 | route `i` of a new provider has entry `i`'s payload type and runs entry `i`'s handler |
| FileRoutes.ProviderRoutePaths | HularionPlugin.FileSystem/FileRouteProvider.cs:57-58 | the new provider's route list is the seventeen new routes, in order, at the seventeen paths |
| FileRoutes.RegisteringCarrier | HularionPlugin/Route/HularionRouter.cs:104-112 | registering the provider adds exactly the seventeen paths as keys, each holding its own route and found by `GetRoute`; into a registry without them that is seventeen new entries |
| FileRoutes.TableRouteAnswers | HularionPlugin.FileSystem/FileRouteProvider.cs:64-430 | route `i` of a new provider answers a request of its payload type with entry `i`'s handler |
| FileRoutes.StubRoutesFail | HularionPlugin.FileSystem/FileRouteProvider.cs:173-392 | each unimplemented route answers with the stub failure for its response type |
| FileRoutes.DelimiterRouteReportsBackslash | HularionPlugin.FileSystem/FileRouteProvider.cs:64-75 | the delimiter route answers every request of its payload type with the backslash |
| FileRoutes.OpenFolderRouteDecides | HularionPlugin.FileSystem/FileRouteProvider.cs:399-430 | the OpenFolder route answers a folder request with the OpenFolder decision for its directory, and a request without a payload with a null reference |

## Left out

- JSON parsing and printing belong to an external library. They appear only as the four functions of `Routing.Codec`.
- Routing.Deserialize: a successful read is taken to be a non-null object of the requested runtime type. A null from the library would make `CreateResponse` throw at HularionRouter.cs:128 and 162, or reach the handler; that case is not modelled.
- Reflection: `MakeGenericType`, `Activator.CreateInstance` and the `MemberMapper` inside `MakeAnonymous`.
  - Runtime types are `TypeTag`s.
  - A freshly constructed detail is `Fresh(tag)`.
  - `MakeAnonymous` is taken to copy every envelope member.
- The `lock` statements and thread safety. Each registration is one atomic map update.
- File-system and process I/O: the attribute reads, directory listings, drive listings, `Process.Start` and `FileInfo` timestamps and size.
  - The six handlers that read the disk are `DiskHandlers` parameters, so their answers are not modelled. This includes the two `Enum.GetNames` handlers.
  - OpenFolder's existence tests are a `FileSystem` parameter. Opening the folder is not modelled.
- `String.ToLower` is culture-sensitive. The model lower-cases ASCII letters only.
- Null strings. A route string is taken to be non-null; a null `Route` member in a JSON request counts as empty.
- Dictionary enumeration order is not specified by .NET. The meta listing takes it as a `keys` parameter.
- Meta.Handle: it answers from a `MetaView`, the registry as seen at one moment. The source's delegates read the live dictionaries at call time; `Meta.ViewOf` builds the view from a router.
- RouterProviders.AssignSource: on the failing self-assignment, the model makes no change. The source has already set `Name`, `Key` and `Purpose`, and has appended one clone, before the enumeration fails.
- Routing.ProcessRequest: handlers are taken never to answer null; a handler is a total function to a response or a fault. In the source a null answer on the primary branch passes the cast at HularionRouter.cs:202 and is returned to the caller, and on the override branch `FromAnonymous` throws a null reference when it reads `Detail` at RoutedResponse.cs:89. The JSON entry points would likewise pass a null answer on, or print it.
- RouterProviders.AddRouteProvider: the same failing self-assignment makes no change, as for `AssignSource`.
- `RoutedResponseMessageType` is not shown. Its default member is taken to be `Info`, its first declared member.
- The `FileAttributes` values are the .NET enumeration's values in `Enum.GetValues` order, written as the constant `FileAttributes.FileAttributeValues` that `GetAttributes` iterates. Reading a file's attributes from disk is not modelled.
- An OpenFolder request payload of another shape is read as a request whose directory is null.
- The parameterless `FileInformation()` constructor sets nothing and has no logic to model.
- Files.FromPath: of the exceptions `new FileInfo(path)` and its reads can raise, only the not-found one (a missing file or a directory) is modelled. Security, path-too-long and unsupported-format exceptions are not.
- The exception message texts of `RegisterAnonymousRoute` and `FileInformation`. The faults record only the normalised route or the path.
