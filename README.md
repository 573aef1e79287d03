# Enhanced properties: the property-resolution chain

This project models the lookup core of the Gradle plugin
`enhanced-properties-plugin`. A build script asks a project's
`enhancedProps` container for a property by name. The container does four things:
- it validates and trims the name;
- it picks the project's resolver list: the list the user registered through
  the `EnhancedPropertiesExtension`, or, when that list is empty, a lazily
  built pair of defaults;
- it asks the resolvers in order, and the first non-null answer wins;
- it then moves on to the parent project.

There are two kinds of resolver:
- A **FileResolver** is bound to one file. It re-merges that file into its
  map on every call, so keys are never dropped.
- A **PropertyNameResolver** reads a file path out of its project's
  extra-properties bag. It loads that file on its first call only.

The Gradle world is passed in as a value, `Environment.World`:
- a file system maps a path to `Missing`, `Unreadable`, `Malformed(map)` or
  `Contents(map)`. A `Malformed` file makes `Properties.load` throw
  IllegalArgumentException (a bad `\uXXXX` escape) after it has put the
  entries that come before it. Neither resolver catches that exception;
  they catch only IOException;
- one extra-properties bag per project maps a key to `Str`, `Null` or
  `Other`.

The project hierarchy is `Containers.Hierarchy`: a parent map, and the
container (if any) attached to each project. Resolver objects are Dafny
classes with a mutable `properties` field. `None` stands for Java's still-null
field.

The Java interface `IPropertyResolver` becomes the datatype
`PropertyResolvers.Resolver` with one variant per implementation.
`PropertyResolvers.Resolve` dispatches on it.

A resolver call may change the resolver: a FileResolver re-merges its file
into its map, and an unloaded PropertyNameResolver loads. A loaded
PropertyNameResolver returns its map untouched. The walk is therefore
specified on what each resolver *would* answer from the current state
(`Predict`). Two facts make this sound:
- For a fixed world, a FileResolver's re-merge is idempotent.
- A PropertyNameResolver loads once.

So a call that does not throw leaves every prediction as it was. The whole
lookup then equals a pure function of the pre-state: `ChainWalk.AsWritten`
over a snapshot of the project and its parent.

The lookup loop is modelled exactly as written. It advances with
`project.getParent()`, not `iterProject.getParent()`. So it only ever reaches
the own project and its parent, and it never stops when neither of them has
the name. Every walk therefore carries a `fuel` bound (one unit per loop
pass), and `OutOfFuel` is how the model says "the loop has not ended". The
walk the method's comment describes is given separately as
`ChainWalk.Documented` (see Findings).

Where the code and its documentation disagree, the model follows the code:
- `FileResolver.getProperties` reloads the file on every call. It is not
  load-once.
- The `PropertyInvalidException` raised for a blank name carries the
  *trimmed* name, or null. The method reassigns its parameter before it
  builds the message.

## Model

| member | source | states |
|---|---|---|
| `Environment.Lookup` | src/main/java/dev/mattfoster/gradle/extensions/FileResolver.java:30-31 | `getProperty` yields a value exactly when the key is in the map, and then the stored value |
| `FileResolvers.Reload` | src/main/java/dev/mattfoster/gradle/extensions/FileResolver.java:35-53 | the map after one `getProperties`: no earlier key is dropped; every entry the load puts (all of a readable file, the part before the bad escape of a malformed one) is present with the file's value; every other key keeps its earlier value; a missing or unreadable file leaves the map as it was (empty on the first call) |
| `FileResolvers.ReloadResult` | src/main/java/dev/mattfoster/gradle/extensions/FileResolver.java:43-52 | `getProperties` throws iff the file is malformed, and then IllegalArgumentException for that file; otherwise it returns the merged map |
| `FileResolvers.ReloadIdempotent` | src/main/java/dev/mattfoster/gradle/extensions/FileResolver.java:43-45 | merging an unchanged file a second time changes nothing |
| `FileResolvers.ReloadSeesRewrites` | src/main/java/dev/mattfoster/gradle/extensions/FileResolver.java:43-45 | after the file is rewritten, the next call sees the new value of each key the file holds |
| `FileResolvers.ReloadKeepsStaleKeys` | src/main/java/dev/mattfoster/gradle/extensions/FileResolver.java:36-52 | a key that an earlier load brought in and the file no longer holds keeps its earlier value |
| `FileResolvers.FileResolver.constructor` | src/main/java/dev/mattfoster/gradle/extensions/FileResolver.java:24-27 | the bound file is the one given; the map is still null |
| `FileResolvers.FileResolver.GetProperties` | src/main/java/dev/mattfoster/gradle/extensions/FileResolver.java:35-53 | the field is allocated and holds the re-merged map even when the call throws; the call returns that map, or throws as `ReloadResult` says |
| `FileResolvers.FileResolver.Resolve` | src/main/java/dev/mattfoster/gradle/extensions/FileResolver.java:29-32 | throws iff the file is malformed; otherwise returns the re-merged map's value for the name, or null when the key is absent |
| `PropertyNameResolvers.FirstLoad` | src/main/java/dev/mattfoster/gradle/extensions/PropertyNameResolver.java:37-50 | the first load has these outcomes: no bag entry gives an empty map; a `Null` value throws `NullPointer`; a non-String value throws `ClassCast`; a String path to a malformed file throws IllegalArgumentException; these are the only failures; a String path to a readable file gives that file's entries; a missing or unreadable file gives an empty map |
| `PropertyNameResolvers.FirstStored` | src/main/java/dev/mattfoster/gradle/extensions/PropertyNameResolver.java:37-52 | the map the first call leaves in the field: what it returns when it does not throw; the empty map after a `Null` or non-String value; a malformed file's entries before the bad escape |
| `PropertyNameResolvers.PropertyNameResolver.constructor` | src/main/java/dev/mattfoster/gradle/extensions/PropertyNameResolver.java:23-27 | only the project and the bag key are stored; nothing is read yet |
| `PropertyNameResolvers.PropertyNameResolver.GetProperties` | src/main/java/dev/mattfoster/gradle/extensions/PropertyNameResolver.java:35-53 | once loaded, it returns the stored map without reading the bag or the file; the first call returns `FirstLoad` and stores `FirstStored` whether it throws or not, so later calls return that map |
| `PropertyNameResolvers.PropertyNameResolver.Resolve` | src/main/java/dev/mattfoster/gradle/extensions/PropertyNameResolver.java:29-32 | the stored map's value for the name, or null; an exception only on a first call, exactly as `FirstLoad` says |
| `PropertyResolvers.FileAnswer` | src/main/java/dev/mattfoster/gradle/extensions/FileResolver.java:29-53 | a FileResolver throws iff its file is malformed; otherwise it finds a name iff the file or an earlier load holds it, and the file's value wins over the earlier one |
| `PropertyResolvers.NamedAnswer` | src/main/java/dev/mattfoster/gradle/extensions/PropertyNameResolver.java:29-53 | a loaded PropertyNameResolver answers from its map; an unloaded one answers from the map its first load yields; it throws iff it is unloaded and its bag key holds a value that is not a String or names a malformed file |
| `PropertyResolvers.Resolve` | src/main/java/dev/mattfoster/gradle/extensions/IPropertyResolver.java:5-21 | `resolve` through the interface answers what was predicted; a call that does not throw leaves the resolver answering the same again |
| `Extensions.RegisteredPath` | src/main/java/dev/mattfoster/gradle/extensions/EnhancedPropertiesExtension.java:37-45 | a path is registered iff the bag has the key and its value is a String, and then it is that string |
| `Extensions.EnhancedPropertiesExtension.GetResolvers` | src/main/java/dev/mattfoster/gradle/extensions/EnhancedPropertiesExtension.java:61-63 | hands out the list registered so far, in registration order |
| `Extensions.EnhancedPropertiesExtension.constructor` | src/main/java/dev/mattfoster/gradle/extensions/EnhancedPropertiesExtension.java:21-27 | a new extension has an empty resolver list |
| `Extensions.EnhancedPropertiesExtension.AppendResolver` | src/main/java/dev/mattfoster/gradle/extensions/EnhancedPropertiesExtension.java:70-75 | the new list is the old list plus the resolver at the end; a list obtained earlier is a value and does not change |
| `Extensions.EnhancedPropertiesExtension.ResolverForFile` | src/main/java/dev/mattfoster/gradle/extensions/EnhancedPropertiesExtension.java:34-36 | always appends exactly one new, unloaded FileResolver bound to the file; earlier entries are kept in order |
| `Extensions.EnhancedPropertiesExtension.ResolverForKey` | src/main/java/dev/mattfoster/gradle/extensions/EnhancedPropertiesExtension.java:37-45 | appends one new FileResolver, bound to the path the bag holds now, iff `RegisteredPath` finds one; otherwise the list is unchanged and nothing is raised |
| `Extensions.EnhancedPropertiesExtension.PropertyResolver` | src/main/java/dev/mattfoster/gradle/extensions/EnhancedPropertiesExtension.java:46-54 | the same effect as `resolver(String)`, clause for clause |
| `PropertyNames.Trim` | src/main/java/dev/mattfoster/gradle/plugins/enhancedproperties/EnhancedPropertiesContainer.java:133 | Java `trim`: the result is the infix left after the leading blanks (chars at or below U+0020); it is empty iff every char is blank; otherwise its first and last chars are not blank and only blanks follow it |
| `PropertyNames.TrimIdempotent` | src/main/java/dev/mattfoster/gradle/plugins/enhancedproperties/EnhancedPropertiesContainer.java:133 | trimming twice is trimming once |
| `PropertyNames.ValidatePropertyName` | src/main/java/dev/mattfoster/gradle/plugins/enhancedproperties/EnhancedPropertiesContainer.java:132-139 | a name passes iff it is non-null and has a non-blank char; it then comes back trimmed, non-empty and with no blank at either end; otherwise PropertyInvalid carries the trimmed name (or null) |
| `PropertyNames.ValidatedNameIsStable` | src/main/java/dev/mattfoster/gradle/plugins/enhancedproperties/EnhancedPropertiesContainer.java:99 | the name handed to the resolvers passes validation again unchanged |
| `ChainWalk.FirstMatch` | src/main/java/dev/mattfoster/gradle/plugins/enhancedproperties/EnhancedPropertiesContainer.java:110-115 | a scope yields null iff every resolver of it yields null |
| `ChainWalk.Consulted` | src/main/java/dev/mattfoster/gradle/plugins/enhancedproperties/EnhancedPropertiesContainer.java:110-115 | the resolvers called are those up to and including the first non-null answer, and all of them when there is none |
| `ChainWalk.FirstMatchAt` | src/main/java/dev/mattfoster/gradle/plugins/enhancedproperties/EnhancedPropertiesContainer.java:110-115 | when the i-th answer is the first non-null one, it is the scope's result and exactly i+1 resolvers are called |
| `ChainWalk.LoopAsWritten` | src/main/java/dev/mattfoster/gradle/plugins/enhancedproperties/EnhancedPropertiesContainer.java:103-123 | the loop as written only ever stands on the project or its parent, and from there it returns null only when the project has no parent |
| `ChainWalk.AsWritten` | src/main/java/dev/mattfoster/gradle/plugins/enhancedproperties/EnhancedPropertiesContainer.java:103-123 | the walk starts at the project itself, whose answer settles the name first; null comes back only for a project without a parent |
| `ChainWalk.Documented` | src/main/java/dev/mattfoster/gradle/plugins/enhancedproperties/EnhancedPropertiesContainer.java:91-92 | the walk the comment describes returns null only when every ancestor within reach yields null |
| `ChainWalk.AsWrittenOwnThenParent` | src/main/java/dev/mattfoster/gradle/plugins/enhancedproperties/EnhancedPropertiesContainer.java:103-123 | the own project settles a name before the parent is looked at; a project without a parent is examined once and null is returned; otherwise a parent that has the name settles it |
| `ChainWalk.StuckOnParent` | src/main/java/dev/mattfoster/gradle/plugins/enhancedproperties/EnhancedPropertiesContainer.java:119 | once the loop stands on a parent that yields null, it stays there whatever the fuel |
| `ChainWalk.AsWrittenNeverEnds` | src/main/java/dev/mattfoster/gradle/plugins/enhancedproperties/EnhancedPropertiesContainer.java:104-120 | a name that neither the project nor its parent has makes the loop run for ever, when there is a parent |
| `ChainWalk.ParentLoopAnswer` | src/main/java/dev/mattfoster/gradle/plugins/enhancedproperties/EnhancedPropertiesContainer.java:119 | from the second pass on, whatever the loop returns or throws is the parent's answer |
| `ChainWalk.AsWrittenAnswersNearby` | src/main/java/dev/mattfoster/gradle/plugins/enhancedproperties/EnhancedPropertiesContainer.java:103-123 | a value or an exception that the loop yields is the answer of the project or of its parent; null only for a project without a parent |
| `ChainWalk.ParentLoopSeesOnlyParent` | src/main/java/dev/mattfoster/gradle/plugins/enhancedproperties/EnhancedPropertiesContainer.java:119 | from the second pass on, the loop's result depends on the parent alone |
| `ChainWalk.AsWrittenIgnoresGrandparents` | src/main/java/dev/mattfoster/gradle/plugins/enhancedproperties/EnhancedPropertiesContainer.java:103-123 | two hierarchies that agree on the project and its parent give the same result, whatever lies above the parent |
| `ChainWalk.AsWrittenAgreesNearby` | src/main/java/dev/mattfoster/gradle/plugins/enhancedproperties/EnhancedPropertiesContainer.java:90-124 | the loop as written agrees with the documented walk whenever the project or its parent settles the name, or there is no parent |
| `ChainWalk.DocumentedFirstAncestor` | src/main/java/dev/mattfoster/gradle/plugins/enhancedproperties/EnhancedPropertiesContainer.java:91-92 | the documented walk returns the answer of the first ancestor that yields one |
| `ChainWalk.DocumentedValueFromAncestor` | src/main/java/dev/mattfoster/gradle/plugins/enhancedproperties/EnhancedPropertiesContainer.java:91-92 | any value the documented walk returns is some ancestor's answer |
| `ChainWalk.AsWrittenMissesGrandparent` | src/main/java/dev/mattfoster/gradle/plugins/enhancedproperties/EnhancedPropertiesContainer.java:119 | on a three-level hierarchy with the value only in the grandparent, the documented walk finds it and the loop as written never ends |
| `Containers.DefaultPairAnswers` | src/main/java/dev/mattfoster/gradle/plugins/enhancedproperties/EnhancedPropertiesContainer.java:166-185 | freshly built defaults answer like the EXTERNAL_PROPERTIES bag-key resolver followed by the root `gradle.properties` file |
| `Containers.GetResult` | src/main/java/dev/mattfoster/gradle/plugins/enhancedproperties/EnhancedPropertiesContainer.java:42-52 | `get(n)` returns a value iff one was found; a missing value is PropertyMissing with the name as given; exceptions pass through |
| `Containers.GetOrDefaultResult` | src/main/java/dev/mattfoster/gradle/plugins/enhancedproperties/EnhancedPropertiesContainer.java:62-71 | `get(n, d)` returns the found value or `d`, and `d` may be null; it returns null exactly when nothing was found and `d` is null; it throws only what the lookup throws, never for a missing value; it hangs exactly when the lookup hangs |
| `Containers.ExistsResult` | src/main/java/dev/mattfoster/gradle/plugins/enhancedproperties/EnhancedPropertiesContainer.java:79-88 | `exists(n)` is true iff a value was found and false iff none was; exceptions pass through; it hangs exactly when the lookup hangs |
| `Containers.PublicFormsAgree` | src/main/java/dev/mattfoster/gradle/plugins/enhancedproperties/EnhancedPropertiesContainer.java:42-88 | the three public forms agree: `exists` is true iff `get` returns; then `get(n, d)` returns the same value; `exists` is false iff `get` raises PropertyMissing, and then `get(n, d)` returns `d` |
| `Containers.CallOne` | src/main/java/dev/mattfoster/gradle/plugins/enhancedproperties/EnhancedPropertiesContainer.java:111 | one `resolver.resolve` call answers what was predicted; when it does not throw, every resolver of this list and of any other list answers as before |
| `Containers.ConsultList` | src/main/java/dev/mattfoster/gradle/plugins/enhancedproperties/EnhancedPropertiesContainer.java:110-115 | the inner `for`: the result is the first non-null answer, and the resolvers called are exactly those up to it; every resolver object not among those called is left unchanged; a run without an exception leaves every answer as it was |
| `Containers.FetchResolvers` | src/main/java/dev/mattfoster/gradle/plugins/enhancedproperties/EnhancedPropertiesContainer.java:110 | the list the loop iterates is never empty and answers what was predicted for the container; no other container's answers move |
| `Containers.ConsultResolvers` | src/main/java/dev/mattfoster/gradle/plugins/enhancedproperties/EnhancedPropertiesContainer.java:105-116 | one container's pass: the first non-null answer of its effective list; the resolvers after it are left unchanged (a freshly built root-file default that is not reached stays unloaded); only the defaults can be new objects, and only if none existed |
| `Containers.EnhancedPropertiesContainer.constructor` | src/main/java/dev/mattfoster/gradle/plugins/enhancedproperties/EnhancedPropertiesContainer.java:30-33 | stores the project and the extension; no defaults yet |
| `Containers.EnhancedPropertiesContainer.GetDefaultResolvers` | src/main/java/dev/mattfoster/gradle/plugins/enhancedproperties/EnhancedPropertiesContainer.java:166-185 | exactly two resolvers, in this order: a PropertyNameResolver keyed EXTERNAL_PROPERTIES on this project, then a FileResolver at `<root dir>/gradle.properties`; both are built fresh on the first call only, and later calls return the same list |
| `Containers.EnhancedPropertiesContainer.GetResolvers` | src/main/java/dev/mattfoster/gradle/plugins/enhancedproperties/EnhancedPropertiesContainer.java:147-154 | the user's list verbatim when it is non-empty, with the defaults left alone; the defaults only when it is empty; never a mix |
| `Containers.EnhancedPropertiesContainer.FindPropertyValue` | src/main/java/dev/mattfoster/gradle/plugins/enhancedproperties/EnhancedPropertiesContainer.java:97-124 | the result is `AsWritten` over the pre-state snapshot of the project and its parent, after validation; an invalid name throws before any resolver is touched; a lookup that does not throw can be repeated with the same result |
| `Containers.EnhancedPropertiesContainer.Get` | src/main/java/dev/mattfoster/gradle/plugins/enhancedproperties/EnhancedPropertiesContainer.java:42-52 | `GetResult` of the lookup's pre-state result |
| `Containers.EnhancedPropertiesContainer.GetOrDefault` | src/main/java/dev/mattfoster/gradle/plugins/enhancedproperties/EnhancedPropertiesContainer.java:62-71 | `GetOrDefaultResult` of the lookup's pre-state result |
| `Containers.EnhancedPropertiesContainer.Exists` | src/main/java/dev/mattfoster/gradle/plugins/enhancedproperties/EnhancedPropertiesContainer.java:79-88 | `ExistsResult` of the lookup's pre-state result |

## Left out

- Logging through `project.getLogger()`, and the `MessageFormat` texts: the
  model keeps no log. Exceptions carry only the name or key they are about.
- `java.util.Properties.load` parsing: a readable file is an abstract
  `map<string, string>`. A load that fails part-way with an IOException is
  treated like an unreadable file, which leaves the map unchanged. A load
  that fails on a malformed escape is modelled (`Malformed`).
- `File.exists`, `FileInputStream` and the stream that PropertyNameResolver
  never closes: files are looked up in the `World` value.
- `new File(...)` path normalisation and `getAbsolutePath`: the default file's
  path is the root directory string followed by `/gradle.properties`. The root
  directory is a `const` on the container.
- Object identity of the `Properties` map: the field is an `Option` value.
  "The same object is reused" is modelled as the field staying `Some` and
  being merged into.
- Gradle's `ListProperty` and `ObjectFactory`: the user's list is a
  `seq<Resolver>` field.
- Containers.EnhancedPropertiesContainer.GetDefaultResolvers: the cached list
  is assumed not to be changed from outside. `getDefaultResolvers` and
  `getResolvers` hand out the `defaultResolvers` ArrayList itself, so a build
  script could add resolvers to it or remove them, and later lookups would
  walk the changed list. Here the defaults are a `seq` value that only
  `GetDefaultResolvers` sets, and `Valid()` keeps it at exactly the two
  default resolvers.
- Resolvers other than FileResolver and PropertyNameResolver: `getResolvers`
  hands out the live `ListProperty`, so a build script can add its own
  IPropertyResolver to it directly, bypassing `appendResolver`. `Resolver`
  covers only the two classes of the plugin, and the list changes only
  through `AppendResolver`.
- `EnhancedPropertiesPlugin` (registration through `getExtensions().create`),
  the extension name `NAME` and `findByName`: the container `findByName`
  returns for a project is `Hierarchy.containers`.
- `FileResolver.toString` and the `project` field of FileResolver, which serve
  diagnostics only.
- Non-termination: every walk carries fuel, and `OutOfFuel` stands for a loop
  that has not ended.
- Changes to files or bags while one lookup runs, and concurrent lookups: the
  `World` is fixed during a call.
- Containers.EnhancedPropertiesContainer.FindPropertyValue: states the result,
  that validity is kept and that a lookup which does not throw leaves the
  answers for its own name in place. It does not state the resolvers' fields
  after the call, nor that answers for other names are kept.
- Java strings are UTF-16 code units; here a string is a sequence of Dafny
  chars. `trim` compares each char with U+0020 either way.
- Containers.ConsultResolvers: keeps the answers for the one name looked up,
  not for every name.

## Findings

| source | as written | input that shows it | evidently intended | confidence | as-written member | corrected member |
|---|---|---|---|---|---|---|
| src/main/java/dev/mattfoster/gradle/plugins/enhancedproperties/EnhancedPropertiesContainer.java:119 | the loop moves to `project.getParent()`, the parent of the starting project, on every pass | projects `:app:lib` → `:app` → `:root`, with the name defined only in `:root`: the loop consults `:app:lib`, then `:app` for ever, and never returns | move to `iterProject.getParent()`, so that each ancestor is consulted in turn up to the root, as the comment at lines 91-92 says | not executed | `ChainWalk.AsWrittenMissesGrandparent` | `ChainWalk.DocumentedFirstAncestor` |

The public operations (`Get`, `GetOrDefault`, `Exists`) keep the loop as
written, because that is what the plugin does. `ChainWalk.Documented` is the
corrected walk. `DocumentedFirstAncestor` and `DocumentedValueFromAncestor`
prove it returns the first ancestor's answer, and `AsWrittenAgreesNearby`
proves the two walks agree whenever the project or its parent settles the
name.
