/**
 * The collaborators the property-resolution chain reads but does not own:
 * the file system, each project's extra-properties bag, and the error kinds
 * that leave the chain as exceptions.
 */
module Environment {
  import opened Wrappers

  /** A file-system path, as the string a `java.io.File` is built from. */
  type Path = string

  /** A Gradle project path such as ":app"; identifies one scope of the hierarchy. */
  type ScopeId = string

  /** What opening and loading a properties file yields. */
  datatype FileState =
    | Missing                                   // File.exists() is false / FileNotFoundException
    | Unreadable                                // exists, but reading throws IOException
    | Malformed(loaded: map<string, string>)    // Properties.load puts `loaded`, then meets a
                                                // malformed \uXXXX escape: IllegalArgumentException
    | Contents(entries: map<string, string>)    // what Properties.load would put in the map
  {
    /** The entries `Properties.load` puts into the map before it returns or throws. */
    function Put(): map<string, string> {
      match this
      case Contents(entries) => entries
      case Malformed(loaded) => loaded
      case Missing => map[]
      case Unreadable => map[]
    }
  }

  /** A value held in a project's extra-properties bag. */
  datatype BagValue = Str(s: string) | Null | Other

  type Bag = map<string, BagValue>

  /** The outside world for one evaluation: files on disk and every project's bag. */
  datatype World = World(files: map<Path, FileState>, extras: map<ScopeId, Bag>) {

    /** A path the file system does not list does not exist. */
    function FileAt(p: Path): FileState {
      if p in files then files[p] else Missing
    }

    /** A project without recorded extras has an empty bag. */
    function ExtrasOf(s: ScopeId): Bag {
      if s in extras then extras[s] else map[]
    }
  }

  /** The exceptions that can leave the resolution chain. */
  datatype Error =
    | PropertyInvalid(name: Option<string>)   // PropertyInvalidException
    | PropertyMissing(name: Option<string>)   // PropertyMissingException
    | NullPointer(key: string)                // Objects.requireNonNull on a null bag value
    | ClassCast(key: string)                  // (String) cast of a bag value that is not a String
    | MalformedEscape(file: Path)             // IllegalArgumentException from Properties.load

  /** What one resolver call yields: a value, Java's `null`, or an exception. */
  type Answer = Result<Option<string>, Error>

  /** What a call that may run forever yields; `OutOfFuel` stands for a loop that has not ended. */
  datatype Outcome<+T> = Returns(value: T) | Throws(error: Error) | OutOfFuel

  /** `Properties.getProperty`: the value stored under `key`, or null. */
  function Lookup(m: map<string, string>, key: string): (r: Option<string>)
    ensures r.Some? <==> key in m
    ensures r.Some? ==> r.value == m[key]
  {
    if key in m then Some(m[key]) else None
  }
}
