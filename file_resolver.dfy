/**
 * FileResolver: a resolver bound to one file.  Its `getProperties` creates the
 * map on the first call and then merges the file into that same map on EVERY
 * call; nothing is ever removed from it.
 */
module FileResolvers {
  import opened Wrappers
  import opened Environment

  /**
   * The map held after one `getProperties` call, given the map held before
   * (None while the field is still null) and the state of the file.  A
   * malformed file has its entries up to the bad escape merged in all the same.
   */
  function Reload(prev: Option<map<string, string>>, file: FileState): (m: map<string, string>)
    // keys already loaded are never dropped
    ensures prev.Some? ==> prev.value.Keys <= m.Keys
    // every entry the load puts is present with the file's value
    ensures forall k :: k in file.Put() ==> k in m && m[k] == file.Put()[k]
    // every other key keeps the value it had before
    ensures forall k :: k in m && k !in file.Put() ==> prev.Some? && k in prev.value && m[k] == prev.value[k]
    // a missing or unreadable file leaves the map as it was (empty on the first call)
    ensures file.Missing? || file.Unreadable? ==> m == (if prev.Some? then prev.value else map[])
  {
    var base := if prev.Some? then prev.value else map[];
    match file
    case Missing => base
    case Unreadable => base
    case Malformed(loaded) => base + loaded
    case Contents(entries) => base + entries
  }

  /**
   * What the `getProperties` call itself yields: the map, or the
   * IllegalArgumentException of a malformed file, which is not an IOException
   * and so is not caught.
   */
  function ReloadResult(prev: Option<map<string, string>>, path: Path, file: FileState): (r: Result<map<string, string>, Error>)
    ensures r.Failure? <==> file.Malformed?
    ensures r.Failure? ==> r.error == MalformedEscape(path)
    ensures r.Success? ==> r.value == Reload(prev, file)
  {
    if file.Malformed? then Failure(MalformedEscape(path)) else Success(Reload(prev, file))
  }

  /** Reloading an unchanged file a second time changes nothing. */
  lemma ReloadIdempotent(prev: Option<map<string, string>>, file: FileState)
    ensures Reload(Some(Reload(prev, file)), file) == Reload(prev, file)
  {
  }

  /**
   * The resolver reloads rather than caching: after the file on disk is
   * rewritten, the next call sees the new value of every key it holds.
   */
  lemma ReloadSeesRewrites(prev: Option<map<string, string>>, before: FileState, after: map<string, string>, key: string)
    requires key in after
    ensures Lookup(Reload(Some(Reload(prev, before)), Contents(after)), key) == Some(after[key])
  {
  }

  /** Keys are kept across calls: a key the file no longer holds keeps its earlier value. */
  lemma ReloadKeepsStaleKeys(prev: Option<map<string, string>>, before: map<string, string>, after: FileState, key: string)
    requires key in before
    requires key !in after.Put()
    ensures Lookup(Reload(Some(Reload(prev, Contents(before))), after), key) == Some(before[key])
  {
  }

  class FileResolver {
    /** The bound file; fixed at construction. */
    const file: Path
    /** The `properties` field: None while it is still null. */
    var properties: Option<map<string, string>>

    constructor (file: Path)
      ensures this.file == file && properties == None
    {
      this.file := file;
      properties := None;
    }

    /**
     * `getProperties`: allocate on first use, then merge the file in.  Only a
     * malformed file makes it throw, and the entries read before the bad
     * escape stay merged.
     */
    method GetProperties(w: World) returns (r: Result<map<string, string>, Error>)
      modifies this
      ensures properties == Some(Reload(old(properties), w.FileAt(file)))
      ensures r == ReloadResult(old(properties), file, w.FileAt(file))
    {
      if properties.None? {
        properties := Some(map[]);
      }
      match w.FileAt(file) {
        case Missing =>
          // logged at info level; the map is returned as it is
        case Unreadable =>
          // the IOException is caught and logged; a partial load is not modelled
        case Malformed(loaded) =>
          // the IllegalArgumentException escapes the try-with-resources
          properties := Some(properties.value + loaded);
          return Failure(MalformedEscape(file));
        case Contents(entries) =>
          properties := Some(properties.value + entries);
      }
      r := Success(properties.value);
    }

    /** `resolve`: the loaded value for `name`, or null; a malformed file throws. */
    method Resolve(name: string, w: World) returns (a: Answer)
      modifies this
      ensures properties == Some(Reload(old(properties), w.FileAt(file)))
      ensures a.Failure? <==> w.FileAt(file).Malformed?
      ensures a.Failure? ==> a.error == MalformedEscape(file)
      ensures a.Success? ==> (a.value.Some? <==> name in properties.value)
      ensures a.Success? && a.value.Some? ==> a.value.value == properties.value[name]
    {
      var loaded := GetProperties(w);
      match loaded {
        case Failure(e) => a := Failure(e);
        case Success(m) => a := Success(Lookup(m, name));
      }
    }
  }
}
