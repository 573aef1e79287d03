/**
 * PropertyNameResolver: a resolver whose file path is itself a value in its
 * project's extra-properties bag.  The bag is read, and the file loaded, on
 * the first `getProperties` call only; the map stored then is kept for good.
 */
module PropertyNameResolvers {
  import opened Wrappers
  import opened Environment

  /**
   * The first `getProperties` call, given the project's bag at that moment:
   * the map it loads, or the unchecked exception it lets escape.
   */
  function FirstLoad(bag: Bag, key: string, w: World): (r: Result<map<string, string>, Error>)
    // no entry under the key: an empty map, silently
    ensures key !in bag ==> r == Success(map[])
    // only a null value, a non-String value or a malformed file escapes, and then as an exception
    ensures r.Failure? <==> key in bag && (!bag[key].Str? || w.FileAt(bag[key].s).Malformed?)
    ensures key in bag && bag[key].Null? ==> r == Failure(NullPointer(key))
    ensures key in bag && bag[key].Other? ==> r == Failure(ClassCast(key))
    ensures key in bag && bag[key].Str? && w.FileAt(bag[key].s).Malformed? ==>
              r == Failure(MalformedEscape(bag[key].s))
    // a String path to a readable file yields exactly that file's entries
    ensures key in bag && bag[key].Str? && w.FileAt(bag[key].s).Contents? ==>
              r == Success(w.FileAt(bag[key].s).entries)
    // a missing or unreadable file is an IOException, caught: the map stays empty
    ensures key in bag && bag[key].Str? && (w.FileAt(bag[key].s).Missing? || w.FileAt(bag[key].s).Unreadable?) ==>
              r == Success(map[])
  {
    if key !in bag then Success(map[])
    else match bag[key]
      case Null => Failure(NullPointer(key))
      case Other => Failure(ClassCast(key))
      case Str(path) =>
        match w.FileAt(path)
        case Contents(entries) => Success(entries)
        case Malformed(_) => Failure(MalformedEscape(path))
        case Missing => Success(map[])
        case Unreadable => Success(map[])
  }

  /**
   * The map the first call leaves in the field, whether it throws or not: the
   * empty map is stored before the bag is read, and a malformed file's
   * entries before the bad escape are already in it.
   */
  function FirstStored(bag: Bag, key: string, w: World): (m: map<string, string>)
    ensures FirstLoad(bag, key, w).Success? ==> m == FirstLoad(bag, key, w).value
    ensures key in bag && !bag[key].Str? ==> m == map[]
    ensures key in bag && bag[key].Str? && w.FileAt(bag[key].s).Malformed? ==>
              m == w.FileAt(bag[key].s).loaded
  {
    if key in bag && bag[key].Str? then w.FileAt(bag[key].s).Put() else map[]
  }

  class PropertyNameResolver {
    /** The project whose bag is consulted. */
    const scope: ScopeId
    /** The bag key naming the file; stored by the constructor, read lazily. */
    const key: string
    /** The `properties` field: None while it is still null. */
    var properties: Option<map<string, string>>

    constructor (scope: ScopeId, key: string)
      ensures this.scope == scope && this.key == key && properties == None
    {
      this.scope := scope;
      this.key := key;
      properties := None;
    }

    /**
     * `getProperties`: on the first call store an empty map, then fill it from
     * the file the bag names; on later calls return the stored map untouched.
     */
    method GetProperties(w: World) returns (r: Result<map<string, string>, Error>)
      modifies this
      // load once: a stored map is returned as it is, whatever the bag or the files say now
      ensures old(properties).Some? ==> properties == old(properties) && r == Success(properties.value)
      ensures old(properties).None? ==> r == FirstLoad(w.ExtrasOf(scope), key, w)
      // what the first call stores survives an exception
      ensures old(properties).None? ==> properties == Some(FirstStored(w.ExtrasOf(scope), key, w))
    {
      if properties.None? {
        properties := Some(map[]);
        var bag := w.ExtrasOf(scope);
        if key in bag {
          match bag[key] {
            case Null =>
              return Failure(NullPointer(key));
            case Other =>
              return Failure(ClassCast(key));
            case Str(path) =>
              match w.FileAt(path) {
                case Contents(entries) =>
                  properties := Some(properties.value + entries);
                  assert properties.value == entries;
                case Malformed(loaded) =>
                  // the IllegalArgumentException is not an IOException: it escapes
                  properties := Some(properties.value + loaded);
                  assert properties.value == loaded;
                  return Failure(MalformedEscape(path));
                case Missing =>
                  // FileNotFoundException is an IOException: caught and logged
                case Unreadable =>
                  // IOException caught and logged
              }
          }
        }
      }
      r := Success(properties.value);
    }

    /** `resolve`: the loaded value for `name`, or null; the first call may throw. */
    method Resolve(name: string, w: World) returns (a: Answer)
      modifies this
      ensures properties.Some?
      ensures a.Success? ==> a.value == Lookup(properties.value, name)
      ensures old(properties).Some? ==> properties == old(properties) && a.Success?
      ensures old(properties).None? ==> properties == Some(FirstStored(w.ExtrasOf(scope), key, w))
      ensures old(properties).None? && FirstLoad(w.ExtrasOf(scope), key, w).Failure? ==>
                a == Failure(FirstLoad(w.ExtrasOf(scope), key, w).error)
      ensures old(properties).None? && FirstLoad(w.ExtrasOf(scope), key, w).Success? ==> a.Success?
    {
      var loaded := GetProperties(w);
      match loaded {
        case Failure(e) => a := Failure(e);
        case Success(m) => a := Success(Lookup(m, name));
      }
    }
  }
}
