/**
 * EnhancedPropertiesExtension: the per-project registration surface.  It
 * holds the user's resolver list, empty until the build script registers
 * resolvers, and replaces that list by a longer copy on every registration.
 */
module Extensions {
  import opened Wrappers
  import opened Environment
  import opened FileResolvers
  import opened PropertyResolvers

  /**
   * The path `resolver(String)` registers: present iff the bag has the key
   * and the value stored there is a String.
   */
  function RegisteredPath(bag: Bag, key: string): (p: Option<Path>)
    ensures p.Some? <==> key in bag && bag[key].Str?
    ensures p.Some? ==> p.value == bag[key].s
  {
    if key in bag then
      match bag[key]
      case Str(path) => Some(path)
      case Null => None
      case Other => None
    else None
  }

  class EnhancedPropertiesExtension {
    /** The project this extension belongs to; its bag is read at registration. */
    const project: ScopeId
    /** The user's resolver list (the ListProperty's current value). */
    var resolvers: seq<Resolver>

    constructor (project: ScopeId)
      ensures this.project == project
      ensures resolvers == []
    {
      this.project := project;
      resolvers := [];
    }

    /** `getResolvers`: the list registered so far, in registration order. */
    function GetResolvers(): (rs: seq<Resolver>)
      reads this
      ensures rs == resolvers
    {
      resolvers
    }

    /**
     * `appendResolver`: build a new list from the current one, add the
     * resolver, and install the new list.  A sequence obtained earlier is a
     * value and is not affected.
     */
    method AppendResolver(r: Resolver)
      modifies this
      ensures resolvers == old(resolvers) + [r]
    {
      var existing := resolvers;
      var extended := existing + [r];
      resolvers := extended;
    }

    /** `resolver(File)`: always register one new FileResolver bound to `file`. */
    method ResolverForFile(file: Path)
      modifies this
      ensures |resolvers| == |old(resolvers)| + 1
      ensures resolvers[..|old(resolvers)|] == old(resolvers)
      ensures resolvers[|old(resolvers)|].FileBacked?
      ensures fresh(resolvers[|old(resolvers)|].fr)
      ensures resolvers[|old(resolvers)|].fr.file == file
      ensures resolvers[|old(resolvers)|].fr.properties.None?
    {
      var f := new FileResolver(file);
      AppendResolver(FileBacked(f));
    }

    /**
     * `resolver(String)`: register a FileResolver for the path stored under
     * `key` in this project's bag, read now; a missing key or a value that is
     * not a String registers nothing and raises nothing.
     */
    method ResolverForKey(key: string, w: World)
      modifies this
      ensures RegisteredPath(w.ExtrasOf(project), key).None? ==> resolvers == old(resolvers)
      ensures RegisteredPath(w.ExtrasOf(project), key).Some? ==>
                && |resolvers| == |old(resolvers)| + 1
                && resolvers[..|old(resolvers)|] == old(resolvers)
                && resolvers[|old(resolvers)|].FileBacked?
                && fresh(resolvers[|old(resolvers)|].fr)
                && resolvers[|old(resolvers)|].fr.file == RegisteredPath(w.ExtrasOf(project), key).value
                && resolvers[|old(resolvers)|].fr.properties.None?
    {
      var bag := w.ExtrasOf(project);
      if key in bag {
        var location := bag[key];
        if location.Str? {
          var f := new FileResolver(location.s);
          AppendResolver(FileBacked(f));
        }
      }
    }

    /** `propertyResolver(String)`: the same registration as `resolver(String)`. */
    method PropertyResolver(key: string, w: World)
      modifies this
      ensures RegisteredPath(w.ExtrasOf(project), key).None? ==> resolvers == old(resolvers)
      ensures RegisteredPath(w.ExtrasOf(project), key).Some? ==>
                && |resolvers| == |old(resolvers)| + 1
                && resolvers[..|old(resolvers)|] == old(resolvers)
                && resolvers[|old(resolvers)|].FileBacked?
                && fresh(resolvers[|old(resolvers)|].fr)
                && resolvers[|old(resolvers)|].fr.file == RegisteredPath(w.ExtrasOf(project), key).value
                && resolvers[|old(resolvers)|].fr.properties.None?
    {
      ResolverForKey(key, w);
    }
  }
}
