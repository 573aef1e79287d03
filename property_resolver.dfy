/**
 * The resolver interface (IPropertyResolver) over its two implementations,
 * and what a call to a resolver will answer, read off its current state.
 */
module PropertyResolvers {
  import opened Wrappers
  import opened Environment
  import opened FileResolvers
  import opened PropertyNameResolvers

  /** A reference to some IPropertyResolver. */
  datatype Resolver =
    | FileBacked(fr: FileResolver)
    | NameBacked(named: PropertyNameResolver)

  /** The object whose state a call to the resolver may change. */
  function ObjectOf(r: Resolver): object {
    match r
    case FileBacked(f) => f
    case NameBacked(n) => n
  }

  function Objects(rs: seq<Resolver>): (s: set<object>)
    ensures forall r :: r in rs ==> ObjectOf(r) in s
    ensures forall o :: o in s ==> o is FileResolver || o is PropertyNameResolver
  {
    set r | r in rs :: ObjectOf(r)
  }

  /** Adding a resolver to a list keeps the objects it had. */
  lemma ObjectsSnoc(rs: seq<Resolver>, r: Resolver)
    ensures Objects(rs) <= Objects(rs + [r])
  {
    assert forall x :: x in rs ==> x in rs + [r];
  }

  /** A resolver is determined by the object behind it. */
  lemma SameObject(r: Resolver, r': Resolver)
    requires ObjectOf(r) == ObjectOf(r')
    ensures r == r'
  {
  }

  /** What a FileResolver bound to `path`, whose field holds `props`, answers for `name`. */
  function FileAnswer(props: Option<map<string, string>>, path: Path, file: FileState, name: string): (a: Answer)
    // only a malformed file makes it throw
    ensures a.Failure? <==> file.Malformed?
    ensures a.Failure? ==> a == Failure(MalformedEscape(path))
    // otherwise a name is found iff the file or an earlier load holds it ...
    ensures a.Success? ==> (a.value.Some? <==> name in file.Put() || (props.Some? && name in props.value))
    // ... and the file's value wins over the earlier one
    ensures a.Success? && a.value.Some? ==>
              a.value.value == if name in file.Put() then file.Put()[name] else props.value[name]
  {
    match ReloadResult(props, path, file)
    case Failure(e) => Failure(e)
    case Success(m) => Success(Lookup(m, name))
  }

  /** What a PropertyNameResolver whose field holds `props` answers for `name`. */
  function NamedAnswer(props: Option<map<string, string>>, bag: Bag, key: string, w: World, name: string): (a: Answer)
    // once loaded, the answer depends on nothing but the stored map
    ensures props.Some? ==> a == Success(Lookup(props.value, name))
    // unloaded, it answers from the map the first load yields
    ensures props.None? && FirstLoad(bag, key, w).Success? ==> a == Success(Lookup(FirstLoad(bag, key, w).value, name))
    // only the first call can throw
    ensures a.Failure? <==> props.None? && FirstLoad(bag, key, w).Failure?
    ensures a.Failure? <==> props.None? && key in bag && (!bag[key].Str? || w.FileAt(bag[key].s).Malformed?)
    // and it throws what the first load throws
    ensures a.Failure? ==> a.error == FirstLoad(bag, key, w).error
  {
    if props.Some? then Success(Lookup(props.value, name))
    else match FirstLoad(bag, key, w)
      case Success(m) => Success(Lookup(m, name))
      case Failure(e) => Failure(e)
  }

  /** The answer the next `resolve(name)` call on `r` gives, from its current state. */
  function Predict(r: Resolver, w: World, name: string): Answer
    reads ObjectOf(r)
  {
    match r
    case FileBacked(f) => FileAnswer(f.properties, f.file, w.FileAt(f.file), name)
    case NameBacked(n) => NamedAnswer(n.properties, w.ExtrasOf(n.scope), n.key, w, name)
  }

  /** The answers of a whole resolver list, element by element. */
  function Predictions(rs: seq<Resolver>, w: World, name: string): (ps: seq<Answer>)
    reads Objects(rs)
    ensures |ps| == |rs|
    ensures forall i :: 0 <= i < |rs| ==> ps[i] == Predict(rs[i], w, name)
  {
    seq(|rs|, i requires 0 <= i < |rs| reads Objects(rs) => Predict(rs[i], w, name))
  }

  /**
   * `resolver.resolve(name)` through the interface.  The call answers what
   * `Predict` said, and a call that does not throw leaves the resolver
   * answering the same thing again: a FileResolver's re-merge of an unchanged
   * file is idempotent, and a PropertyNameResolver loads once.
   */
  method Resolve(r: Resolver, name: string, w: World) returns (a: Answer)
    modifies ObjectOf(r)
    ensures a == old(Predict(r, w, name))
    ensures a.Success? ==> Predict(r, w, name) == a
  {
    match r {
      case FileBacked(f) =>
        a := f.Resolve(name, w);
        ReloadIdempotent(old(f.properties), w.FileAt(f.file));
      case NameBacked(n) =>
        a := n.Resolve(name, w);
    }
  }
}
