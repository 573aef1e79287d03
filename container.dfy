/**
 * EnhancedPropertiesContainer: the per-project lookup object.  It validates
 * the name, picks the project's effective resolver list (the user's list when
 * it is non-empty, otherwise a lazily built pair of defaults) and walks the
 * project hierarchy with `findPropertyValue`, first match wins.
 */
module Containers {
  import opened Wrappers
  import opened Environment
  import opened FileResolvers
  import opened PropertyNameResolvers
  import opened PropertyResolvers
  import opened Extensions
  import opened ChainWalk
  import opened PropertyNames

  /** The bag key the first default resolver reads its file path from. */
  const EXTERNAL_PROPERTIES: string := "EXTERNAL_PROPERTIES"

  /** `<root project directory>/gradle.properties`, the second default. */
  function DefaultFile(rootDir: Path): Path {
    rootDir + "/gradle.properties"
  }

  /** The shape of the default list: the bag-key resolver first, the root file second. */
  predicate IsDefaultPair(rs: seq<Resolver>, project: ScopeId, rootDir: Path) {
    && |rs| == 2
    && rs[0].NameBacked? && rs[0].named.scope == project && rs[0].named.key == EXTERNAL_PROPERTIES
    && rs[1].FileBacked? && rs[1].fr.file == DefaultFile(rootDir)
  }

  /** What the two defaults answer before either has been called (or even built). */
  function FreshDefaultAnswers(project: ScopeId, rootDir: Path, w: World, name: string): seq<Answer> {
    [ NamedAnswer(None, w.ExtrasOf(project), EXTERNAL_PROPERTIES, w, name),
      FileAnswer(None, DefaultFile(rootDir), w.FileAt(DefaultFile(rootDir)), name) ]
  }

  /**
   * The project hierarchy as the container sees it: each project's parent
   * (a root has none) and the container attached to each project, if any.
   */
  datatype Hierarchy = Hierarchy(
    parent: map<ScopeId, ScopeId>,
    containers: map<ScopeId, EnhancedPropertiesContainer>)

  function ParentOf(h: Hierarchy, id: ScopeId): Option<ScopeId> {
    if id in h.parent then Some(h.parent[id]) else None
  }

  /** The list `getResolvers` hands out (empty while the defaults are not built yet). */
  function EffectiveList(c: EnhancedPropertiesContainer): seq<Resolver>
    reads c, c.extension
  {
    if c.extension.resolvers != [] then c.extension.resolvers
    else if c.defaultResolvers.Some? then c.defaultResolvers.value
    else []
  }

  /** Everything a lookup through `c` may change: `c` itself and the resolvers it hands out. */
  function Mutable(c: EnhancedPropertiesContainer): set<object>
    reads c, c.extension
  {
    {c} + Objects(EffectiveList(c))
  }

  /**
   * What each resolver of `c`'s effective list answers for `name`, in list
   * order; before the defaults are built, what they will answer once built.
   */
  function Answers(c: EnhancedPropertiesContainer, w: World, name: string): seq<Answer>
    reads c, c.extension, Objects(EffectiveList(c))
  {
    if EffectiveList(c) != [] then Predictions(EffectiveList(c), w, name)
    else FreshDefaultAnswers(c.project, c.rootDir, w, name)
  }

  /** Freshly built defaults answer as `FreshDefaultAnswers` says. */
  lemma DefaultPairAnswers(rs: seq<Resolver>, project: ScopeId, rootDir: Path, w: World, name: string)
    requires IsDefaultPair(rs, project, rootDir)
    requires rs[0].named.properties.None? && rs[1].fr.properties.None?
    ensures Predictions(rs, w, name) == FreshDefaultAnswers(project, rootDir, w, name)
  {
  }

  /** The container `findByName` finds on project `id`, if any. */
  function ContainerAt(h: Hierarchy, id: ScopeId): Option<EnhancedPropertiesContainer> {
    if id in h.containers then Some(h.containers[id]) else None
  }

  function ContainerObjects(oc: Option<EnhancedPropertiesContainer>): set<object> {
    if oc.Some? then {oc.value, oc.value.extension} else {}
  }

  function ResolverObjects(oc: Option<EnhancedPropertiesContainer>): set<object>
    reads ContainerObjects(oc)
  {
    if oc.Some? then Objects(EffectiveList(oc.value)) else {}
  }

  /** The parent project's container, if there is a parent and it has one. */
  function UpAt(h: Hierarchy, id: ScopeId): Option<EnhancedPropertiesContainer> {
    if ParentOf(h, id).Some? then ContainerAt(h, ParentOf(h, id).value) else None
  }

  ghost predicate ValidAt(oc: Option<EnhancedPropertiesContainer>)
    reads ContainerObjects(oc)
  {
    oc.Some? ==> oc.value.Valid()
  }

  function MutableAt(oc: Option<EnhancedPropertiesContainer>): set<object>
    reads ContainerObjects(oc)
  {
    if oc.Some? then Mutable(oc.value) else {}
  }

  /** One project as the walk sees it from the current state. */
  function ViewOf(h: Hierarchy, id: ScopeId, w: World, name: string): ScopeView
    reads ContainerObjects(ContainerAt(h, id)), ResolverObjects(ContainerAt(h, id))
  {
    ScopeView(ParentOf(h, id),
              if id in h.containers then Some(Answers(h.containers[id], w, name)) else None)
  }

  /**
   * The part of the hierarchy the loop as written can reach from `project`:
   * the project and its parent.
   */
  function LocalSnapshot(h: Hierarchy, w: World, name: string, project: ScopeId): Snapshot
    reads ContainerObjects(ContainerAt(h, project)), ResolverObjects(ContainerAt(h, project))
    reads ContainerObjects(UpAt(h, project)), ResolverObjects(UpAt(h, project))
  {
    var own := map[project := ViewOf(h, project, w, name)];
    match ParentOf(h, project)
    case None => own
    case Some(p) => own[p := ViewOf(h, p, w, name)]
  }

  /**
   * What `findPropertyValue(name)` on `project`'s container yields from the
   * current state: the validation error, or the loop as written over the
   * project and its parent.
   */
  function Expected(h: Hierarchy, w: World, name: Option<string>, project: ScopeId, fuel: nat): Outcome<Option<string>>
    reads ContainerObjects(ContainerAt(h, project)), ResolverObjects(ContainerAt(h, project))
    reads ContainerObjects(UpAt(h, project)), ResolverObjects(UpAt(h, project))
  {
    match ValidatePropertyName(name)
    case Failure(e) => Throws(e)
    case Success(trimmed) => AsWritten(LocalSnapshot(h, w, trimmed, project), project, fuel)
  }

  /** `get(name)`: the value found, or PropertyMissingException carrying the name as given. */
  function GetResult(found: Outcome<Option<string>>, name: Option<string>): (r: Outcome<string>)
    ensures r.Returns? <==> found.Returns? && found.value.Some?
    ensures r.Returns? ==> r.value == found.value.value
    ensures found == Returns(None) ==> r == Throws(PropertyMissing(name))
    ensures found.Throws? ==> r == Throws(found.error)
    ensures found.OutOfFuel? <==> r.OutOfFuel?
  {
    match found
    case Returns(Some(v)) => Returns(v)
    case Returns(None) => Throws(PropertyMissing(name))
    case Throws(e) => Throws(e)
    case OutOfFuel => OutOfFuel
  }

  /**
   * `get(name, default)`: the value found, or the default, which may itself
   * be null (None); a missing value never throws.
   */
  function GetOrDefaultResult(found: Outcome<Option<string>>, default: Option<string>): (r: Outcome<Option<string>>)
    ensures found.Returns? && found.value.Some? ==> r == found
    ensures found == Returns(None) ==> r == Returns(default)
    // a null result means nothing was found and null was the default
    ensures r == Returns(None) <==> found == Returns(None) && default.None?
    ensures r.Throws? <==> found.Throws?
    ensures r.Throws? ==> r.error == found.error
    // a lookup that never ends does not end here either
    ensures r.OutOfFuel? <==> found.OutOfFuel?
  {
    match found
    case Returns(Some(v)) => Returns(Some(v))
    case Returns(None) => Returns(default)
    case Throws(e) => Throws(e)
    case OutOfFuel => OutOfFuel
  }

  /** `exists(name)`: true iff a value was found. */
  function ExistsResult(found: Outcome<Option<string>>): (r: Outcome<bool>)
    ensures r == Returns(true) <==> found.Returns? && found.value.Some?
    ensures r == Returns(false) <==> found == Returns(None)
    ensures r.Throws? <==> found.Throws?
    ensures r.Throws? ==> r.error == found.error
    ensures r.OutOfFuel? <==> found.OutOfFuel?
  {
    match found
    case Returns(v) => Returns(v.Some?)
    case Throws(e) => Throws(e)
    case OutOfFuel => OutOfFuel
  }

  /** The three public forms agree on every lookup result. */
  lemma PublicFormsAgree(found: Outcome<Option<string>>, name: Option<string>, default: Option<string>)
    ensures ExistsResult(found) == Returns(true) <==> GetResult(found, name).Returns?
    ensures GetResult(found, name).Returns? ==> GetOrDefaultResult(found, default) == Returns(Some(GetResult(found, name).value))
    ensures ExistsResult(found) == Returns(false) <==>
              GetResult(found, name) == Throws(PropertyMissing(name)) && !found.Throws?
    ensures ExistsResult(found) == Returns(false) ==> GetOrDefaultResult(found, default) == Returns(default)
  {
  }

  /**
   * One step of the `for` loop of `findPropertyValue`: call `rs[i]`.  The
   * call answers what was predicted for it, and when it does not throw every
   * resolver of `rs` and of any other list `watch` answers as before: other
   * resolvers are other objects, and the one called answers the same again.
   */
  method CallOne(rs: seq<Resolver>, i: nat, name: string, w: World,
                 ghost watch: seq<Resolver>, ghost answers: seq<Answer>, ghost watched: seq<Answer>)
    returns (answer: Answer)
    requires i < |rs|
    requires Predictions(rs, w, name) == answers && Predictions(watch, w, name) == watched
    modifies ObjectOf(rs[i])
    ensures answer == answers[i]
    ensures answer.Success? ==> Predictions(rs, w, name) == answers && Predictions(watch, w, name) == watched
  {
    answer := Resolve(rs[i], name, w);
    if answer.Success? {
      forall j | 0 <= j < |rs|
        ensures Predict(rs[j], w, name) == answers[j]
      {
        if ObjectOf(rs[j]) == ObjectOf(rs[i]) {
          SameObject(rs[j], rs[i]);
        }
      }
      forall j | 0 <= j < |watch|
        ensures Predict(watch[j], w, name) == watched[j]
      {
        if ObjectOf(watch[j]) == ObjectOf(rs[i]) {
          SameObject(watch[j], rs[i]);
        }
      }
    }
  }

  /**
   * The `for` loop of `findPropertyValue`: call the resolvers of `rs` in
   * order and stop at the first that answers non-null or throws.  `called`
   * records the resolvers actually called.  The answers of `rs`, and of any
   * other list `watch`, are the same afterwards unless a resolver threw.
   */
  method ConsultList(rs: seq<Resolver>, name: string, w: World,
                     ghost answers: seq<Answer>, ghost watch: seq<Resolver>, ghost watched: seq<Answer>)
    returns (a: Answer, ghost called: seq<Resolver>)
    requires Predictions(rs, w, name) == answers && Predictions(watch, w, name) == watched
    modifies Objects(rs)
    // first match wins
    ensures a == FirstMatch(answers)
    // the resolvers after the first match are never called
    ensures |called| == Consulted(answers) && called <= rs
    ensures unchanged(Objects(rs) - Objects(called))
    ensures a.Success? ==> Predictions(rs, w, name) == answers && Predictions(watch, w, name) == watched
  {
    var i := 0;
    called := [];
    a := Success(None);
    while i < |rs| && a == Success(None)
      invariant 0 <= i <= |rs|
      invariant called == rs[..i]
      invariant unchanged(Objects(rs) - Objects(called))
      invariant a == Success(None) ==> forall j :: 0 <= j < i ==> answers[j] == Success(None)
      invariant a != Success(None) ==> 0 < i && a == answers[i - 1] && forall j :: 0 <= j < i - 1 ==> answers[j] == Success(None)
      invariant a.Success? ==> Predictions(rs, w, name) == answers && Predictions(watch, w, name) == watched
      decreases |rs| - i
    {
      label before:
      a := CallOne(rs, i, name, w, watch, answers, watched);
      assert unchanged@before(Objects(rs) - {ObjectOf(rs[i])});
      FrameShrinks(rs, i);
      called := called + [rs[i]];
      i := i + 1;
    }
    if a != Success(None) {
      FirstMatchAt(answers, i - 1);
    }
  }

  /** Calling one more resolver leaves fewer objects to keep unchanged. */
  lemma FrameShrinks(rs: seq<Resolver>, i: nat)
    requires i < |rs|
    ensures rs[..i + 1] == rs[..i] + [rs[i]]
    ensures Objects(rs) - Objects(rs[..i + 1]) <= (Objects(rs) - Objects(rs[..i])) - {ObjectOf(rs[i])}
  {
    assert rs[..i + 1] == rs[..i] + [rs[i]];
    ObjectsSnoc(rs[..i], rs[i]);
  }

  /**
   * `iterContainer.getResolvers()` as the loop uses it: the list handed out
   * answers what `Answers` predicted for the container, and no other
   * container's answers move.
   */
  method FetchResolvers(c: EnhancedPropertiesContainer, w: World, name: string, ghost other: EnhancedPropertiesContainer)
    returns (rs: seq<Resolver>)
    requires c.Valid() && other.Valid()
    modifies c
    ensures c.Valid() && other.Valid()
    ensures rs == EffectiveList(c) && rs != []
    ensures Predictions(rs, w, name) == old(Answers(c, w, name))
    ensures old(EffectiveList(c)) != [] ==> rs == old(EffectiveList(c))
    ensures old(EffectiveList(c)) == [] ==>
              && IsDefaultPair(rs, c.project, c.rootDir)
              && fresh(rs[0].named) && fresh(rs[1].fr) && rs[1].fr.properties.None?
    ensures forall o :: o in Mutable(c) ==> o in old(Mutable(c)) || fresh(o)
    ensures other != c ==> EffectiveList(other) == old(EffectiveList(other))
    ensures other != c ==> Answers(other, w, name) == old(Answers(other, w, name))
  {
    ghost var before := Answers(c, w, name);
    rs := c.GetResolvers();
    if old(EffectiveList(c)) == [] {
      DefaultPairAnswers(rs, c.project, c.rootDir, w, name);
    }
  }

  /**
   * The container-level view of the same loop: fetch `c`'s effective list
   * (building the defaults if need be), then consult it.  `other` is any
   * further container whose answers must survive the calls.
   */
  method ConsultResolvers(c: EnhancedPropertiesContainer, name: string, w: World, ghost other: EnhancedPropertiesContainer)
    returns (a: Answer, ghost called: seq<Resolver>, ghost rs: seq<Resolver>)
    requires c.Valid() && other.Valid()
    modifies Mutable(c)
    ensures c.Valid() && other.Valid()
    // first match wins
    ensures a == FirstMatch(old(Answers(c, w, name)))
    // resolvers after the first match are never called
    ensures rs == EffectiveList(c)
    ensures |called| == Consulted(old(Answers(c, w, name))) && called <= rs
    ensures forall o :: o in Objects(rs) - Objects(called) ==> fresh(o) || unchanged(o)
    // a freshly built root-file default that is not reached stays unloaded
    ensures old(EffectiveList(c)) == [] && |called| < 2 ==> |rs| == 2 && rs[1].fr.properties.None?
    // a lookup that finds nothing leaves every answer as it was
    ensures a.Success? ==> Answers(c, w, name) == old(Answers(c, w, name))
    ensures a.Success? && other != c ==> Answers(other, w, name) == old(Answers(other, w, name))
    // only the defaults may be new, and only where none were built before
    ensures old(EffectiveList(c)) != [] ==> EffectiveList(c) == old(EffectiveList(c))
    ensures forall o :: o in Mutable(c) ==> o in old(Mutable(c)) || fresh(o)
    ensures other != c ==> EffectiveList(other) == old(EffectiveList(other))
  {
    ghost var watch := EffectiveList(other);
    ghost var before := Answers(c, w, name);
    ghost var unbuilt := EffectiveList(c) == [];
    var list := FetchResolvers(c, w, name, other);
    rs := list;
    assert c !in Objects(list) && other !in Objects(list);
    assert c.extension !in Objects(list) && other.extension !in Objects(list);
    a, called := ConsultList(list, name, w, Predictions(list, w, name), watch, Predictions(watch, w, name));
    assert EffectiveList(c) == list;
    if unbuilt && |called| < 2 {
      // at most the bag-key resolver was called, so the root-file default was not
      assert called == [] || called == [list[0]];
      assert ObjectOf(list[1]) in Objects(list) - Objects(called);
    }
    if a.Success? && other != c {
      assert watch != [] ==> Answers(other, w, name) == Predictions(watch, w, name);
    }
  }

  class EnhancedPropertiesContainer {
    /** The project this container is attached to. */
    const project: ScopeId
    /** `project.getRootProject().getProjectDir()`, fixed for the build. */
    const rootDir: Path
    const extension: EnhancedPropertiesExtension
    /** The lazily built `defaultResolvers` field: None while it is still null. */
    var defaultResolvers: Option<seq<Resolver>>

    ghost predicate Valid()
      reads this
    {
      defaultResolvers.Some? ==> IsDefaultPair(defaultResolvers.value, project, rootDir)
    }

    constructor (project: ScopeId, rootDir: Path, extension: EnhancedPropertiesExtension)
      ensures this.project == project && this.rootDir == rootDir && this.extension == extension
      ensures defaultResolvers.None? && Valid()
    {
      this.project := project;
      this.rootDir := rootDir;
      this.extension := extension;
      defaultResolvers := None;
    }

    /**
     * `getDefaultResolvers`: on the first call build the bag-key resolver for
     * EXTERNAL_PROPERTIES and the root `gradle.properties` resolver, in that
     * order; on later calls return the list built then.
     */
    method GetDefaultResolvers() returns (rs: seq<Resolver>)
      requires Valid()
      modifies this
      ensures Valid() && defaultResolvers == Some(rs)
      ensures IsDefaultPair(rs, project, rootDir)
      ensures old(defaultResolvers).Some? ==> rs == old(defaultResolvers).value
      ensures old(defaultResolvers).None? ==>
                && fresh(rs[0].named) && rs[0].named.properties.None?
                && fresh(rs[1].fr) && rs[1].fr.properties.None?
    {
      if defaultResolvers.None? {
        var byKey := new PropertyNameResolver(project, EXTERNAL_PROPERTIES);
        var rootFile := new FileResolver(DefaultFile(rootDir));
        defaultResolvers := Some([NameBacked(byKey), FileBacked(rootFile)]);
      }
      rs := defaultResolvers.value;
    }

    /**
     * `getResolvers`: the user's list verbatim when it is non-empty, the
     * defaults only when it is empty; the two are never merged.
     */
    method GetResolvers() returns (rs: seq<Resolver>)
      requires Valid()
      modifies this
      ensures Valid()
      ensures extension.resolvers != [] ==> rs == extension.resolvers && defaultResolvers == old(defaultResolvers)
      ensures extension.resolvers == [] ==> defaultResolvers == Some(rs) && IsDefaultPair(rs, project, rootDir)
      ensures extension.resolvers == [] && old(defaultResolvers).Some? ==> rs == old(defaultResolvers).value
      ensures extension.resolvers == [] && old(defaultResolvers).None? ==>
                && fresh(rs[0].named) && rs[0].named.properties.None?
                && fresh(rs[1].fr) && rs[1].fr.properties.None?
    {
      var resolvers := extension.GetResolvers();
      if resolvers != [] {
        rs := resolvers;
      } else {
        rs := GetDefaultResolvers();
      }
    }

    /**
     * `findPropertyValue`: validate the name, then starting at this project
     * consult the resolvers of the container `findByName` finds there, first
     * match wins; on a miss move to `project.getParent()` (the parent of
     * this project on every pass, as written) until there is none.
     */
    method FindPropertyValue(name: Option<string>, h: Hierarchy, w: World, fuel: nat)
      returns (r: Outcome<Option<string>>)
      requires ValidAt(ContainerAt(h, project)) && ValidAt(UpAt(h, project))
      modifies MutableAt(ContainerAt(h, project)), MutableAt(UpAt(h, project))
      ensures ValidAt(ContainerAt(h, project)) && ValidAt(UpAt(h, project))
      ensures r == old(Expected(h, w, name, project, fuel))
      // a lookup that does not throw leaves every answer in place: repeating it gives the same result
      ensures !r.Throws? ==> r == Expected(h, w, name, project, fuel)
      // an invalid name is rejected before any resolver is called
      ensures ValidatePropertyName(name).Failure? ==>
                unchanged(old(MutableAt(ContainerAt(h, project)))) && unchanged(old(MutableAt(UpAt(h, project))))
    {
      var checked := ValidatePropertyName(name);
      if checked.Failure? {
        return Throws(checked.error);
      }
      var trimmed := checked.value;
      ghost var s := LocalSnapshot(h, w, trimmed, project);
      ghost var own := ContainerAt(h, project);
      ghost var up := UpAt(h, project);
      ghost var ownAnswers := if own.Some? then Answers(own.value, w, trimmed) else [];
      ghost var upAnswers := if up.Some? then Answers(up.value, w, trimmed) else [];
      assert ParentIn(s, project) == ParentOf(h, project);
      assert ScopeResult(s, project) == if own.Some? then FirstMatch(ownAnswers) else Success(None);
      assert ParentOf(h, project).Some? ==>
               ScopeResult(s, ParentOf(h, project).value) == if up.Some? then FirstMatch(upAnswers) else Success(None);

      var iter := Some(project);
      var remaining := fuel;
      while iter.Some?
        invariant iter == Some(project) || iter == ParentOf(h, project)
        invariant LoopAsWritten(s, project, iter, remaining) == AsWritten(s, project, fuel)
        invariant ValidAt(own) && ValidAt(up)
        invariant own.Some? ==> Answers(own.value, w, trimmed) == ownAnswers
        invariant up.Some? ==> Answers(up.value, w, trimmed) == upAnswers
        invariant forall o :: o in MutableAt(own) ==> o in old(MutableAt(own)) || fresh(o)
        invariant forall o :: o in MutableAt(up) ==> o in old(MutableAt(up)) || fresh(o)
        decreases remaining
      {
        if remaining == 0 {
          return OutOfFuel;
        }
        var iterContainer := ContainerAt(h, iter.value);
        if iterContainer.Some? {
          ghost var other := if iter == Some(project) then up else own;
          var a, called, consulted := ConsultResolvers(iterContainer.value, trimmed, w,
                                            if other.Some? then other.value else iterContainer.value);
          if a != Success(None) {
            return Ends(a);
          }
        }
        iter := ParentOf(h, project);
        remaining := remaining - 1;
      }
      return Returns(None);
    }

    /** `get(name)`: the value found, or PropertyMissingException. */
    method Get(name: Option<string>, h: Hierarchy, w: World, fuel: nat) returns (r: Outcome<string>)
      requires ValidAt(ContainerAt(h, project)) && ValidAt(UpAt(h, project))
      modifies MutableAt(ContainerAt(h, project)), MutableAt(UpAt(h, project))
      ensures ValidAt(ContainerAt(h, project)) && ValidAt(UpAt(h, project))
      ensures r == GetResult(old(Expected(h, w, name, project, fuel)), name)
    {
      var found := FindPropertyValue(name, h, w, fuel);
      match found {
        case Returns(Some(v)) => r := Returns(v);
        case Returns(None) => r := Throws(PropertyMissing(name));
        case Throws(e) => r := Throws(e);
        case OutOfFuel => r := OutOfFuel;
      }
    }

    /** `get(name, defaultValue)`: the value found, or the default. */
    method GetOrDefault(name: Option<string>, default: Option<string>, h: Hierarchy, w: World, fuel: nat) returns (r: Outcome<Option<string>>)
      requires ValidAt(ContainerAt(h, project)) && ValidAt(UpAt(h, project))
      modifies MutableAt(ContainerAt(h, project)), MutableAt(UpAt(h, project))
      ensures ValidAt(ContainerAt(h, project)) && ValidAt(UpAt(h, project))
      ensures r == GetOrDefaultResult(old(Expected(h, w, name, project, fuel)), default)
    {
      var found := FindPropertyValue(name, h, w, fuel);
      match found {
        case Returns(Some(v)) => r := Returns(Some(v));
        case Returns(None) => r := Returns(default);
        case Throws(e) => r := Throws(e);
        case OutOfFuel => r := OutOfFuel;
      }
    }

    /** `exists(name)`: whether a value was found. */
    method Exists(name: Option<string>, h: Hierarchy, w: World, fuel: nat) returns (r: Outcome<bool>)
      requires ValidAt(ContainerAt(h, project)) && ValidAt(UpAt(h, project))
      modifies MutableAt(ContainerAt(h, project)), MutableAt(UpAt(h, project))
      ensures ValidAt(ContainerAt(h, project)) && ValidAt(UpAt(h, project))
      ensures r == ExistsResult(old(Expected(h, w, name, project, fuel)))
    {
      var found := FindPropertyValue(name, h, w, fuel);
      match found {
        case Returns(v) => r := Returns(v.Some?);
        case Throws(e) => r := Throws(e);
        case OutOfFuel => r := OutOfFuel;
      }
    }
  }
}
