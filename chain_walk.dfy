/**
 * The walk `findPropertyValue` performs over the project hierarchy, stated on
 * values.  A snapshot records, per project, its parent and the answers its
 * container's resolvers give in list order.  `AsWritten` is the loop as the
 * code has it (the next project is always `project.getParent()`);
 * `Documented` is the walk its comment describes (each project's parent in
 * turn, up to the root).  Both carry fuel: one unit per loop iteration.
 */
module ChainWalk {
  import opened Wrappers
  import opened Environment

  /** One project as the walk sees it; `answers` is None when no container is attached. */
  datatype ScopeView = ScopeView(parent: Option<ScopeId>, answers: Option<seq<Answer>>)

  type Snapshot = map<ScopeId, ScopeView>

  function ParentIn(s: Snapshot, id: ScopeId): Option<ScopeId> {
    if id in s then s[id].parent else None
  }

  /** The answer of the first resolver that does not answer null (an exception counts). */
  function FirstMatch(answers: seq<Answer>): (a: Answer)
    ensures a == Success(None) <==> forall i :: 0 <= i < |answers| ==> answers[i] == Success(None)
  {
    if answers == [] then Success(None)
    else if answers[0] != Success(None) then answers[0]
    else FirstMatch(answers[1..])
  }

  /** How many resolvers of the list are called: up to and including the first match. */
  function Consulted(answers: seq<Answer>): (n: nat)
    ensures n <= |answers|
    ensures FirstMatch(answers) == Success(None) ==> n == |answers|
    ensures FirstMatch(answers) != Success(None) ==>
              0 < n && answers[n - 1] == FirstMatch(answers)
              && forall j :: 0 <= j < n - 1 ==> answers[j] == Success(None)
  {
    if answers == [] then 0
    else if answers[0] != Success(None) then 1
    else 1 + Consulted(answers[1..])
  }

  /**
   * The first answer that is not null is the one that counts, and the
   * resolvers up to and including it are exactly the ones called.
   */
  lemma {:induction false} FirstMatchAt(answers: seq<Answer>, i: nat)
    requires i < |answers| && answers[i] != Success(None)
    requires forall j :: 0 <= j < i ==> answers[j] == Success(None)
    ensures FirstMatch(answers) == answers[i]
    ensures Consulted(answers) == i + 1
  {
    if i > 0 {
      assert answers[0] == Success(None);
      FirstMatchAt(answers[1..], i - 1);
    }
  }

  /** What one project contributes: nothing at all when it has no container. */
  function ScopeResult(s: Snapshot, id: ScopeId): Answer {
    if id in s && s[id].answers.Some? then FirstMatch(s[id].answers.value) else Success(None)
  }

  /** A non-null answer (or an exception) ends the walk with it. */
  function Ends(a: Answer): Outcome<Option<string>>
    requires a != Success(None)
  {
    match a
    case Success(v) => Returns(v)
    case Failure(e) => Throws(e)
  }

  /**
   * The loop of `findPropertyValue` as written, from `iter` on, in a walk
   * started at `project`: `iter` is the project itself or its parent.
   */
  function LoopAsWritten(s: Snapshot, project: ScopeId, iter: Option<ScopeId>, fuel: nat): (r: Outcome<Option<string>>)
    requires iter == Some(project) || iter == ParentIn(s, project)
    // null comes back only when the project has no parent
    ensures r == Returns(None) ==> ParentIn(s, project).None?
    decreases fuel
  {
    match iter
    case None => Returns(None)
    case Some(id) =>
      if fuel == 0 then OutOfFuel
      else if ScopeResult(s, id) != Success(None) then Ends(ScopeResult(s, id))
      else LoopAsWritten(s, project, ParentIn(s, project), fuel - 1)
  }

  /** The whole loop as written, started at `project`. */
  function AsWritten(s: Snapshot, project: ScopeId, fuel: nat): (r: Outcome<Option<string>>)
    // the own project is looked at first
    ensures fuel > 0 && ScopeResult(s, project) != Success(None) ==> r == Ends(ScopeResult(s, project))
    // null comes back only when the project has no parent
    ensures r == Returns(None) ==> ParentIn(s, project).None?
  {
    LoopAsWritten(s, project, Some(project), fuel)
  }

  /** The walk the comment of `findPropertyValue` describes: parent of parent, up to the root. */
  function Documented(s: Snapshot, iter: Option<ScopeId>, fuel: nat): (r: Outcome<Option<string>>)
    // null only when every ancestor within reach yields null
    ensures r == Returns(None) && iter.Some? ==>
              forall k :: 0 <= k < fuel && AncestorAt(s, iter.value, k).Some? ==>
                ScopeResult(s, AncestorAt(s, iter.value, k).value) == Success(None)
    decreases fuel
  {
    match iter
    case None => Returns(None)
    case Some(id) =>
      if fuel == 0 then OutOfFuel
      else if ScopeResult(s, id) != Success(None) then Ends(ScopeResult(s, id))
      else Documented(s, ParentIn(s, id), fuel - 1)
  }

  /** The `k`-th ancestor of `start` (the 0-th is `start` itself), if the chain is that long. */
  function AncestorAt(s: Snapshot, start: ScopeId, k: nat): Option<ScopeId>
    decreases k
  {
    if k == 0 then Some(start)
    else match ParentIn(s, start)
      case None => None
      case Some(p) => AncestorAt(s, p, k - 1)
  }

  /**
   * The own project is consulted first and, only when it yields nothing, its
   * parent; a project without a parent is examined once, and the walk then
   * returns null.
   */
  lemma AsWrittenOwnThenParent(s: Snapshot, project: ScopeId, fuel: nat)
    requires fuel >= 2
    ensures ScopeResult(s, project) != Success(None) ==> AsWritten(s, project, fuel) == Ends(ScopeResult(s, project))
    ensures ScopeResult(s, project) == Success(None) && ParentIn(s, project).None? ==>
              AsWritten(s, project, fuel) == Returns(None)
    ensures ScopeResult(s, project) == Success(None) && ParentIn(s, project).Some?
            && ScopeResult(s, ParentIn(s, project).value) != Success(None) ==>
              AsWritten(s, project, fuel) == Ends(ScopeResult(s, ParentIn(s, project).value))
  {
    if ScopeResult(s, project) == Success(None) {
      assert AsWritten(s, project, fuel) == LoopAsWritten(s, project, ParentIn(s, project), fuel - 1);
    }
  }

  /** Once the loop stands on a parent that yields nothing, it stays there for ever. */
  lemma {:induction false} StuckOnParent(s: Snapshot, project: ScopeId, fuel: nat)
    requires ParentIn(s, project).Some?
    requires ScopeResult(s, ParentIn(s, project).value) == Success(None)
    ensures LoopAsWritten(s, project, ParentIn(s, project), fuel) == OutOfFuel
    decreases fuel
  {
    if fuel > 0 {
      StuckOnParent(s, project, fuel - 1);
    }
  }

  /**
   * A name that neither the project nor its parent can resolve makes the loop
   * run for ever: no amount of fuel is enough.
   */
  lemma AsWrittenNeverEnds(s: Snapshot, project: ScopeId, fuel: nat)
    requires ParentIn(s, project).Some?
    requires ScopeResult(s, project) == Success(None)
    requires ScopeResult(s, ParentIn(s, project).value) == Success(None)
    ensures AsWritten(s, project, fuel) == OutOfFuel
  {
    if fuel > 0 {
      StuckOnParent(s, project, fuel - 1);
    }
  }

  /** The loop from the parent on only ever looks at the parent. */
  lemma {:induction false} ParentLoopSeesOnlyParent(s: Snapshot, t: Snapshot, project: ScopeId, fuel: nat)
    requires ParentIn(s, project) == ParentIn(t, project)
    requires ParentIn(s, project).Some? ==>
               ScopeResult(s, ParentIn(s, project).value) == ScopeResult(t, ParentIn(s, project).value)
    ensures LoopAsWritten(s, project, ParentIn(s, project), fuel) == LoopAsWritten(t, project, ParentIn(t, project), fuel)
    decreases fuel
  {
    if fuel > 0 && ParentIn(s, project).Some? {
      ParentLoopSeesOnlyParent(s, t, project, fuel - 1);
    }
  }

  /** Whatever the loop from the parent on returns or throws is the parent's answer. */
  lemma {:induction false} ParentLoopAnswer(s: Snapshot, project: ScopeId, fuel: nat)
    ensures var r := LoopAsWritten(s, project, ParentIn(s, project), fuel);
            r.Throws? || (r.Returns? && r.value.Some?) ==>
              ParentIn(s, project).Some? && ScopeResult(s, ParentIn(s, project).value) != Success(None)
              && r == Ends(ScopeResult(s, ParentIn(s, project).value))
    decreases fuel
  {
    if fuel > 0 && ParentIn(s, project).Some? {
      ParentLoopAnswer(s, project, fuel - 1);
    }
  }

  /**
   * Conversely to `AsWrittenOwnThenParent`: a value or an exception that the
   * loop as written yields is the answer of the project or of its parent, and
   * it yields null only for a project without a parent.
   */
  lemma AsWrittenAnswersNearby(s: Snapshot, project: ScopeId, fuel: nat)
    ensures var r := AsWritten(s, project, fuel);
            r.Throws? || (r.Returns? && r.value.Some?) ==>
              || (ScopeResult(s, project) != Success(None) && r == Ends(ScopeResult(s, project)))
              || (ParentIn(s, project).Some? && ScopeResult(s, ParentIn(s, project).value) != Success(None)
                  && r == Ends(ScopeResult(s, ParentIn(s, project).value)))
    ensures AsWritten(s, project, fuel) == Returns(None) ==> ParentIn(s, project).None?
  {
    if fuel > 0 && ScopeResult(s, project) == Success(None) {
      assert AsWritten(s, project, fuel) == LoopAsWritten(s, project, ParentIn(s, project), fuel - 1);
      ParentLoopAnswer(s, project, fuel - 1);
    }
  }

  /**
   * The result of the loop as written depends on the project and its parent
   * only: two hierarchies that agree on those two agree on the result,
   * whatever lies above the parent.
   */
  lemma AsWrittenIgnoresGrandparents(s: Snapshot, t: Snapshot, project: ScopeId, fuel: nat)
    requires ScopeResult(s, project) == ScopeResult(t, project)
    requires ParentIn(s, project) == ParentIn(t, project)
    requires ParentIn(s, project).Some? ==>
               ScopeResult(s, ParentIn(s, project).value) == ScopeResult(t, ParentIn(s, project).value)
    ensures AsWritten(s, project, fuel) == AsWritten(t, project, fuel)
  {
    if fuel > 0 {
      ParentLoopSeesOnlyParent(s, t, project, fuel - 1);
    }
  }

  /**
   * Whenever the project or its parent settles the name (or there is no
   * parent), the loop as written and the documented walk agree.
   */
  lemma AsWrittenAgreesNearby(s: Snapshot, project: ScopeId, fuel: nat)
    requires || ScopeResult(s, project) != Success(None)
             || ParentIn(s, project).None?
             || ScopeResult(s, ParentIn(s, project).value) != Success(None)
    ensures AsWritten(s, project, fuel) == Documented(s, Some(project), fuel)
  {
    if fuel > 0 && ScopeResult(s, project) == Success(None) {
      assert AsWritten(s, project, fuel) == LoopAsWritten(s, project, ParentIn(s, project), fuel - 1);
      assert Documented(s, Some(project), fuel) == Documented(s, ParentIn(s, project), fuel - 1);
    }
  }

  /**
   * The documented walk returns the answer of the first ancestor (within the
   * fuel) that yields one, every ancestor before it having yielded null.
   */
  lemma {:induction false} DocumentedFirstAncestor(s: Snapshot, start: ScopeId, fuel: nat, k: nat)
    requires k < fuel
    requires forall j :: 0 <= j <= k ==> AncestorAt(s, start, j).Some?
    requires forall j :: 0 <= j < k ==> ScopeResult(s, AncestorAt(s, start, j).value) == Success(None)
    requires ScopeResult(s, AncestorAt(s, start, k).value) != Success(None)
    ensures Documented(s, Some(start), fuel) == Ends(ScopeResult(s, AncestorAt(s, start, k).value))
    decreases k
  {
    if k > 0 {
      assert AncestorAt(s, start, 0) == Some(start);
      assert AncestorAt(s, start, 1).Some?;
      var p := ParentIn(s, start).value;
      forall j | 0 <= j <= k - 1
        ensures AncestorAt(s, p, j) == AncestorAt(s, start, j + 1)
      {
      }
      DocumentedFirstAncestor(s, p, fuel - 1, k - 1);
    }
  }

  /** Conversely, whatever value the documented walk returns comes from such an ancestor. */
  lemma {:induction false} DocumentedValueFromAncestor(s: Snapshot, start: ScopeId, fuel: nat, v: string)
    requires Documented(s, Some(start), fuel) == Returns(Some(v))
    ensures exists k :: 0 <= k < fuel && AncestorAt(s, start, k).Some?
                        && ScopeResult(s, AncestorAt(s, start, k).value) == Success(Some(v))
    decreases fuel
  {
    if ScopeResult(s, start) == Success(None) {
      var p := ParentIn(s, start).value;
      DocumentedValueFromAncestor(s, p, fuel - 1, v);
      var k :| 0 <= k < fuel - 1 && AncestorAt(s, p, k).Some?
               && ScopeResult(s, AncestorAt(s, p, k).value) == Success(Some(v));
      assert AncestorAt(s, start, k + 1) == AncestorAt(s, p, k);
    } else {
      assert AncestorAt(s, start, 0) == Some(start);
    }
  }

  /**
   * The discrepancy, on a three-level hierarchy: the value lives only in the
   * grandparent ":root".  The documented walk from ":app:lib" finds it; the
   * loop as written never reaches ":root" and never ends.
   */
  lemma AsWrittenMissesGrandparent(fuel: nat)
    ensures var s := map[
              ":app:lib" := ScopeView(Some(":app"), Some([])),
              ":app" := ScopeView(Some(":root"), Some([])),
              ":root" := ScopeView(None, Some([Success(Some("v"))]))];
            && Documented(s, Some(":app:lib"), 3) == Returns(Some("v"))
            && AsWritten(s, ":app:lib", fuel) == OutOfFuel
  {
    var s := map[
      ":app:lib" := ScopeView(Some(":app"), Some([])),
      ":app" := ScopeView(Some(":root"), Some([])),
      ":root" := ScopeView(None, Some([Success(Some("v"))]))];
    assert ScopeResult(s, ":app:lib") == Success(None);
    assert ScopeResult(s, ":app") == Success(None);
    assert ScopeResult(s, ":root") == Success(Some("v"));
    assert Documented(s, Some(":app"), 2) == Documented(s, Some(":root"), 1);
    AsWrittenNeverEnds(s, ":app:lib", fuel);
  }
}
