/**
 * `UnityTweakGUI`'s bookkeeping: which transforms it searches, the dictionary from group
 * name to the parameters found in that group, and the group names in alphabetical order.
 */
module TweakPanel {
  import opened Common
  import opened TweakGroups
  import opened Ordinal

  /** The scene's root transforms as a target list. */
  function AsTargets(roots: seq<Node>): (targets: seq<Option<Node>>)
    ensures |targets| == |roots|
    ensures forall i :: 0 <= i < |roots| ==> targets[i] == Some(roots[i])
  {
    seq(|roots|, i requires 0 <= i < |roots| => Some(roots[i]))
  }

  lemma {:induction false} AddAllSnoc(m: GroupMap, ps: seq<Param>, p: Param)
    ensures AddAll(m, ps + [p]) == AddParam(AddAll(m, ps), p)
  {
    assert (ps + [p])[..|ps|] == ps;
  }

  /** Moving one key from the set still to copy to the copied prefix keeps every key counted once. */
  lemma {:induction false} MoveKey(done: seq<string>, rest: set<string>, g: string)
    requires g in rest
    ensures multiset(done + [g]) + multiset(rest - {g}) == multiset(done) + multiset(rest)
  {
    assert multiset(rest) == multiset(rest - {g}) + multiset{g};
  }

  class TweakGUI {
    /** The transforms searched; empty stands for "none set in the inspector". */
    var targetObjects: seq<Option<Node>>
    var groupParamsMap: GroupMap
    var sortedGroups: array<string>

    constructor (targets: seq<Option<Node>>)
      ensures targetObjects == targets && groupParamsMap == map[] && sortedGroups.Length == 0
    {
      targetObjects := targets;
      groupParamsMap := map[];
      sortedGroups := new string[0];
    }

    /**
     * `Start`'s `InitTweakableParams`: empty the dictionary, fall back to the scene's roots
     * when no target is set, add every tweakable param found, then list the group names
     * in order.
     */
    method InitTweakableParams(sceneRoots: seq<Node>)
      modifies this
      ensures old(targetObjects) != [] ==> targetObjects == old(targetObjects)
      ensures old(targetObjects) == [] ==> targetObjects == AsTargets(sceneRoots)
      ensures groupParamsMap == Grouped(DiscoveredTargets(targetObjects))
      ensures fresh(sortedGroups)
      ensures multiset(sortedGroups[..]) == multiset(groupParamsMap.Keys)
      ensures StrictlyAscending(sortedGroups[..])
    {
      groupParamsMap := map[];
      if targetObjects == [] {
        targetObjects := AsTargets(sceneRoots);
      }
      AddTargets(targetObjects);
      BuildIsGrouping(DiscoveredTargets(targetObjects));
      var groups := CopyKeys();
      SortOrdinal(groups);
      AscendingSetIsStrict(groups[..], groupParamsMap.Keys);
      sortedGroups := groups;
    }

    /** The traversal of every target in turn. */
    method AddTargets(targets: seq<Option<Node>>)
      modifies this`groupParamsMap
      ensures groupParamsMap == AddAll(old(groupParamsMap), DiscoveredTargets(targets))
    {
      var i := 0;
      while i < |targets|
        invariant 0 <= i <= |targets|
        invariant groupParamsMap == AddAll(old(groupParamsMap), Flatten(PerTarget(targets)[..i]))
      {
        ghost var found := Flatten(PerTarget(targets)[..i]);
        AddTweakableParamsForTransform(targets[i]);
        AddAllAppend(old(groupParamsMap), found, PerTarget(targets)[i]);
        assert PerTarget(targets)[..i + 1] == PerTarget(targets)[..i] + [PerTarget(targets)[i]];
        FlattenSnoc(PerTarget(targets)[..i], PerTarget(targets)[i]);
        i := i + 1;
      }
      assert PerTarget(targets)[..i] == PerTarget(targets);
    }

    /** `Keys.CopyTo`: the group names into a new array, in the dictionary's own (unspecified) order. */
    method CopyKeys() returns (a: array<string>)
      ensures fresh(a) && multiset(a[..]) == multiset(groupParamsMap.Keys)
    {
      var keys := groupParamsMap.Keys;
      a := new string[|keys|];
      var rest := keys;
      var k := 0;
      while rest != {}
        invariant 0 <= k <= a.Length && k + |rest| == a.Length
        invariant rest <= keys
        invariant multiset(a[..k]) + multiset(rest) == multiset(keys)
        modifies a
      {
        var g :| g in rest;
        ghost var done := a[..k];
        MoveKey(done, rest, g);
        a[k] := g;
        assert a[..k + 1] == done + [g];
        rest := rest - {g};
        k := k + 1;
      }
      assert a[..k] == a[..];
    }

    /** `AddTweakableParamsForTransform`: nothing for an unassigned target, else its whole hierarchy. */
    method AddTweakableParamsForTransform(targetObj: Option<Node>)
      modifies this`groupParamsMap
      ensures groupParamsMap == AddAll(old(groupParamsMap), if targetObj.Some? then Discovered(targetObj.value) else [])
    {
      if targetObj.Some? {
        AddTweakableParamsForNode(targetObj.value);
      }
    }

    /**
     * The non-null branch of `AddTweakableParamsForTransform`: the transform's own components,
     * then each child's hierarchy in turn (children are never null, so the check is not repeated).
     */
    method AddTweakableParamsForNode(n: Node)
      modifies this`groupParamsMap
      ensures groupParamsMap == AddAll(old(groupParamsMap), Discovered(n))
      decreases n, 1
    {
      AddComponentsParams(n.components);
      AddChildrenParams(n);
      AddAllAppend(old(groupParamsMap), ComponentParams(n.components), Flatten(Subtrees(n)));
    }

    /** The component loop of one transform. */
    method AddComponentsParams(components: seq<Component>)
      modifies this`groupParamsMap
      ensures groupParamsMap == AddAll(old(groupParamsMap), ComponentParams(components))
    {
      var i := 0;
      while i < |components|
        invariant 0 <= i <= |components|
        invariant groupParamsMap == AddAll(old(groupParamsMap), ComponentParams(components[..i]))
      {
        var monoBehaviour := components[i];
        AddComponentParams(monoBehaviour);
        AddAllAppend(old(groupParamsMap), ComponentParams(components[..i]), MemberParams(monoBehaviour, monoBehaviour.members));
        assert components[..i + 1] == components[..i] + [monoBehaviour];
        ComponentParamsSnoc(components[..i], monoBehaviour);
        i := i + 1;
      }
      assert components[..i] == components;
    }

    /** The child loop of one transform: each child's hierarchy in turn. */
    method AddChildrenParams(n: Node)
      modifies this`groupParamsMap
      ensures groupParamsMap == AddAll(old(groupParamsMap), Flatten(Subtrees(n)))
      decreases n, 0
    {
      var j := 0;
      while j < |n.children|
        invariant 0 <= j <= |n.children|
        invariant groupParamsMap == AddAll(old(groupParamsMap), Flatten(Subtrees(n)[..j]))
      {
        AddTweakableParamsForNode(n.children[j]);
        AddAllAppend(old(groupParamsMap), Flatten(Subtrees(n)[..j]), Subtrees(n)[j]);
        assert Subtrees(n)[..j + 1] == Subtrees(n)[..j] + [Subtrees(n)[j]];
        FlattenSnoc(Subtrees(n)[..j], Subtrees(n)[j]);
        j := j + 1;
      }
      assert Subtrees(n)[..j] == Subtrees(n);
    }

    /** The member loop for one component. */
    method AddComponentParams(monoBehaviour: Component)
      modifies this`groupParamsMap
      ensures groupParamsMap == AddAll(old(groupParamsMap), MemberParams(monoBehaviour, monoBehaviour.members))
    {
      var members := monoBehaviour.members;
      var k := 0;
      while k < |members|
        invariant 0 <= k <= |members|
        invariant groupParamsMap == AddAll(old(groupParamsMap), MemberParams(monoBehaviour, members[..k]))
      {
        var memberInfo := members[k];
        AddMemberParams(monoBehaviour, memberInfo);
        AddAllAppend(old(groupParamsMap), MemberParams(monoBehaviour, members[..k]), InspectedParams(monoBehaviour, memberInfo));
        assert members[..k + 1] == members[..k] + [memberInfo];
        MemberParamsSnoc(monoBehaviour, members[..k], memberInfo);
        k := k + 1;
      }
      assert members[..k] == members;
    }

    /**
     * One member: nothing unless it is a field or a property, else each tweak attribute on it
     * adds a param to its group.
     */
    method AddMemberParams(monoBehaviour: Component, memberInfo: Member)
      modifies this`groupParamsMap
      ensures groupParamsMap == AddAll(old(groupParamsMap), InspectedParams(monoBehaviour, memberInfo))
    {
      if !memberInfo.isFieldOrProperty {
        return;
      }
      var attributes := memberInfo.attributes;
      var k := 0;
      while k < |attributes|
        invariant 0 <= k <= |attributes|
        invariant groupParamsMap == AddAll(old(groupParamsMap), AttributeParams(monoBehaviour, memberInfo, attributes[..k]))
      {
        var attributeObj := attributes[k];
        ghost var found := AttributeParams(monoBehaviour, memberInfo, attributes[..k]);
        assert attributes[..k + 1] == attributes[..k] + [attributeObj];
        AttributeParamsSnoc(monoBehaviour, memberInfo, attributes[..k], attributeObj);
        if attributeObj.Tweakable? {
          var attribute := attributeObj.attr;
          var tweakableParam := Param(attribute, memberInfo.name, monoBehaviour.id);
          if attribute.group in groupParamsMap {
            groupParamsMap := groupParamsMap[attribute.group := groupParamsMap[attribute.group] + [tweakableParam]];
          } else {
            groupParamsMap := groupParamsMap[attribute.group := [tweakableParam]];
          }
          AddAllSnoc(old(groupParamsMap), found, tweakableParam);
        } else {
          assert found + [] == found;
        }
        k := k + 1;
      }
      assert attributes[..k] == attributes;
    }
  }

  /**
   * "Init or re-init": a second `InitTweakableParams` over an unchanged scene rebuilds the
   * same dictionary and the same group order, and keeps the targets chosen by the first.
   */
  method ReinitIsStable(targets: seq<Option<Node>>, sceneRoots: seq<Node>) returns (sameTargets: bool, sameMap: bool, sameOrder: bool)
    ensures sameTargets && sameMap && sameOrder
  {
    var gui := new TweakGUI(targets);
    gui.InitTweakableParams(sceneRoots);
    var firstTargets, firstMap, firstOrder := gui.targetObjects, gui.groupParamsMap, gui.sortedGroups[..];
    gui.InitTweakableParams(sceneRoots);
    sameTargets := gui.targetObjects == firstTargets;
    sameMap := gui.groupParamsMap == firstMap;
    StrictOrderUnique(gui.sortedGroups[..], firstOrder);
    sameOrder := gui.sortedGroups[..] == firstOrder;
  }

  /** Two strictly ascending arrangements of the same elements are the same sequence. */
  lemma {:induction false} StrictOrderUnique(a: seq<string>, b: seq<string>)
    requires StrictlyAscending(a) && StrictlyAscending(b) && multiset(a) == multiset(b)
    ensures a == b
    decreases |a|
  {
    if a != [] && b != [] {
      SameLeast(a, b);
      Rest(a);
      Rest(b);
      StrictOrderUnique(a[1..], b[1..]);
    }
  }

  /** Both arrangements start with the least element. */
  lemma {:induction false} SameLeast(a: seq<string>, b: seq<string>)
    requires a != [] && b != []
    requires StrictlyAscending(a) && StrictlyAscending(b) && multiset(a) == multiset(b)
    ensures a[0] == b[0]
  {
    var x, y := a[0], b[0];
    assert x in multiset(b) && y in multiset(a);
    if x != y {
      var i :| 0 <= i < |b| && b[i] == x;
      var j :| 0 <= j < |a| && a[j] == y;
      BelowAntisymmetric(x, y);
    }
  }

  /** Without its first element an arrangement stays strictly ascending and loses one copy of that element. */
  lemma {:induction false} Rest(s: seq<string>)
    requires s != [] && StrictlyAscending(s)
    ensures StrictlyAscending(s[1..])
    ensures multiset(s[1..]) == multiset(s) - multiset{s[0]}
  {
    assert s == [s[0]] + s[1..];
  }
}
