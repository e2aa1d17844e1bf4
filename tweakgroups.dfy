/**
 * What the tweak panel finds and how it groups it. Reflection is replaced by its result:
 * a transform hierarchy whose components list their members in the order
 * `GetMembers` returns them, each member with its custom attributes. A member becomes a
 * tweakable parameter once per `TweakableMemberAttribute` it carries, if it is a field or
 * a property.
 */
module TweakGroups {
  import opened Common
  import opened ParamNames

  /** `TweakableMemberAttribute.DEFAULT_GROUP`. */
  const DefaultGroup: string := "Default"

  /** `TweakableMemberAttribute`: slider range, optional display name, group. */
  datatype TweakAttr = TweakAttr(maxValue: real, minValue: real, displayName: string, group: string)

  /** `TweakableMemberAttribute(float minValue, float maxValue, string displayName = "", string group = DEFAULT_GROUP)`. */
  function RangeAttr(minValue: real, maxValue: real, displayName: string := "", group: string := DefaultGroup): (a: TweakAttr)
    ensures a.minValue == minValue && a.maxValue == maxValue
    ensures a.displayName == displayName && a.group == group
  {
    TweakAttr(maxValue, minValue, displayName, group)
  }

  /** `TweakableMemberAttribute(string displayname, string group = DEFAULT_GROUP)`: the range is [0, 100]. */
  function NamedAttr(displayName: string, group: string := DefaultGroup): (a: TweakAttr)
    ensures a.minValue == 0.0 && a.maxValue == 100.0
    ensures a.displayName == displayName && a.group == group
  {
    RangeAttr(0.0, 100.0, displayName, group)
  }

  /** `TweakableMemberAttribute()`: range [0, 100], no display name, the default group. */
  function DefaultAttr(): (a: TweakAttr)
    ensures a.minValue == 0.0 && a.maxValue == 100.0 && a.displayName == "" && a.group == DefaultGroup
  {
    RangeAttr(0.0, 100.0)
  }

  /** The label drawn for a parameter: its display name if it has one, else the derived name. */
  function DisplayName(attr: TweakAttr, memberName: string): (r: Result<string>)
    ensures attr.displayName != "" ==> r == Ok(attr.displayName)
    ensures attr.displayName == "" ==> r == ParamName(memberName)
    ensures r.Ok? ==> r.value != ""
  {
    if attr.displayName != "" then Ok(attr.displayName) else ParamName(memberName)
  }

  /** An attribute without a display name labels the member by its derived name. */
  lemma {:induction false} DefaultAttrLabelsByMemberName(memberName: string)
    ensures DisplayName(DefaultAttr(), memberName) == ParamName(memberName)
    ensures DisplayName(NamedAttr("Speed"), memberName) == Ok("Speed")
  {
  }

  // ----- Reflection, abstracted -----

  /** A custom attribute object: a tweak attribute or any other attribute. */
  datatype AttributeObj = Tweakable(attr: TweakAttr) | OtherAttribute

  /** A member of a component type, as `GetMembers` lists it. */
  datatype Member = Member(name: string, isFieldOrProperty: bool, attributes: seq<AttributeObj>)

  /** A `MonoBehaviour` on a transform: its identity and its type's members. */
  datatype Component = Component(id: nat, members: seq<Member>)

  /** A transform: its components, then its children in hierarchy order. */
  datatype Node = Node(components: seq<Component>, children: seq<Node>)

  /** `TweakableParam`: attribute, member and owning component. */
  datatype Param = Param(attribute: TweakAttr, memberName: string, owner: nat)

  /** The params one member contributes, one per tweak attribute among `attrs`. */
  function AttributeParams(c: Component, m: Member, attrs: seq<AttributeObj>): (ps: seq<Param>)
    ensures |ps| <= |attrs|
    ensures forall p :: p in ps ==> p.memberName == m.name && p.owner == c.id
  {
    if attrs == [] then []
    else
      AttributeParams(c, m, attrs[..|attrs| - 1])
      + (if attrs[|attrs| - 1].Tweakable? then [Param(attrs[|attrs| - 1].attr, m.name, c.id)] else [])
  }

  /** The params of one component, member by member; methods and other members contribute none. */
  function MemberParams(c: Component, ms: seq<Member>): (ps: seq<Param>)
    ensures forall p :: p in ps ==> p.owner == c.id
  {
    if ms == [] then []
    else
      var m := ms[|ms| - 1];
      MemberParams(c, ms[..|ms| - 1]) + InspectedParams(c, m)
  }

  /** The params one member contributes: only fields and properties are inspected. */
  function InspectedParams(c: Component, m: Member): (ps: seq<Param>)
    ensures forall p :: p in ps ==> p.owner == c.id && p.memberName == m.name
  {
    if m.isFieldOrProperty then AttributeParams(c, m, m.attributes) else []
  }

  /** The params of the components of one transform, component by component. */
  function ComponentParams(cs: seq<Component>): seq<Param> {
    if cs == [] then []
    else ComponentParams(cs[..|cs| - 1]) + MemberParams(cs[|cs| - 1], cs[|cs| - 1].members)
  }

  function Flatten<T>(xss: seq<seq<T>>): seq<T> {
    if xss == [] then [] else Flatten(xss[..|xss| - 1]) + xss[|xss| - 1]
  }

  /** Every param of a hierarchy in the order the traversal meets it: the node, then each child's subtree. */
  function Discovered(n: Node): seq<Param>
    decreases n, 1
  {
    ComponentParams(n.components) + Flatten(Subtrees(n))
  }

  /** The params of each child's subtree, child by child. */
  function Subtrees(n: Node): (r: seq<seq<Param>>)
    ensures |r| == |n.children|
    decreases n, 0
  {
    seq(|n.children|, i requires 0 <= i < |n.children| => Discovered(n.children[i]))
  }

  /** The params of each target in turn; an unassigned target contributes none. */
  function PerTarget(targets: seq<Option<Node>>): (r: seq<seq<Param>>)
    ensures |r| == |targets|
  {
    seq(|targets|, i requires 0 <= i < |targets| => if targets[i].Some? then Discovered(targets[i].value) else [])
  }

  /** Every param reachable from the targets, target by target. */
  function DiscoveredTargets(targets: seq<Option<Node>>): seq<Param> {
    Flatten(PerTarget(targets))
  }

  lemma {:induction false} AttributeParamsSnoc(c: Component, m: Member, attrs: seq<AttributeObj>, a: AttributeObj)
    ensures AttributeParams(c, m, attrs + [a])
         == AttributeParams(c, m, attrs) + (if a.Tweakable? then [Param(a.attr, m.name, c.id)] else [])
  {
    assert (attrs + [a])[..|attrs|] == attrs;
  }

  lemma {:induction false} MemberParamsSnoc(c: Component, ms: seq<Member>, m: Member)
    ensures MemberParams(c, ms + [m])
         == MemberParams(c, ms) + InspectedParams(c, m)
  {
    assert (ms + [m])[..|ms|] == ms;
  }

  lemma {:induction false} ComponentParamsSnoc(cs: seq<Component>, c: Component)
    ensures ComponentParams(cs + [c]) == ComponentParams(cs) + MemberParams(c, c.members)
  {
    assert (cs + [c])[..|cs|] == cs;
  }

  lemma {:induction false} FlattenSnoc<T>(xss: seq<seq<T>>, xs: seq<T>)
    ensures Flatten(xss + [xs]) == Flatten(xss) + xs
  {
    assert (xss + [xs])[..|xss|] == xss;
  }

  // ----- Grouping -----

  type GroupMap = map<string, seq<Param>>

  /** One `TryGetValue`/`Add`: append to the group's list, or start the list. */
  function AddParam(m: GroupMap, p: Param): (r: GroupMap)
    ensures r.Keys == m.Keys + {p.attribute.group}
  {
    var g := p.attribute.group;
    if g in m then m[g := m[g] + [p]] else m[g := [p]]
  }

  /** Every param of `ps`, in order, added to `m`. */
  function AddAll(m: GroupMap, ps: seq<Param>): GroupMap {
    if ps == [] then m else AddParam(AddAll(m, ps[..|ps| - 1]), ps[|ps| - 1])
  }

  /** The params of group `g`, in discovery order. */
  function InGroup(ps: seq<Param>, g: string): (r: seq<Param>)
    ensures |r| <= |ps|
  {
    if ps == [] then []
    else InGroup(ps[..|ps| - 1], g) + (if ps[|ps| - 1].attribute.group == g then [ps[|ps| - 1]] else [])
  }

  /** The groups some param of `ps` belongs to. */
  function GroupsOf(ps: seq<Param>): set<string> {
    set p | p in ps :: p.attribute.group
  }

  /** The reference grouping: one key per group used, holding that group's params in order. */
  function Grouped(ps: seq<Param>): GroupMap {
    map g | g in GroupsOf(ps) :: InGroup(ps, g)
  }

  lemma {:induction false} AddAllAppend(m: GroupMap, a: seq<Param>, b: seq<Param>)
    ensures AddAll(m, a + b) == AddAll(AddAll(m, a), b)
    decreases |b|
  {
    if b == [] {
      assert a + b == a;
    } else {
      assert (a + b)[..|a + b| - 1] == a + b[..|b| - 1];
      AddAllAppend(m, a, b[..|b| - 1]);
    }
  }

  lemma {:induction false} GroupsOfSnoc(init: seq<Param>, p: Param)
    ensures GroupsOf(init + [p]) == GroupsOf(init) + {p.attribute.group}
  {
    var ps := init + [p];
    forall g | g in GroupsOf(ps) ensures g in GroupsOf(init) + {p.attribute.group} {
      var q :| q in ps && q.attribute.group == g;
      if q != p {
        assert q in init;
      }
    }
  }

  /** A group's list holds exactly the params of that group. */
  lemma {:induction false} InGroupMembers(ps: seq<Param>, g: string)
    ensures forall p :: p in InGroup(ps, g) <==> p in ps && p.attribute.group == g
  {
    if ps != [] {
      var init := ps[..|ps| - 1];
      InGroupMembers(init, g);
      assert ps == init + [ps[|ps| - 1]];
    }
  }

  lemma {:induction false} InGroupOfUnused(ps: seq<Param>, g: string)
    requires g !in GroupsOf(ps)
    ensures InGroup(ps, g) == []
  {
    if ps != [] {
      var init, p := ps[..|ps| - 1], ps[|ps| - 1];
      assert ps == init + [p];
      GroupsOfSnoc(init, p);
      InGroupOfUnused(init, g);
    }
  }

  /** Adding params one by one to a map adds exactly the groups they name. */
  lemma {:induction false} AddAllKeys(m: GroupMap, ps: seq<Param>)
    ensures AddAll(m, ps).Keys == m.Keys + GroupsOf(ps)
  {
    if ps != [] {
      var init, p := ps[..|ps| - 1], ps[|ps| - 1];
      assert ps == init + [p];
      AddAllKeys(m, init);
      GroupsOfSnoc(init, p);
    }
  }

  lemma {:induction false} InGroupSnoc(init: seq<Param>, p: Param, g: string)
    ensures InGroup(init + [p], g) == InGroup(init, g) + (if p.attribute.group == g then [p] else [])
  {
    var ps := init + [p];
    assert ps[..|ps| - 1] == init;
  }

  /** One more param extends only its own group's list, by itself. */
  lemma {:induction false} AddParamExtends(base: seq<Param>, before: GroupMap, init: seq<Param>, p: Param, g: string)
    requires g in AddParam(before, p)
    requires g in before ==> before[g] == base + InGroup(init, g)
    requires g !in before ==> base == [] && InGroup(init, g) == []
    ensures AddParam(before, p)[g] == base + InGroup(init + [p], g)
  {
    InGroupSnoc(init, p, g);
    if g == p.attribute.group {
      OwnGroupExtended(base + InGroup(init, g), before, p);
    } else {
      OtherGroupKept(before, p, g);
    }
  }

  lemma {:induction false} OwnGroupExtended(prior: seq<Param>, before: GroupMap, p: Param)
    requires p.attribute.group in before ==> before[p.attribute.group] == prior
    requires p.attribute.group !in before ==> prior == []
    ensures AddParam(before, p)[p.attribute.group] == prior + [p]
  {
  }

  lemma {:induction false} OtherGroupKept(before: GroupMap, p: Param, g: string)
    requires g in before && g != p.attribute.group
    ensures g in AddParam(before, p) && AddParam(before, p)[g] == before[g]
  {
  }

  /** Adding params one by one to a map extends each group's list by that group's new params, in order. */
  lemma {:induction false} AddAllGroups(m: GroupMap, ps: seq<Param>)
    ensures forall g :: g in AddAll(m, ps) ==> AddAll(m, ps)[g] == (if g in m then m[g] else []) + InGroup(ps, g)
  {
    if ps != [] {
      var init, p := ps[..|ps| - 1], ps[|ps| - 1];
      assert ps == init + [p];
      AddAllGroups(m, init);
      AddAllKeys(m, init);
      forall g | g in AddAll(m, ps)
        ensures AddAll(m, ps)[g] == (if g in m then m[g] else []) + InGroup(ps, g)
      {
        if g !in AddAll(m, init) {
          InGroupOfUnused(init, g);
        }
        AddParamExtends(if g in m then m[g] else [], AddAll(m, init), init, p, g);
      }
    }
  }

  /**
   * The map built from an empty dictionary is the reference grouping: a key exists exactly
   * when some param names that group, and its list is that group's params in discovery
   * order, never empty.
   */
  lemma {:induction false} BuildIsGrouping(ps: seq<Param>)
    ensures AddAll(map[], ps) == Grouped(ps)
    ensures forall g :: g in AddAll(map[], ps) <==> exists p :: p in ps && p.attribute.group == g
    ensures forall g :: g in AddAll(map[], ps) ==> AddAll(map[], ps)[g] == InGroup(ps, g) != []
  {
    AddAllKeys(map[], ps);
    AddAllGroups(map[], ps);
    forall g | g in GroupsOf(ps) ensures InGroup(ps, g) != [] {
      var p :| p in ps && p.attribute.group == g;
      InGroupMembers(ps, g);
      assert p in InGroup(ps, g);
    }
    SameGroupsSameMap(AddAll(map[], ps), ps);
  }

  lemma {:induction false} SameGroupsSameMap(built: GroupMap, ps: seq<Param>)
    requires built.Keys == GroupsOf(ps)
    requires forall g :: g in built ==> built[g] == InGroup(ps, g)
    ensures built == Grouped(ps)
  {
  }
}
