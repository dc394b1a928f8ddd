/** `units.py`: hyphen units as connected components of the pointer graph. */
module Units {
  import opened Prelude
  import opened Manifest
  import U = UnionFind

  datatype HyphenGroup = HyphenGroup(members: seq<LineRef>, spansPages: bool, explicit: bool, complete: bool)

  /** The pointers of the given lines that resolve inside the set. */
  ghost function LinksFrom(m: map<LineRef, Line>, refs: set<LineRef>): set<(LineRef, LineRef)> {
    set r, p | r in m && r in refs && p in Pointers(m[r]) && p in m :: (r, p)
  }

  ghost function Links(m: map<LineRef, Line>): set<(LineRef, LineRef)> {
    LinksFrom(m, m.Keys)
  }

  /** One of the two lines points at the other. */
  ghost predicate Pair(m: map<LineRef, Line>, x: LineRef, y: LineRef) {
    U.Adjacent(Links(m), x, y)
  }

  /** The two lines travel together: some walk along pointers joins them. */
  ghost predicate SameUnit(m: map<LineRef, Line>, x: LineRef, y: LineRef) {
    U.Connected(Links(m), x, y)
  }

  function Order(m: map<LineRef, Line>, r: LineRef): int {
    if r in m then m[r].order else 0
  }

  /** `g` is one whole component of at least two lines, in reading order, and
      its flags say what they should. */
  ghost predicate IsUnit(m: map<LineRef, Line>, g: HyphenGroup) {
    && |g.members| >= 2 && Distinct(g.members)
    && IsComponent(m, g.members)
    && SortedBy(g.members, r => Order(m, r))
    && (g.spansPages <==> exists x, y :: x in g.members && y in g.members && x.page != y.page)
    && (g.explicit <==> forall x | x in g.members :: LinksExplicit(m[x]))
    && (g.complete <==> forall x, p | x in g.members && p in Pointers(m[x]) :: p in m)
  }

  ghost predicate IsComponent(m: map<LineRef, Line>, members: seq<LineRef>) {
    && (forall x | x in members :: x in m)
    && forall x, y | x in members && y in m :: y in members <==> SameUnit(m, x, y)
  }

  /** The groups are exactly the components of size two or more, disjoint and in
      reading order of their first lines. */
  ghost predicate IsGrouping(m: map<LineRef, Line>, groups: seq<HyphenGroup>) {
    && (forall i | 0 <= i < |groups| :: IsUnit(m, groups[i]))
    && (forall i, j, x | 0 <= i < j < |groups| && x in groups[i].members :: x !in groups[j].members)
    && (forall x, y | x in m && y in m && x != y && SameUnit(m, x, y) :: Grouped(groups, x))
    && SortedBy(groups, g => FirstOrder(m, g))
  }

  ghost predicate Grouped(groups: seq<HyphenGroup>, x: LineRef) {
    exists g :: g in groups && x in g.members
  }

  function FirstOrder(m: map<LineRef, Line>, g: HyphenGroup): int {
    if g.members == [] then 0 else Order(m, g.members[0])
  }

  /** Travelling together is an equivalence. */
  lemma {:induction false} SameUnitIsAnEquivalence(m: map<LineRef, Line>, x: LineRef, y: LineRef, z: LineRef)
    ensures SameUnit(m, x, x)
    ensures SameUnit(m, x, y) ==> SameUnit(m, y, x)
    ensures SameUnit(m, x, y) && SameUnit(m, y, z) ==> SameUnit(m, x, z)
  {
    U.ConnectedReflexive(Links(m), x);
    if SameUnit(m, x, y) {
      U.ConnectedSymmetric(Links(m), x, y);
      if SameUnit(m, y, z) { U.ConnectedTransitive(Links(m), x, y, z); }
    }
  }

  /** `derive_hyphen_groups`. */
  method DeriveHyphenGroups(lines: seq<Line>) returns (groups: seq<HyphenGroup>)
    ensures IsGrouping(ByRef(lines), groups)
  {
    hide U.Ranked, IsUnit, IsClass, U.Decides, IsGrouping, Links, Built;
    var byRef, keys := Index(lines);
    var forest, unresolved := LinkAll(byRef, keys);
    var components, roots := Components(keys, forest);
    ghost var root := forest.root;
    groups := [];
    NothingBuilt(byRef, root, components, roots);
    for k := 0 to |roots|
      invariant Built(byRef, root, components, roots, k, groups)
    {
      var members := components[roots[k]];
      if |members| >= 2 {
        ClassIsComponent(byRef, root, roots[k], members);
        var g := MakeGroup(byRef, members, unresolved);
        BuiltMore(byRef, root, components, roots, k, groups, g);
        groups := groups + [g];
      } else {
        BuiltAlike(byRef, root, components, roots, k, groups);
      }
    }
    AllBuilt(byRef, root, components, roots, groups);
    RootsKeepApart(byRef, root, roots, groups);
    var sorted := Sort(groups, g => FirstOrder(byRef, g));
    SortedGrouping(byRef, groups, sorted);
    groups := sorted;
  }

  /** The groups of the first `k` classes. */
  ghost predicate Built(m: map<LineRef, Line>, root: map<LineRef, LineRef>, components: map<LineRef, seq<LineRef>>, roots: seq<LineRef>,
                        k: nat, groups: seq<HyphenGroup>) {
    && k <= |roots| && (forall r | r in roots :: r in components)
    && (forall i | 0 <= i < |groups| :: IsUnit(m, groups[i])) && FromRoots(root, roots[..k], groups)
    && forall i | 0 <= i < k :: Covers(components[roots[i]], groups)
  }

  /** A class of two lines or more has all of them in the groups. */
  ghost predicate Covers(members: seq<LineRef>, groups: seq<HyphenGroup>) {
    |members| >= 2 ==> forall x | x in members :: Grouped(groups, x)
  }

  lemma NothingBuilt(m: map<LineRef, Line>, root: map<LineRef, LineRef>, components: map<LineRef, seq<LineRef>>, roots: seq<LineRef>)
    requires forall r | r in roots :: r in components
    ensures Built(m, root, components, roots, 0, [])
  {
  }

  lemma {:induction false} BuiltMore(m: map<LineRef, Line>, root: map<LineRef, LineRef>, components: map<LineRef, seq<LineRef>>, roots: seq<LineRef>,
                                     k: nat, groups: seq<HyphenGroup>, g: HyphenGroup)
    requires Built(m, root, components, roots, k, groups) && k < |roots| && Distinct(roots) && IsClass(root, roots[k], components[roots[k]])
    requires IsUnit(m, g) && forall x :: x in g.members <==> x in components[roots[k]]
    ensures Built(m, root, components, roots, k + 1, groups + [g])
  {
    hide IsUnit, FromRoots, Grouped, IsClass, Distinct;
    NextGroup(root, roots, k, groups, g, components[roots[k]]);
    forall i | 0 <= i < k ensures Covers(components[roots[i]], groups + [g]) { assert Covers(components[roots[i]], groups); }
  }

  lemma {:induction false} BuiltAlike(m: map<LineRef, Line>, root: map<LineRef, LineRef>, components: map<LineRef, seq<LineRef>>, roots: seq<LineRef>,
                                      k: nat, groups: seq<HyphenGroup>)
    requires Built(m, root, components, roots, k, groups) && k < |roots| && |components[roots[k]]| < 2
    ensures Built(m, root, components, roots, k + 1, groups)
  {
    hide IsUnit, FromRoots, Grouped;
    FromMoreRoots(root, roots, k, groups);
  }

  lemma {:induction false} AllBuilt(m: map<LineRef, Line>, root: map<LineRef, LineRef>, components: map<LineRef, seq<LineRef>>, roots: seq<LineRef>,
                                    groups: seq<HyphenGroup>)
    requires Built(m, root, components, roots, |roots|, groups)
    requires root.Keys == m.Keys && U.Decides(root, Links(m)) && forall r :: r in roots <==> r in components
    requires forall r | r in components :: IsClass(root, r, components[r])
    requires forall x | x in root :: root[x] in components
    ensures (forall i | 0 <= i < |groups| :: IsUnit(m, groups[i])) && FromRoots(root, roots, groups)
    ensures AllGrouped(m, groups)
  {
    hide IsUnit, FromRoots, Grouped, IsClass, U.Decides, Links, SameUnit;
    assert roots[..|roots|] == roots;
    Coverage(m, root, components, roots, groups);
  }

  /** Two lines that travel together are in the groups. */
  ghost predicate AllGrouped(m: map<LineRef, Line>, groups: seq<HyphenGroup>) {
    forall x, y | x in m && y in m && x != y && SameUnit(m, x, y) :: Grouped(groups, x)
  }

  lemma {:induction false} FromMoreRoots(root: map<LineRef, LineRef>, roots: seq<LineRef>, k: nat, groups: seq<HyphenGroup>)
    requires k < |roots| && FromRoots(root, roots[..k], groups)
    ensures FromRoots(root, roots[..k + 1], groups)
  {
    assert roots[..k + 1] == roots[..k] + [roots[k]];
  }

  lemma {:induction false} NextGroup(root: map<LineRef, LineRef>, roots: seq<LineRef>, k: nat, groups: seq<HyphenGroup>,
                  g: HyphenGroup, members: seq<LineRef>)
    requires k < |roots| && Distinct(roots) && FromRoots(root, roots[..k], groups)
    requires IsClass(root, roots[k], members) && forall x :: x in g.members <==> x in members
    ensures FromRoots(root, roots[..k + 1], groups + [g])
    ensures forall x :: Grouped(groups + [g], x) <==> Grouped(groups, x) || x in members
  {
    hide Apart, Grouped;
    FromMoreRoots(root, roots, k, groups);
    forall i | 0 <= i < |groups| ensures Apart(root, groups[i], g) {
      NextApart(root, roots, k, groups, i, g, members);
    }
    AppendApart(root, groups, g);
    forall i, x | 0 <= i < |groups + [g]| && x in (groups + [g])[i].members ensures x in root && root[x] in roots[..k + 1] {
      if i == |groups| {
        assert roots[..k + 1][k] == roots[k];
        assert x in members;
      } else {
        assert x in groups[i].members;
      }
    }
    forall x ensures Grouped(groups + [g], x) <==> Grouped(groups, x) || x in members {
      GroupedSnoc(groups, g, x);
    }
  }

  lemma {:induction false} AppendApart(root: map<LineRef, LineRef>, groups: seq<HyphenGroup>, g: HyphenGroup)
    requires forall i, j | 0 <= i < j < |groups| :: Apart(root, groups[i], groups[j])
    requires forall i | 0 <= i < |groups| :: Apart(root, groups[i], g)
    ensures forall i, j | 0 <= i < j < |groups + [g]| :: Apart(root, (groups + [g])[i], (groups + [g])[j])
  {
    hide Apart;
  }

  lemma {:induction false} NextApart(root: map<LineRef, LineRef>, roots: seq<LineRef>, k: nat, groups: seq<HyphenGroup>, i: nat,
                  g: HyphenGroup, members: seq<LineRef>)
    requires k < |roots| && Distinct(roots) && FromRoots(root, roots[..k], groups) && i < |groups|
    requires IsClass(root, roots[k], members) && forall x :: x in g.members <==> x in members
    ensures Apart(root, groups[i], g)
  {
    assert roots[k] !in roots[..k];
  }

  lemma {:induction false} GroupedSnoc(groups: seq<HyphenGroup>, g: HyphenGroup, x: LineRef)
    ensures Grouped(groups + [g], x) <==> Grouped(groups, x) || x in g.members
  {
    assert forall h :: h in groups + [g] <==> h in groups || h == g;
  }

  lemma {:induction false} Coverage(m: map<LineRef, Line>, root: map<LineRef, LineRef>, components: map<LineRef, seq<LineRef>>,
                 roots: seq<LineRef>, groups: seq<HyphenGroup>)
    requires root.Keys == m.Keys && U.Decides(root, Links(m))
    requires forall r :: r in roots <==> r in components
    requires forall r | r in components :: IsClass(root, r, components[r])
    requires forall x | x in root :: root[x] in components
    requires forall i | 0 <= i < |roots| :: Covers(components[roots[i]], groups)
    ensures AllGrouped(m, groups)
  {
    hide Grouped, Links;
    forall x, y | x in m && y in m && x != y && SameUnit(m, x, y) ensures Grouped(groups, x) {
      assert root[x] == root[y];
      TwoInAClass(root, components[root[x]], x, y);
      var i :| 0 <= i < |roots| && roots[i] == root[x];
      assert x in components[roots[i]];
    }
  }

  /** The dictionary of lines by reference, with its insertion order. */
  method Index(lines: seq<Line>) returns (byRef: map<LineRef, Line>, keys: seq<LineRef>)
    ensures byRef == ByRef(lines)
    ensures Distinct(keys) && forall r :: r in keys <==> r in byRef
  {
    byRef, keys := map[], [];
    for k := 0 to |lines|
      invariant byRef == ByRef(lines[..k])
      invariant Distinct(keys) && forall r :: r in keys <==> r in byRef
    {
      assert lines[..k + 1][..k] == lines[..k];
      if lines[k].ref !in byRef {
        keys := keys + [lines[k].ref];
      }
      byRef := byRef[lines[k].ref := lines[k]];
    }
    assert lines[..|lines|] == lines;
  }

  /** The one walk that reads every pointer: links inside the set are unioned,
      a line with a pointer that leaves it is recorded. */
  method LinkAll(byRef: map<LineRef, Line>, keys: seq<LineRef>)
    returns (forest: U.Forest<LineRef>, unresolved: set<LineRef>)
    requires forall r :: r in keys <==> r in byRef
    ensures fresh(forest) && forest.Valid() && forest.parent.Keys == forest.root.Keys == byRef.Keys
    ensures U.Decides(forest.root, Links(byRef))
    ensures forall r :: r in unresolved <==> r in byRef && Escapes(byRef, r)
  {
    hide U.Ranked, U.Decides, Escapes, LinksFrom, LinksOf;
    forest := new U.Forest(byRef.Keys);
    U.DecidesNothing(forest.root);
    unresolved := {};
    assert LinksFrom(byRef, {}) == {} by { NoLinks(byRef); }
    ghost var done: set<LineRef> := {};
    for k := 0 to |keys|
      invariant fresh(forest) && forest.Valid() && forest.parent.Keys == forest.root.Keys == byRef.Keys
      invariant U.Decides(forest.root, LinksFrom(byRef, done))
      invariant forall r :: r in done <==> r in keys[..k]
      invariant forall r :: r in unresolved <==> r in done && Escapes(byRef, r)
    {
      assert keys[..k + 1] == keys[..k] + [keys[k]];
      var escapes := LinkOne(byRef, keys[k], forest, LinksFrom(byRef, done));
      LinksFromMore(byRef, done, keys[k]);
      if escapes {
        unresolved := unresolved + {keys[k]};
      }
      done := done + {keys[k]};
    }
    assert keys[..|keys|] == keys;
    assert done == byRef.Keys;
  }

  lemma {:induction false} NoLinks(m: map<LineRef, Line>)
    ensures LinksFrom(m, {}) == {}
  {
  }

  lemma {:induction false} LinksFromMore(m: map<LineRef, Line>, done: set<LineRef>, r: LineRef)
    requires r in m
    ensures LinksFrom(m, done + {r}) == LinksFrom(m, done) + LinksOf(m, r, Pointers(m[r]))
  {
    hide Pointers;
  }

  ghost predicate Escapes(m: map<LineRef, Line>, r: LineRef)
    requires r in m
  {
    exists p :: p in Pointers(m[r]) && p !in m
  }

  ghost function LinksOf(m: map<LineRef, Line>, r: LineRef, partners: seq<LineRef>): set<(LineRef, LineRef)> {
    set p | p in partners && p in m :: (r, p)
  }

  /** Both slots of one line. */
  method LinkOne(byRef: map<LineRef, Line>, ref: LineRef, forest: U.Forest<LineRef>, ghost edges: set<(LineRef, LineRef)>)
    returns (escapes: bool)
    requires ref in byRef
    requires forest.Valid() && forest.parent.Keys == forest.root.Keys == byRef.Keys && U.Decides(forest.root, edges)
    modifies forest
    ensures forest.Valid() && forest.parent.Keys == forest.root.Keys == byRef.Keys
    ensures U.Decides(forest.root, edges + LinksOf(byRef, ref, Pointers(byRef[ref])))
    ensures escapes == Escapes(byRef, ref)
  {
    hide U.Ranked, U.Decides, Pointers;
    var partners := Pointers(byRef[ref]);
    escapes := false;
    assert edges + LinksOf(byRef, ref, []) == edges;
    for j := 0 to |partners|
      invariant forest.Valid() && forest.parent.Keys == forest.root.Keys == byRef.Keys
      invariant U.Decides(forest.root, edges + LinksOf(byRef, ref, partners[..j]))
      invariant escapes <==> exists p :: p in partners[..j] && p !in byRef
    {
      var partner := partners[j];
      assert partners[..j + 1] == partners[..j] + [partner];
      ghost var before := edges + LinksOf(byRef, ref, partners[..j]);
      if partner in forest.parent {
        U.MergeDecides(forest.root, before, ref, partner);
        forest.Union(ref, partner);
        assert before + {(ref, partner)} == edges + LinksOf(byRef, ref, partners[..j + 1]);
      } else {
        escapes := true;
        assert before == edges + LinksOf(byRef, ref, partners[..j + 1]);
      }
    }
    assert partners[..|partners|] == partners;
  }

  /** A class of the forest: the nodes with one representative, each once. */
  ghost predicate IsClass(root: map<LineRef, LineRef>, r: LineRef, members: seq<LineRef>) {
    Distinct(members) && forall x :: x in members <==> x in root && root[x] == r
  }

  /** The classes as far as the lines in `done` go. */
  ghost predicate ClassesOf(root: map<LineRef, LineRef>, done: set<LineRef>, components: map<LineRef, seq<LineRef>>) {
    && (forall r | r in components :: Distinct(components[r]))
    && (forall r, x | r in components :: x in components[r] <==> x in done && x in root && root[x] == r)
    && forall x | x in done && x in root :: root[x] in components
  }

  /** `components`: every line appended to its representative's list. */
  method Components(keys: seq<LineRef>, forest: U.Forest<LineRef>)
    returns (components: map<LineRef, seq<LineRef>>, roots: seq<LineRef>)
    requires forest.Valid() && forest.root.Keys == forest.parent.Keys
    requires Distinct(keys) && forall r :: r in keys <==> r in forest.parent
    modifies forest
    ensures forest.root == old(forest.root)
    ensures Distinct(roots) && forall r :: r in roots <==> r in components
    ensures forall r | r in components :: IsClass(forest.root, r, components[r])
    ensures forall x | x in forest.root :: forest.root[x] in components
  {
    hide U.Ranked, ClassesOf;
    components, roots := map[], [];
    ghost var done: set<LineRef> := {};
    ghost var root := forest.root;
    NoClasses(root);
    for k := 0 to |keys|
      invariant forest.Valid() && forest.parent.Keys == old(forest.parent.Keys) && forest.root == root
      invariant Distinct(roots) && forall r :: r in roots <==> r in components
      invariant forall r :: r in done <==> r in keys[..k]
      invariant ClassesOf(root, done, components)
    {
      var ref := keys[k];
      assert keys[..k + 1] == keys[..k] + [ref];
      assert ref !in done;
      var r := forest.Find(ref);
      OneMore(root, done, components, ref);
      ghost var before := components;
      if r !in components {
        roots := roots + [r];
        components := components[r := []];
      }
      components := components[r := components[r] + [ref]];
      assert components == before[r := (if r in before then before[r] else []) + [ref]];
      done := done + {ref};
    }
    assert keys[..|keys|] == keys;
    assert done == root.Keys;
    AllClasses(root, done, components);
  }

  lemma {:induction false} NoClasses(root: map<LineRef, LineRef>)
    ensures ClassesOf(root, {}, map[])
  {
  }

  lemma {:induction false} AllClasses(root: map<LineRef, LineRef>, done: set<LineRef>, components: map<LineRef, seq<LineRef>>)
    requires ClassesOf(root, done, components) && done == root.Keys
    ensures forall r | r in components :: IsClass(root, r, components[r])
    ensures forall x | x in root :: root[x] in components
  {
  }

  lemma {:induction false} OneMore(root: map<LineRef, LineRef>, done: set<LineRef>, components: map<LineRef, seq<LineRef>>, x: LineRef)
    requires ClassesOf(root, done, components) && x in root && x !in done
    ensures var r := root[x];
      ClassesOf(root, done + {x}, components[r := (if r in components then components[r] else []) + [x]])
  {
  }

  /** One group from one component. */
  method MakeGroup(byRef: map<LineRef, Line>, members: seq<LineRef>, unresolved: set<LineRef>) returns (g: HyphenGroup)
    requires |members| >= 2 && Distinct(members) && IsComponent(byRef, members)
    requires forall r :: r in unresolved <==> r in byRef && Escapes(byRef, r)
    ensures IsUnit(byRef, g) && forall x :: x in g.members <==> x in members
  {
    var ordered := Sort(members, r => Order(byRef, r));
    PermutationFacts(members, ordered);
    var pages := set x | x in ordered :: x.page;
    var explicit := forall x | x in ordered :: LinksExplicit(byRef[x]);
    var complete := !(exists x :: x in ordered && x in unresolved);
    g := HyphenGroup(ordered, |pages| > 1, explicit, complete);
    PageCount(ordered, pages);
  }

  lemma {:induction false} PageCount(members: seq<LineRef>, pages: set<string>)
    requires members != [] && pages == set x | x in members :: x.page
    ensures |pages| > 1 <==> exists x, y :: x in members && y in members && x.page != y.page
  {
    var p := members[0].page;
    assert p in pages;
    assert pages == {p} + (pages - {p});
    if |pages| > 1 {
      assert pages - {p} != {};
      var q :| q in pages - {p};
      var y :| y in members && y.page == q;
    } else {
      assert |pages - {p}| == 0;
      assert pages == {p};
      forall x | x in members ensures x.page == p { assert x.page in pages; }
    }
  }

  lemma {:induction false} ClassIsComponent(m: map<LineRef, Line>, root: map<LineRef, LineRef>, r: LineRef, members: seq<LineRef>)
    requires root.Keys == m.Keys && U.Decides(root, Links(m)) && IsClass(root, r, members)
    ensures IsComponent(m, members) && Distinct(members)
  {
  }

  lemma {:induction false} TwoInAClass(root: map<LineRef, LineRef>, members: seq<LineRef>, x: LineRef, y: LineRef)
    requires x in root && y in root && x != y && root[x] == root[y] && IsClass(root, root[x], members)
    ensures |members| >= 2
  {
    assert x in members && y in members;
  }

  /** The groups come from distinct representatives, in order. */
  ghost predicate FromRoots(root: map<LineRef, LineRef>, roots: seq<LineRef>, groups: seq<HyphenGroup>) {
    && (forall i, x | 0 <= i < |groups| && x in groups[i].members :: x in root && root[x] in roots)
    && (forall i, j | 0 <= i < j < |groups| :: Apart(root, groups[i], groups[j]))
  }

  ghost predicate Apart(root: map<LineRef, LineRef>, g: HyphenGroup, h: HyphenGroup) {
    forall x, y | x in g.members && y in h.members :: x in root && y in root && root[x] != root[y]
  }

  /** No two of the units share a line. */
  ghost predicate Separate(groups: seq<HyphenGroup>) {
    forall i, j, x | 0 <= i < j < |groups| && x in groups[i].members :: x !in groups[j].members
  }

  lemma {:induction false} RootsKeepApart(m: map<LineRef, Line>, root: map<LineRef, LineRef>, roots: seq<LineRef>, groups: seq<HyphenGroup>)
    requires FromRoots(root, roots, groups)
    ensures Separate(groups)
  {
    forall i, j, x | 0 <= i < j < |groups| && x in groups[i].members ensures x !in groups[j].members {
      assert Apart(root, groups[i], groups[j]);
    }
  }

  lemma {:induction false} SortedGrouping(m: map<LineRef, Line>, groups: seq<HyphenGroup>, sorted: seq<HyphenGroup>)
    requires multiset(sorted) == multiset(groups) && SortedBy(sorted, g => FirstOrder(m, g))
    requires forall i | 0 <= i < |groups| :: IsUnit(m, groups[i])
    requires Separate(groups) && AllGrouped(m, groups)
    ensures IsGrouping(m, sorted)
  {
    hide SortedBy, FirstOrder, IsUnit, AllGrouped;
    UnitsAreDistinct(m, groups);
    PermutationFacts(groups, sorted);
    forall i | 0 <= i < |sorted| ensures IsUnit(m, sorted[i]) {
      assert sorted[i] in groups;
    }
    forall i, j, x | 0 <= i < j < |sorted| && x in sorted[i].members ensures x !in sorted[j].members {
      assert sorted[i] in groups && sorted[j] in groups;
      SeparateInAnyOrder(groups, sorted[i], sorted[j], x);
    }
    SameGrouped(m, groups, sorted);
  }

  lemma {:induction false} UnitsAreDistinct(m: map<LineRef, Line>, groups: seq<HyphenGroup>)
    requires (forall i | 0 <= i < |groups| :: IsUnit(m, groups[i])) && Separate(groups)
    ensures Distinct(groups)
  {
    hide IsComponent, SortedBy;
    forall i, j | 0 <= i < j < |groups| ensures groups[i] != groups[j] {
      assert IsUnit(m, groups[i]);
      assert groups[i].members[0] in groups[i].members;
    }
  }

  lemma SameGrouped(m: map<LineRef, Line>, groups: seq<HyphenGroup>, sorted: seq<HyphenGroup>)
    requires AllGrouped(m, groups) && forall g :: g in groups <==> g in sorted
    ensures forall x, y | x in m && y in m && x != y && SameUnit(m, x, y) :: Grouped(sorted, x)
  {
    hide SameUnit;
    forall x | Grouped(groups, x) ensures Grouped(sorted, x) {}
  }

  lemma {:induction false} SeparateInAnyOrder(groups: seq<HyphenGroup>, g: HyphenGroup, h: HyphenGroup, x: LineRef)
    requires Separate(groups) && g in groups && h in groups && g != h && x in g.members
    ensures x !in h.members
  {
    var a :| 0 <= a < |groups| && groups[a] == g;
    var b :| 0 <= b < |groups| && groups[b] == h;
    assert a != b;
  }

  // ----- every set of lines has its units -----

  /** `g` is the unit made of one component, as `MakeGroup` makes it. */
  ghost function UnitFrom(m: map<LineRef, Line>, members: seq<LineRef>): HyphenGroup {
    HyphenGroup(Sort(members, r => Order(m, r)),
                exists x, y :: x in members && y in members && x.page != y.page,
                forall x | x in members :: x in m && LinksExplicit(m[x]),
                forall x, p | x in members && x in m && p in Pointers(m[x]) :: p in m)
  }

  lemma {:induction false} UnitFromIsUnit(m: map<LineRef, Line>, members: seq<LineRef>)
    requires |members| >= 2 && Distinct(members) && IsComponent(m, members)
    ensures IsUnit(m, UnitFrom(m, members)) && forall x :: x in UnitFrom(m, members).members <==> x in members
  {
    hide Pointers, LinksExplicit, SameUnit;
    PermutationFacts(members, Sort(members, r => Order(m, r)));
  }

  lemma {:induction false} Listed<T(!new)>(all: set<T>) returns (s: seq<T>)
    ensures Distinct(s) && forall x :: x in s <==> x in all
  {
    if all == {} {
      s := [];
    } else {
      var x :| x in all;
      var rest := Listed(all - {x});
      s := rest + [x];
    }
  }

  lemma {:induction false} ComponentOf(m: map<LineRef, Line>, x: LineRef) returns (members: seq<LineRef>)
    requires x in m
    ensures Distinct(members) && IsComponent(m, members) && forall y :: y in members <==> y in m && SameUnit(m, x, y)
  {
    hide SameUnit;
    members := Listed(set y | y in m && SameUnit(m, x, y));
    forall a, b | a in members && b in m ensures b in members <==> SameUnit(m, a, b) {
      SameUnitIsAnEquivalence(m, x, a, b);
      SameUnitIsAnEquivalence(m, a, x, b);
    }
  }

  /** Whatever the first lines, their units. */
  lemma {:induction false} UnitsOfSome(m: map<LineRef, Line>, keys: seq<LineRef>) returns (groups: seq<HyphenGroup>)
    requires forall r | r in keys :: r in m
    ensures (forall i | 0 <= i < |groups| :: IsUnit(m, groups[i])) && Separate(groups)
    ensures forall x, y | x in keys && y in m && x != y && SameUnit(m, x, y) :: Grouped(groups, x)
  {
    hide IsUnit, SameUnit, Grouped, IsComponent;
    if keys == [] {
      groups := [];
    } else {
      var front, x := keys[..|keys| - 1], keys[|keys| - 1];
      assert keys == front + [x];
      groups := UnitsOfSome(m, front);
      var members := ComponentOf(m, x);
      SameUnitIsAnEquivalence(m, x, x, x);
      if !Grouped(groups, x) && |members| >= 2 {
        var g := UnitFrom(m, members);
        UnitFromIsUnit(m, members);
        NewUnitIsSeparate(m, groups, g, x);
        forall r ensures Grouped(groups + [g], r) <==> Grouped(groups, r) || r in g.members { GroupedSnoc(groups, g, r); }
        groups := groups + [g];
      } else if |members| < 2 {
        AloneInIts(m, members, x);
      }
    }
  }

  lemma {:induction false} NewUnitIsSeparate(m: map<LineRef, Line>, groups: seq<HyphenGroup>, g: HyphenGroup, x: LineRef)
    requires (forall i | 0 <= i < |groups| :: IsUnit(m, groups[i])) && Separate(groups) && IsUnit(m, g) && x in g.members && !Grouped(groups, x)
    ensures Separate(groups + [g])
  {
    hide SameUnit, SortedBy;
    forall i, r | 0 <= i < |groups| && r in groups[i].members ensures r !in g.members {
      if r in g.members { SharedIsGrouped(m, groups, g, i, r, x); }
    }
  }

  lemma SharedIsGrouped(m: map<LineRef, Line>, groups: seq<HyphenGroup>, g: HyphenGroup, i: nat, r: LineRef, x: LineRef)
    requires i < |groups| && IsUnit(m, groups[i]) && IsUnit(m, g) && r in groups[i].members && r in g.members && x in g.members
    ensures Grouped(groups, x)
  {
    hide SameUnit, SortedBy;
    assert SameUnit(m, r, x) && groups[i] in groups;
  }

  lemma AloneInIts(m: map<LineRef, Line>, members: seq<LineRef>, x: LineRef)
    requires |members| < 2 && x in members && forall y :: y in members <==> y in m && SameUnit(m, x, y)
    ensures forall y | y in m && SameUnit(m, x, y) :: y == x
  {
    hide SameUnit;
  }

  lemma {:induction false} GroupingExists(m: map<LineRef, Line>) returns (groups: seq<HyphenGroup>)
    ensures IsGrouping(m, groups)
  {
    hide IsUnit, SameUnit, Grouped, IsGrouping;
    var keys := Listed(m.Keys);
    var found := UnitsOfSome(m, keys);
    groups := Sort(found, g => FirstOrder(m, g));
    SortedGrouping(m, found, groups);
  }

  // ----- the closure under units -----

  /** `hyphen_group_by_line`. */
  method GroupByLine(groups: seq<HyphenGroup>) returns (index: map<LineRef, HyphenGroup>)
    ensures forall x :: x in index <==> Grouped(groups, x)
    ensures forall x | x in index :: index[x] in groups && x in index[x].members
  {
    hide Grouped;
    index := map[];
    NotGrouped();
    for k := 0 to |groups|
      invariant forall x :: x in index <==> Grouped(groups[..k], x)
      invariant forall x | x in index :: index[x] in groups && x in index[x].members
    {
      var g := groups[k];
      assert groups[..k + 1] == groups[..k] + [g];
      forall x ensures Grouped(groups[..k + 1], x) <==> Grouped(groups[..k], x) || x in g.members {
        GroupedSnoc(groups[..k], g, x);
      }
      index := index + map x | x in g.members :: g;
    }
    assert groups[..|groups|] == groups;
  }

  lemma {:induction false} NotGrouped()
    ensures forall x :: !Grouped([], x)
  {
  }

  /** The seeds and every line of `m` in one unit with a seed. */
  ghost function Closure(m: map<LineRef, Line>, seeds: set<LineRef>): set<LineRef> {
    seeds + set y | y in m && exists x :: x in seeds && x in m && SameUnit(m, x, y)
  }

  /** Nothing is left out ... */
  lemma {:induction false} ClosureIsExtensive(m: map<LineRef, Line>, seeds: set<LineRef>)
    ensures seeds <= Closure(m, seeds)
  {
  }

  /** ... more seeds reach no less ... */
  lemma {:induction false} ClosureIsMonotone(m: map<LineRef, Line>, seeds: set<LineRef>, more: set<LineRef>)
    requires seeds <= more
    ensures Closure(m, seeds) <= Closure(m, more)
  {
    hide SameUnit;
  }

  /** ... what is reached reaches nothing new ... */
  lemma {:induction false} ClosureIsIdempotent(m: map<LineRef, Line>, seeds: set<LineRef>)
    ensures Closure(m, Closure(m, seeds)) == Closure(m, seeds)
  {
    hide SameUnit;
    forall z | z in Closure(m, Closure(m, seeds)) ensures z in Closure(m, seeds) {
      if z !in Closure(m, seeds) {
        var y :| y in Closure(m, seeds) && y in m && SameUnit(m, y, z);
        if y !in seeds {
          var x :| x in seeds && x in m && SameUnit(m, x, y);
          SameUnitIsAnEquivalence(m, x, y, z);
        }
      }
    }
  }

  /** `closed` is a union of whole units. */
  ghost predicate UnitClosed(m: map<LineRef, Line>, closed: set<LineRef>) {
    forall x, y | x in closed && x in m && y in m && SameUnit(m, x, y) :: y in closed
  }

  /** ... and it is a union of whole units. */
  lemma {:induction false} ClosureIsClosed(m: map<LineRef, Line>, seeds: set<LineRef>)
    ensures UnitClosed(m, Closure(m, seeds))
  {
    hide SameUnit;
    ClosureIsIdempotent(m, seeds);
    forall x, y | x in Closure(m, seeds) && x in m && y in m && SameUnit(m, x, y) ensures y in Closure(m, seeds) {
      assert y in Closure(m, Closure(m, seeds));
    }
  }

  // ----- only the pointers matter -----

  lemma {:induction false} SamePointers(a: seq<Line>, b: seq<Line>)
    requires |a| == |b| && forall k | 0 <= k < |a| :: b[k].ref == a[k].ref && Pointers(b[k]) == Pointers(a[k])
    ensures ByRef(a).Keys == ByRef(b).Keys && forall r | r in ByRef(a) :: Pointers(ByRef(b)[r]) == Pointers(ByRef(a)[r])
  {
    hide Pointers;
    if a != [] { SamePointers(a[..|a| - 1], b[..|b| - 1]); }
  }

  /** Lines that keep their pointers keep their units, whatever else becomes of them. */
  lemma {:induction false} SamePointersSameUnits(a: seq<Line>, b: seq<Line>)
    requires |a| == |b| && forall k | 0 <= k < |a| :: b[k].ref == a[k].ref && Pointers(b[k]) == Pointers(a[k])
    ensures Links(ByRef(a)) == Links(ByRef(b))
    ensures forall seeds :: Closure(ByRef(a), seeds) == Closure(ByRef(b), seeds)
  {
    hide Pointers, ByRef;
    SamePointers(a, b);
    assert Links(ByRef(a)) == Links(ByRef(b));
    forall seeds ensures Closure(ByRef(a), seeds) == Closure(ByRef(b), seeds) {
      SameLinksSameClosure(ByRef(a), ByRef(b), seeds);
    }
  }

  lemma {:induction false} SameLinksSameClosure(m: map<LineRef, Line>, n: map<LineRef, Line>, seeds: set<LineRef>)
    requires m.Keys == n.Keys && Links(m) == Links(n)
    ensures Closure(m, seeds) == Closure(n, seeds)
  {
    hide Links;
    forall x, y ensures SameUnit(m, x, y) <==> SameUnit(n, x, y) {}
  }

  /** One seed contributes its group, or only itself. */
  lemma {:induction false} SeedContributes(m: map<LineRef, Line>, groups: seq<HyphenGroup>, x: LineRef, y: LineRef)
    requires IsGrouping(m, groups) && x in m && y in m
    ensures forall g | g in groups && x in g.members :: y in g.members <==> SameUnit(m, x, y)
    ensures !Grouped(groups, x) ==> (SameUnit(m, x, y) <==> x == y)
  {
    forall g | g in groups && x in g.members ensures y in g.members <==> SameUnit(m, x, y) {
      assert IsUnit(m, g);
    }
    hide IsUnit;
    SameUnitIsAnEquivalence(m, x, x, x);
  }

  /** `units_containing`: seeds first, then the pool's members, each line once. */
  method UnitsContaining(seeds: seq<Line>, pool: seq<Line>) returns (lines: seq<Line>)
    ensures RefsOf(lines) == Closure(ByRef(pool), RefsOf(seeds))
    ensures forall i, j | 0 <= i < j < |lines| :: lines[i].ref != lines[j].ref
    ensures forall l | l in lines :: l in seeds || l in pool
  {
    hide IsGrouping, SameUnit, Closure, ByRef, RefsOf;
    var groups := DeriveHyphenGroups(pool);
    var index := GroupByLine(groups);
    var wanted := Wanted(pool, groups, index, seeds);
    var byRef, keys := Reachable(seeds, pool);
    ByRefKeys(pool);
    ClosureInside(ByRef(pool), RefsOf(seeds));
    lines := Select(byRef, keys, wanted);
  }

  lemma {:induction false} ClosureInside(m: map<LineRef, Line>, seeds: set<LineRef>)
    ensures Closure(m, seeds) <= seeds + m.Keys
  {
  }

  /** The seeds, then whatever else the pool holds. */
  method Reachable(seeds: seq<Line>, pool: seq<Line>) returns (byRef: map<LineRef, Line>, keys: seq<LineRef>)
    ensures Reached(byRef, keys, seeds, pool)
  {
    hide Reached, ByRef, Distinct;
    byRef, keys := Index(seeds);
    SeedsReached(seeds, keys);
    for k := 0 to |pool|
      invariant Reached(byRef, keys, seeds, pool[..k])
    {
      OneMoreReached(byRef, keys, seeds, pool, k);
      if pool[k].ref !in byRef {
        byRef, keys := byRef[pool[k].ref := pool[k]], keys + [pool[k].ref];
      }
    }
    assert pool[..|pool|] == pool;
  }

  /** The lines of the seeds and of the pool, by reference, and their references
      once each. */
  ghost predicate Reached(byRef: map<LineRef, Line>, keys: seq<LineRef>, seeds: seq<Line>, pool: seq<Line>) {
    && Distinct(keys) && (forall r :: r in keys <==> r in byRef)
    && (forall r | r in byRef :: byRef[r].ref == r && (byRef[r] in seeds || byRef[r] in pool))
    && byRef.Keys == RefsOf(seeds) + RefsOf(pool)
  }

  lemma {:induction false} SeedsReached(seeds: seq<Line>, keys: seq<LineRef>)
    requires Distinct(keys) && forall r :: r in keys <==> r in ByRef(seeds)
    ensures Reached(ByRef(seeds), keys, seeds, [])
  {
    hide ByRef;
    KeysOfSeeds(seeds);
  }

  lemma {:induction false} OneMoreReached(byRef: map<LineRef, Line>, keys: seq<LineRef>, seeds: seq<Line>, pool: seq<Line>, k: nat)
    requires k < |pool| && Reached(byRef, keys, seeds, pool[..k])
    ensures var l := pool[k];
      if l.ref in byRef then Reached(byRef, keys, seeds, pool[..k + 1])
      else Reached(byRef[l.ref := l], keys + [l.ref], seeds, pool[..k + 1])
  {
    assert pool[..k + 1] == pool[..k] + [pool[k]];
    assert RefsOf(pool[..k + 1]) == RefsOf(pool[..k]) + {pool[k].ref};
  }

  method Select(byRef: map<LineRef, Line>, keys: seq<LineRef>, wanted: set<LineRef>) returns (lines: seq<Line>)
    requires Distinct(keys) && forall r :: r in keys <==> r in byRef
    requires forall r | r in byRef :: byRef[r].ref == r
    requires wanted <= byRef.Keys
    ensures RefsOf(lines) == wanted
    ensures forall i, j | 0 <= i < j < |lines| :: lines[i].ref != lines[j].ref
    ensures forall l | l in lines :: l.ref in byRef && byRef[l.ref] == l
  {
    lines := [];
    for k := 0 to |keys|
      invariant forall l | l in lines :: l.ref in byRef && byRef[l.ref] == l
      invariant RefsOf(lines) == wanted * set r | r in keys[..k]
      invariant forall i, j | 0 <= i < j < |lines| :: lines[i].ref != lines[j].ref
    {
      assert keys[..k + 1] == keys[..k] + [keys[k]];
      if keys[k] in wanted {
        assert keys[k] !in keys[..k];
        assert forall i | 0 <= i < |lines| :: lines[i].ref in RefsOf(lines);
        assert RefsOf(lines + [byRef[keys[k]]]) == RefsOf(lines) + {keys[k]};
        lines := lines + [byRef[keys[k]]];
      }
    }
    assert keys[..|keys|] == keys;
  }

  lemma {:induction false} KeysOfSeeds(lines: seq<Line>)
    ensures forall r | r in ByRef(lines) :: ByRef(lines)[r] in lines
    ensures ByRef(lines).Keys == RefsOf(lines)
  {
    ByRefKeys(lines);
    if lines != [] {
      KeysOfSeeds(lines[..|lines| - 1]);
    }
  }

  /** The references reached from the seeds, group by group. */
  method Wanted(pool: seq<Line>, groups: seq<HyphenGroup>, index: map<LineRef, HyphenGroup>, seeds: seq<Line>)
    returns (wanted: set<LineRef>)
    requires IsGrouping(ByRef(pool), groups)
    requires forall x :: x in index <==> Grouped(groups, x)
    requires forall x | x in index :: index[x] in groups && x in index[x].members
    ensures wanted == Closure(ByRef(pool), RefsOf(seeds))
  {
    hide IsGrouping, SameUnit, Grouped;
    ghost var m := ByRef(pool);
    wanted := RefsOf(seeds);
    for k := 0 to |seeds|
      invariant wanted == RefsOf(seeds) + Closure(m, RefsOf(seeds[..k]))
    {
      var ref := seeds[k].ref;
      assert RefsOf(seeds[..k + 1]) == RefsOf(seeds[..k]) + {ref} by {
        assert seeds[..k + 1] == seeds[..k] + [seeds[k]];
      }
      OneSeed(m, groups, index, RefsOf(seeds[..k]), ref);
      if ref in index {
        wanted := wanted + set x | x in index[ref].members;
      }
    }
    assert seeds[..|seeds|] == seeds;
  }

  lemma {:induction false} OneSeed(m: map<LineRef, Line>, groups: seq<HyphenGroup>, index: map<LineRef, HyphenGroup>,
                                   seeds: set<LineRef>, x: LineRef)
    requires IsGrouping(m, groups)
    requires forall y :: y in index <==> Grouped(groups, y)
    requires forall y | y in index :: index[y] in groups && y in index[y].members
    ensures Closure(m, seeds + {x})
         == Closure(m, seeds) + {x} + (if x in index then set y | y in index[x].members else {})
  {
    hide SameUnit, Grouped, IsGrouping;
    UnitMates(m, groups, index, x);
  }

  lemma {:induction false} UnitMates(m: map<LineRef, Line>, groups: seq<HyphenGroup>, index: map<LineRef, HyphenGroup>, x: LineRef)
    requires IsGrouping(m, groups)
    requires forall y :: y in index <==> Grouped(groups, y)
    requires forall y | y in index :: index[y] in groups && y in index[y].members
    ensures x in index ==> x in m && forall y | y in index[x].members :: y in m
    ensures forall y | y in m && x in m :: SameUnit(m, x, y) <==> if x in index then y in index[x].members else x == y
  {
    hide SameUnit, Grouped;
    if x in index {
      assert IsUnit(m, index[x]);
    }
    hide IsGrouping, IsUnit;
    forall y | y in m && x in m
      ensures SameUnit(m, x, y) <==> if x in index then y in index[x].members else x == y
    {
      SeedContributes(m, groups, x, y);
    }
  }
}
