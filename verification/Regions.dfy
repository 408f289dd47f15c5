/** The custom download regions of a plugin: `collectRegionsFromJson` links a flat list of
    regions into a forest by their `path` / `parentPath`, and `getFlatCustomRegions` flattens
    that forest again. */
module Regions {
  import opened LinkedMaps

  /** A region as `CustomRegion.fromJson` reads it: its path, its parent's path (empty for a
      top-level region) and the rest of its JSON, which the linking never looks at. */
  datatype CustomRegion = CustomRegion(path: string, parentPath: string, details: string)

  /** A region together with the subregions linked under it. */
  datatype WorldRegion = WorldRegion(region: CustomRegion, subregions: seq<WorldRegion>)

  /** The map `flatRegions` after the first loop: each path to the last region with it. */
  function ByPath(regions: seq<CustomRegion>): map<string, CustomRegion>
    decreases |regions|
  {
    if |regions| == 0 then map[]
    else ByPath(regions[..|regions| - 1])[regions[|regions| - 1].path := regions[|regions| - 1]]
  }

  /** No region after the i-th one has its path. */
  ghost predicate LastWithPath(regions: seq<CustomRegion>, i: int) {
    0 <= i < |regions| && forall j :: i < j < |regions| ==> regions[j].path != regions[i].path
  }

  /** The paths kept are the paths of the input. */
  lemma {:induction false} ByPathKeys(regions: seq<CustomRegion>)
    ensures ByPath(regions).Keys == set r | r in regions :: r.path
    decreases |regions|
  {
    if |regions| > 0 {
      var n := |regions| - 1;
      ByPathKeys(regions[..n]);
      assert regions == regions[..n] + [regions[n]];
    }
  }

  /** Every kept region is an input region, stored under its own path. */
  lemma {:induction false} ByPathStored(regions: seq<CustomRegion>)
    ensures forall p :: p in ByPath(regions) ==> ByPath(regions)[p] in regions && ByPath(regions)[p].path == p
    decreases |regions|
  {
    if |regions| > 0 {
      var n := |regions| - 1;
      ByPathStored(regions[..n]);
      assert regions == regions[..n] + [regions[n]];
    }
  }

  /** A region that no later region shares its path with is the one kept. */
  lemma {:induction false} ByPathLast(regions: seq<CustomRegion>)
    ensures forall i :: LastWithPath(regions, i) ==> regions[i].path in ByPath(regions) && ByPath(regions)[regions[i].path] == regions[i]
    decreases |regions|
  {
    if |regions| > 0 {
      var n := |regions| - 1;
      var init := regions[..n];
      ByPathLast(init);
      forall i | LastWithPath(regions, i) ensures regions[i].path in ByPath(regions) && ByPath(regions)[regions[i].path] == regions[i] {
        if i < n {
          assert regions[i] == init[i];
          assert LastWithPath(init, i) by {
            forall j | i < j < |init| ensures init[j].path != init[i].path {
              assert init[j] == regions[j];
            }
          }
        }
      }
    }
  }

  /** De-duplication by path: one region per path survives, every survivor is an input
      region, and a region that no later region shares its path with is the one kept. */
  lemma LaterPathWins(regions: seq<CustomRegion>)
    ensures ByPath(regions).Keys == set r | r in regions :: r.path
    ensures forall p :: p in ByPath(regions) ==> ByPath(regions)[p] in regions && ByPath(regions)[p].path == p
    ensures forall i :: LastWithPath(regions, i) ==> ByPath(regions)[regions[i].path] == regions[i]
  {
    ByPathKeys(regions);
    ByPathStored(regions);
    ByPathLast(regions);
  }

  /** The paths of the regions in a list. */
  function Paths(rs: seq<WorldRegion>): set<string> {
    set s | s in rs :: s.region.path
  }

  /** No path occurs twice in the list. */
  ghost predicate DistinctPaths(rs: seq<WorldRegion>) {
    forall i, j :: 0 <= i < j < |rs| ==> rs[i].region.path != rs[j].region.path
  }

  /** The paths of the regions whose parent path is `parent`. */
  ghost function ChildPaths(flat: map<string, CustomRegion>, parent: string): set<string> {
    set q | q in flat && flat[q].parentPath == parent
  }

  /** The paths of `order` whose region names `parent` as its parent, in the order of `order`. */
  function ChildrenIn(order: seq<string>, flat: map<string, CustomRegion>, parent: string): (kids: seq<string>)
    requires forall q :: q in order ==> q in flat
    ensures forall q :: q in kids <==> q in order && flat[q].parentPath == parent
    ensures Distinct(order) ==> Distinct(kids)
    decreases |order|
  {
    if |order| == 0 then []
    else
      var last := order[|order| - 1];
      var init := order[..|order| - 1];
      assert forall q :: q in order <==> q in init || q == last by {
        assert order == init + [last];
      }
      assert Distinct(order) ==> Distinct(init) && last !in init by {
        if Distinct(order) {
          forall q | q in init ensures q != last {
            var i :| 0 <= i < |init| && init[i] == q;
            assert order[i] == q;
          }
        }
      }
      ChildrenIn(init, flat, parent) + if flat[last].parentPath == parent then [last] else []
  }

  /** The parent path a region directly under the chain of ancestors `chain` names. */
  function ParentOf(chain: seq<string>): string {
    if |chain| == 0 then "" else chain[|chain| - 1]
  }

  /** `chain` is a path from a top-level region down the parent links. */
  ghost predicate IsChain(flat: map<string, CustomRegion>, chain: seq<string>) {
    && Distinct(chain)
    && (forall i :: 0 <= i < |chain| ==> chain[i] in flat && chain[i] != "")
    && (forall i {:trigger ParentOf(chain[..i])} :: 0 <= i < |chain| ==> flat[chain[i]].parentPath == ParentOf(chain[..i]))
  }

  /** Every region is stored under its own path. */
  ghost predicate KeyedByPath(flat: map<string, CustomRegion>) {
    forall q :: q in flat ==> flat[q].path == q
  }

  /** The subregion lists: every listed subregion names its list's owner as parent, and only
      a region with a non-empty path can own one. */
  ghost predicate WellLinked(flat: map<string, CustomRegion>, links: map<string, seq<string>>) {
    && KeyedByPath(flat)
    && links.Keys == flat.Keys
    && (forall p :: p in links && |links[p]| > 0 ==> p != "")
    && forall p, q :: p in links && q in links[p] ==> q in flat && flat[q].parentPath == p
  }

  /** A region directly under a chain is not on it, and extends it. */
  lemma ExtendChain(flat: map<string, CustomRegion>, chain: seq<string>, p: string)
    requires IsChain(flat, chain) && p in flat && p != ""
    requires flat[p].parentPath == ParentOf(chain)
    ensures p !in chain
    ensures IsChain(flat, chain + [p])
  {
    var n := |chain|;
    forall i | 0 <= i < n ensures chain[i] != p {
      if i == 0 {
        assert ParentOf(chain[..0]) == "";
      } else {
        assert ParentOf(chain[..i]) == chain[i - 1];
      }
    }
    var c := chain + [p];
    forall i | 0 <= i < |c| ensures flat[c[i]].parentPath == ParentOf(c[..i]) {
      if i < n {
        assert c[..i] == chain[..i];
      } else {
        assert c[..i] == chain;
      }
    }
  }

  /** Adding a stored path that is not yet on the chain shrinks the set of paths left. */
  lemma ChainShrinks(keys: set<string>, chain: seq<string>, p: string)
    requires p in keys && p !in chain
    ensures keys - (set q | q in chain + [p]) < keys - (set q | q in chain)
  {
    assert (set q | q in chain + [p]) == (set q | q in chain) + {p};
    assert p in keys - (set q | q in chain);
  }

  /** The region stored under path p, seen as a value with everything linked below it. */
  function Build(flat: map<string, CustomRegion>, links: map<string, seq<string>>, p: string, chain: seq<string>): (r: WorldRegion)
    requires WellLinked(flat, links) && IsChain(flat, chain)
    requires p in flat && flat[p].parentPath == ParentOf(chain)
    ensures r.region == flat[p]
    decreases flat.Keys - (set q | q in chain), 0, 0
  {
    if |links[p]| == 0 then WorldRegion(flat[p], [])
    else
      ExtendChain(flat, chain, p);
      ChainShrinks(flat.Keys, chain, p);
      assert ParentOf(chain + [p]) == p;
      WorldRegion(flat[p], BuildAll(flat, links, links[p], chain + [p]))
  }

  /** The regions stored under the paths `ks`, all directly under `chain`. */
  function BuildAll(flat: map<string, CustomRegion>, links: map<string, seq<string>>, ks: seq<string>, chain: seq<string>): (rs: seq<WorldRegion>)
    requires WellLinked(flat, links) && IsChain(flat, chain)
    requires forall k :: k in ks ==> k in flat && flat[k].parentPath == ParentOf(chain)
    ensures |rs| == |ks|
    ensures forall i :: 0 <= i < |ks| ==> rs[i].region == flat[ks[i]]
    decreases flat.Keys - (set q | q in chain), 1, |ks|
  {
    if |ks| == 0 then []
    else [Build(flat, links, ks[0], chain)] + BuildAll(flat, links, ks[1..], chain)
  }

  /** Below region r, the subregions are exactly the regions whose parent path is r's path
      (none under an empty path, which marks a top-level region), each once, all linked in
      turn, and every region is the one stored under its path. */
  ghost predicate Linked(flat: map<string, CustomRegion>, r: WorldRegion)
    decreases r
  {
    && r.region.path in flat
    && flat[r.region.path] == r.region
    && DistinctPaths(r.subregions)
    && Paths(r.subregions) == (if r.region.path == "" then {} else ChildPaths(flat, r.region.path))
    && forall s :: s in r.subregions ==> s.region.parentPath == r.region.path && Linked(flat, s)
  }

  /** The result of collectRegionsFromJson: the top-level regions, each once, are exactly the
      stored regions with an empty parent path, and everything below them is linked. */
  ghost predicate LinkedForest(flat: map<string, CustomRegion>, roots: seq<WorldRegion>) {
    && DistinctPaths(roots)
    && Paths(roots) == ChildPaths(flat, "")
    && forall r :: r in roots ==> r.region.parentPath == "" && Linked(flat, r)
  }

  /** The subregion list of p names each child of p once, and nothing else; the empty path
      marks top-level regions and owns none. */
  ghost predicate ListsChildren(flat: map<string, CustomRegion>, links: map<string, seq<string>>, p: string)
    requires p in links
  {
    && Distinct(links[p])
    && (set q | q in links[p]) == (if p == "" then {} else ChildPaths(flat, p))
  }

  /** Every subregion list is complete. */
  ghost predicate ExactLinks(flat: map<string, CustomRegion>, links: map<string, seq<string>>) {
    forall p :: p in links ==> ListsChildren(flat, links, p)
  }

  /** The subregion list of p the second loop leaves, for the iteration order `order`. */
  ghost predicate LinkFor(flat: map<string, CustomRegion>, order: seq<string>, links: map<string, seq<string>>, p: string)
    requires forall q :: q in order ==> q in flat
    requires p in links
  {
    links[p] == if p == "" then [] else ChildrenIn(order, flat, p)
  }

  /** The subregion lists the second loop leaves, for the iteration order `order`. */
  ghost predicate LinksFor(flat: map<string, CustomRegion>, order: seq<string>, links: map<string, seq<string>>)
    requires forall q :: q in order ==> q in flat
  {
    && links.Keys == flat.Keys
    && forall p :: p in links ==> LinkFor(flat, order, links, p)
  }

  /** The paths of the regions built for `ks` are `ks`. */
  lemma BuildAllPaths(flat: map<string, CustomRegion>, links: map<string, seq<string>>, ks: seq<string>, chain: seq<string>)
    requires WellLinked(flat, links) && IsChain(flat, chain)
    requires forall k :: k in ks ==> k in flat && flat[k].parentPath == ParentOf(chain)
    ensures Paths(BuildAll(flat, links, ks, chain)) == set k | k in ks
  {
    var rs := BuildAll(flat, links, ks, chain);
    forall q ensures q in Paths(rs) <==> q in ks {
      if q in Paths(rs) {
        var s :| s in rs && s.region.path == q;
        var i :| 0 <= i < |rs| && rs[i] == s;
        assert ks[i] in ks;
      }
      if q in ks {
        var i :| 0 <= i < |ks| && ks[i] == q;
        assert rs[i] in rs;
      }
    }
  }

  /** Filtering an order that lists every stored path picks exactly the children. */
  lemma ChildrenInPaths(order: seq<string>, flat: map<string, CustomRegion>, p: string)
    requires forall q :: q in order <==> q in flat
    ensures (set q | q in ChildrenIn(order, flat, p)) == ChildPaths(flat, p)
  {
  }

  /** The regions built from complete subregion lists are linked. */
  lemma {:induction false} BuildIsLinked(flat: map<string, CustomRegion>, links: map<string, seq<string>>, p: string, chain: seq<string>)
    requires WellLinked(flat, links) && ExactLinks(flat, links) && IsChain(flat, chain)
    requires p in flat && flat[p].parentPath == ParentOf(chain)
    ensures Linked(flat, Build(flat, links, p, chain))
    decreases flat.Keys - (set q | q in chain), 0, 0
  {
    var r := Build(flat, links, p, chain);
    assert ListsChildren(flat, links, p);
    assert r.region == flat[p] && flat[p].path == p;
    if |links[p]| == 0 {
      assert r.subregions == [];
      assert (set q | q in links[p]) == {};
    } else {
      ExtendChain(flat, chain, p);
      var chain' := chain + [p];
      ChainShrinks(flat.Keys, chain, p);
      assert ParentOf(chain') == p;
      BuildAllIsLinked(flat, links, links[p], chain');
      BuildAllPaths(flat, links, links[p], chain');
      assert r.subregions == BuildAll(flat, links, links[p], chain');
    }
  }

  /** The regions built for a list of distinct paths are linked and keep those paths. */
  lemma {:induction false} BuildAllIsLinked(flat: map<string, CustomRegion>, links: map<string, seq<string>>, ks: seq<string>, chain: seq<string>)
    requires WellLinked(flat, links) && ExactLinks(flat, links) && IsChain(flat, chain)
    requires forall k :: k in ks ==> k in flat && flat[k].parentPath == ParentOf(chain)
    requires Distinct(ks)
    ensures DistinctPaths(BuildAll(flat, links, ks, chain))
    ensures forall s :: s in BuildAll(flat, links, ks, chain) ==> s.region.parentPath == ParentOf(chain) && Linked(flat, s)
    decreases flat.Keys - (set q | q in chain), 1, |ks|
  {
    var rs := BuildAll(flat, links, ks, chain);
    if |ks| > 0 {
      var rest := ks[1..];
      var head := Build(flat, links, ks[0], chain);
      BuildIsLinked(flat, links, ks[0], chain);
      assert Distinct(rest) by {
        forall i, j | 0 <= i < j < |rest| ensures rest[i] != rest[j] {
          assert rest[i] == ks[i + 1] && rest[j] == ks[j + 1];
        }
      }
      BuildAllIsLinked(flat, links, rest, chain);
      var tail := BuildAll(flat, links, rest, chain);
      assert rs == [head] + tail;
      forall s | s in rs ensures s.region.parentPath == ParentOf(chain) && Linked(flat, s) {
        if s != head {
          assert s in tail;
        }
      }
      forall i, j | 0 <= i < j < |rs| ensures rs[i].region.path != rs[j].region.path {
        assert rs[i].region == flat[ks[i]] && rs[j].region == flat[ks[j]];
      }
    }
  }

  /** A list of every key of a finite map, each once: some iteration order exists. */
  lemma ListKeys(keys: set<string>) returns (order: seq<string>)
    ensures Distinct(order) && forall q :: q in order <==> q in keys
    decreases keys
  {
    if keys == {} {
      order := [];
    } else {
      var x :| x in keys;
      var rest := ListKeys(keys - {x});
      order := [x] + rest;
      forall i, j | 0 <= i < j < |order| ensures order[i] != order[j] {
        if i == 0 {
          assert order[j] == rest[j - 1];
        } else {
          assert order[i] == rest[i - 1] && order[j] == rest[j - 1];
        }
      }
    }
  }

  /** The de-duplicated map stores every region under its own path. */
  lemma ByPathKeyed(regions: seq<CustomRegion>)
    ensures KeyedByPath(ByPath(regions))
  {
    ByPathStored(regions);
  }

  /** One more path of the iteration order, filtered. */
  lemma ChildrenInSnoc(order: seq<string>, flat: map<string, CustomRegion>, parent: string, i: nat)
    requires i < |order| && forall q :: q in order ==> q in flat
    ensures ChildrenIn(order[..i + 1], flat, parent) ==
      ChildrenIn(order[..i], flat, parent) + if flat[order[i]].parentPath == parent then [order[i]] else []
  {
    assert order[..i + 1][..i] == order[..i];
  }

  /** `addSubregion`: the child's path joins the end of the parent's subregion list. */
  function AddSubregion(links: map<string, seq<string>>, parent: string, child: string): (r: map<string, seq<string>>)
    requires parent in links
    ensures r.Keys == links.Keys
    ensures forall p :: p in links && p != parent ==> r[p] == links[p]
    ensures r[parent] == links[parent] + [child]
  {
    links[parent := links[parent] + [child]]
  }

  /** The second loop's step keeps the subregion lists those of the paths visited so far. */
  lemma LinksStep(flat: map<string, CustomRegion>, order: seq<string>, i: nat, links: map<string, seq<string>>)
    requires KeyedByPath(flat)
    requires i < |order| && forall q :: q in order ==> q in flat
    requires LinksFor(flat, order[..i], links)
    ensures var r := flat[order[i]];
      LinksFor(flat, order[..i + 1],
        if r.parentPath != "" && r.parentPath in flat then AddSubregion(links, r.parentPath, r.path) else links)
  {
    var r := flat[order[i]];
    var links' := if r.parentPath != "" && r.parentPath in flat then AddSubregion(links, r.parentPath, r.path) else links;
    forall p | p in links' ensures LinkFor(flat, order[..i + 1], links', p) {
      ChildrenInSnoc(order, flat, p, i);
      assert LinkFor(flat, order[..i], links, p);
    }
  }

  /** The forest built from the roots and subregion lists the second loop leaves is the
      result collectRegionsFromJson promises. */
  lemma BuiltForest(flat: map<string, CustomRegion>, order: seq<string>, links: map<string, seq<string>>, roots: seq<string>)
    requires KeyedByPath(flat)
    requires Distinct(order) && forall q :: q in order <==> q in flat
    requires LinksFor(flat, order[..|order|], links)
    requires roots == ChildrenIn(order[..|order|], flat, "")
    ensures WellLinked(flat, links) && IsChain(flat, [])
    ensures forall k :: k in roots ==> k in flat && flat[k].parentPath == ParentOf([])
    ensures LinkedForest(flat, BuildAll(flat, links, roots, []))
  {
    assert order[..|order|] == order;
    forall p | p in links ensures ListsChildren(flat, links, p) {
      assert LinkFor(flat, order, links, p);
      ChildrenInPaths(order, flat, p);
    }
    forall p, q | p in links && q in links[p] ensures q in flat && flat[q].parentPath == p {
      assert LinkFor(flat, order, links, p);
    }
    forall p | p in links && |links[p]| > 0 ensures p != "" {
      assert LinkFor(flat, order, links, p);
    }
    BuildAllIsLinked(flat, links, roots, []);
    BuildAllPaths(flat, links, roots, []);
    ChildrenInPaths(order, flat, "");
  }

  /** The second loop of collectRegionsFromJson, walking the stored paths in `order`: a
      region with an empty parent path becomes top-level, any other is added to its parent's
      subregions when that parent is stored, and is dropped otherwise. */
  method LinkRegions(flat: map<string, CustomRegion>, order: seq<string>) returns (roots: seq<string>, links: map<string, seq<string>>)
    requires KeyedByPath(flat)
    requires forall q :: q in order ==> q in flat
    ensures roots == ChildrenIn(order[..|order|], flat, "")
    ensures LinksFor(flat, order[..|order|], links)
  {
    roots := [];
    links := map q | q in flat :: [];
    for i := 0 to |order|
      invariant roots == ChildrenIn(order[..i], flat, "")
      invariant LinksFor(flat, order[..i], links)
    {
      var region := flat[order[i]];
      ChildrenInSnoc(order, flat, "", i);
      LinksStep(flat, order, i, links);
      if region.parentPath != "" {
        if region.parentPath in flat {
          links := AddSubregion(links, region.parentPath, region.path);
        }
      } else {
        roots := roots + [region.path];
      }
    }
  }

  /** collectRegionsFromJson over the regions CustomRegion.fromJson read: the first loop
      keeps the last region per path, the second walks the map (in the unspecified order of
      a HashMap) collecting top-level regions and adding every other region to its parent's
      subregions when that parent exists. */
  method CollectRegionsFromJson(regions: seq<CustomRegion>) returns (customRegions: seq<WorldRegion>)
    ensures LinkedForest(ByPath(regions), customRegions)
  {
    var flatRegions: map<string, CustomRegion> := map[];
    for i := 0 to |regions|
      invariant flatRegions == ByPath(regions[..i])
    {
      var region := regions[i];
      assert regions[..i + 1][..i] == regions[..i];
      flatRegions := flatRegions[region.path := region];
    }
    assert regions[..|regions|] == regions;
    ByPathKeyed(regions);
    ghost var someOrder := ListKeys(flatRegions.Keys);
    var order: seq<string> :|
      && Distinct(order)
      && (forall q | q in order :: q in flatRegions)
      && (forall q | q in flatRegions :: q in order);
    var roots, links := LinkRegions(flatRegions, order);
    BuiltForest(flatRegions, order, links, roots);
    customRegions := BuildAll(flatRegions, links, roots, []);
  }

  /** The regions below r in the order collectCustomSubregionsFromRegion appends them: the
      direct subregions first, then, subregion by subregion, everything below each. */
  function Descendants(r: WorldRegion): seq<WorldRegion>
    decreases r
  {
    r.subregions + DescendantsOfAll(r.subregions)
  }

  /** Everything below the regions rs, region by region. */
  function DescendantsOfAll(rs: seq<WorldRegion>): seq<WorldRegion>
    decreases rs
  {
    if |rs| == 0 then [] else Descendants(rs[0]) + DescendantsOfAll(rs[1..])
  }

  /** The list getFlatCustomRegions returns: the top-level regions, then everything below. */
  function FlatRegions(roots: seq<WorldRegion>): seq<WorldRegion> {
    roots + DescendantsOfAll(roots)
  }

  /** The number of regions in the tree rooted at r, r included. */
  function Size(r: WorldRegion): nat
    decreases r
  {
    1 + SizeAll(r.subregions)
  }

  /** The number of regions in the trees rooted at rs. */
  function SizeAll(rs: seq<WorldRegion>): nat
    decreases rs
  {
    if |rs| == 0 then 0 else Size(rs[0]) + SizeAll(rs[1..])
  }

  /** x occurs in the tree rooted at r. */
  ghost predicate InTree(x: WorldRegion, r: WorldRegion)
    decreases r
  {
    x == r || exists s :: s in r.subregions && InTree(x, s)
  }

  /** x occurs in one of the trees rooted at rs. */
  ghost predicate InForest(x: WorldRegion, rs: seq<WorldRegion>) {
    exists r :: r in rs && InTree(x, r)
  }

  /** Everything strictly below r is listed, and nothing else. */
  lemma {:induction false} DescendantsMembers(x: WorldRegion, r: WorldRegion)
    ensures x in Descendants(r) <==> InForest(x, r.subregions)
    decreases r
  {
    DescendantsOfAllMembers(x, r.subregions);
    if InForest(x, r.subregions) && x !in r.subregions {
      var s :| s in r.subregions && InTree(x, s);
      var t :| t in s.subregions && InTree(x, t);
      assert InForest(x, s.subregions);
    }
  }

  /** Everything strictly below the regions rs is listed, and nothing else. */
  lemma {:induction false} DescendantsOfAllMembers(x: WorldRegion, rs: seq<WorldRegion>)
    ensures x in DescendantsOfAll(rs) <==> exists r :: r in rs && InForest(x, r.subregions)
    decreases rs
  {
    if |rs| > 0 {
      DescendantsMembers(x, rs[0]);
      DescendantsOfAllMembers(x, rs[1..]);
      assert forall r :: r in rs <==> r == rs[0] || r in rs[1..] by {
        assert rs == [rs[0]] + rs[1..];
      }
    }
  }

  /** getFlatCustomRegions lists exactly the regions of the forest. */
  lemma FlatRegionsMembers(x: WorldRegion, roots: seq<WorldRegion>)
    ensures x in FlatRegions(roots) <==> InForest(x, roots)
  {
    DescendantsOfAllMembers(x, roots);
    if InForest(x, roots) && x !in roots {
      var r :| r in roots && InTree(x, r);
      assert InForest(x, r.subregions);
    }
  }

  /** Below r there are as many regions as the tree has, less r itself. */
  lemma {:induction false} DescendantsLength(r: WorldRegion)
    ensures |Descendants(r)| == Size(r) - 1
    decreases r
  {
    DescendantsOfAllLength(r.subregions);
  }

  /** Below the regions rs there are as many regions as their trees have, less the roots. */
  lemma {:induction false} DescendantsOfAllLength(rs: seq<WorldRegion>)
    ensures |DescendantsOfAll(rs)| == SizeAll(rs) - |rs|
    decreases rs
  {
    if |rs| > 0 {
      DescendantsLength(rs[0]);
      DescendantsOfAllLength(rs[1..]);
    }
  }

  /** getFlatCustomRegions lists the roots first, and as many regions as the forest has. */
  lemma FlatRegionsLength(roots: seq<WorldRegion>)
    ensures |FlatRegions(roots)| == SizeAll(roots)
    ensures FlatRegions(roots)[..|roots|] == roots
  {
    DescendantsOfAllLength(roots);
  }

  /** The regions below the first i of rs, and then below the next one. */
  lemma {:induction false} DescendantsOfAllSnoc(rs: seq<WorldRegion>, i: nat)
    requires i < |rs|
    ensures DescendantsOfAll(rs[..i + 1]) == DescendantsOfAll(rs[..i]) + Descendants(rs[i])
    decreases i
  {
    if i == 0 {
      assert rs[..1][1..] == [];
    } else {
      var tail := rs[1..];
      assert rs[..i + 1][1..] == tail[..i] && rs[..i][1..] == tail[..i - 1];
      assert rs[..i + 1][0] == rs[0] && rs[..i][0] == rs[0] && tail[i - 1] == rs[i];
      DescendantsOfAllSnoc(tail, i - 1);
    }
  }

  /** collectCustomSubregionsFromRegion: appends region's subregions to items, then recurses
      into each subregion in turn. */
  method CollectCustomSubregionsFromRegion(region: WorldRegion, items: seq<WorldRegion>) returns (out: seq<WorldRegion>)
    ensures out == items + Descendants(region)
    decreases region
  {
    var subregions := region.subregions;
    out := items + subregions;
    for i := 0 to |subregions|
      invariant out == items + subregions + DescendantsOfAll(subregions[..i])
    {
      DescendantsOfAllSnoc(subregions, i);
      out := CollectCustomSubregionsFromRegion(subregions[i], out);
    }
    assert subregions[..|subregions|] == subregions;
  }

  /** Everything in a linked tree is linked and names a stored parent, or none. */
  lemma {:induction false} LinkedTree(flat: map<string, CustomRegion>, r: WorldRegion, x: WorldRegion)
    requires Linked(flat, r) && (r.region.parentPath == "" || r.region.parentPath in flat)
    requires InTree(x, r)
    ensures Linked(flat, x) && (x.region.parentPath == "" || x.region.parentPath in flat)
    decreases r
  {
    if x != r {
      var s :| s in r.subregions && InTree(x, s);
      LinkedTree(flat, s, x);
    }
  }

  /** Every region getFlatCustomRegions lists after collectRegionsFromJson is the stored
      region under its path, and is either top-level or under a stored parent. */
  lemma FlatRegionsLinked(flat: map<string, CustomRegion>, roots: seq<WorldRegion>, x: WorldRegion)
    requires LinkedForest(flat, roots)
    requires x in FlatRegions(roots)
    ensures Linked(flat, x)
    ensures x.region.path in flat && flat[x.region.path] == x.region
    ensures x.region.parentPath == "" || x.region.parentPath in flat
  {
    FlatRegionsMembers(x, roots);
    var r :| r in roots && InTree(x, r);
    LinkedTree(flat, r, x);
  }

  /** An orphan (a region naming a parent path no region has) never appears. */
  lemma OrphanDropped(flat: map<string, CustomRegion>, roots: seq<WorldRegion>, p: string)
    requires LinkedForest(flat, roots)
    requires p in flat && flat[p].parentPath != "" && flat[p].parentPath !in flat
    ensures forall x :: x in FlatRegions(roots) ==> x.region.path != p
  {
    forall x | x in FlatRegions(roots) ensures x.region.path != p {
      FlatRegionsLinked(flat, roots, x);
    }
  }

  /** Every region strictly inside a tree is a subregion of some region of that tree. */
  lemma {:induction false} HasParentInTree(x: WorldRegion, r: WorldRegion)
    requires InTree(x, r) && x != r
    ensures exists y :: InTree(y, r) && x in y.subregions
    decreases r
  {
    var s :| s in r.subregions && InTree(x, s);
    if x == s {
      assert InTree(r, r);
    } else {
      HasParentInTree(x, s);
      var y :| InTree(y, s) && x in y.subregions;
      assert InTree(y, r);
    }
  }

  /** A region getFlatCustomRegions lists with a non-empty parent path has its parent listed
      as well. */
  lemma ParentListed(flat: map<string, CustomRegion>, roots: seq<WorldRegion>, x: WorldRegion)
    requires LinkedForest(flat, roots)
    requires x in FlatRegions(roots) && x.region.parentPath != ""
    ensures exists y :: y in FlatRegions(roots) && y.region.path == x.region.parentPath
  {
    FlatRegionsMembers(x, roots);
    var r :| r in roots && InTree(x, r);
    HasParentInTree(x, r);
    var y :| InTree(y, r) && x in y.subregions;
    LinkedTree(flat, r, y);
    FlatRegionsMembers(y, roots);
  }

  /** q reaches p by following n parent paths through the stored regions. */
  ghost predicate Below(flat: map<string, CustomRegion>, q: string, p: string, n: nat)
    decreases n
  {
    if n == 0 then q == p
    else q in flat && flat[q].parentPath != "" && Below(flat, flat[q].parentPath, p, n - 1)
  }

  /** An orphan is dropped together with everything below it. */
  lemma {:induction false} OrphanSubtreeDropped(flat: map<string, CustomRegion>, roots: seq<WorldRegion>, p: string, q: string, n: nat)
    requires LinkedForest(flat, roots)
    requires p in flat && flat[p].parentPath != "" && flat[p].parentPath !in flat
    requires Below(flat, q, p, n)
    ensures forall x :: x in FlatRegions(roots) ==> x.region.path != q
    decreases n
  {
    if n == 0 {
      OrphanDropped(flat, roots, p);
    } else {
      var pp := flat[q].parentPath;
      OrphanSubtreeDropped(flat, roots, p, pp, n - 1);
      forall x | x in FlatRegions(roots) ensures x.region.path != q {
        if x.region.path == q {
          FlatRegionsLinked(flat, roots, x);
          ParentListed(flat, roots, x);
        }
      }
    }
  }

  /** A stored region whose parent is listed sits among that parent's subregions. */
  lemma ChildAttached(flat: map<string, CustomRegion>, roots: seq<WorldRegion>, x: WorldRegion, q: string)
    requires LinkedForest(flat, roots)
    requires x in FlatRegions(roots) && x.region.path != ""
    requires q in flat && flat[q].parentPath == x.region.path
    ensures exists s :: s in x.subregions && s.region == flat[q]
  {
    FlatRegionsLinked(flat, roots, x);
    assert q in Paths(x.subregions);
    var s :| s in x.subregions && s.region.path == q;
    assert Linked(flat, s);
  }

  /** In terms of the input list: every top-level region returned is an input region with an
      empty parent path, and every input region with an empty parent path that no later
      region replaces is returned. */
  lemma RootsOfCollect(regions: seq<CustomRegion>, roots: seq<WorldRegion>)
    requires LinkedForest(ByPath(regions), roots)
    ensures forall r :: r in roots ==> r.region in regions && r.region.parentPath == ""
    ensures forall i :: LastWithPath(regions, i) && regions[i].parentPath == "" ==>
      exists r :: r in roots && r.region == regions[i]
  {
    var flat := ByPath(regions);
    LaterPathWins(regions);
    forall i | LastWithPath(regions, i) && regions[i].parentPath == ""
      ensures exists r :: r in roots && r.region == regions[i]
    {
      var q := regions[i].path;
      assert flat[q] == regions[i];
      assert q in ChildPaths(flat, "");
      var r :| r in roots && r.region.path == q;
      assert Linked(flat, r);
    }
  }
}
