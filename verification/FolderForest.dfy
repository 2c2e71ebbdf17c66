/**
  What the links built by message_service_folder.go amount to: a forest in which every folder is reached
  from the roots along exactly one path, exactly when no folder name is listed twice.
 */
module FolderForest {
  import opened Wrappers
  import opened Sorting
  import opened FolderTree

  type LinkMap = map<string, seq<string>>

  /** Each folder's children are, in some order, the folders attached to it. */
  ghost predicate Shaped(h: Hierarchy, links: LinkMap) {
    && (forall n :: n in links <==> n in h.names)
    && (forall n | n in links :: multiset(links[n]) == multiset(Kids(h, Some(n))))
  }

  /** Children are listed, and their names are longer; so no folder is below itself. */
  ghost predicate Downward(links: LinkMap, bound: nat) {
    forall n | n in links :: |n| <= bound && forall c | c in links[n] :: c in links && |n| < |c|
  }

  ghost predicate Listed(links: LinkMap, list: seq<string>, over: int) {
    forall c | c in list :: c in links && over < |c|
  }

  /** Every folder in depth-first order: what a reader sees who walks the pointers. */
  ghost function Flatten(links: LinkMap, bound: nat, list: seq<string>, over: int): (flat: seq<string>)
    requires Downward(links, bound) && Listed(links, list, over)
    decreases bound - over, |list|
  {
    if list == [] then []
    else
      var x := list[0];
      assert x in list;
      [x] + Flatten(links, bound, links[x], |x|) + Flatten(links, bound, list[1..], over)
  }

  ghost function CountIn(s: seq<string>, x: string): nat {
    multiset(s)[x]
  }

  lemma CountCons(list: seq<string>, x: string)
    requires list != []
    ensures CountIn(list, x) == (if list[0] == x then 1 else 0) + CountIn(list[1..], x)
  {
    assert list == [list[0]] + list[1..];
  }

  /** The walk meets x as often as the list does, and as often as each folder met lists it. */
  lemma {:induction false} FlattenCovers(links: LinkMap, bound: nat, list: seq<string>, over: int, y: string, x: string)
    requires Downward(links, bound) && Listed(links, list, over)
    ensures CountIn(Flatten(links, bound, list, over), x) >= CountIn(list, x)
    ensures CountIn(Flatten(links, bound, list, over), y) > 0 ==>
      y in links && CountIn(Flatten(links, bound, list, over), x) >= CountIn(links[y], x)
    decreases bound - over, |list|
  {
    if list != [] {
      var z := list[0];
      assert z in list;
      FlattenCovers(links, bound, links[z], |z|, y, x);
      FlattenCovers(links, bound, list[1..], over, y, x);
      CountCons(list, x);
    }
  }

  /** When only `at` lists x, once, the walk meets x where the list has it and once for each time it meets `at`. */
  lemma {:induction false} FlattenOnce(links: LinkMap, bound: nat, list: seq<string>, over: int,
                                       at: Option<string>, x: string)
    requires Downward(links, bound) && Listed(links, list, over)
    requires forall n | n in links :: CountIn(links[n], x) == (if at == Some(n) then 1 else 0)
    ensures CountIn(Flatten(links, bound, list, over), x)
      == CountIn(list, x) + (if at.Some? then CountIn(Flatten(links, bound, list, over), at.value) else 0)
    decreases bound - over, |list|
  {
    if list != [] {
      var z := list[0];
      assert z in list;
      FlattenOnce(links, bound, links[z], |z|, at, x);
      FlattenOnce(links, bound, list[1..], over, at, x);
      CountCons(list, x);
    }
  }

  // ---- Shape of the links ----

  lemma CountSnoc(s: seq<string>, y: string, x: string)
    ensures CountIn(s + [y], x) == CountIn(s, x) + (if y == x then 1 else 0)
  {
  }

  lemma {:induction false} UnderCounts(h: Hierarchy, at: Option<string>, k: nat, x: string)
    requires k <= |h.names|
    ensures CountIn(Under(h, at, k), x) == if h.attach(x) == at then CountIn(h.names[..k], x) else 0
  {
    if k > 0 {
      UnderCounts(h, at, k - 1, x);
      var y, before := h.names[k - 1], Under(h, at, k - 1);
      assert h.names[..k] == h.names[..k - 1] + [y];
      CountSnoc(h.names[..k - 1], y, x);
      if h.attach(y) == at {
        CountSnoc(before, y, x);
      } else {
        assert Under(h, at, k) == before;
      }
    }
  }

  lemma KidsCount(h: Hierarchy, at: Option<string>, x: string)
    ensures CountIn(Kids(h, at), x) == if h.attach(x) == at then CountIn(h.names, x) else 0
  {
    assert h.names[..|h.names|] == h.names;
    UnderCounts(h, at, |h.names|, x);
  }

  lemma ShapedCounts(h: Hierarchy, links: LinkMap, n: string, x: string)
    requires Shaped(h, links) && n in links
    ensures CountIn(links[n], x) == if h.attach(x) == Some(n) then CountIn(h.names, x) else 0
  {
    KidsCount(h, Some(n), x);
  }

  lemma ShapedIsDownward(h: Hierarchy, links: LinkMap, bound: nat)
    requires h.Valid() && Shaped(h, links) && forall n | n in h.names :: |n| <= bound
    ensures Downward(links, bound)
  {
    forall n, c | n in links && c in links[n] ensures c in links && |n| < |c| {
      assert c in multiset(links[n]);
      ShapedCounts(h, links, n, c);
      assert h.attach(c) == Some(n) && c in multiset(h.names);
    }
  }

  /** A forest: its links, and a list of roots. */
  ghost predicate IsForest(h: Hierarchy, links: LinkMap, bound: nat, roots: seq<string>) {
    && h.Valid() && Shaped(h, links) && Downward(links, bound)
    && multiset(roots) == multiset(Kids(h, None))
  }

  lemma RootsListed(h: Hierarchy, links: LinkMap, bound: nat, roots: seq<string>)
    requires IsForest(h, links, bound, roots)
    ensures Listed(links, roots, -1)
  {
    forall c | c in roots ensures c in links {
      assert c in multiset(roots);
      KidsCount(h, None, c);
      assert c in multiset(h.names);
    }
  }

  ghost function Walk(h: Hierarchy, links: LinkMap, bound: nat, roots: seq<string>): seq<string>
    requires IsForest(h, links, bound, roots)
  {
    RootsListed(h, links, bound, roots);
    Flatten(links, bound, roots, -1)
  }

  // ---- Every folder is reached ----

  /** The walk meets every folder at least as often as it is listed. */
  lemma {:induction false} WalkCovers(h: Hierarchy, links: LinkMap, bound: nat, roots: seq<string>, x: string)
    requires IsForest(h, links, bound, roots)
    ensures CountIn(Walk(h, links, bound, roots), x) >= CountIn(h.names, x)
    decreases |x|
  {
    RootsListed(h, links, bound, roots);
    match h.attach(x)
    case None =>
      KidsCount(h, None, x);
      FlattenCovers(links, bound, roots, -1, x, x);
    case Some(p) =>
      WalkCovers(h, links, bound, roots, p);
      assert p in multiset(h.names);
      FlattenCovers(links, bound, roots, -1, p, x);
      ShapedCounts(h, links, p, x);
  }

  lemma DistinctCountsOnce(names: seq<string>, x: string)
    requires Distinct(names)
    ensures CountIn(names, x) == if x in names then 1 else 0
  {
    DistinctCounts(names, x);
    assert x in names <==> x in multiset(names);
  }

  /** With distinct names the walk meets a listed folder exactly once, and nothing else. */
  lemma {:induction false} WalkMeetsOnce(h: Hierarchy, links: LinkMap, bound: nat, roots: seq<string>, x: string)
    requires IsForest(h, links, bound, roots) && Distinct(h.names)
    ensures CountIn(Walk(h, links, bound, roots), x) == CountIn(h.names, x)
    decreases |x|
  {
    RootsListed(h, links, bound, roots);
    DistinctCountsOnce(h.names, x);
    KidsCount(h, None, x);
    forall n | n in links
      ensures CountIn(links[n], x) == if h.attach(x) == Some(n) then CountIn(h.names, x) else 0
    {
      ShapedCounts(h, links, n, x);
    }
    if h.attach(x).None? || x !in h.names {
      FlattenOnce(links, bound, roots, -1, None, x);
    } else {
      var p := h.attach(x).value;
      WalkMeetsOnce(h, links, bound, roots, p);
      DistinctCountsOnce(h.names, p);
      FlattenOnce(links, bound, roots, -1, Some(p), x);
    }
  }

  /** Walking the forest lists exactly the folders it was built from, when no name is listed twice. */
  lemma WalkIsPermutation(h: Hierarchy, links: LinkMap, bound: nat, roots: seq<string>)
    requires IsForest(h, links, bound, roots) && Distinct(h.names)
    ensures multiset(Walk(h, links, bound, roots)) == multiset(h.names)
  {
    forall x: string ensures CountIn(Walk(h, links, bound, roots), x) == CountIn(h.names, x) {
      WalkMeetsOnce(h, links, bound, roots, x);
    }
    var a, b := multiset(Walk(h, links, bound, roots)), multiset(h.names);
    assert forall x: string :: a[x] == CountIn(Walk(h, links, bound, roots), x) && b[x] == CountIn(h.names, x);
  }

  /** Every folder is reached exactly once exactly when no name is listed twice. */
  lemma ReachedOnceExactly(h: Hierarchy, links: LinkMap, bound: nat, roots: seq<string>)
    requires IsForest(h, links, bound, roots)
    ensures (forall x | x in h.names :: CountIn(Walk(h, links, bound, roots), x) == 1) <==> Distinct(h.names)
  {
    var walk := Walk(h, links, bound, roots);
    if Distinct(h.names) {
      forall x | x in h.names ensures CountIn(walk, x) == 1 {
        WalkMeetsOnce(h, links, bound, roots, x);
        DistinctCountsOnce(h.names, x);
      }
    } else {
      var i, j :| 0 <= i < j < |h.names| && h.names[i] == h.names[j];
      RepeatCounts(h.names, i, j);
      WalkCovers(h, links, bound, roots, h.names[i]);
      assert h.names[i] in h.names && CountIn(walk, h.names[i]) != 1;
    }
  }

  // ---- Paths ----

  /** Children are attached where they are listed, and roots nowhere. */
  ghost predicate LinksFollow(h: Hierarchy, links: LinkMap, roots: seq<string>) {
    && (forall n, c | n in links && c in links[n] :: h.attach(c) == Some(n))
    && (forall c | c in roots :: h.attach(c) == None)
  }

  /** Every listed folder is among the children of what it is attached to, or among the roots. */
  ghost predicate LinksComplete(h: Hierarchy, links: LinkMap, roots: seq<string>) {
    forall c | c in h.names :: match h.attach(c)
                               case None => c in roots
                               case Some(n) => n in links && c in links[n]
  }

  lemma ForestLinks(h: Hierarchy, links: LinkMap, bound: nat, roots: seq<string>)
    requires IsForest(h, links, bound, roots)
    ensures LinksFollow(h, links, roots) && LinksComplete(h, links, roots)
  {
    forall n, c | n in links ensures c in links[n] <==> c in h.names && h.attach(c) == Some(n) {
      ShapedCounts(h, links, n, c);
      assert c in links[n] <==> c in multiset(links[n]);
      assert c in h.names <==> c in multiset(h.names);
    }
    forall c ensures c in roots <==> c in h.names && h.attach(c) == None {
      KidsCount(h, None, c);
      assert c in roots <==> c in multiset(roots);
      assert c in h.names <==> c in multiset(h.names);
    }
  }

  /** A path from a root along the links. */
  ghost predicate IsPath(links: LinkMap, roots: seq<string>, path: seq<string>) {
    path != [] &&
    var init, last := path[..|path| - 1], path[|path| - 1];
    if init == [] then last in roots
    else IsPath(links, roots, init) && init[|init| - 1] in links && last in links[init[|init| - 1]]
  }

  /** The folders above x from the root down, and x. */
  ghost function Lineage(h: Hierarchy, x: string): (line: seq<string>)
    requires h.Valid()
    ensures line != [] && line[|line| - 1] == x
    decreases |x|
  {
    match h.attach(x)
    case None => [x]
    case Some(up) => Lineage(h, up) + [x]
  }

  /** Each folder on the path is attached to the one before it, the first to none. */
  ghost predicate Climbs(h: Hierarchy, path: seq<string>) {
    path != [] &&
    if |path| == 1 then h.attach(path[0]) == None
    else h.attach(path[|path| - 1]) == Some(path[|path| - 2]) && Climbs(h, path[..|path| - 1])
  }

  lemma {:induction false} ClimbIsLineage(h: Hierarchy, path: seq<string>)
    requires h.Valid() && Climbs(h, path)
    ensures path == Lineage(h, path[|path| - 1])
  {
    if |path| > 1 {
      ClimbIsLineage(h, path[..|path| - 1]);
      assert path == path[..|path| - 1] + [path[|path| - 1]];
    }
  }

  lemma {:induction false} PathClimbs(h: Hierarchy, links: LinkMap, roots: seq<string>, path: seq<string>)
    requires LinksFollow(h, links, roots) && IsPath(links, roots, path)
    ensures Climbs(h, path)
  {
    var init, last := path[..|path| - 1], path[|path| - 1];
    if init != [] {
      PathClimbs(h, links, roots, init);
      assert last in links[init[|init| - 1]];
    }
  }

  /** Any path from a root to a folder is its lineage. */
  lemma OnlyPath(h: Hierarchy, links: LinkMap, roots: seq<string>, path: seq<string>)
    requires h.Valid() && LinksFollow(h, links, roots) && IsPath(links, roots, path)
    ensures path == Lineage(h, path[|path| - 1])
  {
    PathClimbs(h, links, roots, path);
    ClimbIsLineage(h, path);
  }

  /** And the lineage of every listed folder is a path: so there is exactly one. */
  lemma {:induction false} LineageIsPath(h: Hierarchy, links: LinkMap, roots: seq<string>, x: string)
    requires h.Valid() && LinksComplete(h, links, roots) && x in h.names
    ensures IsPath(links, roots, Lineage(h, x))
    decreases |x|
  {
    if h.attach(x).Some? {
      LineageIsPath(h, links, roots, h.attach(x).value);
    }
  }

  // ---- What BuildFolderTree returns ----

  ghost function LinkNames(t: map<string, seq<FolderTreeNode>>): LinkMap {
    map n | n in t :: Titles(t[n])
  }

  /** The nodes that come out of the linking and sorting loops form such a forest. */
  lemma BuiltIsForest(h: Hierarchy, m: map<string, FolderTreeNode>, t: map<string, seq<FolderTreeNode>>,
                      roots: seq<FolderTreeNode>)
    returns (bound: nat)
    requires h.Valid() && Forest(h, m, t) && forall n :: n in m <==> n in h.names
    requires multiset(Titles(roots)) == multiset(Kids(h, None))
    ensures IsForest(h, LinkNames(t), bound, Titles(roots))
    ensures LinksFollow(h, LinkNames(t), Titles(roots)) && LinksComplete(h, LinkNames(t), Titles(roots))
  {
    bound := LongestName(h.names);
    ShapedIsDownward(h, LinkNames(t), bound);
    ForestLinks(h, LinkNames(t), bound, Titles(roots));
  }
}
