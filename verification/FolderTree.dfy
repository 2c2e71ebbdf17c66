/**
  The folder forest: message_service_folder.go turns a flat folder list into a pointer forest through a
  name map, then sorts every list of siblings in place.
 */
module FolderTree {
  import opened Wrappers
  import opened Text
  import opened Sorting

  datatype FolderInfo = FolderInfo(name: string, delimiter: string)

  class FolderTreeNode {
    const folder: FolderInfo
    const path: string
    var children: seq<FolderTreeNode>

    constructor (folder: FolderInfo)
      ensures this.folder == folder && path == folder.name && children == []
    {
      this.folder := folder;
      path := folder.name;
      children := [];
    }
  }

  type Separator = s: string | s != "" witness "/"

  function Names(folders: seq<FolderInfo>): (names: seq<string>)
    ensures |names| == |folders|
    ensures forall i | 0 <= i < |folders| :: names[i] == folders[i].name
  {
    seq(|folders|, i requires 0 <= i < |folders| => folders[i].name)
  }

  predicate UsableDelimiter(s: string) {
    s != "" && s != " "
  }

  /** The delimiter of the first folder that names one. */
  function DelimiterOf(folders: seq<FolderInfo>): Separator {
    if folders == [] then "/"
    else if UsableDelimiter(folders[0].delimiter) then folders[0].delimiter
    else DelimiterOf(folders[1..])
  }

  /** All before the first folder that names a delimiter name none, or a space; without such a folder it is "/". */
  lemma {:induction false} DelimiterIsFirst(folders: seq<FolderInfo>)
    ensures (exists k: nat :: NamesFirst(folders, k, DelimiterOf(folders)))
      || (DelimiterOf(folders) == "/" && forall k | 0 <= k < |folders| :: folders[k].delimiter in {"", " "})
  {
    if folders != [] && folders[0].delimiter in {"", " "} {
      DelimiterIsFirst(folders[1..]);
      if k: nat :| NamesFirst(folders[1..], k, DelimiterOf(folders)) {
        assert NamesFirst(folders, k + 1, DelimiterOf(folders));
      }
    } else if folders != [] {
      assert NamesFirst(folders, 0, DelimiterOf(folders));
    }
  }

  ghost predicate NamesFirst(folders: seq<FolderInfo>, k: nat, delimiter: string) {
    && k < |folders| && folders[k].delimiter == delimiter && delimiter !in {"", " "}
    && forall i | 0 <= i < k :: folders[i].delimiter in {"", " "}
  }

  /** The name up to its last delimiter. */
  function ParentName(name: string, delimiter: Separator): Option<string> {
    var parts := Split(name, delimiter);
    if |parts| > 1 then Some(Join(parts[..|parts| - 1], delimiter)) else None
  }

  /** A parent's name is strictly shorter, so no folder is over itself. */
  lemma ParentShorter(name: string, delimiter: Separator)
    ensures ParentName(name, delimiter).Some? ==> |ParentName(name, delimiter).value| < |name|
    ensures ParentName(name, delimiter).Some? ==> ParentName(name, delimiter).value + delimiter <= name
  {
    var parts := Split(name, delimiter);
    JoinOfSplit(name, delimiter);
    if |parts| > 1 {
      var init, last := parts[..|parts| - 1], parts[|parts| - 1];
      assert parts == init + [last];
      JoinAppend(init, last, delimiter);
    }
  }

  /** What is after the parent's name is one delimiter, and after that there is none; without a parent there is none. */
  lemma ParentEndsAtLast(name: string, delimiter: Separator)
    ensures match ParentName(name, delimiter)
      case Some(parent) =>
        && parent <= name && OccursAt(name, delimiter, |parent|)
        && !Contains(name[|parent| + |delimiter|..], delimiter)
      case None => !Contains(name, delimiter)
  {
    var parts := Split(name, delimiter);
    JoinOfSplit(name, delimiter);
    SplitLastIsFree(name, delimiter);
    if |parts| > 1 {
      var init, last := parts[..|parts| - 1], parts[|parts| - 1];
      assert parts == init + [last];
      JoinAppend(init, last, delimiter);
      var parent := Join(init, delimiter);
      assert name == parent + delimiter + last;
      assert name[|parent| + |delimiter|..] == last;
    }
  }

  /** Where a folder is attached: under its parent if that is listed too, else among the roots. */
  function AttachedTo(names: seq<string>, delimiter: Separator, name: string): Option<string> {
    match ParentName(name, delimiter)
    case Some(parent) => if parent in names then Some(parent) else None
    case None => None
  }

  lemma PrefixEnd(parent: string, c: char, name: string)
    ensures parent + [c] <= name <==> |parent| < |name| && name[|parent|] == c && parent == name[..|parent|]
  {
    if |parent| < |name| && name[|parent|] == c && parent == name[..|parent|] {
      assert name[..|parent| + 1] == name[..|parent|] + [name[|parent|]];
    }
  }

  lemma InTail(name: string, c: char, i: nat, j: nat)
    ensures i < j < |name| && name[j] == c ==> c in name[i + 1..]
  {
    if i < j < |name| { assert name[i + 1..][j - i - 1] == name[j]; }
  }

  lemma ContainsChar(s: string, c: char)
    ensures Contains(s, [c]) <==> c in s
  {
    forall i: nat ensures OccursAt(s, [c], i) <==> i < |s| && s[i] == c { OccursAtChar(s, c, i); }
    if c in s {
      var i: nat :| i < |s| && s[i] == c;
      assert OccursAt(s, [c], i);
    }
  }

  /** With a delimiter of one character: attached to what is listed under the name before the last delimiter. */
  lemma AttachedExactly(names: seq<string>, c: char, name: string, parent: string)
    ensures AttachedTo(names, [c], name) == Some(parent) <==>
      parent in names && parent + [c] <= name && c !in name[|parent| + 1..]
  {
    ParentEndsAtLast(name, [c]);
    PrefixEnd(parent, c, name);
    match ParentName(name, [c])
    case None => ContainsChar(name, c);
    case Some(p) =>
      OccursAtChar(name, c, |p|);
      ContainsChar(name[|p| + 1..], c);
      PrefixEnd(p, c, name);
      InTail(name, c, |p|, |parent|);
      InTail(name, c, |parent|, |p|);
  }

  /** The listed names, and for each the name it is attached to. */
  datatype Hierarchy = Hierarchy(names: seq<string>, attach: string -> Option<string>)
  {
    ghost predicate Valid() {
      forall x :: attach(x).Some? ==> attach(x).value in names && |attach(x).value| < |x|
    }
  }

  function HierarchyOf(names: seq<string>, delimiter: Separator): Hierarchy {
    Hierarchy(names, (name: string) => AttachedTo(names, delimiter, name))
  }

  lemma HierarchyIsValid(names: seq<string>, delimiter: Separator)
    ensures HierarchyOf(names, delimiter).Valid()
  {
    forall x: string { ParentShorter(x, delimiter); }
  }

  /** The folders among the first k that are attached at `at`, in list order. */
  function Under(h: Hierarchy, at: Option<string>, k: nat): seq<string>
    requires k <= |h.names|
  {
    if k == 0 then []
    else Under(h, at, k - 1) + (if h.attach(h.names[k - 1]) == at then [h.names[k - 1]] else [])
  }

  function Kids(h: Hierarchy, at: Option<string>): seq<string> {
    Under(h, at, |h.names|)
  }

  lemma {:induction false} UnderMembers(h: Hierarchy, at: Option<string>, k: nat, x: string)
    requires k <= |h.names|
    ensures x in Under(h, at, k) <==> x in h.names[..k] && h.attach(x) == at
  {
    if k > 0 {
      UnderMembers(h, at, k - 1, x);
      assert h.names[..k] == h.names[..k - 1] + [h.names[k - 1]];
    }
  }

  /** `above` is `name` or one of the folders over it. */
  ghost predicate OnChain(h: Hierarchy, above: string, name: string)
    requires h.Valid()
    decreases |name|
  {
    name == above || (h.attach(name).Some? && OnChain(h, above, h.attach(name).value))
  }

  // ---- Comparator ----

  const STANDARD_ORDER: seq<string> := ["INBOX", "DRAFTS", "SENT", "TRASH", "JUNK", "ARCHIVE"]

  function IndexIn(order: seq<string>, name: string): (i: int)
    ensures i == -1 <==> name !in order
    ensures i != -1 ==> 0 <= i < |order| && order[i] == name
  {
    if order == [] then -1
    else if order[|order| - 1] == name then |order| - 1
    else IndexIn(order[..|order| - 1], name)
  }

  /** Standard folders first in their fixed order, then the others by upper-cased name. */
  predicate NameLess(iName: string, jName: string) {
    var i, j := IndexIn(STANDARD_ORDER, iName), IndexIn(STANDARD_ORDER, jName);
    if i != -1 && j != -1 then i < j
    else if i != -1 then true
    else if j != -1 then false
    else StringLess(iName, jName)
  }

  function Less(upper: string -> string): (FolderTreeNode, FolderTreeNode) -> bool {
    (x: FolderTreeNode, y: FolderTreeNode) => NameLess(upper(x.folder.name), upper(y.folder.name))
  }

  /** The comparator's own loop over the standard names. */
  method CompareNames(iName: string, jName: string) returns (less: bool)
    ensures less == NameLess(iName, jName)
  {
    var order := STANDARD_ORDER;
    var iIndex, jIndex := -1, -1;
    var idx := 0;
    while idx < |order|
      invariant 0 <= idx <= |order|
      invariant iIndex == IndexIn(order[..idx], iName) && jIndex == IndexIn(order[..idx], jName)
    {
      assert order[..idx + 1][..idx] == order[..idx];
      if iName == order[idx] { iIndex := idx; }
      if jName == order[idx] { jIndex := idx; }
      idx := idx + 1;
    }
    assert order[..|order|] == order;
    if iIndex != -1 && jIndex == -1 {
      return true;
    }
    if iIndex == -1 && jIndex != -1 {
      return false;
    }
    if iIndex != -1 && jIndex != -1 {
      return iIndex < jIndex;
    }
    less := StringLess(iName, jName);
  }

  lemma NameLessWeak(x: string, y: string, z: string)
    ensures !(NameLess(x, y) && NameLess(y, x))
    ensures NameLess(x, z) ==> NameLess(x, y) || NameLess(y, z)
  {
    StringLessTotal(x, y);
    if StringLess(x, z) { StringLessWeak(x, y, z); }
  }

  /** The comparator is what sort.Slice needs, whatever ToUpper does. */
  lemma LessIsWeakOrder(upper: string -> string, nodes: seq<FolderTreeNode>)
    ensures StrictWeakOn(Less(upper), nodes)
  {
    var less := Less(upper);
    forall x, y | x in nodes && y in nodes ensures less(x, y) ==> !less(y, x) {
      NameLessWeak(upper(x.folder.name), upper(y.folder.name), "");
    }
    forall x, y, z | x in nodes && y in nodes && z in nodes ensures less(x, z) ==> less(x, y) || less(y, z) {
      NameLessWeak(upper(x.folder.name), upper(y.folder.name), upper(z.folder.name));
    }
  }

  // ---- What the order is ----

  /** The place of a standard folder, by its upper-cased name. */
  function Rank(name: string): Option<nat> {
    if name == "INBOX" then Some(0)
    else if name == "DRAFTS" then Some(1)
    else if name == "SENT" then Some(2)
    else if name == "TRASH" then Some(3)
    else if name == "JUNK" then Some(4)
    else if name == "ARCHIVE" then Some(5)
    else None
  }

  /** Of two siblings, the second is no standard folder before which the first must not stand, and no smaller name. */
  ghost predicate MayFollow(first: string, second: string) {
    match (Rank(first), Rank(second))
    case (Some(i), Some(j)) => i <= j
    case (Some(_), None) => true
    case (None, Some(_)) => false
    case (None, None) => !IsBelow(second, first)
  }

  /** The standard folders first, in their order, and the others by the code points of their names. */
  ghost predicate InFolderOrder(names: seq<string>) {
    forall i, j | 0 <= i < j < |names| :: MayFollow(names[i], names[j])
  }

  function UpperTitles(upper: string -> string, nodes: seq<FolderTreeNode>): (names: seq<string>)
    ensures |names| == |nodes|
  {
    seq(|nodes|, i requires 0 <= i < |nodes| => upper(nodes[i].folder.name))
  }

  lemma RankIsIndex(name: string)
    ensures IndexIn(STANDARD_ORDER, name) == match Rank(name) case None => -1 case Some(i) => i
  {
  }

  lemma NameLessExactly(x: string, y: string)
    ensures NameLess(y, x) <==> !MayFollow(x, y)
  {
    RankIsIndex(x);
    RankIsIndex(y);
    StringLessExactly(y, x);
  }

  /** Being sorted by the comparator is that order. */
  lemma SortedExactly(upper: string -> string, nodes: seq<FolderTreeNode>)
    ensures SortedBy(Less(upper), nodes) <==> InFolderOrder(UpperTitles(upper, nodes))
  {
    var names := UpperTitles(upper, nodes);
    forall i, j | 0 <= i < j < |nodes| ensures !Less(upper)(nodes[j], nodes[i]) <==> MayFollow(names[i], names[j]) {
      NameLessExactly(names[i], names[j]);
    }
  }

  // ---- Building the forest ----

  /** The record that a name stands for: the last one listed. */
  function Record(folders: seq<FolderInfo>, name: string): Option<FolderInfo> {
    if folders == [] then None
    else if folders[|folders| - 1].name == name then Some(folders[|folders| - 1])
    else Record(folders[..|folders| - 1], name)
  }

  /** No later record has the name. */
  ghost predicate IsLastRecord(folders: seq<FolderInfo>, k: nat, name: string) {
    k < |folders| && folders[k].name == name && forall j | k < j < |folders| :: folders[j].name != name
  }

  lemma {:induction false} RecordIsLast(folders: seq<FolderInfo>, name: string)
    ensures match Record(folders, name)
      case Some(f) => exists k: nat :: IsLastRecord(folders, k, name) && folders[k] == f
      case None => forall k | 0 <= k < |folders| :: folders[k].name != name
  {
    if folders != [] {
      var before, last := folders[..|folders| - 1], |folders| - 1;
      if folders[last].name == name {
        assert IsLastRecord(folders, last, name);
      } else {
        RecordIsLast(before, name);
        if Record(before, name).Some? {
          var k: nat :| IsLastRecord(before, k, name) && before[k] == Record(before, name).value;
          assert IsLastRecord(folders, k, name);
        }
      }
    }
  }

  function Titles(nodes: seq<FolderTreeNode>): (names: seq<string>)
    ensures |names| == |nodes|
  {
    seq(|nodes|, i requires 0 <= i < |nodes| => nodes[i].folder.name)
  }

  /** Each name leads to the node of its own record. */
  ghost predicate Indexed(m: map<string, FolderTreeNode>, folders: seq<FolderInfo>) {
    && (forall n :: n in m <==> n in Names(folders))
    && forall n | n in m :: Record(folders, n) == Some(m[n].folder) && m[n].folder.name == n
  }

  method IndexFolders(folders: seq<FolderInfo>) returns (folderMap: map<string, FolderTreeNode>)
    ensures Indexed(folderMap, folders)
    ensures forall n | n in folderMap :: fresh(folderMap[n])
    ensures forall n | n in folderMap :: folderMap[n].children == [] && folderMap[n].path == n
  {
    folderMap := map[];
    var k := 0;
    while k < |folders|
      invariant 0 <= k <= |folders|
      invariant Indexed(folderMap, folders[..k])
      invariant forall n | n in folderMap :: fresh(folderMap[n])
      invariant forall n | n in folderMap :: folderMap[n].children == [] && folderMap[n].path == n
    {
      var node := new FolderTreeNode(folders[k]);
      IndexedExtends(folderMap, folders, k, node);
      folderMap := folderMap[folders[k].name := node];
      k := k + 1;
    }
    assert folders[..k] == folders;
  }

  lemma IndexedExtends(m: map<string, FolderTreeNode>, folders: seq<FolderInfo>, k: nat, node: FolderTreeNode)
    requires k < |folders| && Indexed(m, folders[..k]) && node.folder == folders[k]
    ensures Indexed(m[folders[k].name := node], folders[..k + 1])
  {
    var now := folders[..k + 1];
    assert now[..k] == folders[..k];
    assert Names(now) == Names(folders[..k]) + [folders[k].name];
  }

  method FindDelimiter(folders: seq<FolderInfo>) returns (delimiter: Separator)
    ensures delimiter == DelimiterOf(folders)
  {
    delimiter := "/";
    var k := 0;
    while k < |folders|
      invariant 0 <= k <= |folders|
      invariant DelimiterOf(folders) == DelimiterOf(folders[k..])
      invariant delimiter == "/"
    {
      assert folders[k..][0] == folders[k] && folders[k..][1..] == folders[k + 1..];
      if folders[k].delimiter != "" && folders[k].delimiter != " " {
        delimiter := folders[k].delimiter;
        break;
      }
      k := k + 1;
    }
  }

  /** Every node in the map, and every child of one, is the map's node for its own name. */
  ghost predicate Owned(m: map<string, FolderTreeNode>, node: FolderTreeNode) {
    node.folder.name in m && m[node.folder.name] == node
  }

  ghost predicate Closed(m: map<string, FolderTreeNode>)
    reads m.Values
  {
    && (forall n | n in m :: Owned(m, m[n]) && m[n].folder.name == n)
    && (forall n | n in m :: forall c | c in m[n].children :: Owned(m, c))
  }

  /** The names of the children of every node in the map. */
  ghost function Links(m: map<string, FolderTreeNode>): (links: map<string, seq<string>>)
    reads m.Values
  {
    map n | n in m :: Titles(m[n].children)
  }

  /** What the links are after the first k folders: the children of each node in list order. */
  ghost function LinksAfter(h: Hierarchy, keys: set<string>, k: nat): map<string, seq<string>>
    requires k <= |h.names|
  {
    map n | n in keys :: Under(h, Some(n), k)
  }

  function AddLink(links: map<string, seq<string>>, at: Option<string>, name: string): map<string, seq<string>> {
    if at.Some? && at.value in links then links[at.value := links[at.value] + [name]] else links
  }

  /** Folder k goes at the end of the list it is attached to, and no other list changes. */
  lemma LinksAfterStep(h: Hierarchy, keys: set<string>, k: nat)
    requires k < |h.names|
    ensures LinksAfter(h, keys, k + 1) == AddLink(LinksAfter(h, keys, k), h.attach(h.names[k]), h.names[k])
  {
    forall n | n in keys
      ensures LinksAfter(h, keys, k + 1)[n]
        == AddLink(LinksAfter(h, keys, k), h.attach(h.names[k]), h.names[k])[n]
    {
    }
  }

  /** One pass of the linking loop: appends folder k to its parent's children, or reports a root. */
  method AttachFolder(names: seq<string>, delimiter: Separator, folderMap: map<string, FolderTreeNode>, k: nat)
    returns (root: bool)
    requires k < |names| && Closed(folderMap) && forall x :: x in names <==> x in folderMap
    modifies folderMap.Values
    ensures root == AttachedTo(names, delimiter, names[k]).None? && Closed(folderMap)
    ensures Links(folderMap) == AddLink(old(Links(folderMap)), AttachedTo(names, delimiter, names[k]), names[k])
  {
    var name := names[k];
    var parts := Split(name, delimiter);
    if |parts| > 1 {
      var parentName := Join(parts[..|parts| - 1], delimiter);
      if parentName in folderMap {
        Append(folderMap, parentName, folderMap[name]);
        return false;
      }
    }
    root := true;
  }

  method Append(m: map<string, FolderTreeNode>, at: string, node: FolderTreeNode)
    requires Closed(m) && at in m && Owned(m, node)
    modifies m.Values
    ensures Closed(m)
    ensures Links(m) == AddLink(old(Links(m)), Some(at), node.folder.name)
  {
    var parent := m[at];
    assert parent in m.Values;
    parent.children := parent.children + [node];
    assert Titles(parent.children) == Titles(old(parent.children)) + [node.folder.name];
  }

  /** The links and the roots are those of the first k folders. */
  ghost predicate LinkedUpTo(h: Hierarchy, m: map<string, FolderTreeNode>, roots: seq<FolderTreeNode>, k: nat)
    reads m.Values
  {
    && k <= |h.names| && Closed(m) && (forall c | c in roots :: Owned(m, c))
    && Links(m) == LinksAfter(h, m.Keys, k) && Titles(roots) == Under(h, None, k)
  }

  method LinkFolder(names: seq<string>, delimiter: Separator, folderMap: map<string, FolderTreeNode>,
                    rootFolders: seq<FolderTreeNode>, k: nat)
    returns (roots: seq<FolderTreeNode>)
    requires k < |names| && forall x :: x in names <==> x in folderMap
    requires LinkedUpTo(HierarchyOf(names, delimiter), folderMap, rootFolders, k)
    modifies folderMap.Values
    ensures LinkedUpTo(HierarchyOf(names, delimiter), folderMap, roots, k + 1)
  {
    LinksAfterStep(HierarchyOf(names, delimiter), folderMap.Keys, k);
    roots := rootFolders;
    var root := AttachFolder(names, delimiter, folderMap, k);
    if root {
      roots := roots + [folderMap[names[k]]];
    }
  }

  method LinkFolders(names: seq<string>, delimiter: Separator, folderMap: map<string, FolderTreeNode>)
    returns (rootFolders: seq<FolderTreeNode>)
    requires forall x :: x in names <==> x in folderMap
    requires LinkedUpTo(HierarchyOf(names, delimiter), folderMap, [], 0)
    modifies folderMap.Values
    ensures LinkedUpTo(HierarchyOf(names, delimiter), folderMap, rootFolders, |names|)
  {
    rootFolders := [];
    var k := 0;
    while k < |names|
      invariant 0 <= k <= |names|
      invariant LinkedUpTo(HierarchyOf(names, delimiter), folderMap, rootFolders, k)
    {
      rootFolders := LinkFolder(names, delimiter, folderMap, rootFolders, k);
      k := k + 1;
    }
  }

  // ---- Sorting it in place ----

  type Order = (FolderTreeNode, FolderTreeNode) -> bool

  /** Every node's children as they are in the heap now. */
  ghost function Children(m: map<string, FolderTreeNode>): (t: map<string, seq<FolderTreeNode>>)
    reads m.Values
    ensures t.Keys == m.Keys
  {
    map n | n in m :: m[n].children
  }

  /** Each node has exactly the children its name entitles it to, in some order. */
  ghost predicate Forest(h: Hierarchy, m: map<string, FolderTreeNode>, t: map<string, seq<FolderTreeNode>>) {
    && t.Keys == m.Keys
    && (forall n | n in m :: m[n].folder.name == n)
    && (forall n | n in t :: multiset(Titles(t[n])) == multiset(Kids(h, Some(n))))
    && (forall n | n in t :: forall c | c in t[n] :: Owned(m, c))
  }

  /** Every list of children changed so far is in order. */
  ghost predicate Settled(less: Order, t0: map<string, seq<FolderTreeNode>>, t: map<string, seq<FolderTreeNode>>) {
    t.Keys == t0.Keys && forall n | n in t :: t[n] == t0[n] || SortedBy(less, t[n])
  }

  /** The children of x and of every folder below it are in order. */
  ghost predicate Arranged(less: Order, h: Hierarchy, t: map<string, seq<FolderTreeNode>>, x: string)
    requires h.Valid()
  {
    forall n | n in t && OnChain(h, x, n) :: SortedBy(less, t[n])
  }

  lemma SettledTwice(less: Order, t0: map<string, seq<FolderTreeNode>>, t1: map<string, seq<FolderTreeNode>>,
                     t2: map<string, seq<FolderTreeNode>>)
    requires Settled(less, t0, t1) && Settled(less, t1, t2)
    ensures Settled(less, t0, t2)
  {
  }

  ghost predicate ArrangedAll(less: Order, h: Hierarchy, t: map<string, seq<FolderTreeNode>>,
                              nodes: seq<FolderTreeNode>)
    requires h.Valid()
  {
    forall c | c in nodes :: Arranged(less, h, t, c.folder.name)
  }

  /** Sorting one more node keeps what was already in order. */
  lemma ArrangedMore(less: Order, h: Hierarchy, t0: map<string, seq<FolderTreeNode>>,
                     t: map<string, seq<FolderTreeNode>>, nodes: seq<FolderTreeNode>, k: nat)
    requires h.Valid() && k < |nodes| && Settled(less, t0, t) && ArrangedAll(less, h, t0, nodes[..k])
    requires Arranged(less, h, t, nodes[k].folder.name)
    ensures ArrangedAll(less, h, t, nodes[..k + 1])
  {
    assert nodes[..k + 1] == nodes[..k] + [nodes[k]];
    forall c | c in nodes[..k] ensures Arranged(less, h, t, c.folder.name) {
      assert Arranged(less, h, t0, c.folder.name);
    }
  }

  /** Below x means x itself or below one of its children. */
  lemma {:induction false} ChainStep(h: Hierarchy, x: string, n: string) returns (z: string)
    requires h.Valid() && OnChain(h, x, n) && n != x
    ensures h.attach(z) == Some(x) && OnChain(h, z, n)
    ensures n in h.names ==> z in h.names
    decreases |n|
  {
    var up := h.attach(n).value;
    if up == x {
      z := n;
    } else {
      z := ChainStep(h, x, up);
    }
  }

  /** A listed folder that is attached at `at` is one of the nodes there. */
  lemma ChildPresent(h: Hierarchy, nodes: seq<FolderTreeNode>, at: Option<string>, z: string)
    returns (c: FolderTreeNode)
    requires multiset(Titles(nodes)) == multiset(Kids(h, at))
    requires z in h.names && h.attach(z) == at
    ensures c in nodes && c.folder.name == z
  {
    assert h.names[..|h.names|] == h.names;
    UnderMembers(h, at, |h.names|, z);
    assert z in multiset(Kids(h, at));
    assert z in Titles(nodes);
    var i :| 0 <= i < |nodes| && Titles(nodes)[i] == z;
    c := nodes[i];
  }

  /** Every listed folder is below some root. */
  lemma {:induction false} RootAbove(h: Hierarchy, n: string) returns (r: string)
    requires h.Valid() && n in h.names
    ensures r in h.names && h.attach(r) == None && OnChain(h, r, n)
    decreases |n|
  {
    match h.attach(n)
    case None => r := n;
    case Some(up) => r := RootAbove(h, up);
  }

  lemma ChildBelongs(h: Hierarchy, m: map<string, FolderTreeNode>, t: map<string, seq<FolderTreeNode>>, x: string,
                     c: FolderTreeNode)
    requires Forest(h, m, t) && x in t && c in t[x]
    ensures c.folder.name in h.names && h.attach(c.folder.name) == Some(x)
  {
    var i :| 0 <= i < |t[x]| && t[x][i] == c;
    assert Titles(t[x])[i] in multiset(Titles(t[x]));
    assert c.folder.name in Kids(h, Some(x));
    UnderMembers(h, Some(x), |h.names|, c.folder.name);
    assert h.names[..|h.names|] == h.names;
  }

  lemma TitlesConcat(a: seq<FolderTreeNode>, b: seq<FolderTreeNode>)
    ensures Titles(a + b) == Titles(a) + Titles(b)
  {
  }

  lemma {:induction false} TitlesPermute(a: seq<FolderTreeNode>, b: seq<FolderTreeNode>)
    requires multiset(a) == multiset(b)
    ensures multiset(Titles(a)) == multiset(Titles(b))
    decreases |a|
  {
    if a == [] {
      assert |multiset(b)| == |b|;
    } else {
      var x, y := TakeOut(a, b);
      TitlesPermute(a[1..], x + y);
      TitlesConcat([a[0]], a[1..]);
      assert a == [a[0]] + a[1..];
      TitlesConcat(x + [a[0]], y);
      TitlesConcat(x, [a[0]]);
      TitlesConcat(x, y);
    }
  }

  /** Once a node's own list is in order and everything below its children is, all of it is. */
  lemma NodeArranged(less: Order, h: Hierarchy, t: map<string, seq<FolderTreeNode>>, x: string,
                     sorted: seq<FolderTreeNode>)
    requires h.Valid() && x in t && (forall n | n in t :: n in h.names)
    requires SortedBy(less, sorted) && multiset(Titles(sorted)) == multiset(Kids(h, Some(x)))
    requires ArrangedAll(less, h, t, sorted)
    ensures Arranged(less, h, t[x := sorted], x)
  {
    forall n | n in t && OnChain(h, x, n) ensures SortedBy(less, t[x := sorted][n]) {
      if n != x {
        var z := ChainStep(h, x, n);
        var c := ChildPresent(h, sorted, Some(x), z);
      }
    }
  }

  lemma NodeForest(h: Hierarchy, m: map<string, FolderTreeNode>, t: map<string, seq<FolderTreeNode>>, x: string,
                   sorted: seq<FolderTreeNode>)
    requires Forest(h, m, t) && x in t && multiset(Titles(sorted)) == multiset(Kids(h, Some(x)))
    requires forall c | c in sorted :: Owned(m, c)
    ensures Forest(h, m, t[x := sorted])
  {
  }

  lemma NodeSettled(less: Order, t0: map<string, seq<FolderTreeNode>>, t: map<string, seq<FolderTreeNode>>, x: string,
                    sorted: seq<FolderTreeNode>)
    requires Settled(less, t0, t) && x in t && SortedBy(less, sorted)
    ensures Settled(less, t0, t[x := sorted])
  {
  }

  /** sort.Slice on the nodes themselves. */
  method SortSlice(nodes: seq<FolderTreeNode>, upper: string -> string) returns (sorted: seq<FolderTreeNode>)
    ensures multiset(sorted) == multiset(nodes) && SortedBy(Less(upper), sorted)
    ensures multiset(Titles(sorted)) == multiset(Titles(nodes))
    ensures forall c :: c in sorted <==> c in nodes
  {
    sorted := SortBy(Less(upper), nodes);
    LessIsWeakOrder(upper, nodes);
    SortBySorts(Less(upper), nodes);
    TitlesPermute(sorted, nodes);
  }

  lemma ChildrenLonger(h: Hierarchy, m: map<string, FolderTreeNode>, t: map<string, seq<FolderTreeNode>>, x: string)
    requires h.Valid() && Forest(h, m, t) && x in t
    ensures forall c | c in t[x] :: Owned(m, c) && |x| < |c.folder.name|
  {
    forall c | c in t[x] ensures Owned(m, c) && |x| < |c.folder.name| {
      ChildBelongs(h, m, t, x, c);
    }
  }

  method SetChildren(ghost m: map<string, FolderTreeNode>, node: FolderTreeNode, sorted: seq<FolderTreeNode>)
    requires Owned(m, node) && forall n | n in m :: m[n].folder.name == n
    modifies node
    ensures Children(m) == old(Children(m))[node.folder.name := sorted]
  {
    node.children := sorted;
  }

  /** Sorts one node's children and everything below them. */
  method SortNode(node: FolderTreeNode, upper: string -> string, ghost h: Hierarchy,
                  ghost m: map<string, FolderTreeNode>, ghost bound: nat)
    requires h.Valid() && Owned(m, node) && Forest(h, m, Children(m))
    requires forall n | n in m :: n in h.names && |n| <= bound
    modifies m.Values
    ensures Forest(h, m, Children(m))
    ensures Settled(Less(upper), old(Children(m)), Children(m))
    ensures Arranged(Less(upper), h, Children(m), node.folder.name)
    decreases bound - |node.folder.name|, 1
  {
    ghost var x := node.folder.name;
    ChildrenLonger(h, m, Children(m), x);
    var sorted := SortFolderTree(node.children, upper, h, m, |x|, bound);
    ghost var t := Children(m);
    NodeArranged(Less(upper), h, t, x, sorted);
    NodeForest(h, m, t, x, sorted);
    NodeSettled(Less(upper), old(Children(m)), t, x, sorted);
    SetChildren(m, node, sorted);
  }

  method SortFolderTree(nodes: seq<FolderTreeNode>, upper: string -> string, ghost h: Hierarchy,
                        ghost m: map<string, FolderTreeNode>, ghost over: int, ghost bound: nat)
    returns (sorted: seq<FolderTreeNode>)
    requires h.Valid() && Forest(h, m, Children(m))
    requires forall n | n in m :: n in h.names && |n| <= bound
    requires forall c | c in nodes :: Owned(m, c) && over < |c.folder.name|
    modifies m.Values
    ensures SortedBy(Less(upper), sorted) && multiset(Titles(sorted)) == multiset(Titles(nodes))
    ensures forall c :: c in sorted <==> c in nodes
    ensures Forest(h, m, Children(m))
    ensures Settled(Less(upper), old(Children(m)), Children(m))
    ensures ArrangedAll(Less(upper), h, Children(m), sorted)
    decreases bound - over, 0
  {
    sorted := SortSlice(nodes, upper);
    var i := 0;
    while i < |sorted|
      invariant 0 <= i <= |sorted|
      invariant Forest(h, m, Children(m))
      invariant Settled(Less(upper), old(Children(m)), Children(m))
      invariant ArrangedAll(Less(upper), h, Children(m), sorted[..i])
    {
      ghost var t := Children(m);
      SortNode(sorted[i], upper, h, m, bound);
      ArrangedMore(Less(upper), h, t, Children(m), sorted, i);
      SettledTwice(Less(upper), old(Children(m)), t, Children(m));
      i := i + 1;
    }
    assert sorted[..|sorted|] == sorted;
  }

  /** Every list of siblings in the forest is in comparator order. */
  ghost predicate AllSorted(less: Order, t: map<string, seq<FolderTreeNode>>) {
    forall n | n in t :: SortedBy(less, t[n])
  }

  lemma RootsCoverAll(less: Order, h: Hierarchy, t: map<string, seq<FolderTreeNode>>, roots: seq<FolderTreeNode>)
    requires h.Valid() && (forall n | n in t :: n in h.names)
    requires multiset(Titles(roots)) == multiset(Kids(h, None))
    requires ArrangedAll(less, h, t, roots)
    ensures AllSorted(less, t)
  {
    forall n | n in t ensures SortedBy(less, t[n]) {
      var r := RootAbove(h, n);
      var c := ChildPresent(h, roots, None, r);
    }
  }

  /** What linking established is the forest the sort starts from. */
  lemma LinkedIsForest(h: Hierarchy, m: map<string, FolderTreeNode>, roots: seq<FolderTreeNode>)
    requires LinkedUpTo(h, m, roots, |h.names|)
    ensures Forest(h, m, Children(m)) && Titles(roots) == Kids(h, None)
  {
    forall n | n in m ensures Titles(Children(m)[n]) == Kids(h, Some(n)) {
      assert Links(m)[n] == LinksAfter(h, m.Keys, |h.names|)[n];
    }
  }

  lemma LongestName(names: seq<string>) returns (bound: nat)
    ensures forall n | n in names :: |n| <= bound
  {
    bound := 0;
    for i := 0 to |names|
      invariant forall n | n in names[..i] :: |n| <= bound
    {
      if |names[i]| > bound { bound := |names[i]|; }
    }
    assert names[..|names|] == names;
  }

  method LinkAndSort(names: seq<string>, delimiter: Separator, upper: string -> string,
                     folderMap: map<string, FolderTreeNode>)
    returns (roots: seq<FolderTreeNode>)
    requires forall x :: x in names <==> x in folderMap
    requires LinkedUpTo(HierarchyOf(names, delimiter), folderMap, [], 0)
    modifies folderMap.Values
    ensures Forest(HierarchyOf(names, delimiter), folderMap, Children(folderMap))
    ensures multiset(Titles(roots)) == multiset(Kids(HierarchyOf(names, delimiter), None))
    ensures SortedBy(Less(upper), roots) && AllSorted(Less(upper), Children(folderMap))
    ensures forall c | c in roots :: Owned(folderMap, c)
  {
    ghost var h := HierarchyOf(names, delimiter);
    HierarchyIsValid(names, delimiter);
    ghost var bound := LongestName(names);
    var rootFolders := LinkFolders(names, delimiter, folderMap);
    LinkedIsForest(h, folderMap, rootFolders);
    roots := SortFolderTree(rootFolders, upper, h, folderMap, -1, bound);
    RootsCoverAll(Less(upper), h, Children(folderMap), roots);
  }

  /**
    The whole function. The ghost result is the name map, through which the children of every node are known:
    they are exactly the folders its name is the parent of. Among siblings the standard folders come first.
   */
  method BuildFolderTree(folders: seq<FolderInfo>, upper: string -> string)
    returns (roots: seq<FolderTreeNode>, ghost nodes: map<string, FolderTreeNode>)
    ensures Indexed(nodes, folders) && forall n | n in nodes :: fresh(nodes[n])
    ensures Forest(HierarchyOf(Names(folders), DelimiterOf(folders)), nodes, Children(nodes))
    ensures multiset(Titles(roots)) == multiset(Kids(HierarchyOf(Names(folders), DelimiterOf(folders)), None))
    ensures InFolderOrder(UpperTitles(upper, roots))
    ensures forall n | n in nodes :: InFolderOrder(UpperTitles(upper, nodes[n].children))
    ensures forall c | c in roots :: Owned(nodes, c)
  {
    if |folders| == 0 {
      return [], map[];
    }
    var folderMap := IndexFolders(folders);
    var delimiter := FindDelimiter(folders);
    roots := LinkAndSort(Names(folders), delimiter, upper, folderMap);
    nodes := folderMap;
    SortedExactly(upper, roots);
    forall n | n in nodes ensures InFolderOrder(UpperTitles(upper, nodes[n].children)) {
      assert SortedBy(Less(upper), Children(nodes)[n]);
      SortedExactly(upper, nodes[n].children);
    }
  }
}
