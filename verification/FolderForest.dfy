/** From the flat list of mail folders to a forest, and the three-valued
    selection of its subtrees. */
module FolderForest {

  import opened Options

  type FolderId = string

  datatype Folder = Folder(id: FolderId, parent: Option<FolderId>)

  datatype Tree = Tree(id: FolderId, children: seq<Tree>)

  // ---- Linking ----

  ghost predicate UniqueIds(folders: seq<Folder>) {
    forall i, j :: 0 <= i < j < |folders| ==> folders[i].id != folders[j].id
  }

  predicate Listed(folders: seq<Folder>, id: FolderId) {
    exists i :: 0 <= i < |folders| && folders[i].id == id
  }

  predicate ChildOf(folders: seq<Folder>, p: FolderId, f: FolderId) {
    Folder(f, Some(p)) in folders && Listed(folders, p)
  }

  /** A folder whose parent is not listed, or that has none, is a root. */
  predicate IsRoot(folders: seq<Folder>, f: FolderId) {
    exists i :: 0 <= i < |folders| && folders[i].id == f
                && (folders[i].parent == None || !Listed(folders, folders[i].parent.value))
  }

  /** Every list holds exactly its folders, each once. */
  ghost predicate Linked(folders: seq<Folder>, children: map<FolderId, seq<FolderId>>, roots: seq<FolderId>) {
    && (forall p :: p in children <==> Listed(folders, p))
    && (forall f :: multiset(roots)[f] == if IsRoot(folders, f) then 1 else 0)
    && (forall p, f :: p in children ==> multiset(children[p])[f] == if ChildOf(folders, p, f) then 1 else 0)
  }

  /** The state of the linking loop after n folders. */
  ghost predicate LinkedUpTo(folders: seq<Folder>, n: nat, children: map<FolderId, seq<FolderId>>, roots: seq<FolderId>)
    requires n <= |folders|
  {
    && (forall p :: p in children <==> Listed(folders, p))
    && (forall f :: multiset(roots)[f] == if Listed(folders[..n], f) && IsRoot(folders, f) then 1 else 0)
    && (forall p, f :: p in children ==>
          multiset(children[p])[f] == if Listed(folders[..n], f) && ChildOf(folders, p, f) then 1 else 0)
  }

  lemma ListedNext(folders: seq<Folder>, n: nat, f: FolderId)
    requires n < |folders|
    ensures Listed(folders[..n + 1], f) <==> Listed(folders[..n], f) || folders[n].id == f
  {
  }

  /** One more folder: it goes to the end of its parent's list, or of the
      roots. */
  function AddChild(children: map<FolderId, seq<FolderId>>, f: Folder): map<FolderId, seq<FolderId>> {
    if f.parent.Some? && f.parent.value in children
    then children[f.parent.value := children[f.parent.value] + [f.id]]
    else children
  }

  function AddRoot(children: map<FolderId, seq<FolderId>>, roots: seq<FolderId>, f: Folder): seq<FolderId> {
    if f.parent.Some? && f.parent.value in children then roots else roots + [f.id]
  }

  lemma RootsNext(folders: seq<Folder>, n: nat, children: map<FolderId, seq<FolderId>>, roots: seq<FolderId>,
                  f: FolderId)
    requires UniqueIds(folders) && n < |folders| && LinkedUpTo(folders, n, children, roots)
    ensures multiset(AddRoot(children, roots, folders[n]))[f]
         == if Listed(folders[..n + 1], f) && IsRoot(folders, f) then 1 else 0
  {
    Sole(folders, n);
    ListedNext(folders, n, f);
    assert multiset(roots + [folders[n].id])[f] == multiset(roots)[f] + if f == folders[n].id then 1 else 0;
  }

  lemma ChildrenNext(folders: seq<Folder>, n: nat, children: map<FolderId, seq<FolderId>>, roots: seq<FolderId>,
                     p: FolderId, f: FolderId)
    requires UniqueIds(folders) && n < |folders| && LinkedUpTo(folders, n, children, roots)
    requires p in children
    ensures multiset(AddChild(children, folders[n])[p])[f]
         == if Listed(folders[..n + 1], f) && ChildOf(folders, p, f) then 1 else 0
  {
    Sole(folders, n);
    ListedNext(folders, n, f);
    assert multiset(children[p] + [folders[n].id])[f] == multiset(children[p])[f] + if f == folders[n].id then 1 else 0;
  }

  lemma LinkNext(folders: seq<Folder>, n: nat, children: map<FolderId, seq<FolderId>>, roots: seq<FolderId>)
    requires UniqueIds(folders) && n < |folders| && LinkedUpTo(folders, n, children, roots)
    ensures LinkedUpTo(folders, n + 1, AddChild(children, folders[n]), AddRoot(children, roots, folders[n]))
  {
    forall f: FolderId
      ensures multiset(AddRoot(children, roots, folders[n]))[f]
           == if Listed(folders[..n + 1], f) && IsRoot(folders, f) then 1 else 0
    {
      RootsNext(folders, n, children, roots, f);
    }
    forall p, f | p in children
      ensures multiset(AddChild(children, folders[n])[p])[f]
           == if Listed(folders[..n + 1], f) && ChildOf(folders, p, f) then 1 else 0
    {
      ChildrenNext(folders, n, children, roots, p, f);
    }
  }

  lemma Sole(folders: seq<Folder>, n: nat)
    requires UniqueIds(folders) && n < |folders|
    ensures !Listed(folders[..n], folders[n].id)
    ensures IsRoot(folders, folders[n].id) <==> folders[n].parent == None || !Listed(folders, folders[n].parent.value)
    ensures forall p :: ChildOf(folders, p, folders[n].id) <==> folders[n].parent == Some(p) && Listed(folders, p)
  {
  }

  lemma NothingLinked(folders: seq<Folder>, ids: set<FolderId>)
    requires forall p :: p in ids <==> exists f :: f in folders && f.id == p
    ensures LinkState(folders, 0, map p | p in ids :: [], [])
  {
  }

  lemma AllLinked(folders: seq<Folder>, children: map<FolderId, seq<FolderId>>, roots: seq<FolderId>)
    requires LinkedUpTo(folders, |folders|, children, roots)
    ensures Linked(folders, children, roots)
  {
  }

  /** The folders with this parent, in the order of the list. */
  function Kids(part: seq<Folder>, p: FolderId): seq<FolderId> {
    if part == [] then []
    else
      var f := part[|part| - 1];
      Kids(part[..|part| - 1], p) + if f.parent == Some(p) then [f.id] else []
  }

  /** The folders without a parent in the whole list, in its order. */
  function RootsOf(part: seq<Folder>, folders: seq<Folder>): seq<FolderId> {
    if part == [] then []
    else
      var f := part[|part| - 1];
      RootsOf(part[..|part| - 1], folders) + if f.parent.Some? && Listed(folders, f.parent.value) then [] else [f.id]
  }

  /** All lists keep the order of the folder list. */
  ghost predicate InListOrder(part: seq<Folder>, folders: seq<Folder>, children: map<FolderId, seq<FolderId>>,
                              roots: seq<FolderId>)
  {
    && (forall p :: p in children <==> Listed(folders, p))
    && roots == RootsOf(part, folders)
    && (forall p :: p in children ==> children[p] == Kids(part, p))
  }

  lemma InListOrderNext(part: seq<Folder>, f: Folder, folders: seq<Folder>, children: map<FolderId, seq<FolderId>>,
                        roots: seq<FolderId>)
    requires InListOrder(part, folders, children, roots)
    ensures InListOrder(part + [f], folders, AddChild(children, f), AddRoot(children, roots, f))
  {
    assert (part + [f])[..|part|] == part;
  }

  ghost predicate LinkState(folders: seq<Folder>, n: nat, children: map<FolderId, seq<FolderId>>,
                            roots: seq<FolderId>)
  {
    n <= |folders| && LinkedUpTo(folders, n, children, roots) && InListOrder(folders[..n], folders, children, roots)
  }

  lemma LinkStateNext(folders: seq<Folder>, n: nat, children: map<FolderId, seq<FolderId>>, roots: seq<FolderId>)
    requires UniqueIds(folders) && n < |folders| && LinkState(folders, n, children, roots)
    ensures LinkState(folders, n + 1, AddChild(children, folders[n]), AddRoot(children, roots, folders[n]))
  {
    LinkNext(folders, n, children, roots);
    InListOrderNext(folders[..n], folders[n], folders, children, roots);
    assert folders[..n + 1] == folders[..n] + [folders[n]];
  }

  lemma LinkStateEnds(folders: seq<Folder>, children: map<FolderId, seq<FolderId>>, roots: seq<FolderId>)
    requires LinkState(folders, |folders|, children, roots)
    ensures Linked(folders, children, roots) && InListOrder(folders, folders, children, roots)
  {
    AllLinked(folders, children, roots);
    assert folders[..|folders|] == folders;
  }

  method Link(folders: seq<Folder>) returns (children: map<FolderId, seq<FolderId>>, roots: seq<FolderId>)
    requires UniqueIds(folders)
    ensures Linked(folders, children, roots)
    ensures InListOrder(folders, folders, children, roots)
  {
    var ids := set f | f in folders :: f.id;
    children, roots := map p | p in ids :: [], [];
    NothingLinked(folders, ids);
    for n := 0 to |folders|
      invariant LinkState(folders, n, children, roots)
    {
      LinkStateNext(folders, n, children, roots);
      children, roots := AddChild(children, folders[n]), AddRoot(children, roots, folders[n]);
    }
    LinkStateEnds(folders, children, roots);
  }

  // ---- The forest that the lists describe ----

  /** All ids of a subtree, the parent before its children. */
  function Ids(t: Tree): seq<FolderId>
    decreases t
  {
    [t.id] + IdsOf(t.children)
  }

  function IdsOf(ts: seq<Tree>): seq<FolderId>
    decreases ts
  {
    if ts == [] then [] else IdsOf(ts[..|ts| - 1]) + Ids(ts[|ts| - 1])
  }

  function Tops(ts: seq<Tree>): seq<FolderId> {
    seq(|ts|, i requires 0 <= i < |ts| => ts[i].id)
  }

  /** Each node has the subtrees that its list says, in that order. */
  predicate Shows(t: Tree, children: map<FolderId, seq<FolderId>>)
    decreases t
  {
    && t.id in children && Tops(t.children) == children[t.id]
    && forall i :: 0 <= i < |t.children| ==> Shows(t.children[i], children)
  }

  predicate ShowsAll(ts: seq<Tree>, children: map<FolderId, seq<FolderId>>) {
    forall i :: 0 <= i < |ts| ==> Shows(ts[i], children)
  }

  lemma OneParent(folders: seq<Folder>, p: FolderId, q: FolderId, f: FolderId)
    requires UniqueIds(folders) && ChildOf(folders, p, f)
    ensures ChildOf(folders, q, f) ==> p == q
    ensures !IsRoot(folders, f)
  {
  }

  lemma CountConcat(a: seq<FolderId>, b: seq<FolderId>, f: FolderId)
    ensures multiset(a + b)[f] == multiset(a)[f] + multiset(b)[f]
  {
  }

  lemma LastTree(ts: seq<Tree>, f: FolderId)
    requires ts != []
    ensures multiset(IdsOf(ts))[f] == multiset(IdsOf(ts[..|ts| - 1]))[f] + multiset(Ids(ts[|ts| - 1]))[f]
  {
    CountConcat(IdsOf(ts[..|ts| - 1]), Ids(ts[|ts| - 1]), f);
  }

  lemma LastTop(ts: seq<Tree>, f: FolderId)
    requires ts != []
    ensures multiset(Tops(ts))[f] == multiset(Tops(ts[..|ts| - 1]))[f] + if ts[|ts| - 1].id == f then 1 else 0
  {
    var init, last := Tops(ts[..|ts| - 1]), [ts[|ts| - 1].id];
    assert Tops(ts) == init + last;
    CountConcat(init, last, f);
  }

  /** In a subtree a folder stands as often as its parent does, and once more
      if it is the top. */
  lemma {:induction false} AsOftenAsParent(folders: seq<Folder>, children: map<FolderId, seq<FolderId>>,
                                           roots: seq<FolderId>, t: Tree, p: FolderId, f: FolderId)
    requires UniqueIds(folders) && Linked(folders, children, roots) && Shows(t, children) && ChildOf(folders, p, f)
    ensures multiset(Ids(t))[f] == multiset(Ids(t))[p] + if t.id == f then 1 else 0
    decreases t
  {
    OneParent(folders, p, t.id, f);
    AsOftenAsParents(folders, children, roots, t.children, p, f);
  }

  lemma {:induction false} AsOftenAsParents(folders: seq<Folder>, children: map<FolderId, seq<FolderId>>,
                                            roots: seq<FolderId>, ts: seq<Tree>, p: FolderId, f: FolderId)
    requires UniqueIds(folders) && Linked(folders, children, roots) && ShowsAll(ts, children) && ChildOf(folders, p, f)
    ensures multiset(IdsOf(ts))[f] == multiset(IdsOf(ts))[p] + multiset(Tops(ts))[f]
    decreases ts
  {
    if ts != [] {
      AsOftenAsParents(folders, children, roots, ts[..|ts| - 1], p, f);
      AsOftenAsParent(folders, children, roots, ts[|ts| - 1], p, f);
      LastTree(ts, f);
      LastTree(ts, p);
      LastTop(ts, f);
    }
  }

  /** A folder that is nobody's child stands only where it is the top. */
  lemma {:induction false} RootsOnTop(folders: seq<Folder>, children: map<FolderId, seq<FolderId>>,
                                      roots: seq<FolderId>, t: Tree, f: FolderId)
    requires Linked(folders, children, roots) && Shows(t, children) && forall p :: !ChildOf(folders, p, f)
    ensures multiset(Ids(t))[f] == if t.id == f then 1 else 0
    decreases t
  {
    RootsOnTops(folders, children, roots, t.children, f);
  }

  lemma {:induction false} RootsOnTops(folders: seq<Folder>, children: map<FolderId, seq<FolderId>>,
                                       roots: seq<FolderId>, ts: seq<Tree>, f: FolderId)
    requires Linked(folders, children, roots) && ShowsAll(ts, children) && forall p :: !ChildOf(folders, p, f)
    ensures multiset(IdsOf(ts))[f] == multiset(Tops(ts))[f]
    decreases ts
  {
    if ts != [] {
      RootsOnTops(folders, children, roots, ts[..|ts| - 1], f);
      RootsOnTop(folders, children, roots, ts[|ts| - 1], f);
      LastTree(ts, f);
      LastTop(ts, f);
    }
  }

  /** Following the parents k times leads from f to a root. */
  ghost predicate AtDepth(folders: seq<Folder>, f: FolderId, k: nat)
    decreases k
  {
    if k == 0 then IsRoot(folders, f)
    else exists p :: ChildOf(folders, p, f) && AtDepth(folders, p, k - 1)
  }

  ghost predicate Grounded(folders: seq<Folder>, f: FolderId) {
    exists k: nat :: AtDepth(folders, f, k)
  }

  lemma {:induction false} GroundedOnce(folders: seq<Folder>, children: map<FolderId, seq<FolderId>>,
                                        roots: seq<FolderId>, ts: seq<Tree>, f: FolderId, k: nat)
    requires UniqueIds(folders) && Linked(folders, children, roots)
    requires ShowsAll(ts, children) && Tops(ts) == roots && AtDepth(folders, f, k)
    ensures multiset(IdsOf(ts))[f] == 1
    decreases k
  {
    if k == 0 {
      forall p
        ensures !ChildOf(folders, p, f)
      {
        if ChildOf(folders, p, f) {
          OneParent(folders, p, p, f);
        }
      }
      RootsOnTops(folders, children, roots, ts, f);
    } else {
      var p :| ChildOf(folders, p, f) && AtDepth(folders, p, k - 1);
      GroundedOnce(folders, children, roots, ts, p, k - 1);
      OneParent(folders, p, p, f);
      AsOftenAsParents(folders, children, roots, ts, p, f);
    }
  }

  lemma {:induction false} ShownIsGrounded(folders: seq<Folder>, children: map<FolderId, seq<FolderId>>,
                                           roots: seq<FolderId>, t: Tree, f: FolderId)
    requires Linked(folders, children, roots) && Shows(t, children) && Grounded(folders, t.id) && f in Ids(t)
    ensures Grounded(folders, f)
    decreases t
  {
    if f != t.id {
      forall i | 0 <= i < |t.children|
        ensures Grounded(folders, t.children[i].id)
      {
        assert Tops(t.children)[i] in multiset(children[t.id]);
        var k: nat :| AtDepth(folders, t.id, k);
        assert AtDepth(folders, t.children[i].id, k + 1);
      }
      ShownAreGrounded(folders, children, roots, t.children, f);
    }
  }

  lemma {:induction false} ShownAreGrounded(folders: seq<Folder>, children: map<FolderId, seq<FolderId>>,
                                            roots: seq<FolderId>, ts: seq<Tree>, f: FolderId)
    requires Linked(folders, children, roots) && ShowsAll(ts, children)
    requires (forall i :: 0 <= i < |ts| ==> Grounded(folders, ts[i].id)) && f in IdsOf(ts)
    ensures Grounded(folders, f)
    decreases ts
  {
    var init, t := ts[..|ts| - 1], ts[|ts| - 1];
    if f in IdsOf(init) {
      ShownAreGrounded(folders, children, roots, init, f);
    } else {
      ShownIsGrounded(folders, children, roots, t, f);
    }
  }

  /** A folder stands in the forest exactly once if its parents lead to a root,
      and not at all if they run in a circle. */
  lemma ForestHolds(folders: seq<Folder>, children: map<FolderId, seq<FolderId>>, roots: seq<FolderId>, ts: seq<Tree>,
                    f: FolderId)
    requires UniqueIds(folders) && Linked(folders, children, roots) && ShowsAll(ts, children) && Tops(ts) == roots
    ensures multiset(IdsOf(ts))[f] == if Grounded(folders, f) then 1 else 0
  {
    if Grounded(folders, f) {
      var k: nat :| AtDepth(folders, f, k);
      GroundedOnce(folders, children, roots, ts, f, k);
    } else if f in multiset(IdsOf(ts)) {
      forall i | 0 <= i < |ts|
        ensures Grounded(folders, ts[i].id)
      {
        assert Tops(ts)[i] in multiset(roots);
        assert AtDepth(folders, ts[i].id, 0);
      }
      ShownAreGrounded(folders, children, roots, ts, f);
    }
  }

  function AllIds(folders: seq<Folder>): seq<FolderId> {
    seq(|folders|, i requires 0 <= i < |folders| => folders[i].id)
  }

  /** The forest is a permutation of the folders exactly when no parents run in
      a circle. */
  lemma PermutationIff(folders: seq<Folder>, children: map<FolderId, seq<FolderId>>, roots: seq<FolderId>,
                       ts: seq<Tree>)
    requires UniqueIds(folders) && Linked(folders, children, roots) && ShowsAll(ts, children) && Tops(ts) == roots
    ensures multiset(IdsOf(ts)) == multiset(AllIds(folders))
       <==> forall f :: Listed(folders, f) ==> Grounded(folders, f)
  {
    forall f: FolderId
      ensures multiset(IdsOf(ts))[f] == if Grounded(folders, f) then 1 else 0
      ensures multiset(AllIds(folders))[f] == if Listed(folders, f) then 1 else 0
      ensures Grounded(folders, f) ==> Listed(folders, f)
    {
      ForestHolds(folders, children, roots, ts, f);
      AllIdsOnce(folders, f);
      GroundedListed(folders, f);
    }
    if multiset(IdsOf(ts)) == multiset(AllIds(folders)) {
      forall f | Listed(folders, f)
        ensures Grounded(folders, f)
      {
        assert multiset(IdsOf(ts))[f] == multiset(AllIds(folders))[f];
      }
    }
  }

  lemma GroundedListed(folders: seq<Folder>, f: FolderId)
    ensures Grounded(folders, f) ==> Listed(folders, f)
  {
  }

  lemma {:induction false} AllIdsOnce(folders: seq<Folder>, f: FolderId)
    requires UniqueIds(folders)
    ensures multiset(AllIds(folders))[f] == if Listed(folders, f) then 1 else 0
  {
    if folders != [] {
      var n := |folders| - 1;
      AllIdsOnce(folders[..n], f);
      ListedNext(folders, n, f);
      assert folders[..n + 1] == folders;
      assert AllIds(folders) == AllIds(folders[..n]) + [folders[n].id];
      Sole(folders, n);
    }
  }

  // ---- The forest exists: chains of parents cannot be longer than the list ----

  lemma {:induction false} SameDepth(folders: seq<Folder>, f: FolderId, j: nat, k: nat)
    requires UniqueIds(folders) && AtDepth(folders, f, j) && AtDepth(folders, f, k)
    ensures j == k
    decreases j
  {
    if j > 0 {
      var p :| ChildOf(folders, p, f) && AtDepth(folders, p, j - 1);
      OneParent(folders, p, p, f);
      var q :| ChildOf(folders, q, f) && AtDepth(folders, q, k - 1);
      OneParent(folders, p, q, f);
      SameDepth(folders, p, j - 1, k - 1);
    } else if k > 0 {
      var q :| ChildOf(folders, q, f) && AtDepth(folders, q, k - 1);
      OneParent(folders, q, q, f);
    }
  }

  ghost predicate WithinDepth(folders: seq<Folder>, f: FolderId, k: nat) {
    exists j: nat :: j <= k && AtDepth(folders, f, j)
  }

  lemma {:induction false} Ancestors(folders: seq<Folder>, f: FolderId, k: nat) returns (s: set<FolderId>)
    requires UniqueIds(folders) && AtDepth(folders, f, k)
    ensures |s| == k + 1 && forall a :: a in s ==> WithinDepth(folders, a, k)
    decreases k
  {
    assert WithinDepth(folders, f, k);
    if k == 0 {
      s := {f};
    } else {
      var p :| ChildOf(folders, p, f) && AtDepth(folders, p, k - 1);
      var above := Ancestors(folders, p, k - 1);
      if WithinDepth(folders, f, k - 1) {
        var j: nat :| j <= k - 1 && AtDepth(folders, f, j);
        SameDepth(folders, f, j, k);
      }
      s := above + {f};
    }
  }

  lemma {:induction false} ListedIds(folders: seq<Folder>) returns (s: set<FolderId>)
    ensures |s| <= |folders|
    ensures forall f :: Listed(folders, f) ==> f in s
  {
    s := {};
    if folders != [] {
      var n := |folders| - 1;
      var rest := ListedIds(folders[..n]);
      s := rest + {folders[n].id};
      forall f | Listed(folders, f)
        ensures f in s
      {
        ListedNext(folders, n, f);
        assert folders[..n + 1] == folders;
      }
    }
  }

  lemma DepthBound(folders: seq<Folder>, f: FolderId, k: nat)
    requires UniqueIds(folders) && AtDepth(folders, f, k)
    ensures k < |folders|
  {
    var above := Ancestors(folders, f, k);
    var listed := ListedIds(folders);
    forall a | a in above
      ensures a in listed
    {
      GroundedListed(folders, a);
    }
    Smaller(above, listed);
  }

  lemma {:induction false} Smaller<T>(a: set<T>, b: set<T>)
    requires a <= b
    ensures |a| <= |b|
  {
    if a != {} {
      var x :| x in a;
      Smaller(a - {x}, b - {x});
    }
  }

  /** The subtree of a folder at depth k. */
  lemma {:induction false} Build(folders: seq<Folder>, children: map<FolderId, seq<FolderId>>, roots: seq<FolderId>,
                                 f: FolderId, k: nat)
    returns (t: Tree)
    requires UniqueIds(folders) && Linked(folders, children, roots) && AtDepth(folders, f, k)
    ensures t.id == f && Shows(t, children)
    decreases |folders| - k, 1
  {
    DepthBound(folders, f, k);
    GroundedListed(folders, f);
    forall i | 0 <= i < |children[f]|
      ensures AtDepth(folders, children[f][i], k + 1)
    {
      assert children[f][i] in multiset(children[f]);
      assert ChildOf(folders, f, children[f][i]);
    }
    var ts := BuildAll(folders, children, roots, children[f], k + 1);
    t := Tree(f, ts);
  }

  lemma {:induction false} BuildAll(folders: seq<Folder>, children: map<FolderId, seq<FolderId>>, roots: seq<FolderId>,
                                    fs: seq<FolderId>, k: nat)
    returns (ts: seq<Tree>)
    requires UniqueIds(folders) && Linked(folders, children, roots)
    requires k <= |folders| && forall i :: 0 <= i < |fs| ==> AtDepth(folders, fs[i], k)
    ensures Tops(ts) == fs && ShowsAll(ts, children)
    decreases |folders| - k, 2, |fs|
  {
    ts := [];
    if fs != [] {
      var n := |fs| - 1;
      var init := BuildAll(folders, children, roots, fs[..n], k);
      var t := Build(folders, children, roots, fs[n], k);
      ts := init + [t];
      assert Tops(ts) == Tops(init) + [t.id];
    }
  }

  /** Linking always describes a forest. */
  lemma ForestExists(folders: seq<Folder>, children: map<FolderId, seq<FolderId>>, roots: seq<FolderId>)
    returns (ts: seq<Tree>)
    requires UniqueIds(folders) && Linked(folders, children, roots)
    ensures ShowsAll(ts, children) && Tops(ts) == roots
  {
    forall i | 0 <= i < |roots|
      ensures AtDepth(folders, roots[i], 0)
    {
      assert roots[i] in multiset(roots);
    }
    ts := BuildAll(folders, children, roots, roots, 0);
  }

  // ---- Selecting subtrees ----

  /** How many of the ids are selected, a repeated id as often as it stands. */
  function Chosen(ids: seq<FolderId>, selected: set<FolderId>): nat {
    if ids == [] then 0
    else Chosen(ids[..|ids| - 1], selected) + if ids[|ids| - 1] in selected then 1 else 0
  }

  lemma {:induction false} ChosenConcat(a: seq<FolderId>, b: seq<FolderId>, selected: set<FolderId>)
    ensures Chosen(a + b, selected) == Chosen(a, selected) + Chosen(b, selected)
  {
    if b == [] {
      assert a + b == a;
    } else {
      assert (a + b)[..|a + b| - 1] == a + b[..|b| - 1];
      ChosenConcat(a, b[..|b| - 1], selected);
    }
  }

  predicate AllIn(ids: seq<FolderId>, selected: set<FolderId>) {
    forall i :: 0 <= i < |ids| ==> ids[i] in selected
  }

  predicate NoneIn(ids: seq<FolderId>, selected: set<FolderId>) {
    forall i :: 0 <= i < |ids| ==> ids[i] !in selected
  }

  lemma {:induction false} ChosenBounds(ids: seq<FolderId>, selected: set<FolderId>)
    ensures Chosen(ids, selected) <= |ids|
    ensures Chosen(ids, selected) == |ids| <==> AllIn(ids, selected)
    ensures Chosen(ids, selected) == 0 <==> NoneIn(ids, selected)
  {
    if ids != [] {
      var init, last := ids[..|ids| - 1], ids[|ids| - 1];
      ChosenBounds(init, selected);
      assert AllIn(ids, selected) <==> AllIn(init, selected) && last in selected;
      assert NoneIn(ids, selected) <==> NoneIn(init, selected) && last !in selected;
    }
  }

  /** Counting agrees with collecting. */
  method CountSelected(t: Tree, selected: set<FolderId>) returns (total: nat, chosen: nat)
    ensures total == |Ids(t)| && chosen == Chosen(Ids(t), selected)
    decreases t
  {
    total := 1;
    chosen := if t.id in selected then 1 else 0;
    for i := 0 to |t.children|
      invariant total == 1 + |IdsOf(t.children[..i])|
      invariant chosen == (if t.id in selected then 1 else 0) + Chosen(IdsOf(t.children[..i]), selected)
    {
      var n, k := CountSelected(t.children[i], selected);
      assert t.children[..i + 1][..i] == t.children[..i];
      ChosenConcat(IdsOf(t.children[..i]), Ids(t.children[i]), selected);
      total, chosen := total + n, chosen + k;
    }
    assert t.children[..|t.children|] == t.children;
    ChosenConcat([t.id], IdsOf(t.children), selected);
    assert Chosen([t.id], selected) == if t.id in selected then 1 else 0 by {
      assert [t.id][..0] == [];
    }
  }

  datatype Box = Unchecked | Indeterminate | Checked

  /** What the box of a node shows: everything below it is selected, nothing
      is, or some of it. */
  function BoxOf(t: Tree, selected: set<FolderId>): Box {
    if AllIn(Ids(t), selected) then Checked else if NoneIn(Ids(t), selected) then Unchecked else Indeterminate
  }

  method Show(t: Tree, selected: set<FolderId>) returns (box: Box)
    ensures box == BoxOf(t, selected)
    ensures box == Unchecked <==> NoneIn(Ids(t), selected)
  {
    var total, chosen := CountSelected(t, selected);
    ChosenBounds(Ids(t), selected);
    assert Ids(t)[0] == t.id;
    box := if chosen == total then Checked else if chosen > 0 then Indeterminate else Unchecked;
  }

  function SetOf(ids: seq<FolderId>): set<FolderId> {
    set f | f in ids
  }

  /** Clicking the box selects the whole subtree, or takes it out if all of it
      was selected. */
  function Toggled(t: Tree, selected: set<FolderId>): set<FolderId> {
    if AllIn(Ids(t), selected) then selected - SetOf(Ids(t)) else selected + SetOf(Ids(t))
  }

  method Toggle(t: Tree, selected: set<FolderId>) returns (next: set<FolderId>)
    ensures next == Toggled(t, selected)
  {
    var box := Show(t, selected);
    var ids := Ids(t);
    next := selected;
    for i := 0 to |ids|
      invariant next == if box == Checked then selected - SetOf(ids[..i]) else selected + SetOf(ids[..i])
    {
      assert SetOf(ids[..i + 1]) == SetOf(ids[..i]) + {ids[i]};
      next := if box == Checked then next - {ids[i]} else next + {ids[i]};
    }
    assert ids[..|ids|] == ids;
  }

  /** Clicking twice gives back the selection exactly if the box was not in
      between. */
  lemma ToggleTwice(t: Tree, selected: set<FolderId>)
    ensures Toggled(t, Toggled(t, selected)) == selected <==> BoxOf(t, selected) != Indeterminate
  {
    var ids, once := Ids(t), Toggled(t, selected);
    assert ids[0] == t.id && t.id in SetOf(ids);
    if AllIn(ids, selected) {
      assert t.id !in once;
      assert Toggled(t, once) == selected;
    } else {
      assert AllIn(ids, once);
      if NoneIn(ids, selected) {
        assert Toggled(t, once) == selected;
      } else {
        var i :| 0 <= i < |ids| && ids[i] in selected;
        assert ids[i] !in Toggled(t, once);
      }
    }
  }

  // ---- Other boxes ----

  /** u is t, or a node somewhere below it. */
  ghost predicate Under(t: Tree, u: Tree)
    decreases t
  {
    t == u || exists i :: 0 <= i < |t.children| && Under(t.children[i], u)
  }

  ghost predicate InForest(ts: seq<Tree>, u: Tree) {
    exists i :: 0 <= i < |ts| && Under(ts[i], u)
  }

  lemma {:induction false} IdsUnder(t: Tree, u: Tree, f: FolderId)
    requires Under(t, u) && f in Ids(u)
    ensures f in Ids(t)
    decreases t
  {
    if t != u {
      var i :| 0 <= i < |t.children| && Under(t.children[i], u);
      IdsUnder(t.children[i], u, f);
      OnceInOne(t.children, i, f);
      assert f in multiset(IdsOf(t.children));
    }
  }

  /** If every id stands once, two nodes of which neither lies below the other
      have no id in common. */
  lemma {:induction false} NodesApart(ts: seq<Tree>, u: Tree, v: Tree, f: FolderId)
    requires InForest(ts, u) && InForest(ts, v) && !Under(u, v) && !Under(v, u)
    requires multiset(IdsOf(ts))[f] <= 1
    ensures f !in Ids(u) || f !in Ids(v)
    decreases ts
  {
    var i :| 0 <= i < |ts| && Under(ts[i], u);
    var j :| 0 <= j < |ts| && Under(ts[j], v);
    if f in Ids(u) && f in Ids(v) {
      IdsUnder(ts[i], u, f);
      IdsUnder(ts[j], v, f);
      if i != j {
        TwiceInTwo(ts, i, j, f);
      } else {
        OneOfMany(ts, i, f);
        CountConcat([ts[i].id], IdsOf(ts[i].children), f);
        NodesApart(ts[i].children, u, v, f);
      }
    }
  }

  lemma {:induction false} OneOfMany(ts: seq<Tree>, i: nat, f: FolderId)
    requires i < |ts|
    ensures multiset(Ids(ts[i]))[f] <= multiset(IdsOf(ts))[f]
  {
    LastTree(ts, f);
    if i < |ts| - 1 {
      OneOfMany(ts[..|ts| - 1], i, f);
    }
  }

  lemma SameBox(t: Tree, selected: set<FolderId>, next: set<FolderId>)
    requires forall f :: f in Ids(t) ==> (f in next <==> f in selected)
    ensures BoxOf(t, next) == BoxOf(t, selected)
  {
    assert forall i :: 0 <= i < |Ids(t)| ==> Ids(t)[i] in Ids(t);
  }

  /** Clicking one node of the forest changes no box of another, unless one of
      them lies below the other. */
  lemma ToggleApart(folders: seq<Folder>, children: map<FolderId, seq<FolderId>>, roots: seq<FolderId>, ts: seq<Tree>,
                    u: Tree, v: Tree, selected: set<FolderId>)
    requires UniqueIds(folders) && Linked(folders, children, roots) && ShowsAll(ts, children) && Tops(ts) == roots
    requires InForest(ts, u) && InForest(ts, v) && !Under(u, v) && !Under(v, u)
    ensures BoxOf(v, Toggled(u, selected)) == BoxOf(v, selected)
  {
    forall f | f in Ids(v)
      ensures f !in Ids(u)
    {
      ForestHolds(folders, children, roots, ts, f);
      NodesApart(ts, u, v, f);
    }
    SameBox(v, selected, Toggled(u, selected));
  }

  /** Below the node that is clicked every box follows it. */
  lemma ToggleBelow(u: Tree, v: Tree, selected: set<FolderId>)
    requires Under(u, v)
    ensures BoxOf(v, Toggled(u, selected)) == if BoxOf(u, selected) == Checked then Unchecked else Checked
  {
    var ids, next := Ids(v), Toggled(u, selected);
    assert ids[0] == v.id;
    forall i | 0 <= i < |ids|
      ensures ids[i] in Ids(u)
    {
      IdsUnder(u, v, ids[i]);
    }
  }

  lemma {:induction false} TwiceInTwo(ts: seq<Tree>, i: nat, j: nat, f: FolderId)
    requires i < |ts| && j < |ts| && i != j && multiset(IdsOf(ts))[f] <= 1
    ensures f !in Ids(ts[i]) || f !in Ids(ts[j])
  {
    var n := |ts| - 1;
    assert multiset(IdsOf(ts))[f] == multiset(IdsOf(ts[..n]))[f] + multiset(Ids(ts[n]))[f];
    if i == n {
      OnceInOne(ts[..n], j, f);
    } else if j == n {
      OnceInOne(ts[..n], i, f);
    } else {
      TwiceInTwo(ts[..n], i, j, f);
    }
  }

  lemma {:induction false} OnceInOne(ts: seq<Tree>, i: nat, f: FolderId)
    requires i < |ts|
    ensures f in Ids(ts[i]) ==> multiset(IdsOf(ts))[f] > 0
  {
    if i < |ts| - 1 {
      OnceInOne(ts[..|ts| - 1], i, f);
    } else {
      assert f in Ids(ts[i]) ==> f in multiset(Ids(ts[i]));
    }
  }
}
