/**
 The documents that a backend keeps open at its language server: opened or refreshed on use, closed when too many are
 open, least recently used first, and indexed by project. The notifications that are sent along leave the server with
 the same documents, over servers that come and go, unless one of them has been dropped.
 */
module OpenDocuments {
  import opened Wrappers
  import opened Sorting
  import BackendLifecycle

  /** A file by its absolute path; its URI is another spelling of the same name. */
  type Path = string

  /** A project root is never the empty string, which the cache would not tell from a missing entry. */
  type Root = s: string | s != "" witness "/"

  datatype OpenDocument = OpenDocument(
    path: Path, projectRoot: Root, languageId: string, version: nat, content: string, lastAccess: nat)

  datatype Notification =
    | DidOpen(path: Path, languageId: string, version: nat, text: string)
    | DidChange(path: Path, version: nat, text: string)
    | DidClose(path: Path)

  const MAX_OPEN_DOCUMENTS := 50

  // ---- The server's side -------------------------------------------------------------------------

  datatype ServerDocument = ServerDocument(languageId: string, version: nat, text: string)

  /** A server that has heard the notification, unless it breaks the protocol. */
  function Hear(server: map<Path, ServerDocument>, n: Notification): Option<map<Path, ServerDocument>> {
    match n
    case DidOpen(path, languageId, version, text) =>
      if path in server then None else Some(server[path := ServerDocument(languageId, version, text)])
    case DidChange(path, version, text) =>
      if path !in server || version <= server[path].version then None
      else Some(server[path := server[path].(version := version, text := text)])
    case DidClose(path) =>
      if path !in server then None else Some(server - {path})
  }

  function HearAll(ns: seq<Notification>): Option<map<Path, ServerDocument>> {
    if ns == [] then
      Some(map[])
    else
      match HearAll(ns[..|ns| - 1])
      case None => None
      case Some(server) => Hear(server, ns[|ns| - 1])
  }

  lemma HearMore(ns: seq<Notification>, n: Notification)
    requires HearAll(ns).Some?
    ensures HearAll(ns + [n]) == Hear(HearAll(ns).value, n)
  {
    assert (ns + [n])[..|ns|] == ns;
  }

  /** What a server should have for the open documents. */
  function Mirror(docs: map<Path, OpenDocument>): map<Path, ServerDocument> {
    map p | p in docs :: ServerDocument(docs[p].languageId, docs[p].version, docs[p].content)
  }

  // ---- The index by project ----------------------------------------------------------------------

  function Roots(docs: map<Path, OpenDocument>): set<Root> {
    set p | p in docs :: docs[p].projectRoot
  }

  function FilesOf(docs: map<Path, OpenDocument>, root: Root): set<Path> {
    set p | p in docs && docs[p].projectRoot == root
  }

  /** The open documents by project, without empty projects. */
  function Grouped(docs: map<Path, OpenDocument>): map<Root, set<Path>> {
    map root | root in Roots(docs) :: FilesOf(docs, root)
  }

  lemma RootsAreUsed(docs: map<Path, OpenDocument>, root: Root)
    ensures root in Roots(docs) <==> FilesOf(docs, root) != {}
  {
    if root in Roots(docs) {
      var p :| p in docs && docs[p].projectRoot == root;
      assert p in FilesOf(docs, root);
    }
    if FilesOf(docs, root) != {} {
      var p :| p in FilesOf(docs, root);
      assert docs[p].projectRoot in Roots(docs);
    }
  }

  lemma GroupedWith(docs: map<Path, OpenDocument>, d: OpenDocument)
    requires d.path in docs ==> docs[d.path].projectRoot == d.projectRoot
    ensures var g, r := Grouped(docs), d.projectRoot;
            Grouped(docs[d.path := d]) == g[r := (if r in g then g[r] else {}) + {d.path}]
  {
    var after, r := docs[d.path := d], d.projectRoot;
    var g := Grouped(docs);
    var expected := g[r := (if r in g then g[r] else {}) + {d.path}];
    RootsAreUsed(docs, r);
    assert FilesOf(after, r) == FilesOf(docs, r) + {d.path};
    forall root | root != r ensures root in Grouped(after) <==> root in g {
      RootsAreUsed(docs, root);
      RootsAreUsed(after, root);
      assert FilesOf(after, root) == FilesOf(docs, root);
    }
    forall root | root in Grouped(after) ensures root in expected && Grouped(after)[root] == expected[root] {
      if root != r {
        assert FilesOf(after, root) == FilesOf(docs, root);
      }
    }
    RootsAreUsed(after, r);
    assert Grouped(after).Keys == expected.Keys;
    assert Grouped(after) == expected;
  }

  lemma GroupedWithout(docs: map<Path, OpenDocument>, p: Path)
    requires p in docs
    ensures var g, r := Grouped(docs), docs[p].projectRoot;
            && r in g
            && Grouped(docs - {p}) == if g[r] - {p} == {} then g - {r} else g[r := g[r] - {p}]
  {
    var after, r := docs - {p}, docs[p].projectRoot;
    var g := Grouped(docs);
    assert p in FilesOf(docs, r);
    RootsAreUsed(docs, r);
    RootsAreUsed(after, r);
    assert FilesOf(after, r) == FilesOf(docs, r) - {p};
    var expected := if g[r] - {p} == {} then g - {r} else g[r := g[r] - {p}];
    forall root | root != r
      ensures (root in Grouped(after) <==> root in g) && FilesOf(after, root) == FilesOf(docs, root)
    {
      assert FilesOf(after, root) == FilesOf(docs, root);
      RootsAreUsed(docs, root);
      RootsAreUsed(after, root);
    }
    assert Grouped(after).Keys == expected.Keys;
    assert Grouped(after) == expected;
  }

  // ---- The document manager ----------------------------------------------------------------------

  predicate ByAccess(a: OpenDocument, b: OpenDocument) {
    a.lastAccess <= b.lastAccess
  }

  function PathsOf(docs: seq<OpenDocument>): seq<Path> {
    seq(|docs|, i requires 0 <= i < |docs| => docs[i].path)
  }

  function SetOf(paths: seq<Path>): set<Path> {
    set i | 0 <= i < |paths| :: paths[i]
  }

  /** The document after it has been opened or refreshed with the content on the disk. */
  function Refreshed(
    docs: map<Path, OpenDocument>, path: Path, root: Root, languageId: string, content: string, access: nat)
    : OpenDocument
  {
    if path !in docs then
      OpenDocument(path, root, languageId, 1, content, access)
    else if docs[path].content == content then
      docs[path].(lastAccess := access)
    else
      docs[path].(version := docs[path].version + 1, content := content, lastAccess := access)
  }

  /** The list holds every open document once. */
  ghost predicate Lists(docs: seq<OpenDocument>, open: map<Path, OpenDocument>) {
    && (forall i | 0 <= i < |docs| :: docs[i].path in open && open[docs[i].path] == docs[i])
    && (forall i, j | 0 <= i < j < |docs| :: docs[i].path != docs[j].path)
    && |docs| == |open|
  }

  /** Documents stand under their own path and belong to the project that the cache has for it. */
  ghost predicate Known(docs: map<Path, OpenDocument>, cache: map<Path, Root>) {
    forall p | p in docs :: docs[p].path == p && p in cache && cache[p] == docs[p].projectRoot
  }

  /** Every document has the language of its path. */
  ghost predicate Spoken(docs: map<Path, OpenDocument>, languageOf: Path -> string) {
    forall p | p in docs :: docs[p].languageId == languageOf(p)
  }

  /** No two documents have the same last access, and none has one that is still to come. */
  ghost predicate ToldApart(docs: map<Path, OpenDocument>, counter: nat) {
    && (forall p | p in docs :: docs[p].lastAccess <= counter)
    && (forall p, q | p in docs && q in docs && docs[p].lastAccess == docs[q].lastAccess :: p == q)
  }

  lemma RefreshedIsKnown(
    docs: map<Path, OpenDocument>, cache: map<Path, Root>, counter: nat,
    path: Path, languageId: string, content: string)
    requires Known(docs, cache) && ToldApart(docs, counter) && path in cache
    ensures var d := Refreshed(docs, path, cache[path], languageId, content, counter + 1);
            && d.path == path && d.projectRoot == cache[path]
            && Known(docs[path := d], cache) && ToldApart(docs[path := d], counter + 1)
            && d.content == content && d.lastAccess == counter + 1
            && (forall p | p in docs :: docs[p].lastAccess < d.lastAccess)
            && (path in docs ==> docs[path].projectRoot == cache[path])
  {
  }

  lemma RefreshedIsSpoken(
    docs: map<Path, OpenDocument>, languageOf: Path -> string, path: Path, root: Root, content: string, access: nat)
    requires Spoken(docs, languageOf)
    ensures var d := Refreshed(docs, path, root, languageOf(path), content, access);
            d.languageId == languageOf(path) && Spoken(docs[path := d], languageOf)
  {
  }

  lemma SpokenWithout(docs: map<Path, OpenDocument>, languageOf: Path -> string, path: Path)
    requires Spoken(docs, languageOf)
    ensures Spoken(docs - {path}, languageOf)
  {
  }

  /** What a server has to be told when a document is refreshed. */
  function Noted(docs: map<Path, OpenDocument>, path: Path, languageId: string, content: string): Option<Notification> {
    if path !in docs then Some(DidOpen(path, languageId, 1, content))
    else if docs[path].content == content then None
    else Some(DidChange(path, docs[path].version + 1, content))
  }

  /** The notification takes a server from the old documents to the new ones; without one they are the same to it. */
  lemma NotedIsHeard(docs: map<Path, OpenDocument>, path: Path, root: Root, languageId: string, content: string,
      access: nat)
    ensures var after := docs[path := Refreshed(docs, path, root, languageId, content, access)];
            match Noted(docs, path, languageId, content)
            case None => Mirror(after) == Mirror(docs)
            case Some(n) => Hear(Mirror(docs), n) == Some(Mirror(after))
  {
    var after := docs[path := Refreshed(docs, path, root, languageId, content, access)];
    match Noted(docs, path, languageId, content)
    case None => assert Mirror(after) == Mirror(docs);
    case Some(n) => assert Hear(Mirror(docs), n).value == Mirror(after);
  }

  lemma KnownWithout(docs: map<Path, OpenDocument>, cache: map<Path, Root>, counter: nat, gone: set<Path>)
    requires Known(docs, cache) && ToldApart(docs, counter)
    ensures Known(docs - gone, cache) && ToldApart(docs - gone, counter)
  {
  }

  class DocumentManager {
    var openDocs: map<Path, OpenDocument>
    var rootCache: map<Path, Root>
    var projectFiles: map<Root, set<Path>>
    var accessCounter: nat
    const resolveLanguageId: Path -> string
    const resolveProjectRoot: Path -> Option<Root>
    const dirname: Path -> Root

    /** The index is the grouping of the open documents, which have their languages and are told apart by access. */
    ghost predicate Valid()
      reads this
    {
      && Known(openDocs, rootCache) && ToldApart(openDocs, accessCounter) && Spoken(openDocs, resolveLanguageId)
      && projectFiles == Grouped(openDocs)
    }

    constructor (resolveLanguageId: Path -> string, resolveProjectRoot: Path -> Option<Root>, dirname: Path -> Root)
      ensures Valid() && openDocs == map[]
    {
      this.resolveLanguageId, this.resolveProjectRoot, this.dirname := resolveLanguageId, resolveProjectRoot, dirname;
      openDocs, rootCache, projectFiles, accessCounter := map[], map[], map[], 0;
    }

    method GetProjectRoot(path: Path) returns (root: Root)
      requires Valid()
      modifies this`rootCache
      ensures Valid() && rootCache == old(rootCache)[path := root]
      ensures path in old(rootCache) ==> root == old(rootCache)[path] && rootCache == old(rootCache)
      ensures path !in old(rootCache) ==>
        root == if resolveProjectRoot(path).Some? then resolveProjectRoot(path).value else dirname(path)
    {
      if path in rootCache {
        return rootCache[path];
      }
      var resolved := resolveProjectRoot(path);
      root := if resolved.Some? then resolved.value else dirname(path);
      rootCache := rootCache[path := root];
    }

    /** Puts a document into the index of its project. */
    method Register(projectRoot: Root, path: Path)
      modifies this`projectFiles
      ensures projectFiles == old(projectFiles)[projectRoot :=
        (if projectRoot in old(projectFiles) then old(projectFiles)[projectRoot] else {}) + {path}]
    {
      if projectRoot !in projectFiles {
        projectFiles := projectFiles[projectRoot := {}];
      }
      projectFiles := projectFiles[projectRoot := projectFiles[projectRoot] + {path}];
    }

    /**
     Opens or refreshes a document with what is on the disk, if it can be read, and returns the notification for the
     server, if it needs one, and whether the document's project is new.
     */
    method Open(path: Path, disk: Option<string>) returns (r: Option<(Notification, bool, Root)>)
      requires Valid()
      modifies this
      ensures Valid() && (path in old(rootCache) ==> rootCache == old(rootCache))
      ensures disk.None? ==> r.None? && openDocs == old(openDocs) && rootCache == old(rootCache)
      ensures disk.Some? ==>
        && path in rootCache && accessCounter == old(accessCounter) + 1
        && openDocs == old(openDocs)[path :=
             Refreshed(old(openDocs), path, rootCache[path], resolveLanguageId(path), disk.value, accessCounter)]
        && match Noted(old(openDocs), path, resolveLanguageId(path), disk.value)
           case None => r.None?
           case Some(n) => r == Some((n, rootCache[path] !in old(projectFiles), rootCache[path]))
      // The document has the content of the file and is the last one used; no other document is touched.
      ensures disk.Some? ==>
        && openDocs[path].content == disk.value && openDocs[path].languageId == resolveLanguageId(path)
        && openDocs - {path} == old(openDocs) - {path}
        && forall p | p in openDocs && p != path :: openDocs[p].lastAccess < openDocs[path].lastAccess
    {
      hide Known, ToldApart, Spoken, Grouped, Roots, FilesOf, Refreshed, Noted;
      if disk.None? {
        return None;
      }
      var projectRoot := GetProjectRoot(path);
      var languageId := resolveLanguageId(path);
      var isNewRoot := projectRoot !in projectFiles;
      RefreshedIsKnown(openDocs, rootCache, accessCounter, path, languageId, disk.value);
      RefreshedIsSpoken(openDocs, resolveLanguageId, path, projectRoot, disk.value, accessCounter + 1);
      GroupedWith(openDocs, Refreshed(openDocs, path, projectRoot, languageId, disk.value, accessCounter + 1));
      IndexedAlready(openDocs, path);
      NotedNew(openDocs, path, languageId, disk.value);
      Register(projectRoot, path);
      var notification := Store(path, disk.value, projectRoot, languageId);
      if notification.None? {
        return None;
      }
      return Some((notification.value, isNewRoot && notification.value.DidOpen?, projectRoot));
    }

    /** Enters the document into the table. */
    method Store(path: Path, content: string, projectRoot: Root, languageId: string) returns (n: Option<Notification>)
      modifies this`openDocs, this`accessCounter
      ensures accessCounter == old(accessCounter) + 1
      ensures openDocs == old(openDocs)[path :=
        Refreshed(old(openDocs), path, projectRoot, languageId, content, accessCounter)]
      ensures n == Noted(old(openDocs), path, languageId, content)
    {
      accessCounter := accessCounter + 1;
      if path !in openDocs {
        openDocs := openDocs[path := OpenDocument(path, projectRoot, languageId, 1, content, accessCounter)];
        return Some(DidOpen(path, languageId, 1, content));
      }
      var existing := openDocs[path].(lastAccess := accessCounter);
      SetTwice(openDocs, path, existing, existing.(version := existing.version + 1, content := content));
      openDocs := openDocs[path := existing];
      if existing.content == content {
        return None;
      }
      openDocs := openDocs[path := existing.(version := existing.version + 1, content := content)];
      return Some(DidChange(path, existing.version + 1, content));
    }

    /** Every open document once, in some order. */
    method Values() returns (docs: seq<OpenDocument>)
      requires Valid()
      ensures Lists(docs, openDocs)
    {
      hide Lists, Known, ToldApart, Spoken, Grouped;
      docs := [];
      var todo := openDocs.Keys;
      ghost var done: map<Path, OpenDocument> := map[];
      NothingListed();
      assert openDocs - openDocs.Keys == map[];
      while todo != {}
        invariant todo <= openDocs.Keys && done == openDocs - todo && Lists(docs, done)
      {
        var p :| p in todo;
        OwnPath(openDocs, rootCache, p);
        ListOneMore(docs, done, openDocs[p]);
        done := done[p := openDocs[p]];
        docs := docs + [openDocs[p]];
        assert openDocs - (todo - {p}) == (openDocs - todo)[p := openDocs[p]];
        todo := todo - {p};
      }
      assert openDocs - {} == openDocs;
    }

    /** Takes one document out of the table and the index. */
    method Remove(path: Path)
      requires Valid() && path in openDocs
      modifies this`openDocs, this`projectFiles
      ensures Valid() && openDocs == old(openDocs) - {path}
    {
      hide Known, ToldApart, Spoken, Grouped, Roots, FilesOf;
      SpokenWithout(openDocs, resolveLanguageId, path);
      var doc := openDocs[path];
      GroupedWithout(openDocs, path);
      KnownWithout(openDocs, rootCache, accessCounter, {path});
      openDocs := openDocs - {path};
      if doc.projectRoot in projectFiles {
        var files := projectFiles[doc.projectRoot] - {path};
        if files == {} {
          projectFiles := projectFiles - {doc.projectRoot};
        } else {
          projectFiles := projectFiles[doc.projectRoot := files];
        }
      }
    }

    /** Closes the least recently used documents down to the limit. */
    method Evict(maxOpen: nat) returns (evicted: seq<Path>)
      requires Valid()
      modifies this`openDocs, this`projectFiles
      ensures Valid() && IsEviction(old(openDocs), openDocs, evicted, maxOpen)
    {
      hide Known, ToldApart, Spoken, Grouped, Lists, SortedBy, SetOf, PathsOf;
      evicted := [];
      NothingGone(openDocs);
      ghost var before := openDocs;
      if |openDocs| <= maxOpen {
        NoEviction(before, maxOpen);
        return;
      }
      var values := Values();
      var sorted := Sort(values, ByAccess);
      SortedLists(values, before);
      var n := |openDocs| - maxOpen;
      for i := 0 to n
        invariant Valid() && evicted == PathsOf(sorted[..i])
        invariant openDocs == before - SetOf(evicted)
      {
        StillOpen(sorted, before, i);
        Remove(sorted[i].path);
        OneMore(before, evicted, sorted[i].path);
        PathsOfMore(sorted, i);
        evicted := evicted + [sorted[i].path];
      }
      EvictedFirst(sorted, before, n, maxOpen);
    }

    /** Closes one document, if it is open. */
    method Close(path: Path) returns (closed: bool)
      requires Valid()
      modifies this`openDocs, this`projectFiles
      ensures Valid() && openDocs == old(openDocs) - {path} && (closed <==> path in old(openDocs))
    {
      if path !in openDocs {
        assert openDocs - {path} == openDocs;
        return false;
      }
      Remove(path);
      return true;
    }

    method Clear()
      modifies this
      ensures Valid() && openDocs == map[]
    {
      openDocs, rootCache, projectFiles := map[], map[], map[];
    }
  }

  /** The first `n` of the documents in the order of their use are closed, just as many as are too many. */
  ghost predicate IsEviction(
    before: map<Path, OpenDocument>, after: map<Path, OpenDocument>, evicted: seq<Path>, maxOpen: nat)
  {
    && after == before - SetOf(evicted)
    && (forall i | 0 <= i < |evicted| :: evicted[i] in before)
    && (forall i, j | 0 <= i < j < |evicted| :: evicted[i] != evicted[j])
    && |after| == (if |before| <= maxOpen then |before| else maxOpen)
    && forall i, p | 0 <= i < |evicted| && p in after :: before[evicted[i]].lastAccess < after[p].lastAccess
  }

  lemma NothingGone(docs: map<Path, OpenDocument>)
    ensures docs - SetOf([]) == docs && PathsOf([]) == []
  {
  }

  lemma NoEviction(docs: map<Path, OpenDocument>, maxOpen: nat)
    requires |docs| <= maxOpen
    ensures IsEviction(docs, docs, [], maxOpen)
  {
    NothingGone(docs);
  }

  lemma PathsOfMore(docs: seq<OpenDocument>, i: nat)
    requires i < |docs|
    ensures PathsOf(docs[..i + 1]) == PathsOf(docs[..i]) + [docs[i].path]
  {
  }

  lemma NothingListed()
    ensures Lists([], map[])
  {
  }

  lemma OwnPath(docs: map<Path, OpenDocument>, cache: map<Path, Root>, p: Path)
    requires Known(docs, cache) && p in docs
    ensures docs[p].path == p
  {
  }

  lemma ListOneMore(docs: seq<OpenDocument>, done: map<Path, OpenDocument>, d: OpenDocument)
    requires Lists(docs, done) && d.path !in done
    ensures Lists(docs + [d], done[d.path := d])
  {
    assert done[d.path := d].Keys == done.Keys + {d.path};
  }

  lemma SetTwice(docs: map<Path, OpenDocument>, path: Path, a: OpenDocument, b: OpenDocument)
    ensures docs[path := a][path := b] == docs[path := b]
  {
  }

  lemma IndexedAlready(docs: map<Path, OpenDocument>, path: Path)
    ensures path in docs ==> docs[path].projectRoot in Grouped(docs)
  {
  }

  lemma NotedNew(docs: map<Path, OpenDocument>, path: Path, languageId: string, content: string)
    ensures var n := Noted(docs, path, languageId, content);
            (n.Some? ==> (n.value.DidOpen? <==> path !in docs)) && (n.None? <==> Unchanged(docs, path, Some(content)))
  {
  }

  lemma ByAccessIsAnOrder()
    ensures TotalPreorder(ByAccess)
  {
  }

  /** Sorted by access, the list still holds every open document once, and no two accesses are the same. */
  lemma SortedLists(values: seq<OpenDocument>, open: map<Path, OpenDocument>)
    requires Lists(values, open)
    ensures Lists(Sort(values, ByAccess), open) && SortedBy(Sort(values, ByAccess), ByAccess)
  {
    var sorted := Sort(values, ByAccess);
    ByAccessIsAnOrder();
    SortIsSorted(values, ByAccess);
    forall i | 0 <= i < |sorted| ensures sorted[i].path in open && open[sorted[i].path] == sorted[i] {
      SortMembers(values, ByAccess, sorted[i]);
    }
    forall i, j | 0 <= i < j < |values| ensures values[i] != values[j] {
    }
    SortKeepsDistinct(values, ByAccess);
  }

  lemma StillOpen(sorted: seq<OpenDocument>, open: map<Path, OpenDocument>, i: nat)
    requires Lists(sorted, open) && i < |sorted|
    ensures sorted[i].path in open - SetOf(PathsOf(sorted[..i]))
  {
  }

  lemma OneMore(before: map<Path, OpenDocument>, evicted: seq<Path>, path: Path)
    ensures before - SetOf(evicted) - {path} == before - SetOf(evicted + [path])
  {
    hide SetOf;
    SetOfMore(evicted, path);
  }

  /** Closing the first of the sorted list closes those that were used before all that stay open. */
  lemma EvictedFirst(sorted: seq<OpenDocument>, open: map<Path, OpenDocument>, n: nat, maxOpen: nat)
    requires Lists(sorted, open) && SortedBy(sorted, ByAccess) && maxOpen + n == |sorted|
    requires exists counter :: ToldApart(open, counter)
    ensures var evicted := PathsOf(sorted[..n]); IsEviction(open, open - SetOf(evicted), evicted, maxOpen)
  {
    var evicted := PathsOf(sorted[..n]);
    var after := open - SetOf(evicted);
    forall i, p | 0 <= i < n && p in after ensures open[evicted[i]].lastAccess < open[p].lastAccess {
      var k := IndexIn(sorted, open, p);
      KeptAfter(sorted, n, k, p);
      assert ByAccess(sorted[i], sorted[k]);
    }
    LeftOpen(sorted, open, n);
  }

  lemma LeftOpen(sorted: seq<OpenDocument>, open: map<Path, OpenDocument>, n: nat)
    requires Lists(sorted, open) && n <= |sorted|
    ensures |open - SetOf(PathsOf(sorted[..n]))| == |sorted| - n
  {
    var gone := SetOf(PathsOf(sorted[..n]));
    DistinctCount(sorted[..n]);
    assert gone <= open.Keys;
    assert (open - gone).Keys == open.Keys - gone;
  }

  lemma KeptAfter(sorted: seq<OpenDocument>, n: nat, k: nat, p: Path)
    requires n <= |sorted| && k < |sorted| && sorted[k].path == p && p !in SetOf(PathsOf(sorted[..n]))
    ensures k >= n
  {
    if k < n {
      InFront(sorted, n, k);
    }
  }

  lemma InFront(sorted: seq<OpenDocument>, n: nat, k: nat)
    requires k < n <= |sorted|
    ensures sorted[k].path in SetOf(PathsOf(sorted[..n]))
  {
    assert PathsOf(sorted[..n])[k] == sorted[k].path;
  }

  /** A list of as many open documents as there are leaves none out. */
  lemma IndexIn(docs: seq<OpenDocument>, open: map<Path, OpenDocument>, p: Path) returns (k: nat)
    requires Lists(docs, open) && p in open
    ensures k < |docs| && docs[k].path == p
  {
    DistinctCount(docs);
    var listed := SetOf(PathsOf(docs));
    assert listed <= open.Keys;
    if p !in listed {
      SubsetCount(listed, open.Keys - {p});
    }
    assert p in listed;
    k :| 0 <= k < |docs| && PathsOf(docs)[k] == p;
  }

  lemma SubsetCount(a: set<Path>, b: set<Path>)
    requires a <= b
    ensures |a| <= |b|
  {
    assert b == a + (b - a);
  }

  lemma SetOfMore(paths: seq<Path>, path: Path)
    ensures SetOf(paths + [path]) == SetOf(paths) + {path}
    ensures path in SetOf(paths) ==> exists i | 0 <= i < |paths| :: paths[i] == path
  {
    var more := paths + [path];
    forall p | p in SetOf(paths) ensures p in SetOf(more) {
      var i :| 0 <= i < |paths| && paths[i] == p;
      assert more[i] == p;
    }
    assert more[|paths|] == path;
  }

  lemma {:induction false} DistinctCount(docs: seq<OpenDocument>)
    requires forall i, j | 0 <= i < j < |docs| :: docs[i].path != docs[j].path
    ensures |SetOf(PathsOf(docs))| == |docs|
  {
    hide SetOf;
    if docs == [] {
      SetOfNothing();
      assert PathsOf(docs) == [];
    } else {
      var front, path := docs[..|docs| - 1], docs[|docs| - 1].path;
      DistinctCount(front);
      assert PathsOf(docs) == PathsOf(front) + [path];
      SetOfMore(PathsOf(front), path);
      assert path !in SetOf(PathsOf(front));
    }
  }

  lemma SetOfNothing()
    ensures SetOf([]) == {}
  {
  }

  // ---- The backend -------------------------------------------------------------------------------

  lemma {:induction false} HearClosing(server: map<Path, OpenDocument>, evicted: seq<Path>, i: nat)
    requires i < |evicted| && evicted[i] in server
    requires forall i, j | 0 <= i < j < |evicted| :: evicted[i] != evicted[j]
    ensures Hear(Mirror(server - SetOf(evicted[..i])), DidClose(evicted[i])) ==
      Some(Mirror(server - SetOf(evicted[..i + 1])))
  {
    assert evicted[..i + 1] == evicted[..i] + [evicted[i]];
    OneMore(server, evicted[..i], evicted[i]);
    var before := server - SetOf(evicted[..i]);
    assert evicted[i] in before;
    assert Mirror(before) - {evicted[i]} == Mirror(before - {evicted[i]});
  }

  /** The most recently used document is never closed as long as one document may stay open. */
  lemma NewestStays(before: map<Path, OpenDocument>, after: map<Path, OpenDocument>, evicted: seq<Path>, maxOpen: nat,
      p: Path)
    requires IsEviction(before, after, evicted, maxOpen) && maxOpen > 0
    requires IsNewest(before, p)
    ensures p in after && after[p] == before[p]
  {
    forall i | 0 <= i < |evicted| ensures evicted[i] != p {
      var q := SomeoneStays(after);
      assert before[evicted[i]].lastAccess < before[q].lastAccess <= before[p].lastAccess;
    }
  }

  lemma SomeoneStays(after: map<Path, OpenDocument>) returns (q: Path)
    requires |after| > 0
    ensures q in after
  {
    assert after.Keys != {};
    q :| q in after.Keys;
  }

  ghost predicate IsNewest(docs: map<Path, OpenDocument>, p: Path) {
    p in docs && forall q | q in docs && q != p :: docs[q].lastAccess < docs[p].lastAccess
  }

  lemma RefreshedIsNewest(docs: map<Path, OpenDocument>, counter: nat, d: OpenDocument)
    requires ToldApart(docs, counter) && d.lastAccess == counter + 1
    ensures IsNewest(docs[d.path := d], d.path)
  {
  }

  /** The file cannot be read or is open as it is. */
  predicate Unchanged(docs: map<Path, OpenDocument>, path: Path, disk: Option<string>) {
    disk.None? || (path in docs && docs[path].content == disk.value)
  }

  /** Nothing has to be sent for the file: it cannot be read or is open as it is, and no more are open than may be. */
  predicate Quiet(docs: map<Path, OpenDocument>, path: Path, disk: Option<string>) {
    |docs| <= MAX_OPEN_DOCUMENTS && Unchanged(docs, path, disk)
  }

  /** The open documents after a file has been opened or refreshed. */
  function After(
    docs: map<Path, OpenDocument>, path: Path, disk: Option<string>, root: Root, languageId: string, access: nat)
    : map<Path, OpenDocument>
  {
    if disk.None? then docs else docs[path := Refreshed(docs, path, root, languageId, disk.value, access)]
  }

  lemma HearIfTold(heard: seq<Notification>, docs: map<Path, OpenDocument>, n: Notification)
    ensures HearAll(heard) == Some(Mirror(docs)) ==> HearAll(heard + [n]) == Hear(Mirror(docs), n)
  {
    hide HearAll, Hear, Mirror;
    if HearAll(heard) == Some(Mirror(docs)) {
      HearMore(heard, n);
    }
  }

  lemma EvictionFacts(before: map<Path, OpenDocument>, after: map<Path, OpenDocument>, evicted: seq<Path>, maxOpen: nat)
    requires IsEviction(before, after, evicted, maxOpen)
    ensures after == before - SetOf(evicted) && |after| <= maxOpen
    ensures forall i | 0 <= i < |evicted| :: evicted[i] in before
    ensures forall i, j | 0 <= i < j < |evicted| :: evicted[i] != evicted[j]
    ensures before - SetOf([]) == before
  {
    NothingGone(before);
  }

  /** Exactly the quiet cases leave the server's side of the table as it was. */
  lemma QuietMeansSame(
    before: map<Path, OpenDocument>, after: map<Path, OpenDocument>, evicted: seq<Path>,
    path: Path, disk: Option<string>, root: Root, languageId: string, access: nat)
    requires IsEviction(After(before, path, disk, root, languageId, access), after, evicted, MAX_OPEN_DOCUMENTS)
    requires disk.Some? ==> path in after && after[path].content == disk.value
    ensures Mirror(after) == Mirror(before) <==> Quiet(before, path, disk)
  {
    var between := After(before, path, disk, root, languageId, access);
    if Quiet(before, path, disk) {
      assert between.Keys == before.Keys;
      SameCount(before, between);
      assert SetOf(evicted) == {} by {
        NothingEvicted(between, after, evicted);
      }
      assert after == between;
      assert Mirror(after) == Mirror(before);
    }
    if Mirror(after) == Mirror(before) {
      SameMeansQuiet(before, after, path, disk);
    }
  }

  lemma NothingToRefresh(docs: map<Path, OpenDocument>, path: Path)
    ensures Unchanged(docs, path, None)
  {
  }

  lemma QuietIsUnchanged(docs: map<Path, OpenDocument>, path: Path, disk: Option<string>)
    requires Quiet(docs, path, disk)
    ensures Unchanged(docs, path, disk)
  {
  }

  lemma QuietStaysWithin(
    before: map<Path, OpenDocument>, path: Path, disk: Option<string>, root: Root, languageId: string, access: nat)
    requires Quiet(before, path, disk)
    ensures |After(before, path, disk, root, languageId, access)| <= MAX_OPEN_DOCUMENTS
  {
    var after := After(before, path, disk, root, languageId, access);
    assert after.Keys == before.Keys;
    SameCount(after, before);
  }

  lemma SameMeansQuiet(before: map<Path, OpenDocument>, after: map<Path, OpenDocument>, path: Path,
      disk: Option<string>)
    requires Mirror(after) == Mirror(before) && |after| <= MAX_OPEN_DOCUMENTS
    requires disk.Some? ==> path in after && after[path].content == disk.value
    ensures Quiet(before, path, disk)
  {
    assert after.Keys == Mirror(after).Keys == Mirror(before).Keys == before.Keys;
    SameCount(after, before);
    assert disk.Some? ==> Mirror(after)[path].text == disk.value;
  }

  lemma SameCount(a: map<Path, OpenDocument>, b: map<Path, OpenDocument>)
    requires a.Keys == b.Keys
    ensures |a| == |b|
  {
    assert |a| == |a.Keys| && |b| == |b.Keys|;
  }

  lemma SetOfSome(paths: seq<Path>)
    ensures paths != [] ==> SetOf(paths) != {}
  {
    if paths != [] {
      assert paths[0] in SetOf(paths);
    }
  }

  lemma NothingEvicted(before: map<Path, OpenDocument>, after: map<Path, OpenDocument>, evicted: seq<Path>)
    requires IsEviction(before, after, evicted, MAX_OPEN_DOCUMENTS) && |before| <= MAX_OPEN_DOCUMENTS
    ensures SetOf(evicted) == {} && evicted == []
  {
    SetOfSome(evicted);
    assert after.Keys == before.Keys - SetOf(evicted);
    assert SetOf(evicted) <= before.Keys;
    assert |before.Keys| == |after.Keys| + |SetOf(evicted)| by {
      assert before.Keys == after.Keys + SetOf(evicted);
    }
  }

  /** What refreshing a file and closing the files that are too many mean for the table and for what is sent. */
  lemma EnsuredFacts(
    before: map<Path, OpenDocument>, between: map<Path, OpenDocument>, after: map<Path, OpenDocument>,
    evicted: seq<Path>, path: Path, disk: Option<string>, root: Root, languageId: string, access: nat)
    requires between == After(before, path, disk, root, languageId, access)
    requires IsEviction(between, after, evicted, MAX_OPEN_DOCUMENTS)
    requires disk.Some? ==> path in between && between[path].content == disk.value && IsNewest(between, path)
    ensures |after| <= MAX_OPEN_DOCUMENTS && (disk.Some? ==> path in after && after[path].content == disk.value)
    ensures Mirror(after) == Mirror(before) <==> Quiet(before, path, disk)
    ensures Quiet(before, path, disk) ==> Unchanged(before, path, disk) && |between| <= MAX_OPEN_DOCUMENTS
  {
    hide After, IsEviction, IsNewest, Mirror, Quiet, Unchanged, SetOf;
    if Quiet(before, path, disk) {
      QuietStaysWithin(before, path, disk, root, languageId, access);
      QuietIsUnchanged(before, path, disk);
    }
    EvictionFacts(between, after, evicted, MAX_OPEN_DOCUMENTS);
    if disk.Some? {
      NewestStays(between, after, evicted, MAX_OPEN_DOCUMENTS, path);
    }
    QuietMeansSame(before, after, evicted, path, disk, root, languageId, access);
  }

  /** Every server goes on hearing from where it was, and stays as it was once it is of the past. */
  ghost predicate GoesOn(
    past: seq<seq<Notification>>, heard: seq<Notification>, past': seq<seq<Notification>>, heard': seq<Notification>)
  {
    past <= past' && heard <= if |past'| == |past| then heard' else past'[|past|]
  }

  class Backend {
    const documents: DocumentManager
    var initialWorkspaceRoot: Option<Root>
    var lifecycle: BackendLifecycle.Lifecycle
    /** A server that is being stopped by a shutdown; its caches are cleared at the end, those of a lost one at once. */
    var shutdown: bool
    /** Whether the server's input is open; nothing else tells the backend that what it sends is dropped. */
    var inputOpen: bool
    /** What the present server has heard, and what each of the servers before it had heard in the end. */
    ghost var heard: seq<Notification>
    ghost var past: seq<seq<Notification>>
    ghost var announced: set<Root>
    /** Something that was to be sent since the caches were cleared last has been dropped. */
    ghost var missed: bool

    predicate HasServer()
      reads this`lifecycle
    {
      lifecycle.Starting? || lifecycle.Running?
    }

    predicate ShuttingDown()
      reads this`lifecycle, this`shutdown
    {
      lifecycle.Stopping? && shutdown
    }

    predicate Listening()
      reads this`lifecycle, this`inputOpen
    {
      HasServer() && inputOpen
    }

    /** The server has heard nothing out of order and has the open documents; without a server, there are none. */
    ghost predicate InStep()
      reads this`heard, documents
    {
      HearAll(heard) == Some(Mirror(documents.openDocs))
    }

    /** The server knows of every project that has open documents. */
    ghost predicate KnowsProjects()
      reads this`initialWorkspaceRoot, this`announced, documents
    {
      forall root | root in documents.projectFiles :: Some(root) == initialWorkspaceRoot || root in announced
    }

    /** As long as nothing has been dropped, the server has the documents and knows the projects. */
    ghost predicate Told()
      reads this, documents
    {
      !missed ==> InStep() && KnowsProjects()
    }

    ghost predicate Valid()
      reads this, documents
    {
      && documents.Valid()
      && (!HasServer() ==> heard == [] && announced == {})
      && (!ShuttingDown() ==> Told())
    }

    constructor (documents: DocumentManager)
      requires documents.Valid() && documents.openDocs == map[]
      ensures Valid() && lifecycle == BackendLifecycle.Idle(0) && !missed && past == [] && this.documents == documents
    {
      this.documents := documents;
      initialWorkspaceRoot, lifecycle, shutdown, inputOpen := None, BackendLifecycle.Idle(0), false, false;
      heard, announced, missed := [], {}, false;
      past := [];
      new;
      NothingOpen(documents.openDocs);
    }

    // ---- What is sent ----------------------------------------------------------------------------

    method Send(n: Notification)
      modifies this`heard, this`missed
      ensures Listening() ==> heard == old(heard) + [n] && missed == old(missed)
      ensures !Listening() ==> heard == old(heard) && missed
    {
      if Listening() {
        heard := heard + [n];
      } else {
        missed := true;
      }
    }

    method AddWorkspaceFolder(root: Root)
      modifies this`announced
      ensures announced == old(announced) + if Listening() then {root} else {}
    {
      if Listening() {
        announced := announced + {root};
      }
    }

    /** Opens or refreshes the file and tells the server. */
    method Refresh(path: Path, disk: Option<string>) returns (ghost root: Root, ghost languageId: string)
      requires documents.Valid()
      modifies this`heard, this`announced, this`missed, documents
      ensures documents.Valid()
      ensures documents.openDocs ==
        After(old(documents.openDocs), path, disk, root, languageId, documents.accessCounter)
      ensures disk.Some? ==>
        && path in documents.openDocs && documents.openDocs[path].content == disk.value
        && IsNewest(documents.openDocs, path)
      ensures old(heard) <= heard && old(announced) <= announced
      ensures Listening() || Unchanged(old(documents.openDocs), path, disk) ==> missed == old(missed)
      ensures !Listening() ==> heard == old(heard) && announced == old(announced) && (old(missed) ==> missed)
      ensures (Listening() || !missed) && old(InStep()) ==> InStep()
      ensures (Listening() || !missed) && old(KnowsProjects()) ==> KnowsProjects()
    {
      hide Known, ToldApart, Spoken, Grouped, HearAll, Hear, Mirror, Refreshed, Noted, Roots, FilesOf, IsNewest,
           Unchanged;
      ghost var before := documents.openDocs;
      NothingToRefresh(before, path);
      root := documents.GetProjectRoot(path);
      languageId := documents.resolveLanguageId(path);
      ghost var access := documents.accessCounter;
      var news := documents.Open(path, disk);
      if disk.Some? {
        OpenedFacts(before, documents.rootCache, access, path, languageId, disk.value);
        NotedNew(before, path, languageId, disk.value);
      }
      if news.Some? {
        if news.value.1 && Some(news.value.2) != initialWorkspaceRoot {
          AddWorkspaceFolder(news.value.2);
        }
        HearIfTold(heard, before, news.value.0);
        Send(news.value.0);
      }
    }

    /** Tells the server of files that have been closed. */
    method SendClosed(uris: seq<Path>, ghost before: map<Path, OpenDocument>)
      requires forall i | 0 <= i < |uris| :: uris[i] in before
      requires forall i, j | 0 <= i < j < |uris| :: uris[i] != uris[j]
      modifies this`heard, this`missed
      ensures old(heard) <= heard
      ensures Listening() || uris == [] ==> missed == old(missed)
      ensures !Listening() ==> heard == old(heard) && (old(missed) || uris != [] ==> missed)
      ensures Listening() && HearAll(old(heard)) == Some(Mirror(before)) ==>
        HearAll(heard) == Some(Mirror(before - SetOf(uris)))
    {
      hide HearAll, Hear, Mirror, SetOf, HasServer;
      NothingGone(before);
      assert uris[..0] == [] && uris[..|uris|] == uris;
      for i := 0 to |uris|
        invariant old(heard) <= heard
        invariant Listening() || i == 0 ==> missed == old(missed)
        invariant !Listening() ==> heard == old(heard) && (old(missed) || i > 0 ==> missed)
        invariant Listening() && HearAll(old(heard)) == Some(Mirror(before)) ==>
          HearAll(heard) == Some(Mirror(before - SetOf(uris[..i])))
      {
        HearClosing(before, uris, i);
        HearIfTold(heard, before - SetOf(uris[..i]), DidClose(uris[i]));
        Send(DidClose(uris[i]));
      }
    }

    /** Closes what is open beyond the limit and tells the server. */
    method CloseTooMany() returns (ghost evicted: seq<Path>)
      requires documents.Valid()
      modifies this`heard, this`missed, documents`openDocs, documents`projectFiles
      ensures documents.Valid()
      ensures IsEviction(old(documents.openDocs), documents.openDocs, evicted, MAX_OPEN_DOCUMENTS)
      ensures old(heard) <= heard
      ensures Listening() || |old(documents.openDocs)| <= MAX_OPEN_DOCUMENTS ==> missed == old(missed)
      ensures !Listening() ==> heard == old(heard) && (old(missed) ==> missed)
      ensures (Listening() || !missed) && old(InStep()) ==> InStep()
      ensures old(KnowsProjects()) ==> KnowsProjects()
    {
      hide Known, ToldApart, Spoken, Grouped, HearAll, Hear, Mirror, IsEviction, SetOf, Roots, FilesOf, HasServer;
      hide Listening, Told;
      ghost var before := documents.openDocs;
      var uris := documents.Evict(MAX_OPEN_DOCUMENTS);
      evicted := uris;
      EvictionFacts(before, documents.openDocs, evicted, MAX_OPEN_DOCUMENTS);
      if |before| <= MAX_OPEN_DOCUMENTS {
        NothingEvicted(before, documents.openDocs, evicted);
      }
      ProjectsWithout(before, SetOf(evicted));
      SendClosed(uris, before);
    }

    // ---- Files -----------------------------------------------------------------------------------

    /**
     A file is asked for: an idle backend starts a server in its project. Opening goes on once the server is ready,
     which it does not become if the backend is stopping or unavailable.
     */
    method BeginEnsureFile(path: Path) returns (goesOn: bool)
      requires Valid()
      modifies this`initialWorkspaceRoot, this`lifecycle, this`inputOpen, documents`rootCache
      ensures Valid() && path in documents.rootCache
      ensures goesOn <==> HasServer()
      ensures old(lifecycle).Idle? ==>
        lifecycle.Starting? && !inputOpen && initialWorkspaceRoot == Some(documents.rootCache[path])
      ensures !old(lifecycle).Idle? ==>
        lifecycle == old(lifecycle) && inputOpen == old(inputOpen) && initialWorkspaceRoot == old(initialWorkspaceRoot)
    {
      hide Known, ToldApart, Spoken, Grouped, HearAll, Mirror;
      var projectRoot := documents.GetProjectRoot(path);
      if lifecycle.Idle? {
        NothingHeard(heard);
        OnlyNothingMirrors(documents.openDocs);
        initialWorkspaceRoot := Some(projectRoot);
      }
      EnsureStarted();
      return HasServer();
    }

    /**
     The file is opened or refreshed and the files that are too many are closed, whatever has become of the server by
     then. The file itself stays open. The server stays in step exactly when it hears what it is sent, or when there is
     nothing to send.
     */
    method EnsureFile(path: Path, disk: Option<string>)
      requires Valid()
      modifies this`heard, this`announced, this`missed, documents
      ensures Valid() && |documents.openDocs| <= MAX_OPEN_DOCUMENTS
      ensures disk.Some? ==> path in documents.openDocs && documents.openDocs[path].content == disk.value
      ensures old(InStep()) ==> (InStep() <==> Listening() || Quiet(old(documents.openDocs), path, disk))
      ensures old(heard) <= heard && old(announced) <= announced
      ensures Listening() || Quiet(old(documents.openDocs), path, disk) ==> missed == old(missed)
    {
      hide Known, ToldApart, Spoken, Grouped, HearAll, Hear, Mirror, IsEviction, Quiet, Unchanged, After, IsNewest,
           SetOf;
      hide KnowsProjects, HasServer;
      ghost var before := documents.openDocs;
      ghost var root, languageId := Refresh(path, disk);
      ghost var between, access := documents.openDocs, documents.accessCounter;
      ghost var evicted := CloseTooMany();
      EnsuredFacts(before, between, documents.openDocs, evicted, path, disk, root, languageId, access);
    }

    /** Closes a file at the server. */
    method CloseFile(path: Path) returns (closed: bool)
      requires Valid()
      modifies this`heard, this`missed, documents`openDocs, documents`projectFiles
      ensures Valid() && documents.openDocs == old(documents.openDocs) - {path}
      ensures closed <==> path in old(documents.openDocs)
      ensures old(InStep()) ==> (InStep() <==> Listening() || !closed)
      ensures old(heard) <= heard && (Listening() || !closed ==> missed == old(missed))
    {
      hide Known, ToldApart, Spoken, Grouped, HearAll, Hear, Mirror, Roots, FilesOf;
      ghost var before := documents.openDocs;
      ProjectsWithout(before, {path});
      closed := documents.Close(path);
      ClosingIsHeard(before, path);
      if !closed {
        return;
      }
      HearIfTold(heard, before, DidClose(path));
      Send(DidClose(path));
    }

    // ---- The server's life -----------------------------------------------------------------------

    method EnsureStarted()
      requires Valid()
      modifies this`lifecycle, this`inputOpen
      ensures Valid() && lifecycle ==
        if old(lifecycle).Idle? then BackendLifecycle.Starting(old(lifecycle).generation + 1) else old(lifecycle)
      ensures inputOpen == (!old(lifecycle).Idle? && old(inputOpen))
    {
      if lifecycle.Idle? {
        lifecycle, inputOpen := BackendLifecycle.Starting(lifecycle.generation + 1), false;
      }
    }

    /** The server's process is there, and takes what is sent. */
    method InstallProcess()
      requires Valid()
      modifies this`inputOpen
      ensures Valid() && inputOpen == (old(inputOpen) || lifecycle.Starting?)
    {
      if lifecycle.Starting? {
        inputOpen := true;
      }
    }

    method PublishRunning()
      requires Valid()
      modifies this`lifecycle
      ensures Valid() && lifecycle ==
        if old(lifecycle).Starting? then BackendLifecycle.Running(old(lifecycle).generation) else old(lifecycle)
    {
      if lifecycle.Starting? {
        lifecycle := BackendLifecycle.Running(lifecycle.generation);
      }
    }

    /** What is sent is no longer heard, as when the server's input has been closed. */
    method LoseInput()
      requires Valid()
      modifies this`inputOpen
      ensures Valid() && !inputOpen
    {
      inputOpen := false;
    }

    /** The server is given up. One that is lost takes the open documents along; a shutdown leaves them for now. */
    method BeginStopping(shutdown: bool, done: nat)
      requires Valid() && HasServer()
      modifies this`lifecycle, this`shutdown, this`heard, this`past, this`announced, this`missed, documents
      ensures Valid() && lifecycle == BackendLifecycle.Stopping(old(lifecycle).generation + 1, done)
      ensures this.shutdown == shutdown && past == old(past) + [old(heard)]
      ensures if shutdown then documents.openDocs == old(documents.openDocs) && missed == old(missed)
              else documents.openDocs == map[] && !missed
    {
      if !shutdown {
        documents.Clear();
        missed := false;
        NothingOpen(documents.openDocs);
      }
      past := past + [heard];
      this.shutdown := shutdown;
      lifecycle, heard, announced := BackendLifecycle.Stopping(lifecycle.generation + 1, done), [], {};
    }

    /** The server has gone. After a shutdown nothing is open; after a loss, what has been opened meanwhile still is. */
    method EndStopping(unavailable: bool)
      requires Valid() && lifecycle.Stopping?
      modifies this`lifecycle, this`missed, documents
      ensures Valid() && lifecycle == BackendLifecycle.Ended(old(lifecycle).generation, unavailable)
      ensures if shutdown then documents.openDocs == map[] && !missed
              else documents.openDocs == old(documents.openDocs) && missed == old(missed)
    {
      if shutdown {
        documents.Clear();
        missed := false;
        NothingOpen(documents.openDocs);
      }
      lifecycle := BackendLifecycle.Ended(lifecycle.generation, unavailable);
    }

    // ---- Runs ------------------------------------------------------------------------------------

    method AnyStep()
      requires Valid()
      modifies this, documents
      ensures Valid() && GoesOn(old(past), old(heard), past, heard)
    {
      hide Told, InStep, KnowsProjects;
      var choice: nat, path: Path, disk: Option<string>, done: nat, flag: bool := *, *, *, *, *;
      if choice == 0 {
        var goesOn := BeginEnsureFile(path);
      } else if choice == 1 {
        EnsureFile(path, disk);
      } else if choice == 2 {
        var closed := CloseFile(path);
      } else if choice == 3 {
        EnsureStarted();
      } else if choice == 4 {
        InstallProcess();
      } else if choice == 5 {
        PublishRunning();
      } else if choice == 6 && HasServer() {
        BeginStopping(flag, done);
      } else if choice == 7 && lifecycle.Stopping? {
        EndStopping(flag);
      } else {
        LoseInput();
      }
    }

    /**
     In any run of steps, over any number of servers: unless something has been dropped since the caches were cleared
     last, and but for the time of a shutdown, the server has exactly the open documents and knows of their projects.
     What a server has heard is never taken back.
     */
    method AnyRun(steps: nat)
      requires Valid()
      modifies this, documents
      ensures Valid() && (!missed && !ShuttingDown() ==> InStep() && KnowsProjects())
      ensures GoesOn(old(past), old(heard), past, heard)
    {
      for k := 0 to steps
        invariant Valid() && GoesOn(old(past), old(heard), past, heard)
      {
        AnyStep();
      }
    }

    /** A file that is opened after the server was lost is open for the next server, which has not heard of it. */
    method OpeningOutlivesServer(path: Path, text: string)
      requires Valid() && HasServer()
      modifies this, documents
      ensures Valid() && lifecycle.Starting? && path in documents.openDocs && HearAll(heard) == Some(map[]) && !InStep()
    {
      hide Known, ToldApart, Spoken, Grouped, HearAll, Mirror, Told, KnowsProjects, Quiet;
      BeginStopping(false, 0);
      EnsureFile(path, Some(text));
      EndStopping(false);
      EnsureStarted();
      NothingHeard(heard);
      OnlyNothingMirrors(documents.openDocs);
    }
  }

  lemma NothingHeard(heard: seq<Notification>)
    requires heard == []
    ensures HearAll(heard) == Some(map[])
  {
  }

  lemma NothingOpen(docs: map<Path, OpenDocument>)
    requires docs == map[]
    ensures HearAll([]) == Some(Mirror(docs)) && Grouped(docs) == map[]
  {
    assert Mirror(docs) == map[];
  }

  lemma OnlyNothingMirrors(docs: map<Path, OpenDocument>)
    ensures Mirror(docs) == map[] <==> docs == map[]
    ensures Grouped(map[]) == map[]
  {
    assert Mirror(docs).Keys == docs.Keys;
  }

  /** What a file that has been opened or refreshed means for the table, the server and the projects. */
  lemma OpenedFacts(
    docs: map<Path, OpenDocument>, cache: map<Path, Root>, counter: nat,
    path: Path, languageId: string, content: string)
    requires Known(docs, cache) && ToldApart(docs, counter) && path in cache
    ensures var d := Refreshed(docs, path, cache[path], languageId, content, counter + 1);
            var after := docs[path := d];
            && d.content == content && IsNewest(after, path)
            && (forall root | root in Grouped(after) :: root in Grouped(docs) || root == cache[path])
            && (path in docs ==> cache[path] in Grouped(docs))
            && match Noted(docs, path, languageId, content)
               case None => Mirror(after) == Mirror(docs) && path in docs
               case Some(n) => Hear(Mirror(docs), n) == Some(Mirror(after)) && (n.DidOpen? <==> path !in docs)
  {
    hide Known, ToldApart, Spoken, Grouped, HearAll, Hear, Mirror, Refreshed, Noted, Roots, FilesOf, IsNewest;
    var d := Refreshed(docs, path, cache[path], languageId, content, counter + 1);
    RefreshedIsKnown(docs, cache, counter, path, languageId, content);
    RefreshedContent(docs, path, cache[path], languageId, content, counter + 1);
    RefreshedIsNewest(docs, counter, d);
    NotedIsHeard(docs, path, cache[path], languageId, content, counter + 1);
    NotedNew(docs, path, languageId, content);
    ProjectsAfter(docs, d);
    IndexedAlready(docs, path);
  }

  lemma RefreshedContent(
    docs: map<Path, OpenDocument>, path: Path, root: Root, languageId: string, content: string, access: nat)
    ensures var d := Refreshed(docs, path, root, languageId, content, access);
            d.content == content && d.lastAccess == access
    ensures path in docs ==> Refreshed(docs, path, root, languageId, content, access).path == docs[path].path
    ensures path !in docs ==> Refreshed(docs, path, root, languageId, content, access).path == path
  {
  }

  lemma ProjectsAfter(docs: map<Path, OpenDocument>, d: OpenDocument)
    ensures forall root | root in Grouped(docs[d.path := d]) :: root in Grouped(docs) || root == d.projectRoot
  {
  }

  lemma ProjectsWithout(docs: map<Path, OpenDocument>, gone: set<Path>)
    ensures forall root | root in Grouped(docs - gone) :: root in Grouped(docs)
  {
  }

  lemma ClosingIsHeard(docs: map<Path, OpenDocument>, path: Path)
    ensures path in docs ==>
      Hear(Mirror(docs), DidClose(path)) == Some(Mirror(docs - {path})) && Mirror(docs - {path}) != Mirror(docs)
    ensures path !in docs ==> docs - {path} == docs
  {
    if path in docs {
      assert Mirror(docs) - {path} == Mirror(docs - {path});
      assert path in Mirror(docs) && path !in Mirror(docs - {path});
    }
  }

  /** Once the opening of a document has been lost, its next change is sent as a change, which a server must reject. */
  lemma LostOpeningIsNotMadeUp(
    heard: seq<Notification>, docs: map<Path, OpenDocument>, path: Path, languageId: string, content: string)
    requires HearAll(heard).Some? && path !in HearAll(heard).value && path in docs && docs[path].content != content
    ensures var n := Noted(docs, path, languageId, content); n.Some? && HearAll(heard + [n.value]) == None
  {
    HearMore(heard, Noted(docs, path, languageId, content).value);
  }
}
