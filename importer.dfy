/** The importer of dag.go: a map-backed object store, the chunk-tree
    builder for large files (dfsForStoreFile), the directory builder
    (storeDirectory) and the entry point Add. */
module Importer {
  import opened Objects
  import opened Chunker
  import opened Resolver

  /** What is imported: a file's bytes, or a directory's named children in
      the order its iterator yields them. */
  datatype Node = File(bytes: Bytes) | Dir(entries: seq<Entry>)
  datatype Entry = Entry(name: string, node: Node)

  function Sum(s: seq<nat>): nat {
    if s == [] then 0 else s[0] + Sum(s[1..])
  }

  /** Logical size of a node: a file's length, or the total length of the
      files below a directory. */
  function TotalSize(node: Node): nat
    decreases node
  {
    match node
    case File(bytes) => |bytes|
    case Dir(entries) =>
      Sum(seq(|entries|, i requires 0 <= i < |entries| => TotalSize(entries[i].node)))
  }

  /** The sizes of a sequence of links, entry by entry. */
  lemma {:induction false} SumSizesIs(links: seq<Link>, sizes: seq<nat>)
    requires |links| == |sizes|
    requires forall i :: 0 <= i < |links| ==> links[i].size == sizes[i]
    ensures SumSizes(links) == Sum(sizes)
  {
    if links != [] {
      SumSizesIs(links[1..], sizes[1..]);
    }
  }

  /** `after` keeps every entry of `before` unchanged. */
  ghost predicate Grows(before: StoreMap, after: StoreMap) {
    forall k :: k in before ==> k in after && after[k] == before[k]
  }

  // ---------------------------------------------------------------------
  // What a built chunk tree is

  /** `obj` is the chunk tree of `height` levels over `bytes` that
      dfsForStoreFile builds.  At height 0, and at height 1 for at most one
      chunk, it is a blob holding exactly `bytes`; otherwise it is a node of
      at most Fanout links whose children, one level lower, cover `bytes`
      left to right.  An empty rest above height 1 gives a node without
      links, which is an empty blob. */
  ghost predicate ChunkTree(store: StoreMap, obj: Object, height: nat, bytes: Bytes)
    decreases height, 0, 0
  {
    if obj.IsBlob() then
      && obj == Object([], bytes, FileType)
      && |bytes| <= ChunkSize
      && (height <= 1 || bytes == [])
    else
      && obj.kind == FileType
      && 1 <= height
      && (height == 1 ==> ChunkSize < |bytes|)
      && |obj.links| <= Fanout
      && obj.data == []
      && Covered(store, obj.links, height - 1, bytes)
  }

  /** The children of a node cover `bytes`; ChildrenCover under the name
      the node-level predicates and the building methods use.  The extra
      layer costs one more unfolding, so a method that mentions Covered does
      not also see the first link's conditions of ChildrenCover; this keeps
      the builders' proofs small.  Lemmas that reason link by link unfold
      it explicitly. */
  ghost predicate Covered(store: StoreMap, links: seq<Link>, height: nat, bytes: Bytes)
    decreases height, |links|, 1
  {
    ChildrenCover(store, links, height, bytes)
  }

  /** The links point, in order, at stored chunk trees of `height` levels
      over consecutive pieces of `bytes`.  Each unnamed link records its
      piece's length, which is as much of the rest as one such tree holds:
      every child but the last is full, and none is empty. */
  ghost predicate ChildrenCover(store: StoreMap, links: seq<Link>, height: nat, bytes: Bytes)
    decreases height, |links|, 0
  {
    if links == [] then bytes == []
    else
      && 0 < |bytes|
      && links[0].size == Min(|bytes|, Capacity(height))
      && links[0].name == ""
      && links[0].hash in store
      && ChunkTree(store, store[links[0].hash], height, bytes[..links[0].size])
      && ChildrenCover(store, links[1..], height, bytes[links[0].size..])
  }

  lemma {:induction false} ChildrenCoverSnoc(store: StoreMap, links: seq<Link>, height: nat, a: Bytes, link: Link, b: Bytes)
    requires ChildrenCover(store, links, height, a) && |a| == Repeat(|links|, Capacity(height))
    requires link.hash in store && link.name == "" && 0 < link.size == |b| <= Capacity(height)
    requires ChunkTree(store, store[link.hash], height, b)
    ensures ChildrenCover(store, links + [link], height, a + b)
    decreases |links|
  {
    if links == [] {
      assert links + [link] == [link] && a + b == b;
      assert b[..link.size] == b && b[link.size..] == [];
      assert [link][1..] == [];
    } else {
      var s := links[0].size;
      ChildrenCoverSnoc(store, links[1..], height, a[s..], link, b);
      assert (links + [link])[0] == links[0] && (links + [link])[1..] == links[1..] + [link];
      assert (a + b)[..s] == a[..s] && (a + b)[s..] == a[s..] + b;
    }
  }

  lemma {:induction false} ChunkTreeGrows(store: StoreMap, store': StoreMap, obj: Object, height: nat, bytes: Bytes)
    requires Grows(store, store') && ChunkTree(store, obj, height, bytes)
    ensures ChunkTree(store', obj, height, bytes)
    decreases height, 0
  {
    if !obj.IsBlob() {
      ChildrenCoverGrows(store, store', obj.links, height - 1, bytes);
    }
  }

  lemma {:induction false} ChildrenCoverGrows(store: StoreMap, store': StoreMap, links: seq<Link>, height: nat, bytes: Bytes)
    requires Grows(store, store') && ChildrenCover(store, links, height, bytes)
    ensures ChildrenCover(store', links, height, bytes)
    decreases height, |links|
  {
    if links != [] {
      var s := links[0].size;
      ChunkTreeGrows(store, store', store[links[0].hash], height, bytes[..s]);
      ChildrenCoverGrows(store, store', links[1..], height, bytes[s..]);
    }
  }

  /** The link sizes of covering children add up to the bytes covered. */
  lemma {:induction false} ChildrenCoverSizes(store: StoreMap, links: seq<Link>, height: nat, bytes: Bytes)
    requires ChildrenCover(store, links, height, bytes)
    ensures SumSizes(links) == |bytes|
    decreases |links|
  {
    if links != [] {
      ChildrenCoverSizes(store, links[1..], height, bytes[links[0].size..]);
    }
  }

  /** Every link of a covering sequence leads to a stored object. */
  lemma {:induction false} CoverStored(store: StoreMap, links: seq<Link>, height: nat, bytes: Bytes)
    requires Covered(store, links, height, bytes)
    ensures forall l :: l in links ==> l.hash in store
    decreases |links|
  {
    if links != [] {
      CoverStored(store, links[1..], height, bytes[links[0].size..]);
      assert forall l :: l in links ==> l == links[0] || l in links[1..];
    }
  }

  /** n copies of c, added one at a time as the loops of dfsForStoreFile
      add children. */
  function Repeat(n: nat, c: nat): nat {
    if n == 0 then 0 else Repeat(n - 1, c) + c
  }

  /** At most Fanout children of one level fit in the level above, and
      Fanout of them fill it exactly. */
  lemma {:induction false} RepeatCapacity(n: nat, height: nat)
    requires 1 <= height && n <= Fanout
    ensures Repeat(n, Capacity(height - 1)) <= Capacity(height)
    ensures n == Fanout ==> Repeat(n, Capacity(height - 1)) == Capacity(height)
  {
    RepeatIsProduct(n, Capacity(height - 1));
    MulMonotone(n, Fanout, Capacity(height - 1));
    CapacityStep(height);
  }

  /** Repeated addition is multiplication. */
  lemma {:induction false} RepeatIsProduct(n: nat, c: nat)
    ensures Repeat(n, c) == n * c
  {
    if n > 0 {
      RepeatIsProduct(n - 1, c);
    }
  }

  // ---------------------------------------------------------------------
  // The keys a build writes

  /** Keys of the objects below a chunk-tree node of `height` levels: the
      keys of its links and, level by level, the keys below them. */
  ghost function TreeKeys(store: StoreMap, obj: Object, height: nat): set<Key>
    decreases height, 0, 0
  {
    if height == 0 then {} else CoverKeys(store, obj.links, height - 1)
  }

  /** The keys behind a sequence of links to trees of `height` levels. */
  ghost function CoverKeys(store: StoreMap, links: seq<Link>, height: nat): set<Key>
    decreases height, |links|, 2
  {
    if links == [] then {}
    else CoverKeys(store, links[..|links| - 1], height) + LinkKeys(store, links[|links| - 1], height)
  }

  /** The key of one link to a tree of `height` levels, and the keys below it. */
  ghost function LinkKeys(store: StoreMap, link: Link, height: nat): set<Key>
    decreases height, 0, 1
  {
    {link.hash} + (if link.hash in store then TreeKeys(store, store[link.hash], height) else {})
  }

  /** Every key `after` holds was held by `before` or is one of `written`:
      the writes in between stored nothing else. */
  ghost predicate WritesWithin(before: StoreMap, after: StoreMap, written: set<Key>) {
    forall k {:trigger k in after} :: k in after ==> k in before || k in written
  }

  /** Every link of a stored object leads to a stored object. */
  ghost predicate LinksStored(store: StoreMap) {
    forall k, l :: k in store && l in store[k].links ==> l.hash in store
  }

  /** When every link leads to a stored object, so does everything behind
      links that are stored. */
  lemma {:induction false} CoverKeysStored(store: StoreMap, links: seq<Link>, height: nat)
    requires LinksStored(store) && forall l :: l in links ==> l.hash in store
    ensures CoverKeys(store, links, height) <= store.Keys
    decreases height, |links|
  {
    if links != [] {
      var last := links[|links| - 1];
      assert last in links;
      assert forall l :: l in links[..|links| - 1] ==> l in links;
      CoverKeysStored(store, links[..|links| - 1], height);
      if 0 < height {
        var child := store[last.hash];
        assert TreeKeys(store, child, height) == CoverKeys(store, child.links, height - 1);
        CoverKeysStored(store, child.links, height - 1);
      }
    }
  }

  /** Writes that keep what is stored never change the keys behind links
      whose keys are all stored. */
  lemma {:induction false} CoverKeysGrow(before: StoreMap, after: StoreMap, links: seq<Link>, height: nat)
    requires Grows(before, after) && CoverKeys(before, links, height) <= before.Keys
    ensures CoverKeys(after, links, height) == CoverKeys(before, links, height)
    decreases height, |links|
  {
    if links != [] {
      var last := links[|links| - 1];
      assert CoverKeys(before, links, height)
          == CoverKeys(before, links[..|links| - 1], height) + LinkKeys(before, last, height);
      CoverKeysGrow(before, after, links[..|links| - 1], height);
      assert last.hash in before;
      if 0 < height {
        var child := before[last.hash];
        assert TreeKeys(before, child, height) == CoverKeys(before, child.links, height - 1);
        CoverKeysGrow(before, after, child.links, height - 1);
        assert TreeKeys(after, child, height) == CoverKeys(after, child.links, height - 1);
      }
    }
  }

  /** One more link adds its own keys to those behind the links before it. */
  lemma CoverKeysSnoc(before: StoreMap, after: StoreMap, links: seq<Link>, height: nat, link: Link)
    requires Grows(before, after) && CoverKeys(before, links, height) <= before.Keys
    ensures CoverKeys(after, links + [link], height) == CoverKeys(before, links, height) + LinkKeys(after, link, height)
  {
    CoverKeysGrow(before, after, links, height);
    assert (links + [link])[..|links|] == links;
  }

  /** One round of a builder's loop: the store held, besides what it held at
      `start`, only the keys behind `links`; building one more child wrote
      only that child's tree.  Then it holds, besides, only the keys behind
      `links + [link]`. */
  lemma WritesStep(start: StoreMap, before: StoreMap, after: StoreMap, links: seq<Link>, height: nat,
                   bytes: Bytes, link: Link, child: Object)
    requires LinksStored(before) && Covered(before, links, height, bytes)
    requires Grows(before, after) && WritesWithin(start, before, CoverKeys(before, links, height))
    requires link.hash in after && after[link.hash] == child
    requires WritesWithin(before, after, {link.hash} + TreeKeys(after, child, height))
    ensures WritesWithin(start, after, CoverKeys(after, links + [link], height))
  {
    CoverStored(before, links, height, bytes);
    CoverKeysStored(before, links, height);
    CoverKeysSnoc(before, after, links, height, link);
  }

  /** The end of a builder's loop: the node written over `links` adds only
      its own key to the keys behind them, which are the keys of its tree. */
  lemma WritesClose(start: StoreMap, mid: StoreMap, after: StoreMap, links: seq<Link>, height: nat,
                    bytes: Bytes, h: Key, obj: Object)
    requires LinksStored(mid) && Covered(mid, links, height, bytes)
    requires WritesWithin(start, mid, CoverKeys(mid, links, height))
    requires obj.links == links && after == mid[h := obj] && Grows(mid, after)
    ensures WritesWithin(start, after, {h} + TreeKeys(after, obj, height + 1))
  {
    CoverStored(mid, links, height, bytes);
    CoverKeysStored(mid, links, height);
    CoverKeysGrow(mid, after, links, height);
  }

  lemma GrowsTransitive(a: StoreMap, b: StoreMap, c: StoreMap)
    requires Grows(a, b) && Grows(b, c)
    ensures Grows(a, c)
  {
  }

  /** One more child, over the bytes right after those already covered,
      extends the cover; the children covered so far survive the writes
      made while building it. */
  lemma ExtendCover(before: StoreMap, after: StoreMap, links: seq<Link>, height: nat,
                    file: Bytes, from: nat, mid: nat, to: nat, link: Link)
    requires from <= mid <= to <= |file|
    requires Grows(before, after) && Covered(before, links, height, file[from..mid])
    requires mid - from == Repeat(|links|, Capacity(height))
    requires link.hash in after && link.name == "" && 0 < link.size == to - mid <= Capacity(height)
    requires ChunkTree(after, after[link.hash], height, file[mid..to])
    ensures Covered(after, links + [link], height, file[from..to])
  {
    ChildrenCoverGrows(before, after, links, height, file[from..mid]);
    ChildrenCoverSnoc(after, links, height, file[from..mid], link, file[mid..to]);
    assert file[from..mid] + file[mid..to] == file[from..to];
  }

  /** ExtendCover for a child just built from `mid` on: its link records the
      number of bytes the child covers. */
  lemma ExtendCoverWithChild(before: StoreMap, after: StoreMap, links: seq<Link>, height: nat,
                             file: Bytes, from: nat, mid: nat, child: Object, link: Link)
    requires from <= mid < |file|
    requires Grows(before, after) && Covered(before, links, height, file[from..mid])
    requires mid - from == Repeat(|links|, Capacity(height))
    requires link.hash in after && after[link.hash] == child && link.name == ""
    requires link.size == Min(|file| - mid, Capacity(height))
    requires ChunkTree(after, child, height, file[mid..mid + link.size])
    ensures mid + link.size <= |file|
    ensures Covered(after, links + [link], height, file[from..mid + link.size])
  {
    CapacityPositive(height);
    ExtendCover(before, after, links, height, file, from, mid, mid + link.size, link);
  }

  /** The node written over covering children is a chunk tree one level up. */
  lemma CloseNode(before: StoreMap, after: StoreMap, links: seq<Link>, height: nat, bytes: Bytes)
    requires 1 <= height && |links| <= Fanout && (height == 1 ==> ChunkSize < |bytes|)
    requires Grows(before, after) && Covered(before, links, height - 1, bytes)
    ensures ChunkTree(after, Object(links, [], FileType), height, bytes)
  {
    ChildrenCoverGrows(before, after, links, height - 1, bytes);
  }

  /** Every object of `store` sits under its own key. */
  ghost predicate KeyedBy(store: StoreMap, key: Object -> Key) {
    forall k :: k in store ==> key(store[k]) == k
  }

  /** Which chunk trees are blobs: those of height 0, those of height 1
      over at most one chunk, and those over no bytes at all. */
  lemma ChunkTreeBlob(store: StoreMap, obj: Object, height: nat, bytes: Bytes)
    requires ChunkTree(store, obj, height, bytes)
    ensures obj.IsBlob() <==> height == 0 || (height == 1 && |bytes| <= ChunkSize) || bytes == []
  {
    if !obj.IsBlob() {
      assert ChildrenCover(store, obj.links, height - 1, bytes);
    }
  }

  /** A chunk tree is determined by its height and its bytes: two stores
      keyed by the same function hold the same root for them. */
  lemma {:induction false} ChunkTreeUnique(key: Object -> Key, s1: StoreMap, s2: StoreMap, o1: Object, o2: Object,
                                           height: nat, bytes: Bytes)
    requires KeyedBy(s1, key) && KeyedBy(s2, key)
    requires ChunkTree(s1, o1, height, bytes) && ChunkTree(s2, o2, height, bytes)
    ensures o1 == o2
    decreases height, 0
  {
    ChunkTreeBlob(s1, o1, height, bytes);
    ChunkTreeBlob(s2, o2, height, bytes);
    if !o1.IsBlob() {
      CoverUnique(key, s1, s2, o1.links, o2.links, height - 1, bytes);
    }
  }

  /** The links covering the same bytes at the same height are the same. */
  lemma {:induction false} CoverUnique(key: Object -> Key, s1: StoreMap, s2: StoreMap, l1: seq<Link>, l2: seq<Link>,
                                       height: nat, bytes: Bytes)
    requires KeyedBy(s1, key) && KeyedBy(s2, key)
    requires Covered(s1, l1, height, bytes) && Covered(s2, l2, height, bytes)
    ensures l1 == l2
    decreases height, |l1|
  {
    if l1 != [] && l2 != [] {
      var n := l1[0].size;
      ChunkTreeUnique(key, s1, s2, s1[l1[0].hash], s2[l2[0].hash], height, bytes[..n]);
      assert l1[0].hash == key(s1[l1[0].hash]);
      CoverUnique(key, s1, s2, l1[1..], l2[1..], height, bytes[n..]);
      assert l1 == [l1[0]] + l1[1..] && l2 == [l2[0]] + l2[1..];
    }
  }

  /** Depth-first materialisation of covering children appends exactly the
      bytes they cover. */
  lemma {:induction false} ChildrenMaterialize(store: StoreMap, links: seq<Link>, height: nat, bytes: Bytes, acc: Bytes, fuel: nat)
    requires ChildrenCover(store, links, height, bytes)
    requires height <= fuel
    ensures DfsLinks(store, links, acc, fuel) == Ok(acc + bytes)
    decreases height, |links|
  {
    if links == [] {
      assert acc + bytes == acc;
    } else {
      var s := links[0].size;
      LinkMaterialize(store, links[0], height, bytes[..s], acc, fuel);
      ChildrenMaterialize(store, links[1..], height, bytes[s..], acc + bytes[..s], fuel);
      assert acc + bytes[..s] + bytes[s..] == acc + bytes;
    }
  }

  /** The same for one link to a stored chunk tree. */
  lemma {:induction false} LinkMaterialize(store: StoreMap, link: Link, height: nat, bytes: Bytes, acc: Bytes, fuel: nat)
    requires link.hash in store && ChunkTree(store, store[link.hash], height, bytes)
    requires height <= fuel
    ensures DfsLink(store, link, acc, fuel) == Ok(acc + bytes)
    decreases height, 0
  {
    var child := store[link.hash];
    if !child.IsBlob() {
      assert Covered(store, child.links, height - 1, bytes);
      ChildrenMaterialize(store, child.links, height - 1, bytes, acc, fuel - 1);
    }
  }

  /** A chunk tree of height h materialises to its bytes once the depth
      bound reaches h - 1. */
  lemma TreeMaterializes(store: StoreMap, obj: Object, height: nat, bytes: Bytes, fuel: nat)
    requires ChunkTree(store, obj, height, bytes)
    requires height <= fuel + 1
    ensures Materialize(store, obj, fuel) == Ok(bytes)
  {
    if !obj.IsBlob() {
      ChildrenMaterialize(store, obj.links, height - 1, bytes, [], fuel);
      assert [] + bytes == bytes;
    }
  }

  /** Round trip: the root key of a stored chunk tree over `file`, with the
      empty path, resolves to exactly `file`. */
  lemma FileRoundTrip(store: StoreMap, root: Key, height: nat, file: Bytes, fuel: nat)
    requires root in store && ChunkTree(store, store[root], height, file)
    requires height <= fuel + 1
    ensures Hash2File(store, root, "", fuel) == Ok(file)
  {
    TreeMaterializes(store, store[root], height, file, fuel);
  }

  // ---------------------------------------------------------------------
  // What a built directory is

  /** `obj` is the stored form of `node`: a file becomes one blob of its
      bytes; a directory becomes a link-only object with one link per entry,
      in entry order, named after the entry, sized by its logical size and
      pointing at the stored form of the entry. */
  ghost predicate DirTree(store: StoreMap, obj: Object, node: Node)
    decreases node
  {
    match node
    case File(bytes) => obj == Object([], bytes, FileType)
    case Dir(entries) =>
      && obj.kind == DirType
      && obj.data == []
      && |obj.links| == |entries|
      && forall i :: 0 <= i < |entries| ==> EntryStored(store, obj.links[i], entries[i])
  }

  ghost predicate EntryStored(store: StoreMap, link: Link, entry: Entry)
    decreases entry
  {
    && link.name == entry.name
    && link.size == TotalSize(entry.node)
    && link.hash in store
    && DirTree(store, store[link.hash], entry.node)
  }

  lemma {:induction false} DirTreeGrows(store: StoreMap, store': StoreMap, obj: Object, node: Node)
    requires Grows(store, store') && DirTree(store, obj, node)
    ensures DirTree(store', obj, node)
    decreases node
  {
    match node
    case File(_) =>
    case Dir(entries) =>
      forall i | 0 <= i < |entries|
        ensures EntryStored(store', obj.links[i], entries[i])
      {
        EntryStoredGrows(store, store', obj.links[i], entries[i]);
      }
  }

  lemma {:induction false} EntryStoredGrows(store: StoreMap, store': StoreMap, link: Link, entry: Entry)
    requires Grows(store, store') && EntryStored(store, link, entry)
    ensures EntryStored(store', link, entry)
    decreases entry
  {
    DirTreeGrows(store, store', store[link.hash], entry.node);
  }

  /** Keys of the objects below a directory object built for `node`: each
      entry's key and, for a subdirectory, the keys below it. */
  ghost function DirKeys(store: StoreMap, obj: Object, node: Node): set<Key>
    decreases node
  {
    match node
    case File(_) => {}
    case Dir(entries) => EntriesKeys(store, obj.links, entries)
  }

  /** The keys behind links paired, from the back, with directory entries. */
  ghost function EntriesKeys(store: StoreMap, links: seq<Link>, entries: seq<Entry>): set<Key>
    decreases entries
  {
    if links == [] || entries == [] then {}
    else
      var prefix := EntriesKeys(store, links[..|links| - 1], entries[..|entries| - 1]);
      prefix + EntryKeys(store, links[|links| - 1], entries[|entries| - 1])
  }

  /** The key of the link to one entry, and the keys below it. */
  ghost function EntryKeys(store: StoreMap, link: Link, entry: Entry): set<Key>
    decreases entry
  {
    {link.hash} + (if link.hash in store then DirKeys(store, store[link.hash], entry.node) else {})
  }

  /** When every link leads to a stored object, so does everything behind
      directory links that are stored. */
  lemma {:induction false} EntriesKeysStored(store: StoreMap, links: seq<Link>, entries: seq<Entry>)
    requires LinksStored(store) && forall l :: l in links ==> l.hash in store
    ensures EntriesKeys(store, links, entries) <= store.Keys
    decreases entries
  {
    if links != [] && entries != [] {
      var last := links[|links| - 1];
      assert last in links;
      assert forall l :: l in links[..|links| - 1] ==> l in links;
      EntriesKeysStored(store, links[..|links| - 1], entries[..|entries| - 1]);
      var entry := entries[|entries| - 1];
      match entry.node
      case File(_) =>
        assert EntryKeys(store, last, entry) == {last.hash};
      case Dir(children) =>
        assert EntryKeys(store, last, entry) == {last.hash} + EntriesKeys(store, store[last.hash].links, children);
        EntriesKeysStored(store, store[last.hash].links, children);
    }
  }

  /** Writes that keep what is stored never change the keys behind
      directory links whose keys are all stored. */
  lemma {:induction false} EntriesKeysGrow(before: StoreMap, after: StoreMap, links: seq<Link>, entries: seq<Entry>)
    requires Grows(before, after) && EntriesKeys(before, links, entries) <= before.Keys
    ensures EntriesKeys(after, links, entries) == EntriesKeys(before, links, entries)
    decreases entries
  {
    if links != [] && entries != [] {
      var last := links[|links| - 1];
      var entry := entries[|entries| - 1];
      assert EntriesKeys(before, links, entries)
          == EntriesKeys(before, links[..|links| - 1], entries[..|entries| - 1]) + EntryKeys(before, last, entry);
      EntriesKeysGrow(before, after, links[..|links| - 1], entries[..|entries| - 1]);
      assert last.hash in before;
      match entry.node
      case File(_) =>
        assert EntryKeys(before, last, entry) == {last.hash} == EntryKeys(after, last, entry);
      case Dir(children) =>
        var child := before[last.hash];
        assert EntryKeys(before, last, entry) == {last.hash} + EntriesKeys(before, child.links, children);
        EntriesKeysGrow(before, after, child.links, children);
        assert EntryKeys(after, last, entry) == {last.hash} + EntriesKeys(after, child.links, children);
    }
  }

  /** One round of storeDirectory's loop: the store held, besides what it
      held at `start`, only the keys behind the first `i` entries; storing
      entry `i` wrote only its own tree.  Then it holds, besides, only the
      keys behind the first `i + 1` entries. */
  lemma DirWritesStep(start: StoreMap, before: StoreMap, after: StoreMap, links: seq<Link>,
                      entries: seq<Entry>, link: Link, child: Object)
    requires |links| < |entries|
    requires LinksStored(before) && forall m :: 0 <= m < |links| ==> links[m].hash in before
    requires Grows(before, after) && WritesWithin(start, before, EntriesKeys(before, links, entries[..|links|]))
    requires link.hash in after && after[link.hash] == child
    requires WritesWithin(before, after, {link.hash} + DirKeys(after, child, entries[|links|].node))
    ensures WritesWithin(start, after, EntriesKeys(after, links + [link], entries[..|links| + 1]))
  {
    var i := |links|;
    assert forall l :: l in links ==> l.hash in before;
    EntriesKeysStored(before, links, entries[..i]);
    EntriesKeysGrow(before, after, links, entries[..i]);
    assert (links + [link])[..i] == links;
    assert entries[..i + 1][..i] == entries[..i];
    assert EntriesKeys(after, links + [link], entries[..i + 1])
        == EntriesKeys(after, links, entries[..i]) + EntryKeys(after, link, entries[i]);
  }

  /** Once the tree under `h` is stored, a store that wrote nothing outside
      it holds exactly the keys it held before and the keys of that tree. */
  lemma TreeWritesExact(before: StoreMap, after: StoreMap, h: Key, height: nat)
    requires LinksStored(after) && h in after && Grows(before, after)
    requires WritesWithin(before, after, {h} + TreeKeys(after, after[h], height))
    ensures after.Keys == before.Keys + {h} + TreeKeys(after, after[h], height)
  {
    if 0 < height {
      CoverKeysStored(after, after[h].links, height - 1);
    }
  }

  /** The same for a directory tree under `h`. */
  lemma DirWritesExact(before: StoreMap, after: StoreMap, h: Key, dir: Node)
    requires LinksStored(after) && h in after && Grows(before, after) && dir.Dir?
    requires WritesWithin(before, after, {h} + DirKeys(after, after[h], dir))
    ensures after.Keys == before.Keys + {h} + DirKeys(after, after[h], dir)
  {
    EntriesKeysStored(after, after[h].links, dir.entries);
  }

  /** The end of storeDirectory: the directory object adds only its own key
      to the keys behind its entries, which are the keys of its tree. */
  lemma DirWritesClose(start: StoreMap, mid: StoreMap, after: StoreMap, links: seq<Link>,
                       entries: seq<Entry>, h: Key, obj: Object)
    requires LinksStored(mid) && forall l :: l in links ==> l.hash in mid
    requires WritesWithin(start, mid, EntriesKeys(mid, links, entries))
    requires obj.links == links && after == mid[h := obj] && Grows(mid, after)
    ensures WritesWithin(start, after, {h} + DirKeys(after, obj, Dir(entries)))
  {
    EntriesKeysStored(mid, links, entries);
    EntriesKeysGrow(mid, after, links, entries);
  }

  /** A directory's stored form is determined by the directory: two stores
      keyed by the same function hold the same object for it. */
  lemma {:induction false} DirTreeUnique(key: Object -> Key, s1: StoreMap, s2: StoreMap, o1: Object, o2: Object, node: Node)
    requires KeyedBy(s1, key) && KeyedBy(s2, key)
    requires DirTree(s1, o1, node) && DirTree(s2, o2, node)
    ensures o1 == o2
    decreases node
  {
    match node
    case File(_) =>
    case Dir(entries) =>
      forall i | 0 <= i < |entries|
        ensures o1.links[i] == o2.links[i]
      {
        EntryUnique(key, s1, s2, o1.links[i], o2.links[i], entries[i]);
      }
      assert o1.links == o2.links;
  }

  lemma {:induction false} EntryUnique(key: Object -> Key, s1: StoreMap, s2: StoreMap, link1: Link, link2: Link, entry: Entry)
    requires KeyedBy(s1, key) && KeyedBy(s2, key)
    requires EntryStored(s1, link1, entry) && EntryStored(s2, link2, entry)
    ensures link1 == link2
    decreases entry
  {
    DirTreeUnique(key, s1, s2, s1[link1.hash], s2[link2.hash], entry.node);
    assert link1.hash == key(s1[link1.hash]);
  }

  /** Two stores keyed by the same injective function agree on every key
      they share, so their union extends both. */
  lemma UnionGrows(key: Object -> Key, s1: StoreMap, s2: StoreMap)
    requires Injective(key) && KeyedBy(s1, key) && KeyedBy(s2, key)
    ensures Grows(s1, s1 + s2) && Grows(s2, s1 + s2)
  {
  }

  /** The converse of ChunkTreeUnique: one root never stands for two
      different files, whatever heights the two trees were built with. */
  lemma SameRootSameBytes(key: Object -> Key, s1: StoreMap, s2: StoreMap, obj: Object,
                          h1: nat, h2: nat, b1: Bytes, b2: Bytes)
    requires Injective(key) && KeyedBy(s1, key) && KeyedBy(s2, key)
    requires ChunkTree(s1, obj, h1, b1) && ChunkTree(s2, obj, h2, b2)
    ensures b1 == b2
  {
    UnionGrows(key, s1, s2);
    ChunkTreeGrows(s1, s1 + s2, obj, h1, b1);
    ChunkTreeGrows(s2, s1 + s2, obj, h2, b2);
    TreeMaterializes(s1 + s2, obj, h1, b1, h1 + h2);
    TreeMaterializes(s1 + s2, obj, h2, b2, h1 + h2);
  }

  /** The converse of DirTreeUnique: one stored object is the form of at
      most one node. */
  lemma {:induction false} SameRootSameNode(key: Object -> Key, s1: StoreMap, s2: StoreMap, obj: Object,
                                            n1: Node, n2: Node)
    requires Injective(key) && KeyedBy(s1, key) && KeyedBy(s2, key)
    requires DirTree(s1, obj, n1) && DirTree(s2, obj, n2)
    ensures n1 == n2
    decreases n1
  {
    if n1.Dir? && n2.Dir? {
      var e1, e2 := n1.entries, n2.entries;
      forall i | 0 <= i < |e1|
        ensures e1[i] == e2[i]
      {
        var link := obj.links[i];
        assert EntryStored(s1, link, e1[i]) && EntryStored(s2, link, e2[i]);
        assert key(s1[link.hash]) == key(s2[link.hash]);
        SameRootSameNode(key, s1, s2, s1[link.hash], e1[i].node, e2[i].node);
      }
      assert e1 == e2;
    }
  }

  /** The link sizes of a stored directory add up to the directory's
      logical size, as the sizes of a chunk-tree node's links add up to the
      bytes it covers. */
  lemma DirLinksSize(store: StoreMap, obj: Object, dir: Node)
    requires dir.Dir? && DirTree(store, obj, dir)
    ensures SumSizes(obj.links) == TotalSize(dir)
  {
    var entries := dir.entries;
    var sizes := seq(|entries|, i requires 0 <= i < |entries| => TotalSize(entries[i].node));
    forall i | 0 <= i < |entries|
      ensures obj.links[i].size == sizes[i]
    {
      assert EntryStored(store, obj.links[i], entries[i]);
    }
    SumSizesIs(obj.links, sizes);
  }

  /** The names of a directory's entries, in order. */
  function EntryNames(entries: seq<Entry>): seq<string> {
    seq(|entries|, i requires 0 <= i < |entries| => entries[i].name)
  }

  /** The node a path names inside the imported tree, first match per name. */
  function Lookup(node: Node, segments: seq<string>): Option<Node>
    decreases |segments|
  {
    if segments == [] then Some(node)
    else match node
      case File(_) => None
      case Dir(entries) =>
        match FirstNamed(EntryNames(entries), segments[0])
        case None => None
        case Some(i) => Lookup(entries[i].node, segments[1..])
  }

  /** Walking the stored directory follows the imported tree: the walk
      succeeds exactly where the lookup does, and reaches the stored form
      of the node looked up. */
  lemma {:induction false} DirWalk(store: StoreMap, obj: Object, node: Node, segments: seq<string>)
    requires DirTree(store, obj, node)
    ensures Walk(store, obj, segments).Ok? <==> Lookup(node, segments).Some?
    ensures Lookup(node, segments).Some? ==>
              DirTree(store, Walk(store, obj, segments).value, Lookup(node, segments).value)
    decreases |segments|
  {
    if segments != [] {
      var s := segments[0];
      match node
      case File(_) =>
        assert FirstNamed(LinkNames(obj.links), s).None?;
      case Dir(entries) =>
        forall m | 0 <= m < |entries| ensures obj.links[m].name == entries[m].name {
          assert EntryStored(store, obj.links[m], entries[m]);
        }
        assert LinkNames(obj.links) == EntryNames(entries);
        match FirstNamed(EntryNames(entries), s)
        case None =>
        case Some(i) =>
          assert EntryStored(store, obj.links[i], entries[i]);
          DirWalk(store, store[obj.links[i].hash], entries[i].node, segments[1..]);
    }
  }

  /** Directory round trip: a path to a file inside an imported directory
      resolves to that file's bytes. */
  lemma DirectoryRoundTrip(store: StoreMap, root: Key, node: Node, segments: seq<string>, bytes: Bytes, fuel: nat)
    requires root in store && DirTree(store, store[root], node)
    requires Lookup(node, segments) == Some(File(bytes))
    requires segments != []
    requires forall i :: 0 <= i < |segments| ==> segments[i] != "" && '/' !in segments[i]
    ensures Hash2File(store, root, JoinPath(segments), fuel) == Ok(bytes)
  {
    SplitJoin(segments);
    assert Segments(JoinPath(segments)) == segments;
    DirWalk(store, store[root], node, segments);
  }

  /** A path whose first name no entry carries fails with PathNotFound. */
  lemma DirectoryMissingEntry(store: StoreMap, root: Key, entries: seq<Entry>, name: string, fuel: nat)
    requires root in store && DirTree(store, store[root], Dir(entries))
    requires name != "" && '/' !in name
    requires FirstNamed(EntryNames(entries), name).None?
    ensures Hash2File(store, root, name, fuel) == Err(PathNotFound(name))
  {
    SplitJoin([name]);
    assert Segments(name) == [name];
    var obj := store[root];
    forall m | 0 <= m < |entries| ensures obj.links[m].name == entries[m].name {
      assert EntryStored(store, obj.links[m], entries[m]);
    }
    assert LinkNames(obj.links) == EntryNames(entries);
  }

  // ---------------------------------------------------------------------
  // The store and the builders

  /** Tree height Add builds for a file of n bytes: a file of at most one
      chunk is a single blob, read as a tree of height 1. */
  function FileHeight(n: nat): (r: nat)
    ensures 1 <= r && n <= Capacity(r)
  {
    if n <= ChunkSize then
      CapacityPositive(1);
      1
    else
      HeightSuffices(n);
      Height(ChunkCount(n))
  }

  /** MapKVStore: objects stored under their content key.  `key` stands for
      the SHA-256 digest of an object's canonical encoding. */
  class MapKVStore {
    var contents: StoreMap
    const key: Object -> Key

    /** Every object sits under its own key, and every link in the store
        points at a stored object. */
    ghost predicate Valid()
      reads this
    {
      && Injective(key)
      && KeyedBy(contents, key)
      && LinksStored(contents)
    }

    constructor (key: Object -> Key)
      requires Injective(key)
      ensures Valid() && this.key == key && contents == map[]
    {
      this.key := key;
      contents := map[];
    }

    /** Put: stores `obj` under key(obj).  Writing an object whose children
        are already stored keeps every link of the store resolvable; and
        since keys are one-to-one, a repeated write changes nothing. */
    method Put(obj: Object) returns (k: Key)
      requires Valid()
      modifies this
      ensures k == key(obj) && contents == old(contents)[k := obj]
      ensures Grows(old(contents), contents)
      ensures (forall l :: l in obj.links ==> l.hash in old(contents)) ==> Valid()
    {
      k := key(obj);
      contents := contents[k := obj];
    }

    /** storeFile: the whole file as one blob. */
    method StoreFile(file: Bytes) returns (blob: Object)
      requires Valid()
      modifies this
      ensures Valid() && Grows(old(contents), contents)
      ensures blob == Object([], file, FileType)
      ensures contents == old(contents)[key(blob) := blob]
    {
      blob := Object([], file, FileType);
      var _ := Put(blob);
    }

    /** dfsForStoreFile: builds and stores, children before parents, the
        chunk tree of `height` levels over the bytes of `file` from
        `seedId`, as many as the tree can hold, and returns its root and the
        number of bytes it covers.  At height 1 a rest of at most one chunk
        is a single blob. */
    method DfsForStoreFile(height: nat, file: Bytes, seedId: nat) returns (obj: Object, consumed: nat)
      requires Valid()
      requires 1 <= height && seedId <= |file|
      modifies this
      ensures Valid() && Grows(old(contents), contents)
      ensures key(obj) in contents && contents[key(obj)] == obj
      ensures consumed == Min(|file| - seedId, Capacity(height))
      ensures ChunkTree(contents, obj, height, file[seedId..seedId + consumed])
      ensures WritesWithin(old(contents), contents, {key(obj)} + TreeKeys(contents, obj, height))
      ensures height == 1 && |file| - seedId <= ChunkSize ==> obj == Object([], file[seedId..], FileType)
      decreases height, 3
    {
      if height == 1 {
        if |file| - seedId <= ChunkSize {
          var data := file[seedId..];
          obj := Object([], data, FileType);
          var _ := Put(obj);
          consumed := |data|;
          CapacityPositive(1);
          assert file[seedId..seedId + consumed] == data;
        } else {
          obj, consumed := StoreChunkLevel(file, seedId);
        }
      } else {
        obj, consumed := StoreInnerLevel(height, file, seedId);
      }
    }

    /** The height-1 loop of dfsForStoreFile: up to Fanout blobs of one
        chunk each, from `seedId` on, then the node linking them. */
    method StoreChunkLevel(file: Bytes, seedId: nat) returns (obj: Object, consumed: nat)
      requires Valid()
      requires seedId <= |file| && ChunkSize < |file| - seedId
      modifies this
      ensures Valid() && Grows(old(contents), contents)
      ensures key(obj) in contents && contents[key(obj)] == obj
      ensures consumed == Min(|file| - seedId, Capacity(1))
      ensures ChunkTree(contents, obj, 1, file[seedId..seedId + consumed])
      ensures WritesWithin(old(contents), contents, {key(obj)} + TreeKeys(contents, obj, 1))
    {
      var links, lenData := StoreChunks(file, seedId);
      ghost var mid := contents;
      obj := StoreNode(links, 1, file[seedId..seedId + lenData]);
      GrowsTransitive(old(contents), mid, contents);
      WritesClose(old(contents), mid, contents, links, 0, file[seedId..seedId + lenData], key(obj), obj);
      consumed := lenData;
    }

    /** The loop of the height-1 branch of dfsForStoreFile: one blob per
        chunk from `seedId` on, at most Fanout of them, each linked in order. */
    method StoreChunks(file: Bytes, seedId: nat) returns (links: seq<Link>, lenData: nat)
      requires Valid()
      requires seedId <= |file| && ChunkSize < |file| - seedId
      modifies this
      ensures Valid() && Grows(old(contents), contents)
      ensures |links| <= Fanout
      ensures lenData == Min(|file| - seedId, Capacity(1))
      ensures Covered(contents, links, 0, file[seedId..seedId + lenData])
      ensures WritesWithin(old(contents), contents, CoverKeys(contents, links, 0))
    {
      links := [];
      lenData := 0;
      var offset := seedId;
      var i := 1;
      var covered := seedId;
      while i <= Fanout
        invariant 1 <= i <= Fanout + 1 && |links| == i - 1
        invariant offset == seedId + lenData < |file| && covered == seedId + lenData
        invariant lenData == Repeat(|links|, Capacity(0))
        invariant Valid() && Grows(old(contents), contents)
        invariant Covered(contents, links, 0, file[seedId..covered])
        invariant WritesWithin(old(contents), contents, CoverKeys(contents, links, 0))
        decreases Fanout + 1 - i
      {
        ghost var before := contents;
        var link;
        link, covered := StoreChunk(links, file, seedId, offset, old(contents));
        GrowsTransitive(old(contents), before, contents);
        lenData := lenData + link.size;
        links := links + [link];
        offset := offset + ChunkSize;
        if offset >= |file| {
          break;
        }
        i := i + 1;
      }
      RepeatCapacity(|links|, 1);
    }

    /** One round of the height-1 loop of dfsForStoreFile: stores the chunk
        at `offset` (ChunkSize bytes, fewer at the end of the file) as a blob
        and returns the link to it, which extends the cover from `from`. */
    method StoreChunk(links: seq<Link>, file: Bytes, from: nat, offset: nat, ghost start: StoreMap)
      returns (link: Link, end: nat)
      requires Valid() && from <= offset < |file|
      requires Covered(contents, links, 0, file[from..offset]) && offset - from == Repeat(|links|, Capacity(0))
      requires WritesWithin(start, contents, CoverKeys(contents, links, 0))
      modifies this
      ensures Valid() && Grows(old(contents), contents)
      ensures end == offset + link.size <= |file|
      ensures link.size == Min(|file| - offset, ChunkSize) && link.name == ""
      ensures contents == old(contents)[link.hash := Object([], file[offset..end], FileType)]
      ensures Covered(contents, links + [link], 0, file[from..end])
      ensures WritesWithin(start, contents, CoverKeys(contents, links + [link], 0))
    {
      end := offset + ChunkSize;
      if |file| < end {
        end := |file|;
      }
      var data := file[offset..end];
      var hash := Put(Object([], data, FileType));
      link := Link("", hash, |data|);
      assert Capacity(0) == ChunkSize;
      ExtendCover(old(contents), contents, links, 0, file, from, offset, end, link);
      WritesStep(start, old(contents), contents, links, 0, file[from..offset], link, Object([], data, FileType));
    }

    /** The closing step of both loops of dfsForStoreFile: stores the node
        over the children just written. */
    method StoreNode(links: seq<Link>, height: nat, bytes: Bytes) returns (obj: Object)
      requires Valid() && 1 <= height && |links| <= Fanout && (height == 1 ==> ChunkSize < |bytes|)
      requires Covered(contents, links, height - 1, bytes)
      modifies this
      ensures Valid() && Grows(old(contents), contents)
      ensures obj == Object(links, [], FileType) && contents == old(contents)[key(obj) := obj]
      ensures ChunkTree(contents, obj, height, bytes)
    {
      obj := Object(links, [], FileType);
      CoverStored(contents, links, height - 1, bytes);
      var _ := Put(obj);
      CloseNode(old(contents), contents, links, height, bytes);
    }

    /** The loop of dfsForStoreFile above height 1: up to Fanout subtrees
        one level lower, each starting where the previous one stopped, then
        the node linking them. */
    method StoreInnerLevel(height: nat, file: Bytes, seedId: nat) returns (obj: Object, consumed: nat)
      requires Valid()
      requires 2 <= height && seedId <= |file|
      modifies this
      ensures Valid() && Grows(old(contents), contents)
      ensures key(obj) in contents && contents[key(obj)] == obj
      ensures consumed == Min(|file| - seedId, Capacity(height))
      ensures ChunkTree(contents, obj, height, file[seedId..seedId + consumed])
      ensures WritesWithin(old(contents), contents, {key(obj)} + TreeKeys(contents, obj, height))
      decreases height, 2
    {
      var links, lenData := StoreChildren(height, file, seedId);
      ghost var mid := contents;
      obj := StoreNode(links, height, file[seedId..seedId + lenData]);
      GrowsTransitive(old(contents), mid, contents);
      WritesClose(old(contents), mid, contents, links, height - 1, file[seedId..seedId + lenData], key(obj), obj);
      consumed := lenData;
    }

    /** The loop of dfsForStoreFile above height 1: up to Fanout subtrees
        one level lower, each starting where the previous one stopped. */
    method StoreChildren(height: nat, file: Bytes, seedId: nat) returns (links: seq<Link>, lenData: nat)
      requires Valid()
      requires 2 <= height && seedId <= |file|
      modifies this
      ensures Valid() && Grows(old(contents), contents)
      ensures |links| <= Fanout
      ensures lenData == Min(|file| - seedId, Capacity(height))
      ensures Covered(contents, links, height - 1, file[seedId..seedId + lenData])
      ensures WritesWithin(old(contents), contents, CoverKeys(contents, links, height - 1))
      decreases height, 1
    {
      links := [];
      lenData := 0;
      var offset := seedId;
      var i := 1;
      ghost var childCap := Capacity(height - 1);
      while i <= Fanout
        invariant 1 <= i <= Fanout + 1 && |links| == i - 1
        invariant offset == seedId + lenData <= |file|
        invariant lenData <= Repeat(|links|, childCap)
        invariant offset < |file| ==> lenData == Repeat(|links|, childCap)
        invariant Valid() && Grows(old(contents), contents)
        invariant Covered(contents, links, height - 1, file[seedId..offset])
        invariant WritesWithin(old(contents), contents, CoverKeys(contents, links, height - 1))
        decreases Fanout + 1 - i
      {
        if offset >= |file| {
          break;
        }
        ghost var before := contents;
        var link;
        link, offset := StoreChild(links, height, file, seedId, offset, old(contents));
        GrowsTransitive(old(contents), before, contents);
        links := links + [link];
        lenData := lenData + link.size;
        i := i + 1;
      }
      RepeatCapacity(|links|, height);
    }

    /** One round of the loop above height 1: builds the subtree one level
        lower that starts at `offset` and returns the link to its root,
        which extends the cover from `from`.  The source passes the same
        `seedId` to every child (dag.go:152-153); here each child starts
        where the previous one stopped. */
    method StoreChild(links: seq<Link>, height: nat, file: Bytes, from: nat, offset: nat, ghost start: StoreMap)
      returns (link: Link, end: nat)
      requires Valid() && 2 <= height && from <= offset < |file|
      requires Covered(contents, links, height - 1, file[from..offset])
      requires offset - from == Repeat(|links|, Capacity(height - 1))
      requires WritesWithin(start, contents, CoverKeys(contents, links, height - 1))
      modifies this
      ensures Valid() && Grows(old(contents), contents)
      ensures end == offset + link.size <= |file|
      ensures link.size == Min(|file| - offset, Capacity(height - 1)) && link.name == ""
      ensures Covered(contents, links + [link], height - 1, file[from..end])
      ensures WritesWithin(start, contents, CoverKeys(contents, links + [link], height - 1))
      decreases height, 0
    {
      var child, lens := DfsForStoreFile(height - 1, file, offset);
      link := Link("", key(child), lens);
      end := offset + lens;
      ExtendCoverWithChild(old(contents), contents, links, height - 1, file, from, offset, child, link);
      WritesStep(start, old(contents), contents, links, height - 1, file[from..offset], link, child);
    }

    /** One entry of storeDirectory: a file is stored as one blob, a
        directory recursively; the link carries the entry's name and its
        logical size. */
    method StoreEntry(entry: Entry) returns (child: Object, link: Link)
      requires Valid()
      modifies this
      ensures Valid() && Grows(old(contents), contents)
      ensures link == Link(entry.name, key(child), TotalSize(entry.node))
      ensures link.hash in contents && contents[link.hash] == child
      ensures EntryStored(contents, link, entry)
      ensures WritesWithin(old(contents), contents, {link.hash} + DirKeys(contents, child, entry.node))
      decreases entry.node, 2
    {
      match entry.node {
        case File(bytes) =>
          child := StoreFile(bytes);
        case Dir(_) =>
          child := StoreDirectory(entry.node);
      }
      link := Link(entry.name, key(child), TotalSize(entry.node));
    }

    /** storeDirectory: stores each entry, then the directory object linking
        them in order. */
    method StoreDirectory(dir: Node) returns (obj: Object)
      requires Valid() && dir.Dir?
      modifies this
      ensures Valid() && Grows(old(contents), contents)
      ensures key(obj) in contents && contents[key(obj)] == obj
      ensures DirTree(contents, obj, dir)
      ensures WritesWithin(old(contents), contents, {key(obj)} + DirKeys(contents, obj, dir))
      decreases dir, 1
    {
      var entries := dir.entries;
      var links: seq<Link> := [];
      var i := 0;
      while i < |entries|
        invariant 0 <= i <= |entries| && |links| == i
        invariant Valid() && Grows(old(contents), contents)
        invariant forall m :: 0 <= m < i ==> EntryStored(contents, links[m], entries[m])
        invariant WritesWithin(old(contents), contents, EntriesKeys(contents, links, entries[..i]))
        decreases |entries| - i
      {
        ghost var before := contents;
        var child, link := StoreEntry(entries[i]);
        forall m | 0 <= m < i
          ensures EntryStored(contents, links[m], entries[m])
        {
          EntryStoredGrows(before, contents, links[m], entries[m]);
        }
        DirWritesStep(old(contents), before, contents, links, entries, link, child);
        links := links + [link];
        i := i + 1;
      }
      obj := Object(links, [], DirType);
      ghost var before := contents;
      forall l | l in links
        ensures l.hash in contents
      {
        var m :| 0 <= m < |links| && links[m] == l;
        assert EntryStored(contents, links[m], entries[m]);
      }
      var _ := Put(obj);
      assert entries[..|entries|] == entries;
      DirWritesClose(old(contents), before, contents, links, entries, key(obj), obj);
      forall m | 0 <= m < |entries|
        ensures EntryStored(contents, links[m], entries[m])
      {
        EntryStoredGrows(before, contents, links[m], entries[m]);
      }
    }

    /** Add: imports a node and returns the key of its stored root.  A file
        of at most one chunk becomes a single blob; a larger one a chunk
        tree of the least sufficient height; a directory its directory
        object. */
    method Add(node: Node) returns (k: Key)
      requires Valid()
      modifies this
      ensures Valid() && Grows(old(contents), contents) && k in contents
      ensures node.File? && |node.bytes| <= ChunkSize ==>
                contents == old(contents)[k := Object([], node.bytes, FileType)]
      ensures node.File? ==> ChunkTree(contents, contents[k], FileHeight(|node.bytes|), node.bytes)
      ensures node.Dir? ==> DirTree(contents, contents[k], node)
      ensures node.File? ==>
                WritesWithin(old(contents), contents, {k} + TreeKeys(contents, contents[k], FileHeight(|node.bytes|)))
      ensures node.Dir? ==> WritesWithin(old(contents), contents, {k} + DirKeys(contents, contents[k], node))
      ensures node.File? ==>
                contents.Keys == old(contents).Keys + {k} + TreeKeys(contents, contents[k], FileHeight(|node.bytes|))
      ensures node.Dir? ==> contents.Keys == old(contents).Keys + {k} + DirKeys(contents, contents[k], node)
    {
      match node
      case File(bytes) =>
        if |bytes| <= ChunkSize {
          var blob := StoreFile(bytes);
          k := key(blob);
          assert TreeKeys(contents, blob, 1) == CoverKeys(contents, [], 0) == {};
        } else {
          var linkLen := (|bytes| + (ChunkSize - 1)) / ChunkSize;
          var height := Height(linkLen);
          HeightSuffices(|bytes|);
          var root, _ := DfsForStoreFile(height, bytes, 0);
          assert bytes[0..|bytes|] == bytes;
          k := key(root);
        }
        TreeWritesExact(old(contents), contents, k, FileHeight(|bytes|));
      case Dir(_) =>
        var dirObj := StoreDirectory(node);
        k := key(dirObj);
        DirWritesExact(old(contents), contents, k, node);
    }
  }

  /** Importing a file into a fresh store and resolving its key with the
      empty path gives back the file's bytes. */
  method ImportThenResolve(key: Object -> Key, file: Bytes) returns (r: Result<Bytes>)
    requires Injective(key)
    ensures r == Ok(file)
  {
    var store := new MapKVStore(key);
    var k := store.Add(File(file));
    FileRoundTrip(store.contents, k, FileHeight(|file|), file, FileHeight(|file|));
    r := Hash2File(store.contents, k, "", FileHeight(|file|));
  }

  /** Importing two nodes into two stores that share a key function gives
      the same key exactly when the nodes are the same: the key is
      determined by the node, and a stored root stands for one node only. */
  method AddTwice(a: MapKVStore, b: MapKVStore, n1: Node, n2: Node) returns (k1: Key, k2: Key)
    requires a.Valid() && b.Valid() && a.key == b.key
    modifies a, b
    ensures k1 == k2 <==> n1 == n2
  {
    k1 := a.Add(n1);
    ghost var first := a.contents;
    k2 := b.Add(n2);
    if n1 == n2 {
      match n1
      case File(bytes) =>
        ChunkTreeUnique(a.key, first, b.contents, first[k1], b.contents[k2], FileHeight(|bytes|), bytes);
      case Dir(_) =>
        DirTreeUnique(a.key, first, b.contents, first[k1], b.contents[k2], n1);
    }
    if k1 == k2 {
      assert a.key(first[k1]) == a.key(b.contents[k2]);
      ghost var root := first[k1];
      match (n1, n2)
      case (File(b1), File(b2)) =>
        SameRootSameBytes(a.key, first, b.contents, root, FileHeight(|b1|), FileHeight(|b2|), b1, b2);
      case (Dir(_), Dir(_)) =>
        SameRootSameNode(a.key, first, b.contents, root, n1, n2);
      case (File(_), Dir(_)) =>
      case (Dir(_), File(_)) =>
    }
  }

  /** Importing a directory into a fresh store and resolving its key with
      the path of a file inside it gives back that file's bytes. */
  method ImportDirThenResolve(key: Object -> Key, dir: Node, segments: seq<string>, bytes: Bytes)
    returns (r: Result<Bytes>)
    requires Injective(key) && dir.Dir?
    requires Lookup(dir, segments) == Some(File(bytes))
    requires segments != []
    requires forall i :: 0 <= i < |segments| ==> segments[i] != "" && '/' !in segments[i]
    ensures r == Ok(bytes)
  {
    var store := new MapKVStore(key);
    var k := store.Add(dir);
    DirectoryRoundTrip(store.contents, k, dir, segments, bytes, 0);
    r := Hash2File(store.contents, k, JoinPath(segments), 0);
  }
}

/** The importer as written, where it departs from what it evidently
    intends; the builders above are the corrected forms. */
module ImporterAsWritten {
  import opened Objects
  import opened Resolver

  /** storeFile as written files the blob under the digest of its raw bytes,
      not under the key of the object. */
  function StoreFileAsWritten(store: StoreMap, digest: Bytes -> Key, file: Bytes): (r: StoreMap)
    ensures r.Keys == store.Keys + {digest(file)}
    ensures r[digest(file)] == Object([], file, FileType)
  {
    store[digest(file) := Object([], file, FileType)]
  }

  /** storeDirectory links a file entry by the key of its blob, which is
      not where storeFile put it: with a digest of the raw bytes that
      differs from the object key, the link leads nowhere. */
  lemma FileEntryLinkDangles()
    ensures var key := (o: Object) => [1 as Byte] + o.data;
            var digest := (d: Bytes) => [0 as Byte] + d;
            var store := StoreFileAsWritten(map[], digest, [5]);
            GetObjectByHash(store, key(Object([], [5], FileType))) == Err(NotFound([1, 5]))
  {
    var digest := (d: Bytes) => [0 as Byte] + d;
    var five: Bytes := [5];
    assert digest(five) == [0, 5];
    assert [1 as Byte] + Object([], five, FileType).data == [1, 5];
    var store := StoreFileAsWritten(map[], digest, five);
    assert store.Keys == {[0, 5]};
    assert [1 as Byte, 5] != [0, 5];
  }

  /** The directory object storeDirectory writes as written: one link per
      entry, holding the key and size recorded for the entry, and no name. */
  function DirObjectAsWritten(keys: seq<Key>, sizes: seq<nat>): Object
    requires |keys| == |sizes|
  {
    Object(seq(|keys|, i requires 0 <= i < |keys| => Link("", keys[i], sizes[i])), [], DirType)
  }

  /** No entry of a directory written that way can be reached by its name:
      the first segment of any non-empty path is not found. */
  lemma UnnamedLinksHideEntries(store: StoreMap, keys: seq<Key>, sizes: seq<nat>, name: string, rest: seq<string>)
    requires |keys| == |sizes| && name != ""
    ensures Walk(store, DirObjectAsWritten(keys, sizes), [name] + rest) == Err(PathNotFound(name))
  {
    assert ([name] + rest)[0] == name;
    assert FirstNamed(LinkNames(DirObjectAsWritten(keys, sizes).links), name).None?;
  }

  /** The bytes the inner loop of dfsForStoreFile counts as written: the
      start offset never advances, so each of the `rounds` children covers
      the same Min(rest, childCap) bytes from the start, and the loop only
      stops when its counter runs out. */
  function InnerLenAsWritten(rest: nat, childCap: nat, rounds: nat): nat
    decreases rounds
  {
    if rounds == 0 || rest == 0 then 0
    else Min(rest, childCap) + InnerLenAsWritten(rest, childCap, rounds - 1)
  }

  lemma {:induction false} InnerLenRepeats(rest: nat, childCap: nat, rounds: nat)
    requires 0 < rest
    ensures InnerLenAsWritten(rest, childCap, rounds) == rounds * Min(rest, childCap)
    decreases rounds
  {
    if rounds > 0 {
      InnerLenRepeats(rest, childCap, rounds - 1);
    }
  }

  /** A file one byte longer than a height-1 tree holds gets a height-2
      tree; as written its root counts Fanout full copies of the first
      child, not the file: the corrected level covers exactly the file. */
  lemma SeedNotAdvanced()
    ensures Capacity(1) + 1 <= Capacity(2)
    ensures InnerLenAsWritten(Capacity(1) + 1, Capacity(1), Fanout) == Fanout * Capacity(1)
    ensures Fanout * Capacity(1) != Capacity(1) + 1
  {
    CapacityStep(2);
    CapacityStep(1);
    InnerLenRepeats(Capacity(1) + 1, Capacity(1), Fanout);
  }
}
