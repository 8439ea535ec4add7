/** The resolver of dag2file.go: split a path, walk it from a root object
    by link names, and materialise the bytes below the object reached. */
module Resolver {
  import opened Objects

  /** The store as the resolver sees it: content key to (decoded) object. */
  type StoreMap = map<Key, Object>

  datatype Error =
    | NotFound(key: Key)          // a key absent from the store
    | PathNotFound(segment: string) // no link carries the segment's name
    | TooDeep                     // the depth bound ran out (see Materialize)

  datatype Result<+T> = Ok(value: T) | Err(error: Error) {
    predicate IsFailure() { Err? }
    function PropagateFailure<U>(): Result<U> requires Err? { Err(error) }
    function Extract(): T requires Ok? { value }
  }

  /** getObjectByHash: fetch and decode the object stored under `hash`. */
  function GetObjectByHash(store: StoreMap, hash: Key): (r: Result<Object>)
    ensures r.Ok? <==> hash in store
    ensures r.Ok? ==> r.value == store[hash]
    ensures r.Err? ==> r.error == NotFound(hash)
  {
    if hash in store then Ok(store[hash]) else Err(NotFound(hash))
  }

  // ---------------------------------------------------------------------
  // Paths

  /** Segments joined with "/" between them. */
  function JoinPath(parts: seq<string>): string
    requires |parts| >= 1
  {
    if |parts| == 1 then parts[0] else parts[0] + "/" + JoinPath(parts[1..])
  }

  /** Position of the first "/" in `path`, or |path| when there is none. */
  function SlashIndex(path: string): (i: nat)
    ensures i <= |path|
    ensures i < |path| ==> path[i] == '/'
    ensures forall j :: 0 <= j < i ==> path[j] != '/'
  {
    if path == [] || path[0] == '/' then 0 else SlashIndex(path[1..]) + 1
  }

  /** splitPath: the pieces of `path` between its "/" separators. */
  function SplitPath(path: string): (parts: seq<string>)
    ensures |parts| >= 1
    ensures forall i :: 0 <= i < |parts| ==> '/' !in parts[i]
    ensures JoinPath(parts) == path
    decreases |path|
  {
    var i := SlashIndex(path);
    if i == |path| then [path]
    else
      var rest := SplitPath(path[i + 1..]);
      assert path == path[..i] + "/" + path[i + 1..];
      assert ([path[..i]] + rest)[1..] == rest;
      [path[..i]] + rest
  }

  /** A "/"-free piece followed by "/" is split off as the first piece. */
  lemma SplitFirst(w: string, t: string)
    requires '/' !in w
    ensures SplitPath(w + "/" + t) == [w] + SplitPath(t)
  {
    var path := w + "/" + t;
    assert path[|w|] == '/';
    assert path[..|w|] == w && path[|w| + 1..] == t;
  }

  /** A "/"-free path is a single piece. */
  lemma SplitWhole(w: string)
    requires '/' !in w
    ensures SplitPath(w) == [w]
  {
  }

  /** Splitting undoes joining, for segments free of "/". */
  lemma {:induction false} SplitJoin(parts: seq<string>)
    requires |parts| >= 1
    requires forall i :: 0 <= i < |parts| ==> '/' !in parts[i]
    ensures SplitPath(JoinPath(parts)) == parts
  {
    if |parts| == 1 {
      SplitWhole(parts[0]);
    } else {
      SplitJoin(parts[1..]);
      SplitFirst(parts[0], JoinPath(parts[1..]));
      assert parts == [parts[0]] + parts[1..];
    }
  }

  /** The segments getNode walks.  The empty path names the root itself;
      any other path is split at its "/" separators. */
  function Segments(path: string): (segments: seq<string>)
    ensures path == "" <==> segments == []
    ensures segments != [] ==> JoinPath(segments) == path
  {
    if path == "" then [] else SplitPath(path)
  }

  // ---------------------------------------------------------------------
  // Path walk

  /** The object reached from `obj` by following, for each segment, the
      first link of that name and fetching its target from the store. */
  function Walk(store: StoreMap, obj: Object, segments: seq<string>): (r: Result<Object>)
    ensures segments == [] ==> r == Ok(obj)
    ensures r.Ok? && segments != [] ==> r.value in store.Values
    ensures r.Err? && r.error.PathNotFound? ==> r.error.segment in segments
    decreases |segments|
  {
    if segments == [] then Ok(obj)
    else match FirstNamed(LinkNames(obj.links), segments[0])
      case None => Err(PathNotFound(segments[0]))
      case Some(i) =>
        var child :- GetObjectByHash(store, obj.links[i].hash);
        var r := Walk(store, child, segments[1..]);
        assert r.Err? && r.error.PathNotFound? ==> r.error.segment in segments by {
          assert forall s :: s in segments[1..] ==> s in segments;
        }
        r
  }

  /** Walking a concatenation of paths is walking one after the other. */
  lemma {:induction false} WalkConcat(store: StoreMap, obj: Object, a: seq<string>, b: seq<string>)
    ensures Walk(store, obj, a + b) ==
              match Walk(store, obj, a)
              case Ok(mid) => Walk(store, mid, b)
              case Err(e) => Err(e)
    decreases |a|
  {
    if a != [] {
      assert (a + b)[0] == a[0] && (a + b)[1..] == a[1..] + b;
      match FirstNamed(LinkNames(obj.links), a[0])
      case None =>
      case Some(i) =>
        if obj.links[i].hash in store {
          WalkConcat(store, store[obj.links[i].hash], a[1..], b);
        }
    } else {
      assert a + b == b;
    }
  }

  /** getNode: resolves `path` from `obj`, one store lookup per segment. */
  method GetNode(store: StoreMap, path: string, obj: Object) returns (r: Result<Object>)
    ensures r == Walk(store, obj, Segments(path))
  {
    var parts := Segments(path);
    var current := obj;
    var i := 0;
    while i < |parts|
      invariant 0 <= i <= |parts|
      invariant Walk(store, obj, parts) == Walk(store, current, parts[i..])
    {
      var part := parts[i];
      var found := false;
      var dirHash: Key := [];
      var j := 0;
      while j < |current.links|
        invariant 0 <= j <= |current.links|
        invariant forall m :: 0 <= m < j ==> current.links[m].name != part
      {
        if current.links[j].name == part {
          found := true;
          dirHash := current.links[j].hash;
          break;
        }
        j := j + 1;
      }
      assert parts[i..][0] == part && parts[i..][1..] == parts[i + 1..];
      if !found {
        assert FirstNamed(LinkNames(current.links), part).None?;
        return Err(PathNotFound(part));
      }
      FirstNamedAt(LinkNames(current.links), part, j);
      if dirHash !in store {
        return Err(NotFound(dirHash));
      }
      current := store[dirHash];
      i := i + 1;
    }
    return Ok(current);
  }

  // ---------------------------------------------------------------------
  // Materialisation

  /** getDfsData: appends to `acc` the leaf data below `links`, depth-first
      and left to right.  A fetched object with links is descended into, one
      without links contributes its data.  `fuel` bounds the descent: an
      abstract key function cannot rule out a cyclic store. */
  function DfsLinks(store: StoreMap, links: seq<Link>, acc: Bytes, fuel: nat): (r: Result<Bytes>)
    ensures links == [] ==> r == Ok(acc)
    ensures r.Ok? ==> acc <= r.value
    decreases fuel, |links|, 1
  {
    if links == [] then Ok(acc)
    else
      var acc' :- DfsLink(store, links[0], acc, fuel);
      DfsLinks(store, links[1..], acc', fuel)
  }

  /** One iteration of getDfsData's loop: the leaf data behind `link`. */
  function DfsLink(store: StoreMap, link: Link, acc: Bytes, fuel: nat): (r: Result<Bytes>)
    ensures r.Ok? ==> acc <= r.value
    decreases fuel, 0, 0
  {
    var child :- GetObjectByHash(store, link.hash);
    if child.IsBlob() then Ok(acc + child.data)
    else if fuel == 0 then Err(TooDeep)
    else DfsLinks(store, child.links, acc, fuel - 1)
  }

  /** The bytes an object stands for: its data if it is a blob, otherwise the
      depth-first concatenation of the leaves below it. */
  function Materialize(store: StoreMap, obj: Object, fuel: nat): Result<Bytes> {
    if obj.IsBlob() then Ok(obj.data) else DfsLinks(store, obj.links, [], fuel)
  }

  /** Hash2File: the bytes of the object reached by `path` from the root
      stored under `hash`. */
  function Hash2File(store: StoreMap, hash: Key, path: string, fuel: nat): (r: Result<Bytes>)
    ensures hash !in store ==> r == Err(NotFound(hash))
  {
    var tree :- GetObjectByHash(store, hash);
    var obj :- Walk(store, tree, Segments(path));
    Materialize(store, obj, fuel)
  }

  /** Prepending to a result's bytes (errors pass through). */
  function Prepend(prefix: Bytes, r: Result<Bytes>): Result<Bytes> {
    match r
    case Ok(b) => Ok(prefix + b)
    case Err(e) => Err(e)
  }

  /** The accumulator is an untouched prefix: getDfsData from `acc` gives
      `acc` followed by what it gives from the empty accumulator. */
  lemma {:induction false} DfsLinksPrefix(store: StoreMap, links: seq<Link>, acc: Bytes, fuel: nat)
    ensures DfsLinks(store, links, acc, fuel) == Prepend(acc, DfsLinks(store, links, [], fuel))
    decreases fuel, |links|, 1
  {
    if links == [] {
      assert acc + [] == acc;
    } else {
      DfsLinkPrefix(store, links[0], acc, fuel);
      var r0 := DfsLink(store, links[0], [], fuel);
      if r0.Ok? {
        DfsLinksPrefix(store, links[1..], acc + r0.value, fuel);
        DfsLinksPrefix(store, links[1..], r0.value, fuel);
        var rest := DfsLinks(store, links[1..], [], fuel);
        if rest.Ok? {
          assert acc + r0.value + rest.value == acc + (r0.value + rest.value);
        }
      }
    }
  }

  lemma {:induction false} DfsLinkPrefix(store: StoreMap, link: Link, acc: Bytes, fuel: nat)
    ensures DfsLink(store, link, acc, fuel) == Prepend(acc, DfsLink(store, link, [], fuel))
    decreases fuel, 0, 0
  {
    if link.hash in store {
      var child := store[link.hash];
      if child.IsBlob() {
        assert [] + child.data == child.data;
      } else if fuel > 0 {
        DfsLinksPrefix(store, child.links, acc, fuel - 1);
      }
    }
  }

  /** Storing more objects never changes a materialisation that succeeded. */
  lemma {:induction false} DfsLinksGrow(store: StoreMap, store': StoreMap, links: seq<Link>, acc: Bytes, fuel: nat)
    requires forall k :: k in store ==> k in store' && store'[k] == store[k]
    requires DfsLinks(store, links, acc, fuel).Ok?
    ensures DfsLinks(store', links, acc, fuel) == DfsLinks(store, links, acc, fuel)
    decreases fuel, |links|, 1
  {
    if links != [] {
      DfsLinkGrow(store, store', links[0], acc, fuel);
      var acc' := DfsLink(store, links[0], acc, fuel).value;
      DfsLinksGrow(store, store', links[1..], acc', fuel);
    }
  }

  lemma {:induction false} DfsLinkGrow(store: StoreMap, store': StoreMap, link: Link, acc: Bytes, fuel: nat)
    requires forall k :: k in store ==> k in store' && store'[k] == store[k]
    requires DfsLink(store, link, acc, fuel).Ok?
    ensures DfsLink(store', link, acc, fuel) == DfsLink(store, link, acc, fuel)
    decreases fuel, 0, 0
  {
    var child := store[link.hash];
    if !child.IsBlob() {
      DfsLinksGrow(store, store', child.links, acc, fuel - 1);
    }
  }

  /** More depth bound never changes a materialisation that succeeded. */
  lemma {:induction false} DfsLinksFuel(store: StoreMap, links: seq<Link>, acc: Bytes, fuel: nat, fuel': nat)
    requires fuel <= fuel'
    requires DfsLinks(store, links, acc, fuel).Ok?
    ensures DfsLinks(store, links, acc, fuel') == DfsLinks(store, links, acc, fuel)
    decreases fuel, |links|, 1
  {
    if links != [] {
      DfsLinkFuel(store, links[0], acc, fuel, fuel');
      var acc' := DfsLink(store, links[0], acc, fuel).value;
      DfsLinksFuel(store, links[1..], acc', fuel, fuel');
    }
  }

  lemma {:induction false} DfsLinkFuel(store: StoreMap, link: Link, acc: Bytes, fuel: nat, fuel': nat)
    requires fuel <= fuel'
    requires DfsLink(store, link, acc, fuel).Ok?
    ensures DfsLink(store, link, acc, fuel') == DfsLink(store, link, acc, fuel)
    decreases fuel, 0, 0
  {
    var child := store[link.hash];
    if !child.IsBlob() {
      DfsLinksFuel(store, child.links, acc, fuel - 1, fuel' - 1);
    }
  }

  // ---------------------------------------------------------------------
  // Findings: the resolver as written

  /** Hash2File's final branch as written: data when the object HAS links,
      the depth-first walk when it has none. */
  function MaterializeAsWritten(store: StoreMap, obj: Object, fuel: nat): (r: Result<Bytes>)
    ensures obj.IsBlob() ==> r == Ok([])
  {
    if !obj.IsBlob() then Ok(obj.data) else DfsLinks(store, obj.links, [], fuel)
  }

  /** As written, a one-byte blob resolves to no bytes at all, and a list
      node resolves to its own (empty) data; corrected, both give back what
      they stand for. */
  lemma InvertedBranchLosesData()
    ensures MaterializeAsWritten(map[], Object([], [7], FileType), 0) == Ok([])
    ensures Materialize(map[], Object([], [7], FileType), 0) == Ok([7])
    ensures MaterializeAsWritten(map[[1] := Object([], [7], FileType)],
                                 Object([Link("", [1], 1)], [], FileType), 0) == Ok([])
    ensures Materialize(map[[1] := Object([], [7], FileType)],
                        Object([Link("", [1], 1)], [], FileType), 0) == Ok([7])
  {
    var store := map[[1] := Object([], [7], FileType)];
    var links := [Link("", [1], 1)];
    assert [] + [7 as Byte] == [7];
    assert DfsLink(store, links[0], [], 0) == Ok([7]);
    assert links[1..] == [];
  }

  /** As written, getNode splits the empty path into one empty segment, and
      a chunk-tree link, whose name is empty, matches it: resolving the root
      of a two-chunk tree with the empty path lands on its first chunk. */
  lemma EmptyPathAsWritten()
    ensures SplitPath("") == [""]
    ensures Walk(map[[0] := Object([], [1], FileType), [1] := Object([], [2], FileType)],
                 Object([Link("", [0], 1), Link("", [1], 1)], [], FileType),
                 SplitPath("")) == Ok(Object([], [1], FileType))
  {
    var store := map[[0] := Object([], [1], FileType), [1] := Object([], [2], FileType)];
    var root := Object([Link("", [0], 1), Link("", [1], 1)], [], FileType);
    assert FirstNamed(LinkNames(root.links), "") == Some(0);
    assert Walk(store, Object([], [1], FileType), []) == Ok(Object([], [1], FileType));
    assert [""][1..] == [];
  }

  /** Corrected: the empty path resolves to the root object itself. */
  lemma EmptyPathIsRoot(store: StoreMap, hash: Key, fuel: nat)
    requires hash in store
    ensures Hash2File(store, hash, "", fuel) == Materialize(store, store[hash], fuel)
  {
  }
}
