# merkle-dag: a Dafny model of the importer and the resolver

This project models the two halves of a content-addressed Merkle DAG written in Go:

- **The importer (`dag.go`).** It cuts a file into 256 KiB chunks. It builds a tree of chunk objects with at most 4096 links per node and writes it to a key-value store, children before parents. It also turns a directory tree into linked directory objects. `Add` is the entry point that dispatches on the node's kind and size.
- **The resolver (`dag2file.go`).** Given a root key and a `/`-separated path, it follows the path by link name. It then gives back the bytes of the object it reached: a blob's data, or the depth-first, left-to-right concatenation of the leaves below a node.

## Files

- `objects.dfy` (module `Objects`): bytes, keys, `Link`, `Object`, `NodeType`, the constants `ChunkSize` (262144) and `Fanout` (4096), and tree capacity.
- `chunker.dfy` (module `Chunker`): `splitFile`, the chunk count and the tree height.
- `resolver.dfy` (module `Resolver`): `getObjectByHash`, `splitPath`, `getNode`, `getDfsData` and `Hash2File`, plus the resolver as written where it departs from its intent.
- `importer.dfy`:
  - module `Importer`: the store as a class `MapKVStore` holding a `map<Key, Object>`, the builders `storeFile`, `dfsForStoreFile`, `storeDirectory` and `Add` as methods, and the predicates that say what a built chunk tree and a built directory are. It also holds the round-trip theorems.
  - module `ImporterAsWritten`: the importer as written where it departs from its intent.

## How the model stands for the source

- **Content key.** The key of an object is an abstract function `key: Object -> Key`, fixed when the store is built and required to be one-to-one. It stands for SHA-256 over the JSON encoding, written in hex. Objects are stored decoded, so a decoding failure cannot arise.
- **Store invariant.** `MapKVStore.Valid()` states three things:
  - every object sits under its own key;
  - every link in the store leads to a stored object;
  - the key function is one-to-one.

  `Put` keeps `Valid()` when the object's children are already stored. The builders' contracts therefore prove that children are written before their parents.
- **What a built tree is.** `ChunkTree(store, obj, h, bytes)` says that `obj` is the tree `dfsForStoreFile` builds, which is one of two things:
  - at height 0, or at height 1 for at most one chunk, a blob holding exactly `bytes`;
  - otherwise a node of at most 4096 unnamed links whose stored children, one level lower, cover consecutive slices of `bytes`. Each slice is as much of the rest as one child can hold, so every child but the last is full, and no child is empty. Each link records its slice's length.

  The shape is fixed by the height and the bytes. `ChunkTreeUnique` proves it: two stores keyed by the same function hold the same root for the same height and bytes.

  `DirTree` says the same for a directory: one link per entry, in order, carrying the entry's name and logical size.

  The converse holds too. `SameRootSameBytes` proves that one root is never the chunk tree of two different files, whatever the heights, and `SameRootSameNode` proves the same for directories. `AddTwice` therefore gives the same key for two imports exactly when the nodes are the same.
- **What a builder writes.** `TreeKeys` and `DirKeys` are the keys of a built tree: its root's links and, recursively, the links below them. Every builder ensures `WritesWithin(old(contents), contents, {root} + keys of the tree)`: each key the store holds afterwards was held before or belongs to the tree. With `Grows`, nothing already stored changes. `Add` states the store's new key set exactly: the old keys, the root and the keys of its tree.
- **Errors instead of carrying on.** The model returns errors where the source prints a message and carries on:
  - `getObjectByHash` (`dag2file.go:54-62`) carries on with an empty object when a key is missing or cannot be decoded. The model returns `NotFound(key)`.
  - `getNode` (`dag2file.go:29-48`) stays on the current object in two cases: when no link carries the segment, and when the link found leads to a key that is missing or cannot be decoded. The model returns `PathNotFound(segment)` in the first case and `NotFound(key)` in the second.
- **Depth bound on materialisation.** With an abstract key function nothing rules out a cyclic store. Materialisation (`getDfsData`) therefore takes a depth bound `fuel` and returns `TooDeep` when it runs out. The round-trip theorems hold for any bound at least the tree's height minus one.

### Departures from the source's evident intent

The model builds the intended behaviour. The first six points below are corrected defects; the first five are also listed under Findings. The last point is a replacement, not a defect.

- **Offset.** Each child of an inner node starts where the previous child stopped (`dag.go:152-153` passes the same `seedId` to every child).
- **Link names.** Directory links carry the entry's name (`dag.go:74-77` and `dag.go:83-86` leave `Name` unset).
- **Keying.** One key function is used everywhere. `storeFile` (`dag.go:58`) and the small-file branch of `Add` (`dag.go:180`) hash the raw bytes, while the rest hashes the encoded object.
- **Materialisation branch.** A blob gives back its data and a node is walked depth first (`dag2file.go:9-13` has the branch inverted).
- **Empty path.** The empty path resolves to the root itself: `Segments("")` has no segment. `splitPath` (`dag2file.go:50-52`) turns `""` into one empty segment, and `getNode` (`dag2file.go:30`) follows it like any other name, which on a chunk tree reaches the first chunk.
- **Link size.** Directory links record the logical size of the subtree. `dag.go:85` records the encoded length.
- **Height.** The height is computed by integer iteration: the least `h >= 1` with `4096^h >= linkLen`. `dag.go:185` computes it with a floating-point logarithm. No chunk count is known for which that gives a different height; the integer form is used because the model has no floating point.

### Other choices

- **Empty input to `splitFile`.** `splitFile` on an empty input gives no chunk at all (`dag.go:98`: the loop body never runs). An empty file still imports as one empty blob, through `Add`'s small-file branch (`dag.go:177-181`).
- **File entries of a directory.** `storeDirectory` stores every file entry as a single blob, whatever its size (`dag.go:71`). The model keeps this.
- **Kind of chunk-tree objects.** Objects of a chunk tree carry kind `FileType`, the zero value the source leaves in `Type`. Directory objects carry `DirType`.

## Model

| member | source | states |
|---|---|---|
| `Chunker.SplitFile` | dag.go:96-106 | the chunks concatenate back to the input in order; there are `(len + 262143) / 262144` of them; each holds 1 to 262144 bytes and all but the last exactly 262144, so an empty input gives none |
| `Chunker.ChunkCount` | dag.go:184 | `linkLen` is the length divided by 262144, rounded up: that many chunks hold the file, and one fewer would not |
| `Chunker.Height` | dag.go:184-185 | the height is at least 1, `4096^h` chunks suffice, and for `h > 1` one level fewer would not |
| `Chunker.HeightIsLeast` | dag.go:185 | no height between 1 and the computed one can hold the chunk count |
| `Chunker.HeightSuffices` | dag.go:184-186 | a file of n bytes fits in a tree of the height Add computes for its chunk count |
| `Importer.FileHeight` | dag.go:177-186 | the height Add builds for a file is at least 1 and its tree holds the whole file: 1 for at most one chunk, the computed height otherwise |
| `Chunker.HeightBoundaries` | dag.go:184-185 | 2 and 4096 chunks give height 1, 4097 and 4096² give 2, 4096²+1 gives 3 |
| `Chunker.SixHundredKiB` | dag.go:184-185 | a 600 KiB file makes 3 chunks and height 1 |
| `Importer.MapKVStore.constructor` | dag.go:38 | a new store is empty and valid for a one-to-one key function |
| `Importer.MapKVStore.Put` | dag.go:40-42 | the object is stored under its key and nothing else changes; storing an object whose children are stored keeps every link resolvable |
| `Importer.MapKVStore.StoreFile` | dag.go:55-61 | the whole file becomes one blob with no links, stored under its key, the rest of the store unchanged |
| `Importer.MapKVStore.DfsForStoreFile` | dag.go:108-171 | the store only grows and stays valid; the root is stored; the bytes covered are exactly `min(remaining, 4096^h * 262144)`; the root is the chunk tree of height h over exactly those bytes, every child full but the last; at height 1 a rest of at most one chunk is the single blob `file[seedId:]`; no key is written besides the root and the keys of its tree |
| `Importer.MapKVStore.StoreChunkLevel` | dag.go:118-144 | at height 1 with more than one chunk left: up to 4096 one-chunk blobs, then the node linking them, covering `min(remaining, 4096 * 262144)` bytes; no key is written besides the node and its blobs |
| `Importer.MapKVStore.StoreChunks` | dag.go:118-140 | the height-1 loop with more than one chunk left: at most 4096 one-chunk blobs are stored, their unnamed links covering exactly `min(remaining, 4096 * 262144)` bytes from `seedId`, every chunk full but the last; no key is written besides those of the blobs linked |
| `Importer.MapKVStore.StoreChunk` | dag.go:121-136 | one round of the height-1 loop: the next chunk (shorter at the end of the file) is stored as a blob, the store changing only there, and its link, of the chunk's length, extends the cover up to the returned end |
| `Importer.MapKVStore.StoreNode` | dag.go:141-143 | the node over the children just written is stored, and it is a chunk tree one level above them |
| `Importer.MapKVStore.StoreInnerLevel` | dag.go:146-169 | above height 1: up to 4096 subtrees, each starting where the last stopped, then the node linking them, covering `min(remaining, capacity)` bytes; no key is written besides the node and its subtrees' keys |
| `Importer.MapKVStore.StoreChildren` | dag.go:146-165 | the loop above height 1: at most 4096 subtrees, each starting where the last stopped, whose unnamed links cover exactly `min(remaining, capacity of the level)` bytes from `seedId`, every subtree full but the last; no key is written outside those subtrees |
| `Importer.MapKVStore.StoreChild` | dag.go:149-159 | one round of that loop: a subtree of the level below is built from the current offset, and its link, of the subtree's size, extends the cover up to the returned end; only that subtree's keys are added to the writes |
| `Importer.MapKVStore.StoreDirectory` | dag.go:63-94 | every entry is stored before the directory object, which has one link per entry, in order, with its name and logical size, leading to the entry's stored form; no key is written besides the directory object and the keys below its entries |
| `Importer.MapKVStore.StoreEntry` | dag.go:66-87 | one entry: a file is stored as one blob, a directory recursively; the link carries the entry's name, the key of its stored form and its logical size; no key is written outside that form |
| `Importer.MapKVStore.Add` | dag.go:173-199 | the store grows and stays valid, and the returned key is stored; a file of at most one chunk is exactly one new blob of its bytes; a file is the chunk tree of the computed height over its bytes, whose shape those fix; a directory is its directory tree; the new key set is exactly the old one, the root and the keys of its tree |
| `Importer.CoverStored` | dag.go:130-143 | every link of a node's children leads to a stored object, because children are stored before the node over them |
| `Importer.RepeatCapacity` | dag.go:146-169 | at most 4096 children of one level fit in the level above, and 4096 full children fill it exactly |
| `Importer.ChildrenCoverSizes` | dag.go:133-134 | the link sizes of a node add up to the number of bytes it covers |
| `Importer.ChildrenCoverSnoc` | dag.go:131-134 | after children that are all full, the unnamed link of the next stored child, non-empty and at most one child's capacity, extends the cover by that child's bytes |
| `Importer.ChunkTreeGrows` | dag.go:40-42 | later writes never break a built chunk tree |
| `Importer.ChildrenCoverGrows` | dag.go:40-42 | later writes never break the cover of a node's children |
| `Importer.CoverKeysStored` | dag.go:130-143 | when every stored link leads to a stored object, every key behind stored links is stored |
| `Importer.CoverKeysGrow` | dag.go:40-42 | later writes never change the keys behind links whose keys are all stored |
| `Importer.CoverKeysSnoc` | dag.go:131-134 | one more link adds exactly its own key and the keys below it to those behind the links before it |
| `Importer.WritesStep` | dag.go:118-165 | a loop round that builds one more child writes only that child's tree, so the writes so far stay within the keys behind the links |
| `Importer.WritesClose` | dag.go:166-168 | writing the node over the children adds only its own key, so the whole level writes only the keys of the node's tree |
| `Importer.ExtendCover` | dag.go:152-160 | a child built after its siblings extends their cover, which survives the writes made while building it |
| `Importer.ExtendCoverWithChild` | dag.go:149-159 | a child built from the current offset, whose link records `min(remaining, capacity)` bytes, extends the cover and ends within the file |
| `Importer.CloseNode` | dag.go:166-168 | the node written over covering children is a chunk tree one level up |
| `Importer.ChunkTreeBlob` | dag.go:109-117 | a chunk tree is a blob exactly when its height is 0, when its height is 1 and it holds at most one chunk, or when it holds no bytes |
| `Importer.ChunkTreeUnique` | dag.go:108-171 | two chunk trees of the same height over the same bytes, in stores keyed by the same function, are the same object |
| `Importer.CoverUnique` | dag.go:118-165 | two sequences of links covering the same bytes at the same height, in such stores, are the same |
| `Importer.DirTreeGrows` | dag.go:89-92 | later writes never break a built directory |
| `Importer.EntryStoredGrows` | dag.go:76-86 | later writes never break a stored directory entry |
| `Importer.DirTreeUnique` | dag.go:63-94 | the stored form of a directory, in stores keyed by the same function, is determined by the directory |
| `Importer.EntryUnique` | dag.go:66-87 | the link written for an entry is determined by the entry |
| `Importer.TotalSize` | dag.go:74-86 | the logical size each directory link records: a file's length, a directory's total over its entries; `StoreEntry` and `DirTree` state that the links carry it |
| `Importer.DirLinksSize` | dag.go:74-89 | the sizes recorded in a stored directory's links add up to the directory's logical size |
| `Importer.EntriesKeysStored` | dag.go:63-94 | when every stored link leads to a stored object, every key behind a directory's links is stored |
| `Importer.EntriesKeysGrow` | dag.go:40-42 | later writes never change the keys behind entry links whose keys are all stored |
| `Importer.DirWritesStep` | dag.go:66-87 | storing one more entry writes only that entry's tree |
| `Importer.DirWritesClose` | dag.go:89-92 | writing the directory object adds only its own key to the keys behind its entries |
| `Importer.TreeWritesExact` | dag.go:173-190 | once a file's tree is stored and nothing else written, the store holds exactly the old keys, the root and the tree's keys |
| `Importer.DirWritesExact` | dag.go:191-198 | the same for a directory's tree |
| `Importer.UnionGrows` | dag.go:40-42 | two stores keyed by the same one-to-one function agree on every key they share |
| `Importer.SameRootSameBytes` | dag.go:108-171 | two chunk trees with the same root, at any heights, in stores keyed by the same one-to-one function, are over the same bytes |
| `Importer.SameRootSameNode` | dag.go:63-94 | two nodes whose stored forms are the same object, in such stores, are the same node |
| `Importer.ChildrenMaterialize` | dag2file.go:17-27 | depth-first materialisation of covering children appends exactly the bytes they cover |
| `Importer.LinkMaterialize` | dag2file.go:18-25 | one link to a stored chunk tree appends exactly the tree's bytes |
| `Importer.TreeMaterializes` | dag2file.go:8-13 | a chunk tree materialises to exactly its bytes |
| `Importer.FileRoundTrip` | dag2file.go:3-15 | resolving the root key of a built file tree with the empty path gives back the original bytes |
| `Importer.DirWalk` | dag2file.go:29-48 | walking a built directory succeeds exactly where looking the path up in the imported tree does, and reaches the stored form of the node found |
| `Importer.DirectoryRoundTrip` | dag2file.go:3-15 | resolving an imported directory with the path of a file inside it gives back that file's bytes |
| `Importer.DirectoryMissingEntry` | dag2file.go:32-45 | a name no entry carries fails with PathNotFound |
| `Importer.ImportThenResolve` | dag.go:173-190 | importing any file into a new store and resolving its key with the empty path gives back the file |
| `Importer.ImportDirThenResolve` | dag.go:191-198 | importing a directory into a new store and resolving its key with the path of a file inside it gives back the file |
| `Importer.AddTwice` | dag.go:173-199 | importing two nodes into two stores that share a key function gives the same key exactly when the nodes are the same, whatever the stores held before |
| `Resolver.GetObjectByHash` | dag2file.go:54-62 | a stored key gives its object; a missing key fails with NotFound of that key |
| `Resolver.SplitPath` | dag2file.go:50-52 | the result is never empty, no piece holds "/", and joining the pieces with "/" gives back the path |
| `Resolver.SplitJoin` | dag2file.go:50-52 | splitting undoes joining for pieces free of "/" |
| `Resolver.SplitFirst` | dag2file.go:50-52 | a "/"-free piece followed by "/" is split off as the first piece, and the rest is split on its own |
| `Objects.FirstNamed` | dag2file.go:32-37 | the first position holding the name is found, and nothing is found exactly when no position holds it; getNode's scan over links and the lookup in the imported tree both use it |
| `Resolver.Segments` | dag2file.go:30 | the empty path, and only it, has no segment; any other path is its segments joined by "/" |
| `Resolver.Walk` | dag2file.go:29-48 | no segment leaves the object as it is; a successful walk ends on a stored object; a PathNotFound names one of the segments |
| `Resolver.WalkConcat` | dag2file.go:29-48 | walking a concatenation of paths is walking one after the other |
| `Resolver.GetNode` | dag2file.go:29-48 | the loop over segments, with its inner link scan and break, computes exactly the walk |
| `Resolver.DfsLinks` | dag2file.go:17-27 | the accumulator comes back extended, never changed, and unchanged when there is no link |
| `Resolver.DfsLink` | dag2file.go:18-25 | one link only ever appends to the accumulator |
| `Resolver.DfsLinksPrefix` | dag2file.go:17-27 | the result from an accumulator is that accumulator followed by the result from the empty one |
| `Resolver.DfsLinkPrefix` | dag2file.go:18-25 | the same for a single link |
| `Resolver.DfsLinksGrow` | dag2file.go:17-27 | storing more objects never changes a materialisation that succeeded |
| `Resolver.DfsLinkGrow` | dag2file.go:18-25 | the same for a single link |
| `Resolver.DfsLinksFuel` | dag2file.go:17-27 | a larger depth bound never changes a materialisation that succeeded |
| `Resolver.DfsLinkFuel` | dag2file.go:18-25 | the same for a single link |
| `Resolver.Materialize` | dag2file.go:8-13 | the corrected final branch of Hash2File: a blob gives its data and a node the depth-first concatenation of its leaves; its properties are stated by `Importer.TreeMaterializes` and `Resolver.EmptyPathIsRoot` |
| `Resolver.Hash2File` | dag2file.go:3-15 | a root key absent from the store fails with NotFound of that key |
| `Resolver.EmptyPathIsRoot` | dag2file.go:3-7 | with the empty path, the root object itself is materialised |
| `Resolver.MaterializeAsWritten` | dag2file.go:9-13 | as written, a blob always resolves to no bytes |
| `Resolver.InvertedBranchLosesData` | dag2file.go:9-13 | as written, a one-byte blob and a node over it resolve to nothing; corrected, both give the byte back |
| `Resolver.EmptyPathAsWritten` | dag2file.go:30 | as written, the empty path splits into one empty segment, which lands on the first chunk of a chunk tree |
| `ImporterAsWritten.StoreFileAsWritten` | dag.go:55-61 | as written, the blob is filed under the digest of its raw bytes |
| `ImporterAsWritten.FileEntryLinkDangles` | dag.go:70-77 | as written, the link to a file entry leads to a key under which nothing is stored |
| `ImporterAsWritten.UnnamedLinksHideEntries` | dag.go:74-89 | as written, the directory object has one link per entry with no name (`DirObjectAsWritten`), so walking it with any path whose first segment is non-empty fails with PathNotFound of that segment |
| `ImporterAsWritten.InnerLenRepeats` | dag.go:148-156 | the count as written (`InnerLenAsWritten`: `seedId` never advances and the loop runs all its rounds) is the number of rounds times the first child's length |
| `ImporterAsWritten.SeedNotAdvanced` | dag.go:148-156 | as written, a file one byte over a height-1 tree is counted as 4096 copies of its first gigabyte |

## Left out

- SHA-256 and hex encoding (`calculateHash`, `hex.EncodeToString`) are replaced by the abstract one-to-one key function; no property of the hash itself is proved.
- JSON encoding and decoding are left out: objects are stored decoded, so the Malformed error of a failed decode never arises.
- The printing of error messages is left out; failures are error results.
- Store failures during `Put` are not modelled: the in-memory map cannot fail.
- The `"blob"`/`"link"` tag bytes appended to a node's `Data` (`dag.go:135`, `dag.go:164`) are left out; nodes carry empty data.
- The unused `h *sha256.Hash` and `hp HashPool` parameters are left out.
- The `File`/`Dir` iterator abstractions are not part of this model: a directory is a datatype of named entries in iteration order, and a file is its bytes.
- The `KVStore` interface's mismatch between stored nodes, string keys and byte keys is not modelled: the store is one map from keys to objects.
- Concurrency is not modelled; the source is single-threaded.
- Resolver.Hash2File: states only the missing-root case on its own; the round trips are stated by `Importer.FileRoundTrip` and `Importer.DirectoryRoundTrip`, because materialisation carries a depth bound that the source does not have (fuel below the tree's height gives TooDeep).

## Findings

| source | as written | input that shows it | evidently intended | confidence | as-written member | corrected member |
|---|---|---|---|---|---|---|
| dag2file.go:9-13 | data is returned when the object has links, and the depth-first walk runs when it has none | a one-byte blob resolves to no bytes; a node over it resolves to its empty data | a blob gives its data and a node its leaves | not executed | `Resolver.InvertedBranchLosesData` | `Importer.TreeMaterializes` |
| dag2file.go:30 | the empty path splits into one empty segment | resolving a two-chunk tree with the empty path lands on its first chunk, because chunk links have empty names | the empty path names the root itself | not executed | `Resolver.EmptyPathAsWritten` | `Resolver.EmptyPathIsRoot` |
| dag.go:148-156 | `seedId` is never advanced in the inner loop, so every child starts at the same offset | a file of 4096·262144+1 bytes is counted as 4096 copies of its first 4096·262144 bytes | each child starts where the previous one stopped | not executed | `ImporterAsWritten.SeedNotAdvanced` | `Importer.MapKVStore.StoreInnerLevel` |
| dag.go:74-77 | the link of a directory entry carries no name | a directory with one file entry named "a": the path "a" is not found | the link carries the entry's name | not executed | `ImporterAsWritten.UnnamedLinksHideEntries` | `Importer.DirectoryRoundTrip` |
| dag.go:58 | storeFile files the blob under the hash of its raw bytes, while the directory link uses the hash of the encoded blob | a directory with a file entry: the link's key holds nothing | one key for every object | not executed | `ImporterAsWritten.FileEntryLinkDangles` | `Importer.MapKVStore.StoreFile` |
