/** The Merkle-DAG object model shared by the importer (dag.go) and the
    resolver (dag2file.go): links, objects, the content key and the two
    constants that shape a chunk tree. */
module Objects {

  type Byte = bv8
  type Bytes = seq<Byte>

  /** A content key: the digest of an object's canonical encoding.  The
      store is addressed by it (the hex string of the digest in the source,
      which is a one-to-one renaming of the digest bytes). */
  type Key = seq<Byte>

  /** Size of one file chunk: 256 KiB. */
  const ChunkSize: nat := 262144
  /** Largest number of links in one chunk-tree node. */
  const Fanout: nat := 4096

  datatype Option<+T> = None | Some(value: T)

  /** FILE and DIR of the source's NodeType; objects of a chunk tree keep
      the zero value, FILE. */
  datatype NodeType = FileType | DirType

  /** A reference from a parent to an already stored child.  `name` is the
      empty string for chunk-tree links and the entry name in a directory;
      `size` is the logical byte length of the subtree behind the link. */
  datatype Link = Link(name: string, hash: Key, size: nat)

  /** A blob has no links and carries bytes; a list node carries links. */
  datatype Object = Object(links: seq<Link>, data: Bytes, kind: NodeType)
  {
    predicate IsBlob() { |links| == 0 }
  }

  /** The content-key function is one-to-one: distinct objects never share
      a key (the model's stand-in for a collision-free hash). */
  ghost predicate Injective(key: Object -> Key) {
    forall a, b :: key(a) == key(b) ==> a == b
  }

  /** The names carried by a sequence of links, in order. */
  function LinkNames(links: seq<Link>): seq<string> {
    seq(|links|, i requires 0 <= i < |links| => links[i].name)
  }

  /** Position of the first of `names` equal to `name`: the scan getNode
      makes over an object's links, and a path lookup makes over a
      directory's entries. */
  function FirstNamed(names: seq<string>, name: string): (r: Option<nat>)
    ensures r.Some? ==> r.value < |names| && names[r.value] == name
    ensures r.Some? ==> forall j :: 0 <= j < r.value ==> names[j] != name
    ensures r.None? <==> forall j :: 0 <= j < |names| ==> names[j] != name
  {
    if names == [] then None
    else if names[0] == name then Some(0)
    else match FirstNamed(names[1..], name)
      case None => None
      case Some(i) => Some(i + 1)
  }

  /** The first position holding `name` is the one FirstNamed finds. */
  lemma FirstNamedAt(names: seq<string>, name: string, j: nat)
    requires j < |names| && names[j] == name
    requires forall m :: 0 <= m < j ==> names[m] != name
    ensures FirstNamed(names, name) == Some(j)
  {
  }

  function Min(a: int, b: int): int { if a <= b then a else b }

  function Pow(b: nat, e: nat): nat {
    if e == 0 then 1 else b * Pow(b, e - 1)
  }

  /** Bytes a chunk tree of the given height can hold: Fanout^height chunks. */
  function Capacity(height: nat): nat {
    Pow(Fanout, height) * ChunkSize
  }

  /** Total of the logical sizes recorded in a sequence of links. */
  function SumSizes(links: seq<Link>): nat {
    if links == [] then 0 else links[0].size + SumSizes(links[1..])
  }

  lemma {:induction false} PowPositive(b: nat, e: nat)
    requires 1 <= b
    ensures 1 <= Pow(b, e)
  {
    if e > 0 {
      PowPositive(b, e - 1);
      MulMonotone(1, b, Pow(b, e - 1));
    }
  }

  lemma {:induction false} PowMonotone(b: nat, e: nat, f: nat)
    requires 1 <= b && e <= f
    ensures Pow(b, e) <= Pow(b, f)
  {
    if e < f {
      PowMonotone(b, e, f - 1);
      PowPositive(b, f - 1);
      MulMonotone(1, b, Pow(b, f - 1));
    }
  }

  lemma MulMonotone(a: nat, b: nat, c: nat)
    requires a <= b
    ensures a * c <= b * c
  {
  }

  /** One more level multiplies the capacity by the fan-out. */
  lemma CapacityStep(height: nat)
    requires 1 <= height
    ensures Capacity(height) == Fanout * Capacity(height - 1)
  {
    assert Pow(Fanout, height) == Fanout * Pow(Fanout, height - 1);
  }

  lemma CapacityPositive(height: nat)
    ensures ChunkSize <= Capacity(height)
  {
    PowPositive(Fanout, height);
    MulMonotone(1, Pow(Fanout, height), ChunkSize);
  }
}
