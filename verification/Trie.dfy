/** Merkle-Patricia tries (appendix D of the Yellow Paper) and what the proof walker says about them. */
module Trie {
  import opened Results
  import opened Bytes
  import opened HexPrefix
  import opened Rlp
  import opened TrieProof

  datatype Node =
    | Leaf(path: Path, value: ByteSeq)
    | Extension(path: Path, child: Node)
    | Branch(children: seq<Child>, value: ByteSeq)

  datatype Child = Empty | Subtree(node: Node)

  /** The value stored under a path; a branch value of zero bytes is no value. */
  function Lookup(t: Node, rest: Path): Option<ByteSeq> {
    match t
    case Leaf(path, value) => if path == rest then Some(value) else None
    case Extension(path, child) => if path <= rest then Lookup(child, rest[|path|..]) else None
    case Branch(children, value) =>
      if rest == [] then (if value == [] then None else Some(value))
      else if rest[0] < |children| && children[rest[0]].Subtree? then Lookup(children[rest[0]].node, rest[1..])
      else None
  }

  // ----- Commitment -----

  /** Branches have sixteen children and every node fits the length limit of RLP. */
  ghost predicate Committable(hash: Hash, t: Node)
    decreases t, 2
  {
    match t
    case Leaf(_, _) => Encodable(NodeValue(hash, t))
    case Extension(_, child) => Committable(hash, child) && Encodable(NodeValue(hash, t))
    case Branch(children, _) => |children| == 16 && AllCommittable(hash, children) && Encodable(NodeValue(hash, t))
  }

  ghost predicate AllCommittable(hash: Hash, children: seq<Child>)
    decreases children, 0
  {
    children == [] || (SlotCommittable(hash, children[0]) && AllCommittable(hash, children[1..]))
  }

  ghost predicate SlotCommittable(hash: Hash, slot: Child)
    decreases slot, 0
  {
    slot.Subtree? ==> Committable(hash, slot.node)
  }

  ghost predicate ChildrenCommittable(hash: Hash, t: Node)
    decreases t, 0
  {
    match t
    case Leaf(_, _) => true
    case Extension(_, child) => Committable(hash, child)
    case Branch(children, _) => AllCommittable(hash, children)
  }

  /** The RLP structure of a node. */
  ghost function NodeValue(hash: Hash, t: Node): Value
    requires ChildrenCommittable(hash, t)
    decreases t, 1
  {
    match t
    case Leaf(path, value) => List([Str(EncodePath(true, path)), Str(value)])
    case Extension(path, child) => List([Str(EncodePath(false, path)), ChildValue(hash, child)])
    case Branch(children, value) => List(ChildValues(hash, children) + [Str(value)])
  }

  /** A child is embedded when its encoding has under 32 bytes and stands as its digest otherwise. */
  ghost function ChildValue(hash: Hash, t: Node): Value
    requires Committable(hash, t)
    decreases t, 4
  {
    if Embedded(hash, t) then NodeValue(hash, t) else Str(hash(Encode(NodeValue(hash, t))))
  }

  ghost predicate Embedded(hash: Hash, t: Node)
    requires Committable(hash, t)
    decreases t, 3
  {
    EncodedLength(NodeValue(hash, t)) < 32
  }

  ghost function ChildValues(hash: Hash, children: seq<Child>): (vs: seq<Value>)
    requires AllCommittable(hash, children)
    ensures |vs| == |children|
    decreases children, 1
  {
    if children == [] then []
    else [SlotValue(hash, children[0])] + ChildValues(hash, children[1..])
  }

  ghost function SlotValue(hash: Hash, slot: Child): Value
    requires SlotCommittable(hash, slot)
    decreases slot, 1
  {
    match slot
    case Empty => Str([])
    case Subtree(t) => ChildValue(hash, t)
  }

  ghost function RootOf(hash: Hash, t: Node): ByteSeq
    requires Committable(hash, t)
  {
    hash(Encode(NodeValue(hash, t)))
  }

  lemma {:induction false} ChildAt(hash: Hash, children: seq<Child>, i: nat)
    requires AllCommittable(hash, children) && i < |children|
    ensures SlotCommittable(hash, children[i])
    ensures ChildValues(hash, children)[i] == SlotValue(hash, children[i])
  {
    if i > 0 { ChildAt(hash, children[1..], i - 1); }
  }

  // ----- The walk over a committed trie -----

  /** Where a walk goes from a node: the child and the rest of the path, if it goes on. */
  function Next(t: Node, rest: Path): Option<(Node, Path)> {
    match t
    case Leaf(_, _) => None
    case Extension(path, child) => if path <= rest then Some((child, rest[|path|..])) else None
    case Branch(children, _) =>
      if rest != [] && rest[0] < |children| && children[rest[0]].Subtree?
      then Some((children[rest[0]].node, rest[1..])) else None
  }

  lemma {:induction false} NextCommittable(hash: Hash, t: Node, rest: Path)
    requires Committable(hash, t) && Next(t, rest).Some?
    ensures Committable(hash, Next(t, rest).value.0)
    ensures Next(t, rest).value.0 < t
    ensures Lookup(t, rest) == Lookup(Next(t, rest).value.0, Next(t, rest).value.1)
  {
    if t.Branch? { ChildAt(hash, t.children, rest[0]); }
  }

  /** The nodes an honest provider collects by walking the path. */
  ghost function HonestProof(hash: Hash, t: Node, rest: Path): (proof: seq<ByteSeq>)
    requires Committable(hash, t)
    ensures proof != [] && proof[0] == Encode(NodeValue(hash, t))
    decreases t
  {
    [Encode(NodeValue(hash, t))] +
    match Next(t, rest)
    case None => []
    case Some((child, rest')) => NextCommittable(hash, t, rest); HonestProof(hash, child, rest')
  }

  /** The walk has to read a child that is embedded in its parent; an extension is read whole even off its path. */
  ghost predicate MeetsEmbedded(hash: Hash, t: Node, rest: Path)
    requires Committable(hash, t)
    decreases t
  {
    ReadsEmbedded(hash, t, rest) ||
    match Next(t, rest)
    case None => false
    case Some((child, rest')) => NextCommittable(hash, t, rest); MeetsEmbedded(hash, child, rest')
  }

  ghost predicate ReadsEmbedded(hash: Hash, t: Node, rest: Path)
    requires Committable(hash, t)
  {
    match t
    case Leaf(_, _) => false
    case Extension(_, child) => Embedded(hash, child)
    case Branch(_, _) =>
      match Next(t, rest)
      case None => false
      case Some((child, _)) => NextCommittable(hash, t, rest); Embedded(hash, child)
  }

  /** Fixed-length keys: every leaf lies at the end of a path of `depth` nibbles. */
  predicate FixedDepth(t: Node, depth: nat) {
    match t
    case Leaf(path, _) => |path| == depth
    case Extension(path, child) => |path| <= depth && FixedDepth(child, depth - |path|)
    case Branch(children, _) =>
      depth > 0 && forall i :: 0 <= i < |children| && children[i].Subtree? ==> FixedDepth(children[i].node, depth - 1)
  }

  ghost predicate Digests32(hash: Hash) {
    forall b: ByteSeq :: |hash(b)| == 32
  }

  /** Visiting a committed node does what the trie says, unless it embeds the child or is a leaf that ends too early. */
  lemma {:induction false} VisitCommitted(hash: Hash, t: Node, rest: Path)
    requires Digests32(hash)
    requires Committable(hash, t)
    ensures var v := VisitEncoded(Encode(NodeValue(hash, t)), rest);
            if ReadsEmbedded(hash, t, rest) || EndsEarly(t, rest) then v.Fail?
            else
              match Next(t, rest)
              case None => v.Done? && v.value == Lookup(t, rest)
              case Some((child, rest')) => Committable(hash, child) && v == Follow(RootOf(hash, child), rest')
  {
    var node := NodeValue(hash, t);
    DecodeIffCanonical(Encode(node), node);
    match t
    case Leaf(path, value) => CompactPathIffCanonical(EncodePath(true, path), true, path);
    case Extension(path, child) => VisitCommittedExtension(hash, t, rest);
    case Branch(children, value) => VisitCommittedBranch(hash, t, rest);
  }

  predicate EndsEarly(t: Node, rest: Path) {
    t.Leaf? && t.path < rest
  }

  lemma {:induction false} EmbeddedIsList(hash: Hash, t: Node)
    requires Committable(hash, t)
    ensures Embedded(hash, t) ==> ChildValue(hash, t).List?
    ensures !Embedded(hash, t) ==> ChildValue(hash, t) == Str(RootOf(hash, t))
  {}

  lemma {:induction false} VisitCommittedExtension(hash: Hash, t: Node, rest: Path)
    requires Digests32(hash)
    requires t.Extension? && Committable(hash, t)
    ensures var v := VisitNode(NodeValue(hash, t), rest);
            if Embedded(hash, t.child) then v.Fail?
            else if t.path <= rest then v == Follow(RootOf(hash, t.child), rest[|t.path|..])
            else v == Done(None, ExclusionTrailing)
  {
    EmbeddedIsList(hash, t.child);
    CompactPathIffCanonical(EncodePath(false, t.path), false, t.path);
  }

  lemma {:induction false} VisitCommittedBranch(hash: Hash, t: Node, rest: Path)
    requires Digests32(hash)
    requires t.Branch? && Committable(hash, t)
    ensures var v := VisitNode(NodeValue(hash, t), rest);
            match Next(t, rest)
            case None => v.Done? && v.value == Lookup(t, rest)
            case Some((child, rest')) =>
              Committable(hash, child) &&
              if Embedded(hash, child) then v.Fail? else v == Follow(RootOf(hash, child), rest')
  {
    if rest != [] {
      ChildAt(hash, t.children, rest[0]);
      if t.children[rest[0]].Subtree? { EmbeddedIsList(hash, t.children[rest[0]].node); }
    }
  }

  // ----- Soundness and completeness -----

  /** At equal positions, equal digests mean equal nodes. */
  ghost predicate NoCollision(hash: Hash, p: seq<ByteSeq>, q: seq<ByteSeq>) {
    forall i :: 0 <= i < |p| && i < |q| && hash(p[i]) == hash(q[i]) ==> p[i] == q[i]
  }

  /** Whatever proof is accepted under the root of a trie is the honest one, and its value is the one stored. */
  lemma {:induction false} WalkSound(hash: Hash, t: Node, rest: Path, proof: seq<ByteSeq>)
    requires Digests32(hash)
    requires Committable(hash, t)
    requires NoCollision(hash, HonestProof(hash, t, rest), proof)
    requires Walk(hash, RootOf(hash, t), rest, proof).Ok?
    ensures proof == HonestProof(hash, t, rest)
    ensures Walk(hash, RootOf(hash, t), rest, proof) == Ok(Lookup(t, rest))
    ensures !MeetsEmbedded(hash, t, rest)
    decreases t
  {
    FirstNodeHonest(hash, t, rest, proof);
    match Next(t, rest)
    case None =>
    case Some((child, rest')) =>
      NextCommittable(hash, t, rest);
      NoCollisionBehind(hash, HonestProof(hash, t, rest), HonestProof(hash, child, rest'), proof);
      WalkSound(hash, child, rest', proof[1..]);
      assert proof == [proof[0]] + proof[1..];
  }

  /** The first node of an accepted proof is the committed one, and the walk goes on where the trie does. */
  lemma FirstNodeHonest(hash: Hash, t: Node, rest: Path, proof: seq<ByteSeq>)
    requires Digests32(hash) && Committable(hash, t)
    requires NoCollision(hash, HonestProof(hash, t, rest), proof)
    requires Walk(hash, RootOf(hash, t), rest, proof).Ok?
    ensures proof != [] && proof[0] == Encode(NodeValue(hash, t)) && !ReadsEmbedded(hash, t, rest)
    ensures Next(t, rest).None? ==> |proof| == 1 && Walk(hash, RootOf(hash, t), rest, proof) == Ok(Lookup(t, rest))
    ensures Next(t, rest).Some? ==>
              && Committable(hash, Next(t, rest).value.0)
              && Walk(hash, RootOf(hash, t), rest, proof)
                 == Walk(hash, RootOf(hash, Next(t, rest).value.0), Next(t, rest).value.1, proof[1..])
  {
    var honest := HonestProof(hash, t, rest);
    assert proof[0] == honest[0];
    VisitCommitted(hash, t, rest);
  }

  lemma NoCollisionBehind(hash: Hash, p: seq<ByteSeq>, tail: seq<ByteSeq>, q: seq<ByteSeq>)
    requires p != [] && q != [] && p == [p[0]] + tail && NoCollision(hash, p, q)
    ensures NoCollision(hash, tail, q[1..])
  {
    forall i | 0 <= i < |tail| && i < |q[1..]| && hash(tail[i]) == hash(q[1..][i]) ensures tail[i] == q[1..][i] {
      assert tail[i] == p[i + 1] && q[1..][i] == q[i + 1];
    }
  }

  /** Without embedded nodes on the way the honest proof is accepted, for present and absent keys alike. */
  lemma {:induction false} WalkComplete(hash: Hash, t: Node, rest: Path)
    requires Digests32(hash)
    requires Committable(hash, t) && FixedDepth(t, |rest|)
    requires !MeetsEmbedded(hash, t, rest)
    ensures Walk(hash, RootOf(hash, t), rest, HonestProof(hash, t, rest)) == Ok(Lookup(t, rest))
    decreases t
  {
    var honest := HonestProof(hash, t, rest);
    VisitCommitted(hash, t, rest);
    match Next(t, rest)
    case None =>
    case Some((child, rest')) =>
      NextCommittable(hash, t, rest);
      WalkComplete(hash, child, rest');
      assert honest[1..] == HonestProof(hash, child, rest');
  }

  /** Soundness: an accepted proof is the honest proof and returns the value the root commits to. */
  lemma TrieValueSound(hash: Hash, t: Node, key: ByteSeq, proof: seq<ByteSeq>)
    requires Digests32(hash)
    requires Committable(hash, t)
    requires NoCollision(hash, HonestProof(hash, t, Nibbles(key)), proof)
    requires TrieValue(hash, RootOf(hash, t), key, proof).Ok?
    ensures TrieValue(hash, RootOf(hash, t), key, proof) == Ok(Lookup(t, Nibbles(key)))
    ensures proof == HonestProof(hash, t, Nibbles(key))
  {
    WalkSound(hash, t, Nibbles(key), proof);
  }

  ghost predicate Provable(hash: Hash, t: Node, key: ByteSeq)
    requires Committable(hash, t)
  {
    exists proof :: Proves(hash, t, key, proof)
  }

  ghost predicate Proves(hash: Hash, t: Node, key: ByteSeq, proof: seq<ByteSeq>)
    requires Committable(hash, t)
  {
    && NoCollision(hash, HonestProof(hash, t, Nibbles(key)), proof)
    && TrieValue(hash, RootOf(hash, t), key, proof).Ok?
  }

  /** Completeness, exactly: a key has an accepted proof if and only if its walk reads no embedded node. */
  lemma ProvableIffNoEmbedded(hash: Hash, t: Node, key: ByteSeq)
    requires Digests32(hash)
    requires Committable(hash, t) && FixedDepth(t, 2 * |key|)
    ensures Provable(hash, t, key) <==> !MeetsEmbedded(hash, t, Nibbles(key))
    ensures !MeetsEmbedded(hash, t, Nibbles(key)) ==>
              TrieValue(hash, RootOf(hash, t), key, HonestProof(hash, t, Nibbles(key))) == Ok(Lookup(t, Nibbles(key)))
  {
    var path := Nibbles(key);
    if !MeetsEmbedded(hash, t, path) {
      WalkComplete(hash, t, path);
      assert Proves(hash, t, key, HonestProof(hash, t, path));
    }
    if proof :| Proves(hash, t, key, proof) {
      WalkSound(hash, t, path, proof);
    }
  }

  // ----- A stored key without a proof -----

  /** Under keys of 32 bytes: 62 shared nibbles, then two leaves that differ in the nibble before the last. */
  function TwoLeaves(): Node {
    Extension(seq(62, i => 0), Branch(seq(16, i => if i < 2 then Subtree(ShortLeaf()) else Empty), []))
  }

  function ShortLeaf(): Node {
    Leaf([0], [1])
  }

  lemma ShortLeafEmbedded(hash: Hash)
    ensures Committable(hash, ShortLeaf()) && Embedded(hash, ShortLeaf())
  {
    var path: ByteSeq := EncodePath(true, [0]);
    EncodePathLength(true, [0]);
    PairEncodable(path, [1]);
    var items := [Str(path), Str([1])];
    assert items[1..] == [Str([1])] && [Str([1])][1..] == [];
    assert PayloadLength(items) == EncodedLength(Str(path)) + EncodedLength(Str([1]));
  }

  /** A child takes at most 33 bytes in its parent. */
  lemma ChildValueSmall(hash: Hash, t: Node)
    requires Digests32(hash) && Committable(hash, t)
    ensures Encodable(ChildValue(hash, t)) && EncodedLength(ChildValue(hash, t)) <= 33
  {}

  lemma BranchCommittable(hash: Hash, children: seq<Child>)
    requires Digests32(hash) && |children| == 16 && AllCommittable(hash, children)
    ensures Committable(hash, Branch(children, []))
  {
    var items := ChildValues(hash, children) + [Str([])];
    forall i | 0 <= i < |items| ensures Encodable(items[i]) && EncodedLength(items[i]) <= 33 {
      if i < 16 {
        ChildAt(hash, children, i);
        if children[i].Subtree? { ChildValueSmall(hash, children[i].node); }
      }
    }
    AllEncodableOf(items);
    PayloadBound(items, 33);
  }

  lemma {:induction false} AllCommittableOf(hash: Hash, children: seq<Child>)
    requires forall i :: 0 <= i < |children| ==> SlotCommittable(hash, children[i])
    ensures AllCommittable(hash, children)
  {
    if children != [] { AllCommittableOf(hash, children[1..]); }
  }

  lemma ExtensionCommittable(hash: Hash, path: Path, child: Node)
    requires Digests32(hash) && |path| <= 64 && Committable(hash, child)
    ensures Committable(hash, Extension(path, child))
  {
    var items := [Str(EncodePath(false, path)), ChildValue(hash, child)];
    EncodePathLength(false, path);
    ChildValueSmall(hash, child);
    AllEncodableOf(items);
    PayloadBound(items, 34);
  }

  lemma TwoLeavesCommittable(hash: Hash)
    requires Digests32(hash)
    ensures Committable(hash, TwoLeaves()) && Committable(hash, TwoLeaves().child)
  {
    var t := TwoLeaves();
    ShortLeafEmbedded(hash);
    AllCommittableOf(hash, t.child.children);
    BranchCommittable(hash, t.child.children);
    ExtensionCommittable(hash, t.path, t.child);
  }

  lemma TwoLeavesDepth()
    ensures FixedDepth(TwoLeaves(), 64)
  {
    assert FixedDepth(ShortLeaf(), 1);
    assert FixedDepth(TwoLeaves().child, 2);
  }

  lemma TwoLeavesWalk(hash: Hash, path: Path)
    requires Digests32(hash) && |path| == 64 && forall i :: 0 <= i < 64 ==> path[i] == 0
    ensures Lookup(TwoLeaves(), path) == Some([1])
    ensures Committable(hash, TwoLeaves()) && MeetsEmbedded(hash, TwoLeaves(), path)
  {
    var t := TwoLeaves();
    TwoLeavesCommittable(hash);
    ShortLeafEmbedded(hash);
    assert t.path <= path && path[62..] == [0, 0] && [0, 0][1..] == [0];
    assert Next(t, path) == Some((t.child, [0, 0]));
    assert Next(t.child, [0, 0]) == Some((ShortLeaf(), [0]));
  }

  /** The trie stores a value under a key of 32 bytes, and no node list proves it. */
  lemma EmbeddedLeafExample(hash: Hash)
    requires Digests32(hash)
    ensures var t, key: ByteSeq := TwoLeaves(), seq(32, i => 0);
            && Committable(hash, t) && FixedDepth(t, 64)
            && Lookup(t, Nibbles(key)) == Some([1]) && !Provable(hash, t, key)
  {
    var t, key: ByteSeq := TwoLeaves(), seq(32, i => 0);
    NibblesOfZeros(key);
    TwoLeavesWalk(hash, Nibbles(key));
    TwoLeavesDepth();
    ProvableIffNoEmbedded(hash, t, key);
  }

  lemma {:induction false} NibblesOfZeros(key: ByteSeq)
    requires forall i :: 0 <= i < |key| ==> key[i] == 0
    ensures forall i :: 0 <= i < 2 * |key| ==> Nibbles(key)[i] == 0
  {
    if key != [] { NibblesOfZeros(key[1..]); }
  }

  // ----- The layout of a node -----

  /** A branch is its sixteen children in order, then its value; an empty child is the empty string. */
  lemma BranchLayout(hash: Hash, t: Node, i: nat)
    requires t.Branch? && Committable(hash, t) && i < 16
    ensures var items := NodeValue(hash, t).items;
            && |items| == 17 && items[16] == Str(t.value)
            && (t.children[i].Empty? ==> items[i] == Str([]))
            && (t.children[i].Subtree? ==>
                  Committable(hash, t.children[i].node) && items[i] == ChildValue(hash, t.children[i].node))
  {
    ChildAt(hash, t.children, i);
  }

  /** A child of 32 bytes or more stands as its digest, a shorter one as itself. */
  lemma ChildLayout(hash: Hash, t: Node)
    requires Committable(hash, t)
    ensures |Encode(NodeValue(hash, t))| >= 32 ==> ChildValue(hash, t) == Str(RootOf(hash, t))
    ensures |Encode(NodeValue(hash, t))| < 32 ==> ChildValue(hash, t) == NodeValue(hash, t)
  {}
}
