/** The Merkle-Patricia proof walker (`_trie_value`). */
module TrieProof {
  import opened Results
  import opened Bytes
  import opened HexPrefix
  import opened Rlp

  /** The digest is a parameter: nothing below depends on which 32-byte hash it is. */
  type Hash = ByteSeq -> ByteSeq

  datatype ProofError =
    | RootOrNodeSetInvalid
    | ReferenceMismatch
    | NodeRlpInvalid(rlp: RlpError)
    | NodeNotList
    | BranchTrailing
    | BranchChildInvalid
    | ExclusionTrailing
    | CompactPathInvalid(path: PathError)
    | LeafIncomplete
    | ExtensionEmpty
    | ShapeInvalid
    | NoValueEstablished

  // ----- One node -----

  /** What a node says about the rest of a path. `trailing` is the error if more nodes follow a final one. */
  datatype Visit =
    | Done(value: Option<ByteSeq>, trailing: ProofError)
    | Follow(reference: ByteSeq, rest: Path)
    | Fail(error: ProofError)

  function VisitBranch(items: seq<Value>, rest: Path): Visit
    requires |items| == 17
  {
    if rest == [] then
      match items[16]
      case List(_) => Fail(BranchTrailing)
      case Str(value) => Done(if value == [] then None else Some(value), BranchTrailing)
    else
      match items[rest[0]]
      case List(_) => Fail(BranchChildInvalid)
      case Str(child) => if child == [] then Done(None, ExclusionTrailing) else Follow(child, rest[1..])
  }

  function VisitShort(compact: ByteSeq, payload: ByteSeq, rest: Path): Visit {
    match CompactPath(compact)
    case Err(e) => Fail(CompactPathInvalid(e))
    case Ok((leaf, segment)) =>
      if !(segment <= rest) then Done(None, ExclusionTrailing)
      else if leaf then
        if |segment| != |rest| then Fail(LeafIncomplete) else Done(Some(payload), LeafIncomplete)
      else if payload == [] then Fail(ExtensionEmpty)
      else Follow(payload, rest[|segment|..])
  }

  function VisitNode(node: Value, rest: Path): Visit {
    match node
    case Str(_) => Fail(NodeNotList)
    case List(items) =>
      if |items| == 17 then VisitBranch(items, rest)
      else if |items| == 2 && items[0].Str? && items[1].Str? then
        VisitShort(items[0].bytes, items[1].bytes, rest)
      else Fail(ShapeInvalid)
  }

  function VisitEncoded(encoded: ByteSeq, rest: Path): Visit {
    match Decode(encoded)
    case Err(e) => Fail(NodeRlpInvalid(e))
    case Ok(node) => VisitNode(node, rest)
  }

  // ----- The walk -----

  /** A reference of 32 bytes is a digest, a shorter one is the node itself, a longer one is not checked. */
  predicate ReferenceHolds(hash: Hash, expected: ByteSeq, encoded: ByteSeq) {
    && (|expected| == 32 ==> hash(encoded) == expected)
    && (|expected| < 32 ==> encoded == expected)
  }

  function Walk(hash: Hash, expected: ByteSeq, rest: Path, proof: seq<ByteSeq>): Result<Option<ByteSeq>, ProofError>
    decreases |proof|
  {
    if proof == [] then Err(NoValueEstablished)
    else if !ReferenceHolds(hash, expected, proof[0]) then Err(ReferenceMismatch)
    else
      match VisitEncoded(proof[0], rest)
      case Fail(e) => Err(e)
      case Done(value, trailing) => if |proof| == 1 then Ok(value) else Err(trailing)
      case Follow(reference, rest') => Walk(hash, reference, rest', proof[1..])
  }

  function TrieValue(
      hash: Hash, root: ByteSeq, key: ByteSeq, proof: seq<ByteSeq>): Result<Option<ByteSeq>, ProofError>
  {
    if |root| != 32 || proof == [] then Err(RootOrNodeSetInvalid) else Walk(hash, root, Nibbles(key), proof)
  }

  /** The effect of one loop iteration: a return, or the next reference and cursor. */
  datatype Outcome = Return(result: Result<Option<ByteSeq>, ProofError>) | Continue(expected: ByteSeq, cursor: nat)

  /** `outcome` is what visit `v` of the path from `cursor` on leads to. */
  ghost predicate Reflects(outcome: Outcome, v: Visit, path: Path, last: bool) {
    match v
    case Fail(e) => outcome == Return(Err(e))
    case Done(value, trailing) => outcome == Return(if last then Ok(value) else Err(trailing))
    case Follow(reference, rest) =>
      outcome.Continue? && outcome.expected == reference && outcome.cursor <= |path| && path[outcome.cursor..] == rest
  }

  method StepBranch(node: seq<Value>, path: Path, cursor: nat, last: bool) returns (outcome: Outcome)
    requires |node| == 17 && cursor <= |path|
    ensures Reflects(outcome, VisitBranch(node, path[cursor..]), path, last)
  {
    if cursor == |path| {
      if !last || !node[16].Str? { return Return(Err(BranchTrailing)); }
      return Return(Ok(if node[16].bytes == [] then None else Some(node[16].bytes)));
    }
    var child := node[path[cursor]];
    if !child.Str? { return Return(Err(BranchChildInvalid)); }
    if child.bytes == [] {
      if !last { return Return(Err(ExclusionTrailing)); }
      return Return(Ok(None));
    }
    assert path[cursor..][1..] == path[cursor + 1..];
    return Continue(child.bytes, cursor + 1);
  }

  method StepShort(compact: ByteSeq, payload: ByteSeq, path: Path, cursor: nat, last: bool) returns (outcome: Outcome)
    requires cursor <= |path|
    ensures Reflects(outcome, VisitShort(compact, payload, path[cursor..]), path, last)
  {
    var decoded := CompactPath(compact);
    if decoded.Err? { return Return(Err(CompactPathInvalid(decoded.error))); }
    var (leaf, segment) := decoded.value;
    var stop := if cursor + |segment| <= |path| then cursor + |segment| else |path|;
    assert path[cursor..stop] == segment <==> segment <= path[cursor..];
    if path[cursor..stop] != segment {
      if !last { return Return(Err(ExclusionTrailing)); }
      return Return(Ok(None));
    }
    if leaf {
      if cursor + |segment| != |path| || !last { return Return(Err(LeafIncomplete)); }
      return Return(Ok(Some(payload)));
    }
    if payload == [] { return Return(Err(ExtensionEmpty)); }
    assert path[cursor..][|segment|..] == path[cursor + |segment|..];
    return Continue(payload, cursor + |segment|);
  }

  method StepNode(encoded: ByteSeq, path: Path, cursor: nat, last: bool) returns (outcome: Outcome)
    requires cursor <= |path|
    ensures Reflects(outcome, VisitEncoded(encoded, path[cursor..]), path, last)
  {
    var decoded := RlpDecode(encoded);
    if decoded.Err? { return Return(Err(NodeRlpInvalid(decoded.error))); }
    if decoded.value.Str? { return Return(Err(NodeNotList)); }
    var node := decoded.value.items;
    if |node| == 17 {
      outcome := StepBranch(node, path, cursor, last);
    } else if |node| == 2 && node[0].Str? && node[1].Str? {
      outcome := StepShort(node[0].bytes, node[1].bytes, path, cursor, last);
    } else {
      outcome := Return(Err(ShapeInvalid));
    }
  }

  /** `_trie_value` as written: one pass over the nodes that updates `expected` and `cursor`. */
  method CheckTrieProof(hash: Hash, root: ByteSeq, key: ByteSeq, proof: seq<ByteSeq>)
    returns (r: Result<Option<ByteSeq>, ProofError>)
    ensures r == TrieValue(hash, root, key, proof)
  {
    if |root| != 32 || proof == [] { return Err(RootOrNodeSetInvalid); }
    var path := ExpandNibbles(key);
    var expected := root;
    var cursor: nat := 0;
    assert path[cursor..] == path && proof[0..] == proof;
    for index := 0 to |proof|
      invariant cursor <= |path|
      invariant TrieValue(hash, root, key, proof) == Walk(hash, expected, path[cursor..], proof[index..])
    {
      if !ReferenceHolds(hash, expected, proof[index]) { return Err(ReferenceMismatch); }
      var outcome := StepNode(proof[index], path, cursor, index == |proof| - 1);
      assert proof[index..][1..] == proof[index + 1..];
      match outcome
      case Return(result) => return result;
      case Continue(reference, next) => expected, cursor := reference, next;
    }
    return Err(NoValueEstablished);
  }

  // ----- Uniqueness of accepted proofs -----

  /** The reference each node is checked against, the root first. */
  function References(expected: ByteSeq, rest: Path, proof: seq<ByteSeq>): (refs: seq<ByteSeq>)
    ensures |refs| <= |proof|
    decreases |proof|
  {
    if proof == [] then []
    else
      [expected] +
      match VisitEncoded(proof[0], rest)
      case Follow(reference, rest') => References(reference, rest', proof[1..])
      case _ => []
  }

  /** Some node was accepted under a reference that is not checked. */
  predicate FollowsLongReference(expected: ByteSeq, rest: Path, proof: seq<ByteSeq>) {
    exists i :: 0 <= i < |References(expected, rest, proof)| && |References(expected, rest, proof)[i]| > 32
  }

  /** The two proofs hold no digest collision at a place where the digest is compared. */
  ghost predicate NoCheckedCollision(hash: Hash, refs: seq<ByteSeq>, p: seq<ByteSeq>, q: seq<ByteSeq>) {
    forall i :: 0 <= i < |refs| && i < |p| && i < |q| && |refs[i]| == 32 && hash(p[i]) == hash(q[i]) ==> p[i] == q[i]
  }

  lemma {:induction false} ReferencesFollow(expected: ByteSeq, rest: Path, proof: seq<ByteSeq>)
    requires proof != [] && VisitEncoded(proof[0], rest).Follow?
    ensures var v := VisitEncoded(proof[0], rest);
            References(expected, rest, proof) == [expected] + References(v.reference, v.rest, proof[1..])
    ensures var v := VisitEncoded(proof[0], rest);
            FollowsLongReference(expected, rest, proof) <==>
            |expected| > 32 || FollowsLongReference(v.reference, v.rest, proof[1..])
  {
    var v := VisitEncoded(proof[0], rest);
    var refs := References(expected, rest, proof);
    var tail := References(v.reference, v.rest, proof[1..]);
    assert refs == [expected] + tail;
    if i :| 0 <= i < |tail| && |tail[i]| > 32 {
      assert |refs[i + 1]| > 32;
    }
    if i :| 0 <= i < |refs| && |refs[i]| > 32 {
      assert i > 0 ==> |tail[i - 1]| > 32;
    }
    assert |expected| > 32 ==> |refs[0]| > 32;
  }

  lemma {:induction false} WalkUnique(hash: Hash, expected: ByteSeq, rest: Path, p: seq<ByteSeq>, q: seq<ByteSeq>)
    requires Walk(hash, expected, rest, p).Ok? && Walk(hash, expected, rest, q).Ok?
    requires !FollowsLongReference(expected, rest, p)
    requires NoCheckedCollision(hash, References(expected, rest, p), p, q)
    ensures p == q
    decreases |p|
  {
    var refs := References(expected, rest, p);
    assert refs[0] == expected && |refs[0]| <= 32;
    assert p[0] == q[0];
    var v := VisitEncoded(p[0], rest);
    if v.Follow? {
      ReferencesFollow(expected, rest, p);
      var tail, p', q' := References(v.reference, v.rest, p[1..]), p[1..], q[1..];
      forall i | 0 <= i < |tail| && i < |p'| && i < |q'| && |tail[i]| == 32 && hash(p'[i]) == hash(q'[i])
        ensures p'[i] == q'[i]
      {
        assert tail[i] == refs[i + 1] && p'[i] == p[i + 1] && q'[i] == q[i + 1];
      }
      WalkUnique(hash, v.reference, v.rest, p', q');
      assert p == [p[0]] + p[1..] && q == [q[0]] + q[1..];
    }
  }

  /** A branch with no children ends any walk. */
  function BareBranch(value: ByteSeq): Value {
    List(seq(16, i => Str([])) + [Str(value)])
  }

  lemma BareBranchEndsWalk(value: ByteSeq, rest: Path)
    requires |value| <= 1
    ensures Encodable(BareBranch(value))
    ensures VisitEncoded(Encode(BareBranch(value)), rest).Done?
  {
    var items := BareBranch(value).items;
    AllEncodableOf(items);
    PayloadBound(items, 2);
    DecodeIffCanonical(Encode(BareBranch(value)), BareBranch(value));
  }

  lemma BareBranchesDiffer(v: ByteSeq, w: ByteSeq)
    requires v != w
    requires Encodable(BareBranch(v)) && Encodable(BareBranch(w))
    ensures Encode(BareBranch(v)) != Encode(BareBranch(w))
  {
    assert BareBranch(v).items[16] == Str(v) && BareBranch(w).items[16] == Str(w);
    if Encode(BareBranch(v)) == Encode(BareBranch(w)) {
      EncodePrefixFree(BareBranch(v), BareBranch(w));
    }
  }

  lemma AnotherFinalNode(present: ByteSeq, rest: Path) returns (node: ByteSeq)
    ensures node != present && VisitEncoded(node, rest).Done?
  {
    BareBranchEndsWalk([], rest);
    BareBranchEndsWalk([1], rest);
    BareBranchesDiffer([], [1]);
    var a, b := Encode(BareBranch([])), Encode(BareBranch([1]));
    node := if present != a then a else b;
  }

  /**
   * Below an unchecked reference any final node can be put: a proof cut there and ended by it is accepted with its
   * value.
   */
  ghost predicate Open(hash: Hash, expected: ByteSeq, rest: Path, p: seq<ByteSeq>, i: nat, left: Path) {
    && i < |p| && |left| <= |rest|
    && forall node :: VisitEncoded(node, left).Done? ==>
         Ends(hash, expected, rest, p, p[..i] + [node], VisitEncoded(node, left).value)
  }

  /** Proof `q` is accepted with the value and breaks no digest comparison of `p`. */
  ghost predicate Ends(
      hash: Hash, expected: ByteSeq, rest: Path, p: seq<ByteSeq>, q: seq<ByteSeq>, value: Option<ByteSeq>)
  {
    Walk(hash, expected, rest, q) == Ok(value) && NoCheckedCollision(hash, References(expected, rest, p), p, q)
  }

  lemma {:induction false} LongReferenceOpens(hash: Hash, expected: ByteSeq, rest: Path, p: seq<ByteSeq>)
    returns (i: nat, left: Path)
    requires Walk(hash, expected, rest, p).Ok?
    requires FollowsLongReference(expected, rest, p)
    ensures Open(hash, expected, rest, p, i, left)
    decreases |p|
  {
    if |expected| > 32 {
      i, left := 0, rest;
      forall node | VisitEncoded(node, left).Done?
        ensures Ends(hash, expected, rest, p, p[..0] + [node], VisitEncoded(node, left).value)
      {
        assert p[..0] + [node] == [node];
      }
    } else {
      var v := VisitEncoded(p[0], rest);
      assert v.Done? ==> References(expected, rest, p) == [expected];
      ReferencesFollow(expected, rest, p);
      var k;
      k, left := LongReferenceOpens(hash, v.reference, v.rest, p[1..]);
      OpenBehind(hash, expected, rest, p, k, left);
      i := k + 1;
    }
  }

  lemma OpenBehind(hash: Hash, expected: ByteSeq, rest: Path, p: seq<ByteSeq>, k: nat, left: Path)
    requires p != [] && ReferenceHolds(hash, expected, p[0]) && VisitEncoded(p[0], rest).Follow?
    requires var v := VisitEncoded(p[0], rest); Open(hash, v.reference, v.rest, p[1..], k, left)
    ensures Open(hash, expected, rest, p, k + 1, left)
  {
    RestShrinks(p[0], rest);
    forall node | VisitEncoded(node, left).Done?
      ensures Ends(hash, expected, rest, p, p[..k + 1] + [node], VisitEncoded(node, left).value)
    {
      assert p[..k + 1] + [node] == [p[0]] + (p[1..][..k] + [node]);
      EndsBehind(hash, expected, rest, p, p[1..][..k] + [node], VisitEncoded(node, left).value);
    }
  }

  lemma RestShrinks(encoded: ByteSeq, rest: Path)
    requires VisitEncoded(encoded, rest).Follow?
    ensures |VisitEncoded(encoded, rest).rest| <= |rest|
  {}

  /** A rival of the tail of a proof is a rival of the proof. */
  lemma EndsBehind(
      hash: Hash, expected: ByteSeq, rest: Path, p: seq<ByteSeq>, tail: seq<ByteSeq>, value: Option<ByteSeq>)
    requires p != [] && ReferenceHolds(hash, expected, p[0]) && VisitEncoded(p[0], rest).Follow?
    requires var v := VisitEncoded(p[0], rest); Ends(hash, v.reference, v.rest, p[1..], tail, value)
    ensures Ends(hash, expected, rest, p, [p[0]] + tail, value)
  {
    var v, q := VisitEncoded(p[0], rest), [p[0]] + tail;
    assert q[1..] == tail;
    ReferencesFollow(expected, rest, p);
    var refs, inner := References(expected, rest, p), References(v.reference, v.rest, p[1..]);
    forall i | 0 <= i < |refs| && i < |p| && i < |q| && |refs[i]| == 32 && hash(p[i]) == hash(q[i])
      ensures p[i] == q[i]
    {
      if i > 0 {
        assert refs[i] == inner[i - 1] && p[i] == p[1..][i - 1] && q[i] == tail[i - 1];
      }
    }
  }

  /** A node that ends a walk with a given value: a leaf for the whole rest, or a bare branch for absence. */
  function FinalNode(rest: Path, value: Option<ByteSeq>): Value {
    match value
    case None => BareBranch([])
    case Some(v) => List([Str(EncodePath(true, rest)), Str(v)])
  }

  /** The leaf fits the length limit of RLP. */
  predicate Fits(rest: Path, value: Option<ByteSeq>) {
    value.Some? ==> |rest| + |value.value| < LENGTH_LIMIT - 20
  }

  lemma FinalNodeEndsWalk(rest: Path, value: Option<ByteSeq>)
    requires Fits(rest, value)
    ensures Encodable(FinalNode(rest, value))
    ensures VisitEncoded(Encode(FinalNode(rest, value)), rest).Done?
    ensures VisitEncoded(Encode(FinalNode(rest, value)), rest).value == value
  {
    match value
    case None =>
      BareBranchEndsWalk([], rest);
      BareBranchIsAbsence(rest);
    case Some(v) =>
      EncodePathLength(true, rest);
      PairEncodable(EncodePath(true, rest), v);
      DecodeIffCanonical(Encode(FinalNode(rest, value)), FinalNode(rest, value));
      CompactPathIffCanonical(EncodePath(true, rest), true, rest);
  }

  lemma BareBranchIsAbsence(rest: Path)
    ensures VisitNode(BareBranch([]), rest) == VisitBranch(BareBranch([]).items, rest)
    ensures VisitNode(BareBranch([]), rest).Done? && VisitNode(BareBranch([]), rest).value == None
    ensures Encodable(BareBranch([])) && VisitEncoded(Encode(BareBranch([])), rest) == VisitNode(BareBranch([]), rest)
  {
    BareBranchEndsWalk([], rest);
    DecodeIffCanonical(Encode(BareBranch([])), BareBranch([]));
  }

  /** Below a reference of more than 32 bytes every value that fits a leaf, and absence, is accepted. */
  lemma LongReferenceForges(hash: Hash, root: ByteSeq, key: ByteSeq, p: seq<ByteSeq>, value: Option<ByteSeq>)
    returns (q: seq<ByteSeq>)
    requires TrieValue(hash, root, key, p).Ok? && FollowsLongReference(root, Nibbles(key), p)
    requires Fits(Nibbles(key), value)
    ensures TrieValue(hash, root, key, q) == Ok(value)
    ensures NoCheckedCollision(hash, References(root, Nibbles(key), p), p, q)
  {
    var i, left := LongReferenceOpens(hash, root, Nibbles(key), p);
    FinalNodeEndsWalk(left, value);
    var node := Encode(FinalNode(left, value));
    q := p[..i] + [node];
    assert Ends(hash, root, Nibbles(key), p, q, value);
  }

  ghost predicate HasRival(hash: Hash, root: ByteSeq, key: ByteSeq, p: seq<ByteSeq>) {
    exists q :: IsRival(hash, root, key, p, q)
  }

  /** A different accepted proof that breaks no digest comparison. */
  ghost predicate IsRival(hash: Hash, root: ByteSeq, key: ByteSeq, p: seq<ByteSeq>, q: seq<ByteSeq>) {
    && q != p
    && TrieValue(hash, root, key, q).Ok?
    && NoCheckedCollision(hash, References(root, Nibbles(key), p), p, q)
  }

  /**
   * An accepted proof is the only one, up to digest collisions, exactly when every reference it follows has at most 32
   * bytes.
   */
  lemma ProofUniqueIffReferencesShort(hash: Hash, root: ByteSeq, key: ByteSeq, p: seq<ByteSeq>)
    requires TrieValue(hash, root, key, p).Ok?
    ensures !HasRival(hash, root, key, p) <==> !FollowsLongReference(root, Nibbles(key), p)
  {
    var path := Nibbles(key);
    if FollowsLongReference(root, path, p) {
      var i, left := LongReferenceOpens(hash, root, path, p);
      var node := AnotherFinalNode(p[i], left);
      var q := p[..i] + [node];
      assert Ends(hash, root, path, p, q, VisitEncoded(node, left).value);
      assert q[i] != p[i];
      assert IsRival(hash, root, key, p, q);
    } else if HasRival(hash, root, key, p) {
      var q :| IsRival(hash, root, key, p, q);
      WalkUnique(hash, root, path, p, q);
    }
  }

  /** Every accepted proof that breaks no digest comparison returns the same value. */
  ghost predicate ValueDetermined(hash: Hash, root: ByteSeq, key: ByteSeq, p: seq<ByteSeq>) {
    forall q ::
      TrieValue(hash, root, key, q).Ok? && NoCheckedCollision(hash, References(root, Nibbles(key), p), p, q) ==>
      TrieValue(hash, root, key, q) == TrieValue(hash, root, key, p)
  }

  /** The value itself is determined exactly when every reference followed has at most 32 bytes. */
  lemma ValueDeterminedIffReferencesShort(hash: Hash, root: ByteSeq, key: ByteSeq, p: seq<ByteSeq>)
    requires TrieValue(hash, root, key, p).Ok? && Fits(Nibbles(key), Some([]))
    ensures ValueDetermined(hash, root, key, p) <==> !FollowsLongReference(root, Nibbles(key), p)
  {
    if FollowsLongReference(root, Nibbles(key), p) {
      var other: Option<ByteSeq> := if TrieValue(hash, root, key, p).value.None? then Some([]) else None;
      var q := LongReferenceForges(hash, root, key, p, other);
      assert !ValueDetermined(hash, root, key, p);
    } else {
      forall q | TrieValue(hash, root, key, q).Ok? && NoCheckedCollision(hash, References(root, Nibbles(key), p), p, q)
        ensures TrieValue(hash, root, key, q) == TrieValue(hash, root, key, p)
      {
        WalkUnique(hash, root, Nibbles(key), p, q);
      }
    }
  }

  /** An extension with an empty path and a 33-byte child. */
  function UncheckedExtension(): (v: Value)
    ensures Encodable(v)
  {
    var child: ByteSeq := seq(33, i => 0);
    PairEncodable([0x00], child);
    List([Str([0x00]), Str(child)])
  }

  /** A concrete failure: below that extension every value of every key is accepted under one root. */
  lemma LongReferenceExample(hash: Hash, key: ByteSeq, value: Option<ByteSeq>)
    requires forall b: ByteSeq :: |hash(b)| == 32
    requires Fits(Nibbles(key), value)
    ensures Encodable(FinalNode(Nibbles(key), value))
    ensures var root, leaf := Encode(UncheckedExtension()), Encode(FinalNode(Nibbles(key), value));
            TrieValue(hash, hash(root), key, [root, leaf]) == Ok(value)
  {
    var path := Nibbles(key);
    FinalNodeEndsWalk(path, value);
    ExtensionHandsOn(path);
    var extension := UncheckedExtension();
    TwoNodes(hash, path, Encode(extension), extension.items[1].bytes, Encode(FinalNode(path, value)));
  }

  lemma TwoNodes(hash: Hash, path: Path, first: ByteSeq, reference: ByteSeq, last: ByteSeq)
    requires |hash(first)| == 32 && |reference| > 32
    requires VisitEncoded(first, path) == Follow(reference, path) && VisitEncoded(last, path).Done?
    ensures Walk(hash, hash(first), path, [first, last]) == Ok(VisitEncoded(last, path).value)
  {
    assert [first, last][1..] == [last];
    assert Walk(hash, reference, path, [last]) == Ok(VisitEncoded(last, path).value);
  }

  lemma ExtensionHandsOn(path: Path)
    ensures VisitEncoded(Encode(UncheckedExtension()), path) == Follow(UncheckedExtension().items[1].bytes, path)
  {
    var extension := UncheckedExtension();
    DecodeIffCanonical(Encode(extension), extension);
    CompactPathIffCanonical([0x00], false, []);
    assert path[0..] == path;
  }

  // ----- Sizes -----

  lemma {:induction false} AllEncodableOf(items: seq<Value>)
    requires forall i :: 0 <= i < |items| ==> Encodable(items[i])
    ensures AllEncodable(items)
  {
    if items != [] { AllEncodableOf(items[1..]); }
  }

  lemma {:induction false} PayloadBound(items: seq<Value>, m: nat)
    requires forall i :: 0 <= i < |items| ==> EncodedLength(items[i]) <= m
    ensures PayloadLength(items) <= m * |items|
  {
    if items != [] {
      PayloadBound(items[1..], m);
      OneMore(m, |items| - 1);
    }
  }

  lemma OneMore(m: nat, n: nat)
    ensures m + m * n == m * (n + 1)
  {}

  lemma {:induction false} PairEncodable(a: ByteSeq, b: ByteSeq)
    requires |a| + |b| < LENGTH_LIMIT - 18
    ensures Encodable(List([Str(a), Str(b)]))
  {
    var items := [Str(a), Str(b)];
    assert items == [Str(a)] + [Str(b)] && [Str(b)] == [Str(b)] + [];
    EncodeAllHead(Str(b), []);
    EncodeAllHead(Str(a), [Str(b)]);
    assert items[1..] == [Str(b)] && [Str(b)][1..] == [];
    assert PayloadLength([Str(b)]) == EncodedLength(Str(b));
    assert PayloadLength(items) == EncodedLength(Str(a)) + EncodedLength(Str(b));
    if |a| > 0 { LengthOfLength(|a|); }
    if |b| > 0 { LengthOfLength(|b|); }
  }

  // ----- The empty trie -----

  /** The node that stands for a trie without keys: the encoding of the empty string. */
  const EMPTY_NODE: ByteSeq := [0x80]

  /** The first node is not another byte string with the digest of the empty trie. */
  predicate NoEmptyCollision(hash: Hash, proof: seq<ByteSeq>) {
    proof != [] && hash(proof[0]) == hash(EMPTY_NODE) ==> proof[0] == EMPTY_NODE
  }

  /** No node list shows that the empty trie lacks a key: its only node is no list. */
  lemma EmptyTrieUnprovable(hash: Hash, key: ByteSeq, proof: seq<ByteSeq>)
    requires NoEmptyCollision(hash, proof)
    ensures TrieValue(hash, hash(EMPTY_NODE), key, proof).Err?
  {}
}
