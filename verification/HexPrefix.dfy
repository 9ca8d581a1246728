/** Nibble paths and the hex-prefix encoding of appendix C of the Yellow Paper. */
module HexPrefix {
  import opened Results
  import opened Bytes

  type nibble = n: nat | n < 16
  type Path = seq<nibble>

  datatype PathError = PathInvalid | PaddingInvalid

  function Nibbles(value: ByteSeq): (p: Path)
    ensures |p| == 2 * |value|
  {
    if value == [] then [] else [value[0] / 16, value[0] % 16] + Nibbles(value[1..])
  }

  function CompactPath(value: ByteSeq): Result<(bool, Path), PathError> {
    var nibbles := Nibbles(value);
    if nibbles == [] || nibbles[0] > 3 then Err(PathInvalid)
    else
      var leaf := nibbles[0] / 2 == 1;
      var odd := nibbles[0] % 2 == 1;
      if !odd && (|nibbles| < 2 || nibbles[1] != 0) then Err(PaddingInvalid)
      else Ok((leaf, nibbles[if odd then 1 else 2..]))
  }

  // ----- The canonical encoding -----

  function Pack(p: Path): ByteSeq
    requires |p| % 2 == 0
  {
    if p == [] then []
    else
      var high: nat, low: nat := p[0], p[1];
      [high * 16 + low] + Pack(p[2..])
  }

  function Flag(leaf: bool, odd: bool): nibble {
    (if leaf then 2 else 0) + (if odd then 1 else 0)
  }

  function EncodePath(leaf: bool, path: Path): ByteSeq {
    if |path| % 2 == 1 then Pack([Flag(leaf, true)] + path) else Pack([Flag(leaf, false), 0] + path)
  }

  lemma {:induction false} NibblesOfPack(p: Path)
    requires |p| % 2 == 0
    ensures Nibbles(Pack(p)) == p
  {
    if p != [] {
      NibblesOfPack(p[2..]);
      assert Pack(p)[1..] == Pack(p[2..]);
      assert [p[0], p[1]] + p[2..] == p;
    }
  }

  lemma EncodePathLength(leaf: bool, path: Path)
    ensures |EncodePath(leaf, path)| == |path| / 2 + 1
  {
    var head: Path := if |path| % 2 == 1 then [Flag(leaf, true)] else [Flag(leaf, false), 0];
    NibblesOfPack(head + path);
  }

  lemma {:induction false} PackOfNibbles(value: ByteSeq)
    ensures Pack(Nibbles(value)) == value
  {
    if value != [] {
      PackOfNibbles(value[1..]);
      assert Nibbles(value)[2..] == Nibbles(value[1..]);
    }
  }

  /** Hex-prefix decoding accepts exactly the canonical encodings, so each path has one form. */
  lemma CompactPathIffCanonical(value: ByteSeq, leaf: bool, path: Path)
    ensures CompactPath(value) == Ok((leaf, path)) <==> value == EncodePath(leaf, path)
  {
    var nibbles := Nibbles(value);
    var head: Path := if |path| % 2 == 1 then [Flag(leaf, true)] else [Flag(leaf, false), 0];
    if CompactPath(value) == Ok((leaf, path)) {
      assert nibbles == head + path;
      PackOfNibbles(value);
    }
    if value == EncodePath(leaf, path) {
      NibblesOfPack(head + path);
      assert (head + path)[|head|..] == path;
    }
  }

  lemma {:induction false} NibblesConcat(a: ByteSeq, b: ByteSeq)
    ensures Nibbles(a + b) == Nibbles(a) + Nibbles(b)
  {
    if a == [] {
      assert a + b == b;
    } else {
      NibblesConcat(a[1..], b);
      assert (a + b)[1..] == a[1..] + b && (a + b)[0] == a[0];
      JoinPaths(Nibbles(a)[..2], Nibbles(a[1..]), Nibbles(b));
    }
  }

  lemma JoinPaths(head: Path, middle: Path, tail: Path)
    ensures head + (middle + tail) == (head + middle) + tail
  {}

  /** `_nibbles` as written: a loop that extends the output by two nibbles per byte. */
  method ExpandNibbles(value: ByteSeq) returns (output: Path)
    ensures output == Nibbles(value)
    ensures Pack(output) == value
  {
    output := [];
    for i := 0 to |value|
      invariant output == Nibbles(value[..i])
    {
      NibblesConcat(value[..i], [value[i]]);
      assert value[..i + 1] == value[..i] + [value[i]];
      output := output + [value[i] / 16, value[i] % 16];
    }
    assert value[..|value|] == value;
    PackOfNibbles(value);
  }

  /** The high nibble of a byte comes first. */
  lemma {:induction false} NibblesAt(value: ByteSeq, i: nat)
    requires i < |value|
    ensures Nibbles(value)[2 * i] == value[i] / 16 && Nibbles(value)[2 * i + 1] == value[i] % 16
  {
    if i > 0 {
      NibblesAt(value[1..], i - 1);
    }
  }

  /** The first nibble is 0 or 1 for an extension, 2 or 3 for a leaf, of even or odd length; zero pads an even path. */
  lemma EncodePathNibbles(leaf: bool, path: Path)
    ensures |path| % 2 == 1 ==> Nibbles(EncodePath(leaf, path)) == [if leaf then 3 else 1] + path
    ensures |path| % 2 == 0 ==> Nibbles(EncodePath(leaf, path)) == [if leaf then 2 else 0, 0] + path
  {
    if |path| % 2 == 1 {
      NibblesOfPack([Flag(leaf, true)] + path);
    } else {
      NibblesOfPack([Flag(leaf, false), 0] + path);
    }
  }
}
