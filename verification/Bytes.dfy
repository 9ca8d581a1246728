/** Results, bytes and big-endian integers shared by the proof verifier. */
module Results {
  /** The outcome of an operation that the source ends with a value or an exception. */
  datatype Result<+T, +E> = Ok(value: T) | Err(error: E) {
    predicate IsFailure() { Err? }

    function PropagateFailure<U>(): Result<U, E>
      requires Err?
    {
      Err(error)
    }

    function Extract(): T
      requires Ok?
    {
      value
    }
  }

  datatype Option<+T> = None | Some(value: T)

  /** What a loop has gathered, followed by what is still to come. */
  ghost function Joined<T>(front: seq<T>, rest: Option<seq<T>>): Option<seq<T>> {
    if rest.None? then None else Some(front + rest.value)
  }

  lemma JoinedNone<T>(rest: Option<seq<T>>)
    ensures Joined([], rest) == rest
  {
    if rest.Some? {
      assert [] + rest.value == rest.value;
    }
  }

  lemma JoinedMore<T>(a: seq<T>, b: seq<T>, rest: Option<seq<T>>)
    ensures Joined(a, Joined(b, rest)) == Joined(a + b, rest)
  {
    if rest.Some? {
      assert a + (b + rest.value) == a + b + rest.value;
    }
  }
}

module Bytes {
  type byte = b: nat | b < 256
  type ByteSeq = seq<byte>

  /** `int.from_bytes(s, "big")`. */
  function FromBigEndian(s: ByteSeq): nat {
    if s == [] then 0 else FromBigEndian(s[..|s| - 1]) * 256 + s[|s| - 1]
  }

  /** The shortest big-endian form; zero is the empty string. */
  function ToBigEndian(n: nat): ByteSeq {
    if n == 0 then [] else ToBigEndian(n / 256) + [n % 256]
  }

  /** `n.to_bytes(width, "big")` for an `n` that fits. */
  function FixedBigEndian(n: nat, width: nat): (s: ByteSeq)
    ensures |s| == width
  {
    if width == 0 then [] else FixedBigEndian(n / 256, width - 1) + [n % 256]
  }

  function Pow256(width: nat): (r: nat)
    ensures r >= 1
  {
    if width == 0 then 1 else 256 * Pow256(width - 1)
  }

  lemma {:induction false} BigEndianOfNat(n: nat)
    ensures FromBigEndian(ToBigEndian(n)) == n
    ensures n > 0 ==> ToBigEndian(n) != [] && ToBigEndian(n)[0] != 0
  {
    if n != 0 {
      BigEndianOfNat(n / 256);
      assert ToBigEndian(n)[..|ToBigEndian(n)| - 1] == ToBigEndian(n / 256);
    }
  }

  /** A string without a leading zero is the shortest form of its value. */
  lemma {:induction false} NatOfBigEndian(s: ByteSeq)
    requires s == [] || s[0] != 0
    ensures ToBigEndian(FromBigEndian(s)) == s
    ensures s != [] ==> FromBigEndian(s) > 0
  {
    if s != [] {
      var front := s[..|s| - 1];
      NatOfBigEndian(front);
      assert front + [s[|s| - 1]] == s;
    }
  }

  /** The first byte has the largest weight. */
  lemma {:induction false} BigEndianHead(b: byte, s: ByteSeq)
    ensures FromBigEndian([b] + s) == b * Pow256(|s|) + FromBigEndian(s)
  {
    if s == [] {
      assert [b] + s == [b];
      assert [b][..0] == [];
    } else {
      var front, last := s[..|s| - 1], s[|s| - 1];
      BigEndianHead(b, front);
      assert ([b] + s)[..|s|] == [b] + front;
    }
  }

  lemma {:induction false} FromBigEndianBound(s: ByteSeq)
    ensures FromBigEndian(s) < Pow256(|s|)
  {
    if s != [] {
      FromBigEndianBound(s[..|s| - 1]);
    }
  }

  lemma {:induction false} ToBigEndianLength(n: nat, width: nat)
    requires n < Pow256(width)
    ensures |ToBigEndian(n)| <= width
  {
    if n != 0 {
      ToBigEndianLength(n / 256, width - 1);
    }
  }

  /** Fixed-width encoding loses nothing on the integers that fit the width. */
  lemma {:induction false} FixedBigEndianValue(n: nat, width: nat)
    requires n < Pow256(width)
    ensures FromBigEndian(FixedBigEndian(n, width)) == n
  {
    if width != 0 {
      FixedBigEndianValue(n / 256, width - 1);
      assert FixedBigEndian(n, width)[..width - 1] == FixedBigEndian(n / 256, width - 1);
    }
  }

  /** A string of the width is the fixed-width encoding of its value. */
  lemma {:induction false} FixedOfBigEndian(s: ByteSeq)
    ensures FixedBigEndian(FromBigEndian(s), |s|) == s
  {
    if s != [] {
      FixedOfBigEndian(s[..|s| - 1]);
      assert s[..|s| - 1] + [s[|s| - 1]] == s;
    }
  }
}
