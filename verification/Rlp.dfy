/** The strict RLP decoder, against the canonical encoding of appendix B of the Yellow Paper. */
module Rlp {
  import opened Results
  import opened Bytes

  datatype Value = Str(bytes: ByteSeq) | List(items: seq<Value>)

  datatype RlpError =
    | Truncated
    | StringNonCanonical
    | StringLengthInvalid
    | LongStringInvalid
    | ListLengthInvalid
    | LongListNonCanonical
    | ListTruncated
    | ListLengthMismatch
    | TrailingData

  // ----- The canonical encoding -----

  const LENGTH_LIMIT := 0x1_0000_0000_0000_0000

  function HeaderLength(n: nat): nat {
    if n < 56 then 1 else 1 + |ToBigEndian(n)|
  }

  predicate IsSingleByte(b: ByteSeq) {
    |b| == 1 && b[0] <= 0x7F
  }

  function EncodedLength(v: Value): nat
    decreases v, 1
  {
    match v
    case Str(b) => if IsSingleByte(b) then 1 else HeaderLength(|b|) + |b|
    case List(items) => HeaderLength(PayloadLength(items)) + PayloadLength(items)
  }

  function PayloadLength(items: seq<Value>): nat
    decreases items, 0
  {
    if items == [] then 0 else EncodedLength(items[0]) + PayloadLength(items[1..])
  }

  /** Every string and every list payload is shorter than 2^64 bytes. */
  predicate Encodable(v: Value)
    decreases v, 1
  {
    match v
    case Str(b) => |b| < LENGTH_LIMIT
    case List(items) => AllEncodable(items) && PayloadLength(items) < LENGTH_LIMIT
  }

  predicate AllEncodable(items: seq<Value>)
    decreases items, 0
  {
    items == [] || (Encodable(items[0]) && AllEncodable(items[1..]))
  }

  lemma {:induction false} LengthOfLength(n: nat)
    requires 0 < n < LENGTH_LIMIT
    ensures 1 <= |ToBigEndian(n)| <= 8
  {
    assert Pow256(8) == LENGTH_LIMIT;
    ToBigEndianLength(n, 8);
    BigEndianOfNat(n);
  }

  /** A length prefix: `base` is 0x80 for strings and 0xC0 for lists. */
  function Header(base: byte, n: nat): (h: ByteSeq)
    requires base == 0x80 || base == 0xC0
    requires n < LENGTH_LIMIT
    ensures |h| == HeaderLength(n)
  {
    if n < 56 then [base + n]
    else
      LengthOfLength(n);
      [base + 55 + |ToBigEndian(n)|] + ToBigEndian(n)
  }

  function Encode(v: Value): (e: ByteSeq)
    requires Encodable(v)
    ensures |e| == EncodedLength(v) >= 1
    decreases v, 1
  {
    match v
    case Str(b) => if IsSingleByte(b) then b else Header(0x80, |b|) + b
    case List(items) => Header(0xC0, PayloadLength(items)) + EncodeAll(items)
  }

  function EncodeAll(items: seq<Value>): (e: ByteSeq)
    requires AllEncodable(items)
    ensures |e| == PayloadLength(items)
    decreases items, 0
  {
    if items == [] then [] else Encode(items[0]) + EncodeAll(items[1..])
  }

  // ----- The decoder -----

  /** The bytes between the length prefix at `cursor` and the end it announces. */
  datatype Span = Span(start: nat, end: nat)

  /** The long form shared by strings and lists: a big-endian length of `width` bytes. */
  function LongSpan(data: ByteSeq, cursor: nat, width: nat): (r: Option<Span>)
    requires cursor < |data|
    requires width >= 1
    ensures r.Some? ==> cursor + 1 + width == r.value.start <= |data| && r.value.start <= r.value.end
  {
    var sizeEnd := cursor + 1 + width;
    if sizeEnd > |data| || data[cursor + 1] == 0 then None
    else Some(Span(sizeEnd, sizeEnd + FromBigEndian(data[cursor + 1..sizeEnd])))
  }

  function StringSpan(data: ByteSeq, cursor: nat): (r: Result<Span, RlpError>)
    requires cursor < |data|
    requires data[cursor] <= 0xBF
    ensures r.Ok? ==> cursor <= r.value.start <= r.value.end <= |data| && cursor < r.value.end
  {
    var prefix := data[cursor];
    if prefix <= 0x7F then Ok(Span(cursor, cursor + 1))
    else if prefix <= 0xB7 then
      var start := cursor + 1;
      var end := start + (prefix - 0x80);
      if end > |data| || (prefix - 0x80 == 1 && data[start] <= 0x7F) then Err(StringNonCanonical)
      else Ok(Span(start, end))
    else
      match LongSpan(data, cursor, prefix - 0xB7)
      case None => Err(StringLengthInvalid)
      case Some(span) =>
        if span.end - span.start < 56 || span.end > |data| then Err(LongStringInvalid) else Ok(span)
  }

  function ListSpan(data: ByteSeq, cursor: nat): (r: Result<Span, RlpError>)
    requires cursor < |data|
    requires data[cursor] > 0xBF
    ensures r.Ok? ==> cursor < r.value.start <= r.value.end <= |data|
  {
    var prefix := data[cursor];
    var span :-
      if prefix <= 0xF7 then Ok(Span(cursor + 1, cursor + 1 + (prefix - 0xC0)))
      else
        match LongSpan(data, cursor, prefix - 0xF7)
        case None => Err(ListLengthInvalid)
        case Some(span) => if span.end - span.start < 56 then Err(LongListNonCanonical) else Ok(span);
    if span.end > |data| then Err(ListTruncated) else Ok(span)
  }

  /** Decodes one value at `cursor` and returns it with the cursor behind it. */
  function DecodeAt(data: ByteSeq, cursor: nat): (r: Result<(Value, nat), RlpError>)
    ensures r.Ok? ==> cursor < r.value.1 <= |data|
    decreases if cursor <= |data| then |data| - cursor else 0, 0
  {
    if cursor >= |data| then Err(Truncated)
    else if data[cursor] <= 0xBF then
      var span :- StringSpan(data, cursor);
      Ok((Str(data[span.start..span.end]), span.end))
    else
      var span :- ListSpan(data, cursor);
      var items :- DecodeItems(data, span.start, span.end);
      if items.1 != span.end then Err(ListLengthMismatch) else Ok((List(items.0), span.end))
  }

  /** List items are read from the whole buffer until the cursor reaches or passes `end`. */
  function DecodeItems(data: ByteSeq, cursor: nat, end: nat): (r: Result<(seq<Value>, nat), RlpError>)
    requires cursor <= |data| && end <= |data|
    ensures r.Ok? ==> cursor <= r.value.1 <= |data| && end <= r.value.1
    decreases |data| - cursor, 1
  {
    if cursor >= end then Ok(([], cursor))
    else
      var item :- DecodeAt(data, cursor);
      var rest :- DecodeItems(data, item.1, end);
      Ok(([item.0] + rest.0, rest.1))
  }

  function Decode(data: ByteSeq): Result<Value, RlpError> {
    var r :- DecodeAt(data, 0);
    if r.1 != |data| then Err(TrailingData) else Ok(r.0)
  }

  // ----- Strictness: whatever decodes is the canonical encoding of its value -----

  lemma {:induction false} LongHeader(data: ByteSeq, cursor: nat, width: nat, base: byte)
    requires cursor < |data|
    requires 1 <= width <= 8
    requires base == 0x80 || base == 0xC0
    requires data[cursor] == base + 55 + width
    requires LongSpan(data, cursor, width).Some?
    ensures var span := LongSpan(data, cursor, width).value; var n := span.end - span.start;
            n < LENGTH_LIMIT && (n >= 56 ==> Header(base, n) == data[cursor..span.start])
  {
    var digits := data[cursor + 1..cursor + 1 + width];
    FromBigEndianBound(digits);
    assert Pow256(8) == LENGTH_LIMIT;
    Pow256Monotone(width, 8);
    NatOfBigEndian(digits);
    assert data[cursor..cursor + 1 + width] == [data[cursor]] + digits;
  }

  lemma {:induction false} Pow256Monotone(a: nat, b: nat)
    requires a <= b
    ensures Pow256(a) <= Pow256(b)
    decreases b
  {
    if a < b { Pow256Monotone(a, b - 1); }
  }

  lemma {:induction false} StringStrict(data: ByteSeq, cursor: nat)
    requires cursor < |data| && data[cursor] <= 0xBF
    requires StringSpan(data, cursor).Ok?
    ensures var span := StringSpan(data, cursor).value; var v := Str(data[span.start..span.end]);
            Encodable(v) && Encode(v) == data[cursor..span.end]
  {
    var prefix := data[cursor];
    var span := StringSpan(data, cursor).value;
    var b := data[span.start..span.end];
    if prefix <= 0x7F {
    } else if prefix <= 0xB7 {
      assert data[cursor..span.end] == [prefix] + b;
    } else {
      LongHeader(data, cursor, prefix - 0xB7, 0x80);
      assert data[cursor..span.end] == data[cursor..span.start] + b;
    }
  }

  lemma {:induction false} ListHeaderStrict(data: ByteSeq, cursor: nat)
    requires cursor < |data| && data[cursor] > 0xBF
    requires ListSpan(data, cursor).Ok?
    ensures var span := ListSpan(data, cursor).value; var n := span.end - span.start;
            n < LENGTH_LIMIT && Header(0xC0, n) == data[cursor..span.start]
  {
    if data[cursor] > 0xF7 {
      LongHeader(data, cursor, data[cursor] - 0xF7, 0xC0);
    }
  }

  /** An accepted value re-encodes to exactly the bytes it was read from. */
  lemma {:induction false} DecodeAtStrict(data: ByteSeq, cursor: nat)
    requires DecodeAt(data, cursor).Ok?
    ensures var (v, next) := DecodeAt(data, cursor).value;
            Encodable(v) && Encode(v) == data[cursor..next]
    decreases if cursor <= |data| then |data| - cursor else 0, 0
  {
    if data[cursor] <= 0xBF {
      StringStrict(data, cursor);
    } else {
      ListHeaderStrict(data, cursor);
      var span := ListSpan(data, cursor).value;
      DecodeItemsStrict(data, span.start, span.end);
      EncodeOfParts(data, cursor, span.start, span.end, DecodeItems(data, span.start, span.end).value.0);
    }
  }

  lemma EncodeOfParts(data: ByteSeq, cursor: nat, start: nat, end: nat, items: seq<Value>)
    requires cursor <= start <= end <= |data| && AllEncodable(items) && end - start < LENGTH_LIMIT
    requires Header(0xC0, end - start) == data[cursor..start] && EncodeAll(items) == data[start..end]
    ensures Encodable(List(items)) && Encode(List(items)) == data[cursor..end]
  {
    assert PayloadLength(items) == end - start;
    SliceJoin(data, cursor, start, end);
  }

  lemma {:induction false} DecodeItemsStrict(data: ByteSeq, cursor: nat, end: nat)
    requires cursor <= |data| && end <= |data|
    requires DecodeItems(data, cursor, end).Ok?
    ensures var (items, next) := DecodeItems(data, cursor, end).value;
            AllEncodable(items) && EncodeAll(items) == data[cursor..next]
    decreases |data| - cursor, 1
  {
    if cursor < end {
      DecodeAtStrict(data, cursor);
      var (item, middle) := DecodeAt(data, cursor).value;
      DecodeItemsStrict(data, middle, end);
      var (rest, next) := DecodeItems(data, middle, end).value;
      EncodeAllHead(item, rest);
      SliceJoin(data, cursor, middle, next);
    }
  }

  lemma SliceJoin(data: ByteSeq, cursor: nat, middle: nat, end: nat)
    requires cursor <= middle <= end <= |data|
    ensures data[cursor..middle] + data[middle..end] == data[cursor..end]
  {}

  lemma EncodeAllHead(item: Value, rest: seq<Value>)
    requires Encodable(item) && AllEncodable(rest)
    ensures AllEncodable([item] + rest) && EncodeAll([item] + rest) == Encode(item) + EncodeAll(rest)
  {
    assert ([item] + rest)[0] == item && ([item] + rest)[1..] == rest;
  }

  // ----- Completeness: every canonical encoding decodes to its value -----

  lemma {:induction false} SliceSplit(data: ByteSeq, cursor: nat, a: ByteSeq, b: ByteSeq)
    requires cursor + |a| + |b| <= |data|
    requires data[cursor..cursor + |a| + |b|] == a + b
    ensures data[cursor..cursor + |a|] == a
    ensures data[cursor + |a|..cursor + |a| + |b|] == b
  {
    var e := data[cursor..cursor + |a| + |b|];
    assert data[cursor..cursor + |a|] == e[..|a|];
    assert data[cursor + |a|..cursor + |a| + |b|] == e[|a|..];
  }

  lemma {:induction false} LongSpanOfHeader(data: ByteSeq, cursor: nat, base: byte, n: nat)
    requires base == 0x80 || base == 0xC0
    requires 56 <= n < LENGTH_LIMIT
    requires cursor + HeaderLength(n) <= |data|
    requires data[cursor..cursor + HeaderLength(n)] == Header(base, n)
    ensures 1 <= |ToBigEndian(n)| <= 8
    ensures data[cursor] == base + 55 + |ToBigEndian(n)|
    ensures var start := cursor + 1 + |ToBigEndian(n)|;
            LongSpan(data, cursor, |ToBigEndian(n)|) == Some(Span(start, start + n))
  {
    LengthOfLength(n);
    BigEndianOfNat(n);
    var width := |ToBigEndian(n)|;
    var h := data[cursor..cursor + 1 + width];
    assert data[cursor] == h[0] == Header(base, n)[0];
    assert data[cursor + 1..cursor + 1 + width] == h[1..] == Header(base, n)[1..] == ToBigEndian(n);
    assert data[cursor + 1] == ToBigEndian(n)[0];
  }

  lemma {:induction false} StringComplete(data: ByteSeq, cursor: nat, b: ByteSeq)
    requires Encodable(Str(b))
    requires cursor + EncodedLength(Str(b)) <= |data|
    requires data[cursor..cursor + EncodedLength(Str(b))] == Encode(Str(b))
    ensures DecodeAt(data, cursor) == Ok((Str(b), cursor + EncodedLength(Str(b))))
  {
    if IsSingleByte(b) {
      assert data[cursor] == data[cursor..cursor + 1][0];
    } else {
      SliceSplit(data, cursor, Header(0x80, |b|), b);
      if |b| < 56 {
        assert data[cursor] == data[cursor..cursor + 1][0];
        assert |b| == 1 ==> data[cursor + 1] == data[cursor + 1..cursor + 2][0];
      } else {
        LongSpanOfHeader(data, cursor, 0x80, |b|);
      }
    }
  }

  lemma {:induction false} ListHeaderComplete(data: ByteSeq, cursor: nat, n: nat)
    requires n < LENGTH_LIMIT
    requires cursor + HeaderLength(n) + n <= |data|
    requires data[cursor..cursor + HeaderLength(n)] == Header(0xC0, n)
    ensures data[cursor] > 0xBF
    ensures ListSpan(data, cursor) == Ok(Span(cursor + HeaderLength(n), cursor + HeaderLength(n) + n))
  {
    assert data[cursor] == data[cursor..cursor + HeaderLength(n)][0];
    if n >= 56 {
      LongSpanOfHeader(data, cursor, 0xC0, n);
    }
  }

  lemma {:induction false} ListParts(data: ByteSeq, cursor: nat, items: seq<Value>)
    requires Encodable(List(items))
    requires cursor + EncodedLength(List(items)) <= |data|
    requires data[cursor..cursor + EncodedLength(List(items))] == Encode(List(items))
    ensures var start := cursor + HeaderLength(PayloadLength(items));
            data[cursor..start] == Header(0xC0, PayloadLength(items))
    ensures var start := cursor + HeaderLength(PayloadLength(items));
            data[start..start + PayloadLength(items)] == EncodeAll(items)
  {
    SliceSplit(data, cursor, Header(0xC0, PayloadLength(items)), EncodeAll(items));
  }

  lemma {:induction false} ListComplete(data: ByteSeq, cursor: nat, items: seq<Value>)
    requires PayloadLength(items) < LENGTH_LIMIT
    requires cursor + EncodedLength(List(items)) <= |data|
    requires var n := PayloadLength(items); data[cursor..cursor + HeaderLength(n)] == Header(0xC0, n)
    requires var start := cursor + HeaderLength(PayloadLength(items)); var end := start + PayloadLength(items);
             DecodeItems(data, start, end) == Ok((items, end))
    ensures DecodeAt(data, cursor) == Ok((List(items), cursor + EncodedLength(List(items))))
  {
    ListHeaderComplete(data, cursor, PayloadLength(items));
  }

  /** A canonical encoding anywhere in a buffer is read back whatever surrounds it. */
  lemma {:induction false} DecodeAtComplete(data: ByteSeq, cursor: nat, v: Value)
    requires Encodable(v)
    requires cursor + EncodedLength(v) <= |data|
    requires data[cursor..cursor + EncodedLength(v)] == Encode(v)
    ensures DecodeAt(data, cursor) == Ok((v, cursor + EncodedLength(v)))
    decreases v, 1
  {
    match v
    case Str(b) => StringComplete(data, cursor, b);
    case List(items) => DecodeListComplete(data, cursor, items);
  }

  lemma {:induction false} DecodeListComplete(data: ByteSeq, cursor: nat, items: seq<Value>)
    requires Encodable(List(items))
    requires cursor + EncodedLength(List(items)) <= |data|
    requires data[cursor..cursor + EncodedLength(List(items))] == Encode(List(items))
    ensures DecodeAt(data, cursor) == Ok((List(items), cursor + EncodedLength(List(items))))
    decreases items, 1
  {
    ListParts(data, cursor, items);
    DecodeItemsComplete(data, cursor + HeaderLength(PayloadLength(items)), items);
    ListComplete(data, cursor, items);
  }

  lemma {:induction false} DecodeItemsComplete(data: ByteSeq, cursor: nat, items: seq<Value>)
    requires AllEncodable(items)
    requires cursor + PayloadLength(items) <= |data|
    requires data[cursor..cursor + PayloadLength(items)] == EncodeAll(items)
    ensures DecodeItems(data, cursor, cursor + PayloadLength(items)) == Ok((items, cursor + PayloadLength(items)))
    decreases items, 0
  {
    if items != [] {
      var head, rest := items[0], items[1..];
      var middle, end := cursor + EncodedLength(head), cursor + PayloadLength(items);
      ItemsParts(data, cursor, items);
      assert DecodeItems(data, middle, end) == Ok((rest, end)) by {
        DecodeItemsComplete(data, middle, rest);
      }
      DecodeAtComplete(data, cursor, head);
      DecodeItemsHead(data, cursor, end, items, middle);
    }
  }

  lemma {:induction false} ItemsParts(data: ByteSeq, cursor: nat, items: seq<Value>)
    requires items != [] && AllEncodable(items)
    requires cursor + PayloadLength(items) <= |data|
    requires data[cursor..cursor + PayloadLength(items)] == EncodeAll(items)
    ensures var middle := cursor + EncodedLength(items[0]);
            && cursor < middle && middle + PayloadLength(items[1..]) == cursor + PayloadLength(items)
            && data[cursor..middle] == Encode(items[0])
            && data[middle..cursor + PayloadLength(items)] == EncodeAll(items[1..])
  {
    SliceSplit(data, cursor, Encode(items[0]), EncodeAll(items[1..]));
  }

  lemma DecodeItemsHead(data: ByteSeq, cursor: nat, end: nat, items: seq<Value>, middle: nat)
    requires items != [] && cursor < end <= |data| && middle <= |data|
    requires DecodeAt(data, cursor) == Ok((items[0], middle)) && DecodeItems(data, middle, end) == Ok((items[1..], end))
    ensures DecodeItems(data, cursor, end) == Ok((items, end))
  {
    assert items == [items[0]] + items[1..];
  }

  // ----- The main results -----

  /** Decoding and canonical encoding are inverse: a buffer is accepted exactly when it is an encoding. */
  lemma {:induction false} DecodeIffCanonical(data: ByteSeq, v: Value)
    ensures Decode(data) == Ok(v) <==> Encodable(v) && data == Encode(v)
  {
    if Decode(data) == Ok(v) {
      DecodeAtStrict(data, 0);
      assert data[0..|data|] == data;
    }
    if Encodable(v) && data == Encode(v) {
      assert data[0..|data|] == data;
      DecodeAtComplete(data, 0, v);
    }
  }

  /** No canonical encoding is a prefix of another. */
  lemma {:induction false} EncodePrefixFree(v: Value, w: Value)
    requires Encodable(v) && Encodable(w)
    requires Encode(v) <= Encode(w)
    ensures v == w
  {
    var data := Encode(w);
    assert data[0..|data|] == data;
    assert data[0..EncodedLength(v)] == Encode(v);
    DecodeAtComplete(data, 0, v);
    DecodeAtComplete(data, 0, w);
  }

  // ----- The imperative decoder -----

  /** The decoder as written: recursion with a loop that appends list items. */
  method RlpDecodeAt(data: ByteSeq, cursor: nat) returns (r: Result<(Value, nat), RlpError>)
    ensures r == DecodeAt(data, cursor)
    decreases if cursor <= |data| then |data| - cursor else 0
  {
    if cursor >= |data| { return Err(Truncated); }
    if data[cursor] <= 0xBF {
      var span :- StringSpan(data, cursor);
      return Ok((Str(data[span.start..span.end]), span.end));
    }
    var span :- ListSpan(data, cursor);
    var output: seq<Value> := [];
    var itemCursor := span.start;
    assert forall items: seq<Value> :: [] + items == items;
    while itemCursor < span.end
      invariant span.start <= itemCursor <= |data|
      invariant var whole, rest := DecodeItems(data, span.start, span.end), DecodeItems(data, itemCursor, span.end);
                if rest.Ok? then whole == Ok((output + rest.value.0, rest.value.1)) else whole == rest
      decreases |data| - itemCursor
    {
      var item := RlpDecodeAt(data, itemCursor);
      if item.Err? { return Err(item.error); }
      ghost var rest := DecodeItems(data, item.value.1, span.end);
      assert rest.Ok? ==> output + ([item.value.0] + rest.value.0) == output + [item.value.0] + rest.value.0;
      output := output + [item.value.0];
      itemCursor := item.value.1;
    }
    assert output + [] == output;
    if itemCursor != span.end { return Err(ListLengthMismatch); }
    return Ok((List(output), span.end));
  }

  method RlpDecode(data: ByteSeq) returns (r: Result<Value, RlpError>)
    ensures r == Decode(data)
    ensures r.Ok? <==> exists v :: Encodable(v) && data == Encode(v)
  {
    var at := RlpDecodeAt(data, 0);
    if at.Err? {
      r := Err(at.error);
    } else if at.value.1 != |data| {
      r := Err(TrailingData);
    } else {
      r := Ok(at.value.0);
      DecodeIffCanonical(data, at.value.0);
    }
    if v :| Encodable(v) && data == Encode(v) {
      DecodeIffCanonical(data, v);
    }
  }

  // ----- The layout of an encoding, byte by byte -----

  /** The big-endian digits of a number, without a leading zero. */
  ghost predicate DigitsOf(digits: ByteSeq, n: nat) {
    digits != [] && digits[0] != 0 && FromBigEndian(digits) == n
  }

  /** A length below 56 is in the first byte; of a longer one it holds the number of digits, which follow it. */
  lemma HeaderLayout(base: byte, n: nat, digits: ByteSeq)
    requires base == 0x80 || base == 0xC0
    requires n < LENGTH_LIMIT
    ensures n < 56 ==> Header(base, n) == [base + n]
    ensures n >= 56 && DigitsOf(digits, n) ==>
              |digits| <= 8 && Header(base, n) == [base + 55 + |digits|] + digits
  {
    if n >= 56 && DigitsOf(digits, n) {
      NatOfBigEndian(digits);
      LengthOfLength(n);
    }
  }

  lemma StringLayout(b: ByteSeq, digits: ByteSeq)
    requires |b| < LENGTH_LIMIT
    ensures |b| == 1 && b[0] < 128 ==> Encode(Str(b)) == b
    ensures !(|b| == 1 && b[0] < 128) && |b| < 56 ==> Encode(Str(b)) == [0x80 + |b|] + b
    ensures |b| >= 56 && DigitsOf(digits, |b|) ==>
              |digits| <= 8 && Encode(Str(b)) == [0xB7 + |digits|] + digits + b
  {
    HeaderLayout(0x80, |b|, digits);
  }

  /** A list is a header over its payload. */
  lemma ListLayout(items: seq<Value>, digits: ByteSeq)
    requires Encodable(List(items))
    ensures var payload := EncodeAll(items);
            && (|payload| < 56 ==> Encode(List(items)) == [0xC0 + |payload|] + payload)
            && (|payload| >= 56 && DigitsOf(digits, |payload|) ==>
                  |digits| <= 8 && Encode(List(items)) == [0xF7 + |digits|] + digits + payload)
  {
    var payload := EncodeAll(items);
    HeaderLayout(0xC0, |payload|, digits);
    assert Encode(List(items)) == Header(0xC0, |payload|) + payload;
  }

  /** The payload is the encodings of the items, one after the other. */
  lemma PayloadLayout(items: seq<Value>)
    requires AllEncodable(items)
    ensures items == [] ==> EncodeAll(items) == []
    ensures items != [] ==> EncodeAll(items) == Encode(items[0]) + EncodeAll(items[1..])
  {}
}
