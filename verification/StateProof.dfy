/** Verification of an EIP-1186 account and storage proof (`verify_eip1186_proof`). */
module StateProof {
  import opened Results
  import opened Bytes
  import opened HexPrefix
  import opened Rlp
  import opened TrieProof
  import opened Trie

  datatype StorageItem = StorageItem(key: nat, value: nat, proof: seq<ByteSeq>)

  /** A provider's answer, with hexadecimal texts and quantities already parsed. */
  datatype Response = Response(
    address: ByteSeq,
    nonce: nat,
    balance: nat,
    storageHash: ByteSeq,
    codeHash: ByteSeq,
    accountProof: seq<ByteSeq>,
    storageProof: seq<StorageItem>)

  datatype Expected = Expected(slot: nat, word: nat)

  datatype Account = Account(nonce: nat, balance: nat, storageRoot: ByteSeq, codeHash: ByteSeq)

  datatype StateError =
    | IdentityMismatch
    | AddressInvalid
    | StateRootInvalid
    | TrieRejected(trie: ProofError)
    | AccountAbsent
    | ValueRlpInvalid(rlp: RlpError)
    | AccountInvalid
    | IntegerNonCanonical
    | FieldsDisagree
    | StorageSetIncomplete
    | StorageKeyDuplicated
    | StorageProofMissing
    | WordTooWide
    | ValueDisagrees
    | WordDisagrees

  // ----- Values held by the tries -----

  function RlpInteger(v: Value): Result<nat, StateError> {
    if v.List? || (|v.bytes| > 1 && v.bytes[0] == 0) then Err(IntegerNonCanonical) else Ok(FromBigEndian(v.bytes))
  }

  /** The account record in a leaf of the state trie. */
  function ReadAccount(leaf: ByteSeq): Result<Account, StateError> {
    match Decode(leaf)
    case Err(e) => Err(ValueRlpInvalid(e))
    case Ok(Str(_)) => Err(AccountInvalid)
    case Ok(List(items)) =>
      if |items| != 4 || !(items[0].Str? && items[1].Str? && items[2].Str? && items[3].Str?) then Err(AccountInvalid)
      else
        var nonce :- RlpInteger(items[0]);
        var balance :- RlpInteger(items[1]);
        Ok(Account(nonce, balance, items[2].bytes, items[3].bytes))
  }

  /** The word in a leaf of the storage trie; an absent slot reads as zero. */
  function ReadWord(leaf: Option<ByteSeq>): Result<nat, StateError> {
    match leaf
    case None => Ok(0)
    case Some(bytes) =>
      match Decode(bytes)
      case Err(e) => Err(ValueRlpInvalid(e))
      case Ok(v) => RlpInteger(v)
  }

  ghost predicate IsEncoding(data: ByteSeq, v: Value) {
    Encodable(v) && data == Encode(v)
  }

  /** Big-endian digits of n, without a leading zero unless there is one byte. */
  predicate Digits(bytes: ByteSeq, n: nat) {
    FromBigEndian(bytes) == n && (|bytes| <= 1 || bytes[0] != 0)
  }

  /** The leaf encodes nonce, balance, storage root and code hash, in this order. */
  ghost predicate EncodesAccount(leaf: ByteSeq, a: Account) {
    exists nonce: ByteSeq, balance: ByteSeq :: EncodesFields(leaf, nonce, balance, a)
  }

  ghost predicate EncodesFields(leaf: ByteSeq, nonce: ByteSeq, balance: ByteSeq, a: Account) {
    && IsEncoding(leaf, List([Str(nonce), Str(balance), Str(a.storageRoot), Str(a.codeHash)]))
    && Digits(nonce, a.nonce) && Digits(balance, a.balance)
  }

  /** A leaf reads as an account exactly when it encodes that account. */
  lemma ReadAccountIff(leaf: ByteSeq, a: Account)
    ensures ReadAccount(leaf) == Ok(a) <==> EncodesAccount(leaf, a)
  {
    if ReadAccount(leaf) == Ok(a) {
      var items := Decode(leaf).value.items;
      var nonce, balance := items[0].bytes, items[1].bytes;
      assert items == [Str(nonce), Str(balance), Str(a.storageRoot), Str(a.codeHash)];
      DecodeIffCanonical(leaf, List(items));
      assert EncodesFields(leaf, nonce, balance, a);
    }
    if nonce: ByteSeq, balance: ByteSeq :| EncodesFields(leaf, nonce, balance, a) {
      DecodeIffCanonical(leaf, List([Str(nonce), Str(balance), Str(a.storageRoot), Str(a.codeHash)]));
    }
  }

  /** The leaf of a storage trie for a word: none for zero, else the encoding of its digits. */
  ghost predicate EncodesWord(leaf: Option<ByteSeq>, word: nat) {
    if leaf.None? then word == 0
    else exists bytes: ByteSeq :: IsEncoding(leaf.value, Str(bytes)) && Digits(bytes, word)
  }

  lemma ReadWordIff(leaf: Option<ByteSeq>, word: nat)
    ensures ReadWord(leaf) == Ok(word) <==> EncodesWord(leaf, word)
  {
    if leaf.Some? {
      if ReadWord(leaf) == Ok(word) {
        DecodeIffCanonical(leaf.value, Decode(leaf.value).value);
      }
      if bytes: ByteSeq :| IsEncoding(leaf.value, Str(bytes)) && Digits(bytes, word) {
        DecodeIffCanonical(leaf.value, Str(bytes));
      }
    }
  }

  const WORD_LIMIT := Pow256(32)

  /** The 32-byte big-endian form of the slot. */
  predicate IsSlot(bytes: ByteSeq, slot: nat) {
    |bytes| == 32 && FromBigEndian(bytes) == slot
  }

  ghost predicate Fits(n: nat) { exists bytes :: IsSlot(bytes, n) }

  lemma FitsIff(n: nat)
    ensures n < WORD_LIMIT <==> Fits(n)
  {
    if n < WORD_LIMIT {
      FixedBigEndianValue(n, 32);
      assert IsSlot(FixedBigEndian(n, 32), n);
    }
    if bytes :| IsSlot(bytes, n) {
      FromBigEndianBound(bytes);
    }
  }

  /** The key of a slot is the digest of its 32-byte form, the only one there is. */
  lemma SlotKeyHashes(hash: Hash, slot: nat)
    requires slot < WORD_LIMIT
    ensures IsSlot(FixedBigEndian(slot, 32), slot)
    ensures forall bytes :: IsSlot(bytes, slot) ==>
              bytes == FixedBigEndian(slot, 32) && SlotKey(hash, slot) == hash(bytes)
  {
    FixedBigEndianValue(slot, 32);
    forall bytes | IsSlot(bytes, slot) ensures bytes == FixedBigEndian(slot, 32) {
      FixedOfBigEndian(bytes);
    }
  }

  /** The trie holds the account under the digest of its address. */
  ghost predicate HoldsAccount(hash: Hash, state: Node, address: ByteSeq, a: Account) {
    var leaf := Lookup(state, Nibbles(hash(address)));
    leaf.Some? && EncodesAccount(leaf.value, a)
  }

  /** The trie holds the word under the digest of the slot. */
  ghost predicate HoldsWord(hash: Hash, storage: Node, slot: nat, word: nat) {
    && Fits(slot)
    && forall bytes :: IsSlot(bytes, slot) ==> EncodesWord(Lookup(storage, Nibbles(hash(bytes))), word)
  }

  function SlotKey(hash: Hash, slot: nat): ByteSeq {
    hash(FixedBigEndian(slot, 32))
  }

  // ----- The verification -----

  function ProvenAccount(
      hash: Hash, address: ByteSeq, stateRoot: ByteSeq, response: Response): Result<Account, StateError>
  {
    if response.address != address then Err(IdentityMismatch)
    else if |address| != 20 then Err(AddressInvalid)
    else if |stateRoot| != 32 then Err(StateRootInvalid)
    else
      match TrieValue(hash, stateRoot, hash(address), response.accountProof)
      case Err(e) => Err(TrieRejected(e))
      case Ok(None) => Err(AccountAbsent)
      case Ok(Some(leaf)) =>
        var account :- ReadAccount(leaf);
        if account.nonce != response.nonce || account.balance != response.balance ||
           |response.storageHash| != 32 || account.storageRoot != response.storageHash ||
           |response.codeHash| != 32 || account.codeHash != response.codeHash
        then Err(FieldsDisagree) else Ok(account)
  }

  function ByKey(items: seq<StorageItem>): Result<map<nat, StorageItem>, StateError> {
    if items == [] then Ok(map[])
    else
      var last := items[|items| - 1];
      var rest :- ByKey(items[..|items| - 1]);
      if last.key in rest then Err(StorageKeyDuplicated) else Ok(rest[last.key := last])
  }

  function CheckSlot(
      hash: Hash, storageRoot: ByteSeq, byKey: map<nat, StorageItem>, e: Expected): Result<nat, StateError>
  {
    if e.slot !in byKey then Err(StorageProofMissing)
    else if e.slot >= WORD_LIMIT then Err(WordTooWide)
    else
      var item := byKey[e.slot];
      match TrieValue(hash, storageRoot, SlotKey(hash, e.slot), item.proof)
      case Err(error) => Err(TrieRejected(error))
      case Ok(leaf) =>
        var observed :- ReadWord(leaf);
        if observed != item.value then Err(ValueDisagrees)
        else if observed != e.word then Err(WordDisagrees)
        else if observed >= WORD_LIMIT then Err(WordTooWide)
        else Ok(observed)
  }

  function CheckSlots(hash: Hash, storageRoot: ByteSeq, byKey: map<nat, StorageItem>, expected: seq<Expected>)
    : Result<seq<Expected>, StateError>
  {
    if expected == [] then Ok([])
    else
      var verified :- CheckSlots(hash, storageRoot, byKey, expected[..|expected| - 1]);
      var last := expected[|expected| - 1];
      var observed :- CheckSlot(hash, storageRoot, byKey, last);
      Ok(verified + [Expected(last.slot, observed)])
  }

  datatype Evidence = Evidence(storageRoot: ByteSeq, codeHash: ByteSeq, verified: seq<Expected>)

  function Verify(hash: Hash, response: Response, address: ByteSeq, stateRoot: ByteSeq, expected: seq<Expected>)
    : Result<Evidence, StateError>
  {
    var account :- ProvenAccount(hash, address, stateRoot, response);
    if |response.storageProof| != |expected| then Err(StorageSetIncomplete)
    else
      var byKey :- ByKey(response.storageProof);
      var verified :- CheckSlots(hash, account.storageRoot, byKey, expected);
      Ok(Evidence(account.storageRoot, account.codeHash, verified))
  }

  method IndexByKey(items: seq<StorageItem>) returns (r: Result<map<nat, StorageItem>, StateError>)
    ensures r == ByKey(items)
  {
    var byKey: map<nat, StorageItem> := map[];
    for i := 0 to |items|
      invariant ByKey(items[..i]) == Ok(byKey)
    {
      assert items[..i + 1][..i] == items[..i];
      if items[i].key in byKey {
        ByKeyPrefix(items, i + 1);
        return Err(StorageKeyDuplicated);
      }
      byKey := byKey[items[i].key := items[i]];
    }
    assert items[..|items|] == items;
    return Ok(byKey);
  }

  method CheckExpected(hash: Hash, storageRoot: ByteSeq, byKey: map<nat, StorageItem>, expected: seq<Expected>)
    returns (r: Result<seq<Expected>, StateError>)
    ensures r == CheckSlots(hash, storageRoot, byKey, expected)
  {
    var verified: seq<Expected> := [];
    for i := 0 to |expected|
      invariant CheckSlots(hash, storageRoot, byKey, expected[..i]) == Ok(verified)
    {
      assert expected[..i + 1][..i] == expected[..i];
      var observed := CheckSlot(hash, storageRoot, byKey, expected[i]);
      if observed.Err? {
        CheckSlotsPrefix(hash, storageRoot, byKey, expected, i + 1);
        return Err(observed.error);
      }
      verified := verified + [Expected(expected[i].slot, observed.value)];
    }
    assert expected[..|expected|] == expected;
    return Ok(verified);
  }

  /** `verify_eip1186_proof` as written, with its two loops over the storage items and the expected slots. */
  method VerifyResponse(hash: Hash, response: Response, address: ByteSeq, stateRoot: ByteSeq, expected: seq<Expected>)
    returns (r: Result<Evidence, StateError>)
    ensures r == Verify(hash, response, address, stateRoot, expected)
    ensures r.Ok? ==> r.value.verified == expected
  {
    var account :- ProvenAccount(hash, address, stateRoot, response);
    if |response.storageProof| != |expected| { return Err(StorageSetIncomplete); }
    var byKey :- IndexByKey(response.storageProof);
    var verified :- CheckExpected(hash, account.storageRoot, byKey, expected);
    CheckSlotsVerified(hash, account.storageRoot, byKey, expected);
    return Ok(Evidence(account.storageRoot, account.codeHash, verified));
  }

  lemma {:induction false} ByKeyPrefix(items: seq<StorageItem>, n: nat)
    requires n <= |items| && ByKey(items[..n]).Err?
    ensures ByKey(items) == ByKey(items[..n])
    decreases |items|
  {
    if n == |items| {
      assert items[..n] == items;
    } else {
      var front := items[..|items| - 1];
      assert front[..n] == items[..n];
      ByKeyPrefix(front, n);
    }
  }

  lemma {:induction false} CheckSlotsPrefix(
      hash: Hash, storageRoot: ByteSeq, byKey: map<nat, StorageItem>, expected: seq<Expected>, n: nat)
    requires n <= |expected| && CheckSlots(hash, storageRoot, byKey, expected[..n]).Err?
    ensures CheckSlots(hash, storageRoot, byKey, expected) == CheckSlots(hash, storageRoot, byKey, expected[..n])
    decreases |expected|
  {
    if n == |expected| {
      assert expected[..n] == expected;
    } else {
      var front := expected[..|expected| - 1];
      assert front[..n] == expected[..n];
      CheckSlotsPrefix(hash, storageRoot, byKey, front, n);
    }
  }

  // ----- End-to-end soundness -----

  lemma CheckSlotWord(hash: Hash, storageRoot: ByteSeq, byKey: map<nat, StorageItem>, e: Expected)
    requires CheckSlot(hash, storageRoot, byKey, e).Ok?
    ensures CheckSlot(hash, storageRoot, byKey, e) == Ok(e.word)
  {}

  lemma {:induction false} CheckSlotsVerified(
      hash: Hash, storageRoot: ByteSeq, byKey: map<nat, StorageItem>, expected: seq<Expected>)
    requires CheckSlots(hash, storageRoot, byKey, expected).Ok?
    ensures CheckSlots(hash, storageRoot, byKey, expected).value == expected
    decreases |expected|
  {
    if expected != [] {
      CheckSlotWord(hash, storageRoot, byKey, expected[|expected| - 1]);
      CheckSlotsVerified(hash, storageRoot, byKey, expected[..|expected| - 1]);
    }
  }

  lemma {:induction false} CheckSlotsAll(
      hash: Hash, storageRoot: ByteSeq, byKey: map<nat, StorageItem>, expected: seq<Expected>, i: nat)
    requires CheckSlots(hash, storageRoot, byKey, expected).Ok?
    requires i < |expected|
    ensures CheckSlot(hash, storageRoot, byKey, expected[i]) == Ok(expected[i].word)
    decreases |expected|
  {
    if i < |expected| - 1 {
      CheckSlotsAll(hash, storageRoot, byKey, expected[..|expected| - 1], i);
    }
  }

  lemma {:induction false} ByKeyHolds(items: seq<StorageItem>, key: nat)
    requires ByKey(items).Ok?
    ensures key in ByKey(items).value ==> ByKey(items).value[key] in items && ByKey(items).value[key].key == key
    decreases |items|
  {
    if items != [] {
      var front := items[..|items| - 1];
      ByKeyHolds(front, key);
      assert forall item :: item in front ==> item in items;
    }
  }

  /** No proof in the response collides with the honest nodes of the two tries. */
  ghost predicate ResponseHasNoCollision(hash: Hash, state: Node, storage: Node, response: Response)
    requires Committable(hash, state) && Committable(hash, storage)
  {
    && NoCollision(hash, HonestProof(hash, state, Nibbles(hash(response.address))), response.accountProof)
    && forall item :: item in response.storageProof ==>
         NoCollision(hash, HonestProof(hash, storage, Nibbles(SlotKey(hash, item.key))), item.proof)
  }

  /** The word that the storage trie holds for a slot. */
  function StoredWord(hash: Hash, storage: Node, slot: nat): Result<nat, StateError> {
    ReadWord(Lookup(storage, Nibbles(SlotKey(hash, slot))))
  }

  /** The account that the state trie holds for an address. */
  function StoredAccount(hash: Hash, state: Node, address: ByteSeq): Result<Account, StateError> {
    match Lookup(state, Nibbles(hash(address)))
    case None => Err(AccountAbsent)
    case Some(leaf) => ReadAccount(leaf)
  }

  lemma StoredAccountIff(hash: Hash, state: Node, address: ByteSeq, a: Account)
    ensures StoredAccount(hash, state, address) == Ok(a) <==> HoldsAccount(hash, state, address, a)
  {
    var leaf := Lookup(state, Nibbles(hash(address)));
    if leaf.Some? {
      ReadAccountIff(leaf.value, a);
    }
  }

  lemma StoredWordIff(hash: Hash, storage: Node, slot: nat, word: nat)
    requires slot < WORD_LIMIT
    ensures StoredWord(hash, storage, slot) == Ok(word) <==> HoldsWord(hash, storage, slot, word)
  {
    FitsIff(slot);
    SlotKeyHashes(hash, slot);
    ReadWordIff(Lookup(storage, Nibbles(SlotKey(hash, slot))), word);
  }

  /**
   * Success answers the question asked: the address itself, and for every expected slot, and no other, one item with
   * that key and that word; the evidence is the response's own storage root, code hash and the expected words.
   */
  lemma VerifyAnswers(hash: Hash, response: Response, address: ByteSeq, stateRoot: ByteSeq, expected: seq<Expected>)
    requires Verify(hash, response, address, stateRoot, expected).Ok?
    ensures response.address == address && |address| == 20 && |stateRoot| == 32
    ensures |response.storageHash| == 32 && |response.codeHash| == 32
    ensures |response.storageProof| == |expected|
    ensures forall i :: 0 <= i < |expected| ==>
              exists item :: item in response.storageProof && item.key == expected[i].slot &&
                             item.value == expected[i].word
    ensures Verify(hash, response, address, stateRoot, expected) ==
            Ok(Evidence(response.storageHash, response.codeHash, expected))
  {
    var byKey := ByKey(response.storageProof).value;
    CheckSlotsVerified(hash, response.storageHash, byKey, expected);
    forall i | 0 <= i < |expected|
      ensures exists item :: item in response.storageProof && item.key == expected[i].slot &&
                             item.value == expected[i].word
    {
      CheckSlotsAll(hash, response.storageHash, byKey, expected, i);
      ByKeyHolds(response.storageProof, expected[i].slot);
    }
  }

  /**
   * Success means: the state trie holds under the address the encoding of exactly the fields of the response, and the
   * storage trie whose root that account names holds every expected word, an absent slot standing for zero.
   */
  lemma VerifySound(
      hash: Hash, state: Node, storage: Node, response: Response, address: ByteSeq, expected: seq<Expected>)
    requires Digests32(hash)
    requires Committable(hash, state) && Committable(hash, storage)
    requires ResponseHasNoCollision(hash, state, storage, response)
    requires Verify(hash, response, address, RootOf(hash, state), expected).Ok?
    requires response.storageHash == RootOf(hash, storage)
    ensures HoldsAccount(hash, state, address,
                         Account(response.nonce, response.balance, response.storageHash, response.codeHash))
    ensures forall i :: 0 <= i < |expected| ==> HoldsWord(hash, storage, expected[i].slot, expected[i].word)
  {
    TrieValueSound(hash, state, hash(address), response.accountProof);
    StoredAccountIff(
      hash, state, address, Account(response.nonce, response.balance, response.storageHash, response.codeHash));
    var byKey := ByKey(response.storageProof).value;
    forall i | 0 <= i < |expected| ensures HoldsWord(hash, storage, expected[i].slot, expected[i].word) {
      CheckSlotsAll(hash, RootOf(hash, storage), byKey, expected, i);
      SlotSound(hash, storage, response.storageProof, expected[i]);
    }
  }

  lemma SlotSound(hash: Hash, storage: Node, items: seq<StorageItem>, e: Expected)
    requires Digests32(hash) && Committable(hash, storage) && ByKey(items).Ok?
    requires forall item :: item in items ==>
               NoCollision(hash, HonestProof(hash, storage, Nibbles(SlotKey(hash, item.key))), item.proof)
    requires CheckSlot(hash, RootOf(hash, storage), ByKey(items).value, e) == Ok(e.word)
    ensures HoldsWord(hash, storage, e.slot, e.word)
  {
    ByKeyHolds(items, e.slot);
    TrieValueSound(hash, storage, SlotKey(hash, e.slot), ByKey(items).value[e.slot].proof);
    StoredWordIff(hash, storage, e.slot, e.word);
  }

  /** An account without storage is accepted exactly with no slot to verify: a zero slot of it has no proof. */
  lemma EmptyStorageVerifiesNothing(
      hash: Hash, response: Response, address: ByteSeq, stateRoot: ByteSeq, expected: seq<Expected>)
    requires response.storageHash == hash(EMPTY_NODE)
    requires forall item :: item in response.storageProof ==> NoEmptyCollision(hash, item.proof)
    ensures Verify(hash, response, address, stateRoot, expected).Ok? <==>
            ProvenAccount(hash, address, stateRoot, response).Ok? && response.storageProof == [] && expected == []
  {
    var items := response.storageProof;
    if Verify(hash, response, address, stateRoot, expected).Ok? && expected != [] {
      var byKey := ByKey(items).value;
      CheckSlotsAll(hash, hash(EMPTY_NODE), byKey, expected, 0);
      ByKeyHolds(items, expected[0].slot);
      EmptyTrieUnprovable(hash, SlotKey(hash, expected[0].slot), byKey[expected[0].slot].proof);
    }
  }

  // ----- Honest responses are accepted -----

  ghost function HonestItem(hash: Hash, storage: Node, e: Expected): StorageItem
    requires Committable(hash, storage)
  {
    StorageItem(e.slot, e.word, HonestProof(hash, storage, Nibbles(SlotKey(hash, e.slot))))
  }

  ghost function HonestItems(hash: Hash, storage: Node, expected: seq<Expected>): (items: seq<StorageItem>)
    requires Committable(hash, storage)
    ensures |items| == |expected|
    ensures forall i :: 0 <= i < |items| ==> items[i] == HonestItem(hash, storage, expected[i])
  {
    seq(|expected|, i requires 0 <= i < |expected| => HonestItem(hash, storage, expected[i]))
  }

  ghost function HonestResponse(
      hash: Hash, state: Node, storage: Node, address: ByteSeq, account: Account, expected: seq<Expected>)
    : Response
    requires Committable(hash, state) && Committable(hash, storage)
  {
    Response(address, account.nonce, account.balance, account.storageRoot, account.codeHash,
             HonestProof(hash, state, Nibbles(hash(address))), HonestItems(hash, storage, expected))
  }

  predicate DistinctSlots(expected: seq<Expected>) {
    forall i, j :: 0 <= i < j < |expected| ==> expected[i].slot != expected[j].slot
  }

  lemma {:induction false} ByKeyOfDistinct(items: seq<StorageItem>)
    requires forall i, j :: 0 <= i < j < |items| ==> items[i].key != items[j].key
    ensures ByKey(items).Ok?
    ensures forall i :: 0 <= i < |items| ==>
            items[i].key in ByKey(items).value && ByKey(items).value[items[i].key] == items[i]
    ensures forall k :: k in ByKey(items).value ==> exists i :: 0 <= i < |items| && items[i].key == k
    decreases |items|
  {
    if items != [] {
      ByKeyOfDistinct(items[..|items| - 1]);
    }
  }

  lemma {:induction false} CheckSlotsOfAll(
      hash: Hash, storageRoot: ByteSeq, byKey: map<nat, StorageItem>, expected: seq<Expected>)
    requires forall i :: 0 <= i < |expected| ==> CheckSlot(hash, storageRoot, byKey, expected[i]).Ok?
    ensures CheckSlots(hash, storageRoot, byKey, expected).Ok?
    decreases |expected|
  {
    if expected != [] {
      CheckSlotsOfAll(hash, storageRoot, byKey, expected[..|expected| - 1]);
    }
  }

  /** What an honest provider can prove: the word is stored, fits, and its walk reads no embedded node. */
  ghost predicate Honest(hash: Hash, storage: Node, e: Expected)
    requires Committable(hash, storage)
  {
    && Fits(e.word) && HoldsWord(hash, storage, e.slot, e.word)
    && !MeetsEmbedded(hash, storage, Nibbles(SlotKey(hash, e.slot)))
  }

  lemma HonestSlotAccepted(hash: Hash, storage: Node, byKey: map<nat, StorageItem>, e: Expected)
    requires Digests32(hash)
    requires Committable(hash, storage) && FixedDepth(storage, 64)
    requires Honest(hash, storage, e)
    requires e.slot in byKey && byKey[e.slot] == HonestItem(hash, storage, e)
    ensures CheckSlot(hash, RootOf(hash, storage), byKey, e).Ok?
  {
    FitsIff(e.slot);
    FitsIff(e.word);
    StoredWordIff(hash, storage, e.slot, e.word);
    ProvableIffNoEmbedded(hash, storage, SlotKey(hash, e.slot));
  }

  lemma HonestSlotsAccepted(hash: Hash, storage: Node, expected: seq<Expected>)
    requires Digests32(hash)
    requires Committable(hash, storage) && FixedDepth(storage, 64)
    requires DistinctSlots(expected)
    requires forall i :: 0 <= i < |expected| ==> Honest(hash, storage, expected[i])
    ensures var byKey := ByKey(HonestItems(hash, storage, expected));
            byKey.Ok? && CheckSlots(hash, RootOf(hash, storage), byKey.value, expected).Ok?
  {
    var items := HonestItems(hash, storage, expected);
    ByKeyOfDistinct(items);
    var byKey := ByKey(items).value;
    forall i | 0 <= i < |expected|
      ensures CheckSlot(hash, RootOf(hash, storage), byKey, expected[i]).Ok?
    {
      assert items[i].key == expected[i].slot;
      HonestSlotAccepted(hash, storage, byKey, expected[i]);
    }
    CheckSlotsOfAll(hash, RootOf(hash, storage), byKey, expected);
  }

  /** An honest response passes, for a present account and distinct slots, present or absent. */
  lemma HonestResponseAccepted(
      hash: Hash, state: Node, storage: Node, address: ByteSeq, account: Account, expected: seq<Expected>)
    requires Digests32(hash)
    requires Committable(hash, state) && FixedDepth(state, 64)
    requires Committable(hash, storage) && FixedDepth(storage, 64)
    requires |address| == 20
    requires HoldsAccount(hash, state, address, account)
    requires account.storageRoot == RootOf(hash, storage) && |account.codeHash| == 32
    requires !MeetsEmbedded(hash, state, Nibbles(hash(address)))
    requires DistinctSlots(expected)
    requires forall i :: 0 <= i < |expected| ==> Honest(hash, storage, expected[i])
    ensures var response := HonestResponse(hash, state, storage, address, account, expected);
            Verify(hash, response, address, RootOf(hash, state), expected).Ok?
  {
    StoredAccountIff(hash, state, address, account);
    ProvableIffNoEmbedded(hash, state, hash(address));
    HonestSlotsAccepted(hash, storage, expected);
  }
}
