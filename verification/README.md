# Models and proofs for the Atlas liquidation pipeline

This project models the hard parts of the pipeline in Dafny and proves what they promise. `dafny verify dfyconfig.toml`
checks it.

**State proofs** (`Bytes`, `Rlp`, `HexPrefix`, `TrieProof`, `Trie`, `StateProof`). The EIP-1186 verifier: a strict RLP
decoder, hex-prefix paths, the Merkle-Patricia walk and the check of an account and its storage. Each loop is a method
proved against a function; the function is then related to an independent definition: canonical encodings, the lookup in
a trie, the honest node list. The hash is a parameter. It is never assumed injective: a statement asks only that the
nodes it compares do not collide.

**Keccak** (`KeccakSpec`, `KeccakTables`, `KeccakInPlace`, `KeccakIntegers`, `KeccakSponge`,
`KeccakBits`). The in-place permutation over a 25-lane array, written once over abstract lane arithmetic, refines a map on
lanes, and that map the bit equations of FIPS 202 on the state array, up to the bits of the digest. Python's unbounded
integers are 128-bit words with an explicit 64-bit mask, wide enough for every shifted lane.

**Liquidation engine** (`FixedPoint`, `Account`, `Auction`, `Liquidation`, `ForkPackage`,
`AuctionPairs`, `Transcript`, `Replay`, `InventoryBuilder`). Exact integer arithmetic with the source's floor, ceiling and
half-up roundings; the replay of an event archive into a mutable ledger and the inventory made from it; the feed index
that prunes which borrowers are re-evaluated; their pairs and the quotes these need; the bid gate. The main results run
from the archive to the package.

**Resumable screening** (`LogArchive`, `RpcProvider`, `Prefilter`, `ScreenQueue`, `Ordering`). Bisected log collection with
a chunk cache, request counters, and two screening state machines. Everything a run meets from outside (providers,
clocks, limits, failures) is an arbitrary input of the run, and the main results hold over every sequence of runs.

**Activation** (`Activation`). The outbox runner, with crash points between its steps.

Bytes are naturals below 256 (bit vectors in the Keccak modules); addresses, hashes and names are numbers that compare
as the source's strings do.

## Findings

Where a promise fails, the code is modelled as it is, the exact condition is proved and an input is shown.

- `_trie_value` compares a reference of 32 bytes with a digest and a shorter one with the node itself, but a longer one
  with nothing. Proof and value are determined exactly when no longer reference is followed.
- The walker does not read nodes embedded in their parent, so a key whose walk meets one has no accepted proof at all.
- The walker refuses a node that is no list, which is all the empty trie has. So a zero slot of an account without
  storage cannot be verified.
- The rounded health factor agrees with the exact comparison exactly for debts below 2 * 10^18 base units.
- The already-liquidatable list covers indexed borrowers only. It equals a full scan exactly when every other borrower was
  healthy before the move; the newly-liquidatable list always does.
- A protocol fee above 100% takes more than the bonus; nothing in `_pair_economics` refuses it.
- `max_rational_atlas_bid_base` is clamped at zero, so a losing pair still names a bid. The package gate makes it safe.
- Quotes are looked up by the two assets and must name the exact collateral sold, so one quote fits two borrowers only if
  both would sell the same amount. A result with two such borrowers is never COMPLETE, and no package can be built from
  it, unless their amounts agree. `QuotableIff` is the exact condition.
- `archive_state` computes the next block from full chunks. After a short last chunk it points past the end until the
  archive is marked complete.
- A prefilter cohort cannot always be finished: a rest of fewer than 12 addresses breaks the hard bound on items per
  address, and the item budget does not pay for the largest cohorts. `CompletableIff` is the exact condition.
- Items numbered by failed prefilter runs are not in the recorded totals, so the totals bound what was spent only while
  no failed run reaches the provider.
- After a commit at a finalized block below the cursor the next tail reads blocks again, and `tail_log_count`, with the
  `discovery_log_count` made from it, counts their logs twice.
- The screen queue grows with every tail, and nothing bounds it; above 250000 addresses the state no longer validates.
- The activation report is filed under the digest of the request's bytes, so the same request delivered again overwrites
  the report that said activated.

## Model

| member | source | states |
|---|---|---|
| `Rlp.DecodeIffCanonical` | scripts/ethereum_state_proof.py:97-153 | a buffer decodes to a value if and only if it is the one canonical encoding of that value (Yellow Paper, Appendix B), for every buffer and every value with lengths below 2^64 |
| `Rlp.DecodeAtStrict` | scripts/ethereum_state_proof.py:97-146 | whatever is accepted at a cursor re-encodes to exactly the bytes consumed, although list items are read against the whole buffer and their end is checked only afterwards |
| `Rlp.DecodeAtComplete` | scripts/ethereum_state_proof.py:97-146 | an encoding anywhere in a buffer is read back, whatever surrounds it |
| `Rlp.EncodePrefixFree` | scripts/ethereum_state_proof.py:149-153 | no encoding is a prefix of another, so the cursor a value ends at is determined by the bytes |
| `Rlp.RlpDecodeAt` | scripts/ethereum_state_proof.py:97-146 | the recursive decoder with its append loop computes the specified decoding and terminates by the bytes that remain |
| `Rlp.RlpDecode` | scripts/ethereum_state_proof.py:149-153 | the whole-buffer decoder accepts exactly the specified buffers and rejects trailing bytes |
| `Rlp.StringLayout` | scripts/ethereum_state_proof.py:101-122 | for every length: a string encodes as itself when it is one byte below 0x80, else after 0x80 plus its length, or, from 56 bytes on, after 0xb7 plus the number of digits of the length and these big-endian digits |
| `Rlp.ListLayout` | scripts/ethereum_state_proof.py:123-146 | a list encodes as the joined encodings of its items after 0xc0 plus their length, or, from 56 bytes on, after 0xf7 plus the number of its digits and the digits |
| `HexPrefix.CompactPathIffCanonical` | scripts/ethereum_state_proof.py:175-183 | a compact path is accepted if and only if it is the hex-prefix encoding (Appendix C) of the path and leaf flag it yields |
| `HexPrefix.ExpandNibbles` | scripts/ethereum_state_proof.py:168-172 | the expansion loop yields the nibbles of the bytes, two a byte, high first |
| `HexPrefix.NibblesAt` | scripts/ethereum_state_proof.py:168-172 | nibbles 2i and 2i + 1 are the high and low half of byte i |
| `HexPrefix.EncodePathNibbles` | scripts/ethereum_state_proof.py:175-183 | the nibbles of an encoded path are a flag of 0 to 3 (leaf 2, odd length 1), a zero when the length is even, and the path itself |
| `TrieProof.CheckTrieProof` | scripts/ethereum_state_proof.py:186-232 | the loop over proof nodes, with its running reference and cursor, computes the specified walk, every error included |
| `TrieProof.StepBranch` | scripts/ethereum_state_proof.py:201-215 | one branch node either ends the walk or hands on the child reference and the rest of the path |
| `TrieProof.StepShort` | scripts/ethereum_state_proof.py:216-230 | one leaf or extension node either ends the walk or hands on its child and the rest of the path |
| `TrieProof.WalkUnique` | scripts/ethereum_state_proof.py:186-232 | two accepted proofs of one root and key whose references have at most 32 bytes are the same node sequence with the same value, unless two of their nodes collide |
| `TrieProof.ProofUniqueIffReferencesShort` | scripts/ethereum_state_proof.py:194-197 | an accepted proof is the only node list, up to collisions, if and only if every reference it follows has at most 32 bytes |
| `TrieProof.ValueDeterminedIffReferencesShort` | scripts/ethereum_state_proof.py:194-197 | the value itself is determined by root and key, up to collisions, if and only if every reference followed has at most 32 bytes |
| `TrieProof.LongReferenceForges` | scripts/ethereum_state_proof.py:194-197 | below a reference longer than 32 bytes, which is compared with nothing, every value that fits a leaf, and absence, is accepted |
| `TrieProof.LongReferenceExample` | scripts/ethereum_state_proof.py:194-197 | one concrete root under which every key, 32-byte digests included, is proved to hold every value and to be absent |
| `TrieProof.EmptyTrieUnprovable` | scripts/ethereum_state_proof.py:186-200 | under the root of the empty trie no node list is accepted for any key, not even as a proof of absence |
| `Trie.WalkSound` | scripts/ethereum_state_proof.py:186-232 | any proof accepted under the root of a trie is the node list of that trie for the key, and its value is the lookup |
| `Trie.WalkComplete` | scripts/ethereum_state_proof.py:186-232 | walking any key of a fixed-depth trie collects a node list that is accepted with the stored value, or None for an absent key |
| `Trie.TrieValueSound` | scripts/ethereum_state_proof.py:186-232 | soundness for byte keys: accepted means looked up in the trie the root commits to |
| `Trie.ProvableIffNoEmbedded` | scripts/ethereum_state_proof.py:186-232 | a key of a non-empty fixed-depth trie has an accepted proof if and only if its walk reads no node embedded in its parent |
| `Trie.EmbeddedLeafExample` | scripts/ethereum_state_proof.py:208-209 | a trie with keys of 32 bytes that stores a value under a key no node list proves |
| `Trie.BranchLayout` | scripts/ethereum_state_proof.py:201-215 | the branch node of a trie is the list of its sixteen references followed by its value |
| `Trie.ChildLayout` | scripts/ethereum_state_proof.py:194-214 | a child is referred to by its own encoding when that is shorter than 32 bytes, else by its hash, and an empty child by the empty string |
| `StateProof.VerifyResponse` | scripts/ethereum_state_proof.py:250-325 | the whole check, account fields, storage index and slot loop, computes the specified verdict |
| `StateProof.IndexByKey` | scripts/ethereum_state_proof.py:287-294 | the index loop maps every key to its item and rejects a repeated key |
| `StateProof.CheckExpected` | scripts/ethereum_state_proof.py:295-313 | the slot loop checks every expected slot in turn |
| `StateProof.ReadAccountIff` | scripts/ethereum_state_proof.py:266-276 | a leaf reads as an account if and only if it is the RLP encoding of the four strings nonce, balance, storage root and code hash in this order, the two numbers as big-endian digits without a leading zero |
| `StateProof.ReadWordIff` | scripts/ethereum_state_proof.py:306-308 | a storage leaf reads as a word if and only if it is the RLP encoding of the digits of the word; an absent leaf reads as zero |
| `StateProof.SlotKeyHashes` | scripts/ethereum_state_proof.py:301-305 | the trie key of a slot is the hash of the 32 bytes that stand for it in big-endian order |
| `StateProof.VerifyAnswers` | scripts/ethereum_state_proof.py:250-325 | on success the response is for the address asked for and has, for every expected slot and no other, one item with that key and that word; the evidence names its storage root and code hash |
| `StateProof.VerifySound` | scripts/ethereum_state_proof.py:250-325 | on success the state trie holds, under the hash of the address, the RLP encoding of exactly the nonce, balance, storage root and code hash of the response, and the trie with that storage root holds, under the hash of each expected slot, the encoding of the expected word, absence standing for zero |
| `StateProof.HonestResponseAccepted` | scripts/ethereum_state_proof.py:250-325 | for tries that hold such encodings, the response made by walking every key is accepted |
| `StateProof.EmptyStorageVerifiesNothing` | scripts/ethereum_state_proof.py:284-313 | for an account without storage a response is accepted if and only if its account is proved and no slot is to be verified |
| `KeccakTables.TablesFollowWalk` | scripts/ethereum_state_proof.py:25-32 | the destination and rotation tables are the lanes and offsets met along the walk of FIPS 202 sections 3.2.2 and 3.2.3 |
| `KeccakTables.TriangularOffsets` | scripts/ethereum_state_proof.py:25-28 | each rotation is the triangular number (t + 1)(t + 2) / 2 mod 64 |
| `KeccakTables.ConstantsFollowRegister` | scripts/ethereum_state_proof.py:15-24 | all 24 round constants come from the shift register of FIPS 202 section 3.2.5 |
| `KeccakInPlace.ThetaInPlace` | scripts/ethereum_state_proof.py:42-55 | the two theta loops leave the simultaneous theta map |
| `KeccakInPlace.RhoPiInPlace` | scripts/ethereum_state_proof.py:56-62 | after the carried-lane walk every destination holds the rotated lane that was there before the walk overwrote it |
| `KeccakInPlace.WalkIsRhoPi` | scripts/ethereum_state_proof.py:56-62 | that walk is the simultaneous rho and pi map of FIPS 202 |
| `KeccakInPlace.ChiInPlace` | scripts/ethereum_state_proof.py:63-68 | the row-by-row chi loop leaves the simultaneous chi map |
| `KeccakInPlace.RoundInPlace` | scripts/ethereum_state_proof.py:41-69 | one in-place round is one round of the specification |
| `KeccakInPlace.Permute` | scripts/ethereum_state_proof.py:40-69 | the 24 in-place rounds are the specified permutation, for any lane arithmetic |
| `KeccakIntegers.RotatesBy` | scripts/ethereum_state_proof.py:36-37 | the masked shift of an unbounded integer is the 64-bit rotation, for every offset of the table |
| `KeccakIntegers.LanesStayBelowMask` | scripts/ethereum_state_proof.py:40-69 | after every round every integer of the state is below 2^64 |
| `KeccakIntegers.KeccakF1600` | scripts/ethereum_state_proof.py:40-69 | the permutation on integers represents Keccak-f[1600] on 64-bit lanes |
| `KeccakSponge.PaddedInjective` | scripts/ethereum_state_proof.py:84-88 | the padding is injective in the payload |
| `KeccakSponge.FinalBlock` | scripts/ethereum_state_proof.py:84-88 | the last buffer is the remaining bytes followed by pad10*1, also when one byte carries both marks |
| `KeccakSponge.AbsorbBlock` | scripts/ethereum_state_proof.py:76-83 | one pass of the absorb loop moves one block from the blocks to come into the state |
| `KeccakSponge.SerializeState` | scripts/ethereum_state_proof.py:94-94 | the output loop writes all 25 lanes in little-endian order |
| `KeccakSponge.DigestIsFourLanes` | scripts/ethereum_state_proof.py:94-94 | two payloads have one digest if and only if their final states agree in the first four lanes, so the squeeze itself loses nothing else |
| `KeccakSponge.Keccak256` | scripts/ethereum_state_proof.py:72-94 | the sponge as written equals absorbing the padded blocks one by one and reading off 32 bytes |
| `KeccakBits.ChiBit` | scripts/ethereum_state_proof.py:66-68 | bit by bit, chi adds to a bit the next but one of its row where the next is zero |
| `KeccakBits.RotateBit` | scripts/ethereum_state_proof.py:36-37 | bit z of a lane rotated by n is its bit (z - n) mod 64 |
| `KeccakBits.LanesBitwise` | scripts/ethereum_state_proof.py:36-68 | exclusive or, chi and rotation of 64-bit lanes are the bitwise operations of FIPS 202 |
| `KeccakBits.RoundShows` | scripts/ethereum_state_proof.py:41-69 | one round on lanes is theta, rho, pi, chi and iota of FIPS 202 section 3.2 on the bits A[x, y, z], each step by its own bit equation |
| `KeccakBits.KeccakFHolds` | scripts/ethereum_state_proof.py:40-69 | the permutation is 24 such rounds on the 1600 bits, with the constants of the shift register |
| `KeccakBits.PaddedBits` | scripts/ethereum_state_proof.py:84-88 | the bits after the payload are a one, zeros and a one, up to the next multiple of 1088 bits |
| `KeccakBits.DigestBits` | scripts/ethereum_state_proof.py:72-94 | every bit of the digest is the bit of the state array that the sponge of FIPS 202 section 4 leaves after the padded payload |
| `FixedPoint.MulDivExact` | scripts/atlas_borrower_index.py:168-171 | an integer is at most the floored quotient exactly when its product with the divisor is at most the dividend, and at least the rounded-up one exactly when that product is at least the dividend |
| `FixedPoint.PercentMulExact` | scripts/atlas_borrower_index.py:135-144 | likewise for the half-up, floored and rounded-up percentages |
| `FixedPoint.PercentDivExact` | scripts/atlas_borrower_index.py:147-156 | likewise for division by a percentage |
| `FixedPoint.RayMulExact` | scripts/atlas_borrower_index.py:159-165 | likewise for scaled balances at an index of 10^27 |
| `FixedPoint.WadDivExact` | scripts/atlas_borrower_index.py:174-177 | the health factor quotient is half-up: within half a divisor of v * 10^18 |
| `Account.CalculateAccount` | scripts/atlas_borrower_index.py:1531-1571 | the accumulator loop gives the floor, ceiling and weighted sums and the health factor, or the first error |
| `Account.AloneOkIff` | scripts/atlas_borrower_index.py:1542-1560 | a single position can be valued if and only if its reserve and price are there, its amounts are known and a collateral has a threshold |
| `Account.AloneDebt` | scripts/atlas_borrower_index.py:1558-1560 | its debt is the least integer that pays variable and stable debt at the price |
| `Account.AloneCollateral` | scripts/atlas_borrower_index.py:1550-1556 | its collateral is the greatest integer the supply is worth at the price, and nothing unless the flag is set |
| `Account.AloneWeighted` | scripts/atlas_borrower_index.py:1552-1557 | its weighted value is that collateral times the threshold of the category where the asset belongs to it, else of the reserve |
| `Account.SumOfBoth` | scripts/atlas_borrower_index.py:1537-1560 | the totals of two lists of positions together are the sums of their totals, so every total is the sum over the positions alone |
| `Account.NoDebtIsHealthy` | scripts/atlas_borrower_index.py:1561-1565 | without debt the health factor is the largest word |
| `Account.HealthFactorBelow` | scripts/atlas_borrower_index.py:174-177 | the half-up, then floored health factor is below one exactly when weighted * 10^18 + floor(debt / 2) < 10000 * 10^18 * debt |
| `Account.ThresholdExact` | scripts/atlas_borrower_index.py:1561-1565 | for 0 < debt < 2 * 10^18 the health factor is below one if and only if the weighted numerator is below 10000 * debt |
| `Account.ThresholdExactIff` | scripts/atlas_borrower_index.py:1561-1565 | that equivalence holds for all numerators if and only if the debt is below 2 * 10^18 |
| `Account.ThresholdExample` | scripts/atlas_borrower_index.py:1561-1565 | at a debt of 2 * 10^18 a numerator one unit short still gives a health factor of one |
| `Account.HealthFactorMonotone` | scripts/atlas_borrower_index.py:1531-1571 | price moves in favour of every position never lower the health factor, through all per-position roundings |
| `Account.OneSidedPriceMove` | scripts/atlas_borrower_index.py:1952-1955 | a rise in an asset held only as collateral, or a fall in one held only as debt, never makes a borrower newly liquidatable |
| `Account.SumUnaffected` | scripts/atlas_borrower_index.py:1531-1571 | an account whose positions keep their prices keeps its totals and its errors |
| `Auction.BuildFeedIndex` | scripts/atlas_borrower_index.py:556-612 | the index built borrower by borrower holds, for each feed, exactly the borrowers with a position on it |
| `Auction.IndexBorrower` | scripts/atlas_borrower_index.py:1336-1386 | indexing one borrower adds them to the feeds of their positions and nothing else |
| `Auction.EvaluateAuction` | scripts/atlas_borrower_index.py:1868-1957 | the evaluation as written, with its fast path and sorted scan, computes the specified result |
| `Auction.ScanSorted` | scripts/atlas_borrower_index.py:1933-1957 | the scan visits the addresses in increasing order and stops at the first incomplete borrower or error |
| `Auction.MovePrices` | scripts/atlas_borrower_index.py:1924-1930 | the two price tables differ from the given one in the moved asset alone, and it has the price before in one and after in the other |
| `Auction.InClassIff` | scripts/atlas_borrower_index.py:1946-1957 | a borrower is already liquidatable exactly when below one before the move, newly exactly when at least one before and below one after |
| `Auction.ReportedIff` | scripts/atlas_borrower_index.py:1946-1957 | a record is in a list exactly when its borrower is scanned and in the class, and its factors are those before and after the move |
| `Auction.UnindexedUnchanged` | scripts/atlas_borrower_index.py:1895-1957 | a borrower outside the index has the same health factor before and after the move |
| `Auction.PruningExact` | scripts/atlas_borrower_index.py:1895-1957 | the newly liquidatable list of the indexed borrowers equals the one of all borrowers |
| `Auction.EvaluationExact` | scripts/atlas_borrower_index.py:1868-1957 | every completed evaluation, the zero-delta path included, reports as newly liquidatable what a scan of all borrowers reports |
| `Auction.AlreadyExactIff` | scripts/atlas_borrower_index.py:1933-1957 | the already-liquidatable list, in contrast, equals that of a full scan if and only if every borrower outside the index is at a health factor of at least one at the prices before the move |
| `Auction.AlreadyIncompleteExample` | scripts/atlas_borrower_index.py:1933-1957 | two borrowers on two feeds: a move of the first feed completes with empty lists while the second borrower is below one before and after |
| `Liquidation.AmountsBounded` | scripts/atlas_borrower_index.py:1655-1691 | recomputing in the collateral-capped branch never raises the repayment: repay <= debt and seized <= collateral, always |
| `Liquidation.CappedRepayShrinks` | scripts/atlas_borrower_index.py:1681-1686 | the capped repayment is at most the intended one through the ceiling division |
| `Liquidation.CloseFactorAppliesIff` | scripts/atlas_borrower_index.py:1656-1660 | the close factor applies exactly to an account above the threshold health factor whose debt and collateral in the pair are both worth the minimum |
| `Liquidation.IntendedRepayLargest` | scripts/atlas_borrower_index.py:1655-1666 | the intended repayment is the largest amount of at most the debt whose base value stays within the close-factor share, and the whole debt where the close factor does not apply |
| `Liquidation.UncappedExact` | scripts/atlas_borrower_index.py:1679-1688 | the seizure is capped exactly when the bonus on the collateral the repayment buys exceeds the collateral; else all of that is seized for the intended repayment, both divisions rounded down |
| `Liquidation.CappedExact` | scripts/atlas_borrower_index.py:1681-1686 | capped, all collateral is seized, for the smallest repayment whose bonus covers what it is worth |
| `Liquidation.FeeExact` | scripts/atlas_borrower_index.py:1689-1691 | the fee is the least integer that covers its share of the bonus part of the seizure |
| `Liquidation.RepayBaseExact` | scripts/atlas_borrower_index.py:1692-1694 | the repaid base value is the least integer that covers the repayment at its price |
| `Liquidation.DustRuleIff` | scripts/atlas_borrower_index.py:1698-1711 | the dust rule holds exactly when one side is used up or both rests are worth the minimum |
| `Liquidation.CloseFactorRespected` | scripts/atlas_borrower_index.py:1655-1694 | whenever the close-factor gate holds, the repaid base value is at most the close-factor share of the total debt, across all roundings |
| `Liquidation.SeizureBoundUncapped` | scripts/atlas_borrower_index.py:1679-1688 | uncapped: seized * cp * du * 10000 <= repay * dp * cu * bonus |
| `Liquidation.SeizureBoundCapped` | scripts/atlas_borrower_index.py:1681-1686 | capped: seized * cp * du * 10000 < (repay * bonus + 10000) * dp * cu |
| `Liquidation.LiquidatorKeepsPrincipalIff` | scripts/atlas_borrower_index.py:1689-1691 | the liquidator keeps at least the seized amount without bonus if and only if the fee is at most 100%, the bonus rate is 100% or nothing is seized |
| `Liquidation.FeeAboveBonusExample` | scripts/atlas_borrower_index.py:1689-1691 | a pair with a fee of 200% whose liquidator gets nothing of the two units seized |
| `PairEconomics.PnlFallsWithBid` | scripts/atlas_borrower_index.py:1805-1819 | the conservative outcome falls by exactly one unit for each unit of bid, through the whole cost sum |
| `PairEconomics.PnlExact` | scripts/atlas_borrower_index.py:1798-1819 | an outcome is the output in base units rounded down, minus the repayment and the flash premium rounded up, minus each of the seven costs, one unit for one unit |
| `PairEconomics.ScenarioOutcomes` | scripts/atlas_borrower_index.py:1805-1863 | each scenario is the outcome of its own output and costs with one and the same bid; the rational maximum is that bid plus the conservative margin above the floor, or zero |
| `PairEconomics.StatusIff` | scripts/atlas_borrower_index.py:1754-1794 | exactly which status or error a valid pair gets, by flags, grace period, dust rule, quote, block and flash capacity in this order |
| `PairEconomics.RationalBidsSafeIff` | scripts/atlas_borrower_index.py:1820-1863 | every bid up to the rational maximum leaves the retained floor if and only if bidding nothing would; every higher bid loses it |
| `ForkPackage.SelectPairUnique` | scripts/atlas_aave_fork_package.py:77-90 | a pair is selected if and only if exactly one pair of the result matches the plan, and it is that pair |
| `ForkPackage.BidSafety` | scripts/atlas_aave_fork_package.py:129-269 | for every accepted package built from an evaluated pair, every bid from 0 to the plan's maximum leaves at least the retained floor in the conservative scenario, and the plan repays and seizes the evaluated amounts |
| `ForkPackage.PackageAcceptedIff` | scripts/atlas_aave_fork_package.py:129-282 | a package is built if and only if every pair is exact, the plan names one pair that stands alone and is profitable, is bound to its block and amounts, bids rationally, keeps the floor, states what it must and is in time |
| `ForkPackage.GateOpensIff` | scripts/atlas_aave_fork_package.py:226-280 | an evaluated record of any result has an accepted plan if and only if the checkpoint is not block 0, every pair of the result is exact (the status COMPLETE), the record stands alone, its amounts are at least 1 and both outcomes clear the floor |
| `ForkPackage.ClampedBidExample` | scripts/atlas_borrower_index.py:1855-1860 | without the gate the clamp at zero misleads: one unit of debt against one of collateral that unwinds to nothing has a rational maximum of 0 and already loses the floor at bid 0 |
| `AuctionPairs.AssessGrid` | scripts/atlas_borrower_index.py:1958-1986 | the two nested loops assess every debt against every collateral in order, or end with the first error |
| `AuctionPairs.CandidateIff` | scripts/atlas_borrower_index.py:1958-1967 | the pairs of a borrower are exactly a position that owes against one that is enabled as collateral and holds some, when the health factor after the move is below one |
| `AuctionPairs.StakeExact` | scripts/atlas_borrower_index.py:1626-1729 | the amounts, prices and decimals of a pair are those of its two positions after the move, its bonus that of the category that covers the collateral, else of the reserve; flags and grace ask both reserves |
| `AuctionPairs.QuoteOf` | scripts/atlas_borrower_index.py:1598-1609 | the only quote for the two assets is the one used |
| `AuctionPairs.QuoteClash` | scripts/atlas_borrower_index.py:1598-1609 | two quotes for the same two assets are refused |
| `AuctionPairs.PairExplained` | scripts/atlas_borrower_index.py:1940-1986 | every reported pair is a debt against a collateral of an indexed borrower below one after the move, and its economics are those of their stake and their quote at the checkpoint |
| `AuctionPairs.TakeTurns` | scripts/atlas_borrower_index.py:1940-1986 | the loop over the affected addresses, with its lists and pairs, computes the specified report or first error |
| `AuctionPairs.EvaluateAuctionPairs` | scripts/atlas_borrower_index.py:1868-1999 | the whole evaluation with its pairs and the status they decide |
| `AuctionPairs.TurnsIff` | scripts/atlas_borrower_index.py:1940-1986 | the loop succeeds if and only if every health factor can be computed and every pair of a liquidatable borrower assessed, and its pairs are exactly these assessments |
| `AuctionPairs.PairsKeepLists` | scripts/atlas_borrower_index.py:1868-1999 | the pairs change nothing about the borrowers reported: what is proved of the lists holds of the whole evaluation |
| `AuctionPairs.EveryPairAlone` | scripts/atlas_borrower_index.py:1958-1986 | where no borrower has two positions in one asset, no two pairs of a result agree in borrower and assets |
| `AuctionPairs.AuctionGateIff` | scripts/atlas_aave_fork_package.py:226-280 | from auction to package: a pair of an evaluation has an accepted plan if and only if the status is COMPLETE, the checkpoint is not block 0 and the pair clears the floor |
| `AuctionPairs.QuotableIff` | scripts/atlas_borrower_index.py:1598-1609 | some quotes give the status COMPLETE if and only if the evaluation gets to its loop, the protocol lets every pair be liquidated, and pairs in the same two assets, of whichever borrowers, would sell the same amount |
| `AuctionPairs.DisagreementBlocks` | scripts/atlas_borrower_index.py:1793-1794 | two liquidatable borrowers whose pairs in the same assets would sell different amounts rule out COMPLETE whatever the quotes |
| `AuctionPairs.SharedAssetsExample` | scripts/atlas_borrower_index.py:1598-1609 | two borrowers owing different amounts of one asset: each pair can be liquidated and no quotes complete the result |
| `Transcript.ValidateTranscript` | scripts/atlas_borrower_index.py:286-350 | accepted if and only if blocks and endpoints are right and no event key has two digests, and then the first event of each key is kept in strict block and log order; under a digest without collisions every log is kept, so none is ever skipped |
| `Transcript.ReadBlocks` | scripts/atlas_borrower_index.py:297-338 | the block loop accepts exactly contiguous, hash-linked blocks with good logs and one digest per key |
| `Transcript.ValidateBlock` | scripts/atlas_borrower_index.py:313-338 | one block is accepted if and only if its log indexes increase, its kinds are supported and no key of it or before it has two digests |
| `Transcript.ReadEvent` | scripts/atlas_borrower_index.py:330-338 | an event is kept when its key is new, skipped when key and digest repeat, and refused exactly when only the key does |
| `Transcript.SameKeyIff` | scripts/atlas_borrower_index.py:330-338 | two events have one key exactly when they agree in block hash, transaction and log index |
| `Transcript.EventsIff` | scripts/atlas_borrower_index.py:318-338 | an event is in the archive exactly for some log of some block, with the number and hash of that block and the transaction, index and body of that log |
| `Replay.Ledger.Adjust` | scripts/atlas_borrower_index.py:394-401 | a balance becomes its sum with the change, is removed at zero and refused below zero |
| `Replay.Ledger.Touch` | scripts/atlas_borrower_index.py:371-384 | mentioned addresses get an entry and no balance changes |
| `Replay.Ledger.ApplyTokenEvent` | scripts/atlas_borrower_index.py:471-527 | mint, burn, transfer and mirror events change the ledger as specified |
| `Replay.Ledger.ApplyEvent` | scripts/atlas_borrower_index.py:410-527 | every event kind changes the ledger as specified, or fails with the specified error |
| `Replay.Ledger.ReplayAll` | scripts/atlas_borrower_index.py:538-541 | the replay loop applies the events in order and ends with the error of the first failure |
| `Replay.AdjustedEffect` | scripts/atlas_borrower_index.py:394-401 | an adjustment succeeds if and only if the sum is not negative, moves that balance alone and keeps every stored balance positive |
| `Replay.TokenEffect` | scripts/atlas_borrower_index.py:471-527 | a token event succeeds if and only if it is well posed and its debit is covered, and credits and debits exactly what it names, a self-transfer included |
| `Replay.BalancesAreNetFlows` | scripts/atlas_borrower_index.py:538-541 | after any accepted replay every balance is the net flow of its account, and no stored balance is zero or negative |
| `Replay.EntriesFollowEvents` | scripts/atlas_borrower_index.py:429-474 | after any accepted replay the collateral flag, category and configuration of every borrower and the indexes, identifier, threshold, bonus and fee of every reserve are those of the last event that sets them, else those of the start |
| `Replay.EntriesAreMentioned` | scripts/atlas_borrower_index.py:371-384 | an address has an entry exactly when some event mentions it |
| `Replay.ReplayAcceptedIff` | scripts/atlas_borrower_index.py:410-541 | a replay succeeds if and only if every event is well posed and never debits more than its account's net flow so far |
| `Replay.StepConserves` | scripts/atlas_borrower_index.py:476-526 | one event changes an asset's total by what it mints or burns and nothing else |
| `Replay.ReplayConserves` | scripts/atlas_borrower_index.py:476-541 | for every token and asset, balances over all borrowers add up to primary mints minus burns |
| `Replay.BuildLedger` | scripts/atlas_borrower_index.py:530-541 | end to end: a ledger built from a transcript under a collision-free digest holds the net flows of all its logs, conserves every total and stores only positive balances |
| `Replay.HeldAssetsKnown` | scripts/atlas_borrower_index.py:387-391 | only assets of the market are ever held, so the builder finds the reserve of every position |
| `InventoryBuilder.BuildPositions` | scripts/atlas_borrower_index.py:568-610 | one position per active asset, in order, supplies rounded down and debts up at their index |
| `InventoryBuilder.BuildInventory` | scripts/atlas_borrower_index.py:556-612 | the inventory holds one record per address in order and an exact feed index, and is complete exactly when the market and every record are |
| `InventoryBuilder.RecordCoversHoldings` | scripts/atlas_borrower_index.py:561-610 | a record has exactly one position for every asset with a balance of any token and none for another |
| `InventoryBuilder.RecordsFollowEvents` | scripts/atlas_borrower_index.py:556-612 | over the events alone: one record per address mentioned, a position for exactly the assets with a net flow of some token, the flows at the last indexes the events give rounded as the tokens round, the last collateral flag and category they set, and complete exactly when market, configuration and every amount are |
| `InventoryBuilder.LedgerOfEvents` | scripts/atlas_borrower_index.py:530-541 | the replayed ledger and market are what the events and the starting market say |
| `InventoryBuilder.BuildFromTranscript` | scripts/atlas_borrower_index.py:530-673 | from archive to auction: an acceptable transcript gives an inventory if and only if its events replay; under a collision-free digest its records and reserves are what the events say and nothing else; no borrower has an asset twice; on a complete inventory every completed evaluation reports as newly liquidatable what a full scan reports |
| `InventoryBuilder.KeepPositions` | scripts/atlas_borrower_index.py:1344-1386 | the checkpoint position loop keeps exactly the positions that are not empty, priced by the feed of their reserve, and fails exactly on an unknown reserve |
| `InventoryBuilder.KeptOfOne` | scripts/atlas_borrower_index.py:1346-1386 | a position is kept, with its amounts, flag and feed, exactly when one of its three amounts is not zero |
| `InventoryBuilder.KeptOfBoth` | scripts/atlas_borrower_index.py:1346-1386 | what is kept of two lists is kept of each |
| `InventoryBuilder.AcceptedIff` | scripts/atlas_borrower_index.py:1336-1395 | a checkpoint borrower is accepted if and only if all its reserves are known, its configuration matches and some variable or stable debt is not zero |
| `InventoryBuilder.CheckpointBorrowers` | scripts/atlas_borrower_index.py:1336-1395 | every checkpoint borrower is accepted if and only if reserves are known, the configuration matches and some debt is active |
| `InventoryBuilder.BuildFromCheckpoint` | scripts/atlas_borrower_index.py:1336-1506 | accepted if and only if every borrower is; the inventory holds exactly the record of each checkpoint borrower, stably sorted by address, under an exact feed index, so on a complete inventory pruning reports what a full scan reports |
| `LogArchive.LogProvider.GetLogs` | scripts/export_aave_borrow_discovery.py:756-783 | for any provider that refuses or fails any calls, bisection terminates; success is the answer of one unlimited query, read from ranges that tile the interval; a range refusal surfaces only for at most 512 blocks, and no request is cut below 256 |
| `LogArchive.LogProvider.GetHalves` | scripts/export_aave_borrow_discovery.py:766-780 | the two halves of a refused range together give the unlimited answer |
| `LogArchive.TilesReadOnce` | scripts/export_aave_borrow_discovery.py:780-780 | ranges that tile an interval read each of its blocks exactly once and none outside it |
| `LogArchive.SanitizeLogs` | scripts/export_aave_borrow_discovery.py:786-805 | every log is sanitized in order, or one bad log fails the chunk |
| `LogArchive.SanitizeIff` | scripts/export_aave_borrow_discovery.py:786-805 | a log is kept if and only if it is a Borrow log of four topics that was not removed, and then with every field as it was |
| `LogArchive.Archive.Chunk` | scripts/export_aave_borrow_discovery.py:808-859 | a chunk, cached or fresh, is the unlimited answer for its range; a cached chunk costs no call and never fails its range check on a numbered chain |
| `LogArchive.Archive.Collect` | scripts/export_aave_borrow_discovery.py:1020-1062 | success is the unlimited answer for the whole interval in exactly (checkpoint - start) / size + 1 chunks that tile it; the cache stays sound and the progress record honest on every exit |
| `LogArchive.NextStartExactIff` | scripts/export_aave_borrow_discovery.py:893-895 | the progress record of an unfinished run names the next block if and only if the chunks done do not reach past the checkpoint |
| `LogArchive.NextStartExample` | scripts/export_aave_borrow_discovery.py:893-895 | with chunks of 512 over 600 blocks the last unfinished record points 424 blocks too far |
| `RpcProvider.Bridge.Call` | scripts/export_aave_borrow_discovery.py:551-595 | every attempt takes one new id, and one transport unless its request could not be written; the call stops at the first answer, final error or dead bridge or after its attempts, retries exactly what may be tried again, and succeeds exactly with the answer to its last id |
| `RpcProvider.Bridge.Batch` | scripts/export_aave_borrow_discovery.py:692-719 | a batch takes one id per call, one transport unless it could not be written, and reads each result back under its own id |
| `RpcProvider.Bridge.EthCalls` | scripts/export_aave_borrow_discovery.py:685-722 | success takes exactly one id per call and one transport per batch, retries nothing, and gives each call its own result however the provider orders its items; a failure has numbered every call of every batch it sent |
| `RpcProvider.LastWithIff` | scripts/export_aave_borrow_discovery.py:692-719 | of several items under one id the last is read |
| `Prefilter.Screen.Run` | scripts/atlas_aave_economic_prefilter.py:390-636 | a run commits if and only if the stated condition on its inputs holds, commits exactly the specified batch and otherwise changes nothing; what it spent is the items its session numbered, failed or not |
| `Prefilter.Screen.Context` | scripts/atlas_aave_economic_prefilter.py:230-258 | the liveness check is three calls of one attempt each and stops at the first that fails or whose reply is refused, the finalized header before the third call |
| `Prefilter.Screen.Fetch` | scripts/atlas_aave_economic_prefilter.py:411-450 | a session reports its counters on every exit; one that succeeds spends exactly the address count plus 3 items and no retry |
| `Prefilter.HardBoundIff` | scripts/atlas_aave_economic_prefilter.py:451-461 | with three items of overhead the hard items-per-address bound holds if and only if there are at least 12 addresses |
| `Prefilter.ClassifyIff` | scripts/atlas_aave_economic_prefilter.py:278-298 | an account is without debt, liquidatable below 10^18, urgent and watched up to their bounds, safe above, and incomplete exactly when its data does not decode |
| `Prefilter.RowsAt` | scripts/atlas_aave_economic_prefilter.py:435-445 | each address is classified by its own result |
| `Prefilter.WithinBoundsExact` | scripts/atlas_aave_economic_prefilter.py:451-461 | the execution bounds without a division: the limits, at most 5/4 items an address and one retry in a hundred items |
| `Prefilter.CompletableIff` | scripts/atlas_aave_economic_prefilter.py:390-461 | some sequence of runs finishes the cohort if and only if nothing is left, or at least 12 addresses are left and the recorded items plus r + 3 * ceil(r / 20000) stay within 250000; otherwise every sequence stops short |
| `Prefilter.CursorPace` | scripts/atlas_aave_economic_prefilter.py:390-636 | over any runs the cursor moves at most 20000 addresses a batch, at least 12 or not at all, at one item per address and 3 per batch |
| `Prefilter.ShortTailExample` | scripts/atlas_aave_economic_prefilter.py:451-461 | thirteen addresses can be finished from the start, and never again after a batch of twelve |
| `Prefilter.BudgetExample` | scripts/atlas_aave_economic_prefilter.py:399-400 | the largest cohort discovery admits, 250000 addresses, can never be finished: 13 batches spend the whole budget with 39 addresses left |
| `Prefilter.RecordedIsSpentIff` | scripts/atlas_aave_economic_prefilter.py:596-604 | the recorded total never exceeds what was spent and equals it if and only if every run commits, stops at its arguments or budgets, or finds the bridge gone before the first call |
| `Prefilter.UnrecordedExample` | scripts/atlas_aave_economic_prefilter.py:234-236 | a run against a provider of another chain spends one item that no record holds |
| `Prefilter.ScreenedIsPrefix` | scripts/atlas_aave_economic_prefilter.py:591-636 | the committed rows are exactly the addresses before the cursor, in order, with no gap or repeat |
| `Prefilter.CommitReachable` | scripts/atlas_aave_economic_prefilter.py:591-636 | a commit keeps the partition of [0, cursor), the item count and the daily usage records |
| `Prefilter.EveryRunWithinBudget` | scripts/atlas_aave_economic_prefilter.py:390-636 | over every sequence of runs: coverage of [0, cursor), total items = cursor + 3 * batches <= 250000, no retry, transports summed over the batches, and at most 20000 addresses a day |
| `ScreenQueue.CollectTail` | scripts/export_aave_checkpoint.py:773-839 | the piecewise tail loop gives the logs of its pieces in order, or fails as specified |
| `ScreenQueue.TailIff` | scripts/export_aave_checkpoint.py:773-839 | a tail is accepted if and only if it spans at most two million blocks and every log of its pieces is canonical, in range and different from the others |
| `ScreenQueue.ChunkIs` | scripts/export_aave_checkpoint.py:782-822 | a piece is two thousand blocks, the last one cut at the end of the tail |
| `ScreenQueue.PiecesComplete` | scripts/export_aave_checkpoint.py:782-822 | no block of the tail falls between two pieces |
| `ScreenQueue.Extend` | scripts/export_aave_checkpoint.py:1560-1565 | the loop appends the new tail borrowers in sorted order and moves nothing that was queued |
| `ScreenQueue.ExtendedKeeps` | scripts/export_aave_checkpoint.py:1560-1565 | the queue stays free of repeats, keeps its old part as a prefix and gains exactly the tail borrowers |
| `ScreenQueue.Screen.Run` | scripts/export_aave_checkpoint.py:1487-1583 | a run commits if and only if the stated condition holds, screens the next addresses of the queue, and otherwise changes nothing |
| `ScreenQueue.StepSound` | scripts/export_aave_checkpoint.py:1893-1955 | one run, committed or failed, keeps the seed, the screened prefix and the record of scanned blocks |
| `ScreenQueue.EveryRunSound` | scripts/export_aave_checkpoint.py:121-230 | over every sequence of commits and failures the batches concatenate to the first addresses of the queue, the seed never moves, and every block after the archive up to the cursor was scanned, even after a lower finalized block |
| `ScreenQueue.ScreenedOnce` | scripts/export_aave_checkpoint.py:1893-1955 | no address is screened twice |
| `ScreenQueue.EveryRunCovers` | scripts/export_aave_checkpoint.py:1487-1583 | if providers that answer answer truthfully, every borrower of every block after the archive up to the cursor is in the queue |
| `ScreenQueue.QueueOnlyGrows` | scripts/export_aave_checkpoint.py:1893-1955 | a queued address keeps its place and the cursor into the queue never goes back |
| `ScreenQueue.EveryRunCounts` | scripts/export_aave_checkpoint.py:1893-1955 | over every sequence of runs, with providers that answer with as many logs as the chain has, the tail log counter is the number of logs after the archive up to the cursor plus those of every stretch the cursor fell back over |
| `ScreenQueue.TailCountExactIff` | scripts/export_aave_checkpoint.py:1797-1803 | the counter is that number if and only if no commit finalizes a block below the cursor with a log in between; it is never less |
| `ScreenQueue.RecountExample` | scripts/export_aave_checkpoint.py:1797-1803 | three commits at the next block, the one before and the next again count its only log twice |
| `ScreenQueue.PassesIff` | scripts/export_aave_checkpoint.py:167-230 | a reachable state passes its own validation if and only if the queue holds at most 250000 addresses |
| `ScreenQueue.CommitPassesIff` | scripts/export_aave_checkpoint.py:179-180 | a commit leaves a state that validates if and only if the queue and the new tail borrowers fit that bound together |
| `ScreenQueue.OutgrownIsFinal` | scripts/export_aave_checkpoint.py:179-180 | once the queue is over the bound every later state of every sequence of runs is the same |
| `ScreenQueue.OutgrownExample` | scripts/export_aave_checkpoint.py:1560-1565 | a full seed and one new borrower in the first tail commit a state past the bound |
| `Activation.Runner.ConsumeMarker` | scripts/economic_activation_runner.py:399-425 | the marker is created exclusively; a marker already there is a replay, and a failed write leaves none |
| `Activation.Runner.Attempt` | scripts/economic_activation_runner.py:480-527 | the attempt leaves the markers and invocations specified for its failures and crash point |
| `Activation.Runner.RunOnce` | scripts/economic_activation_runner.py:461-530 | a run changes the directories exactly as specified |
| `Activation.AtMostOnce` | scripts/economic_activation_runner.py:461-530 | over every sequence of deliveries, failures and crashes, the script runs at most once per candidate and fork hash, for any digests |
| `Activation.AfterOnce` | scripts/economic_activation_runner.py:399-427 | every invocation left its marker, and no two invocations share one |
| `Activation.CompletedRemovesOne` | scripts/economic_activation_runner.py:430-441 | a completed non-idle run removes exactly one request, the first by name; only an empty outbox is idle; a killed run removes the same request or none |
| `Activation.ReplayRejectedIff` | scripts/economic_activation_runner.py:409-416 | over every event sequence, a request is answered replayed if and only if some earlier run created a marker with its digest, whatever became of that run |
| `Activation.ConsumedIff` | scripts/economic_activation_runner.py:399-427 | a marker is there if and only if some run of the past created it |
| `Activation.InvokedIff` | scripts/economic_activation_runner.py:484-510 | a candidate is ever invoked if and only if the run that created its marker passed every later check and was not killed before the script |
| `Activation.TakenOnce` | scripts/economic_activation_runner.py:409-416 | no two runs create one marker, so a candidate that misses its one chance is never invoked |
| `Activation.InvokedThenRejected` | scripts/economic_activation_runner.py:399-416 | once a candidate was invoked, a later request for it invokes nothing |
| `Activation.ReportsTruthful` | scripts/economic_activation_runner.py:513-528 | no report says activated for a candidate that was never invoked, and the marker of each activated report is there |
| `Activation.ReportIff` | scripts/economic_activation_runner.py:480-527 | the code a request is answered with says exactly which check it failed first |
| `Activation.ActivatedReportKeptIff` | scripts/economic_activation_runner.py:478-482 | over every event sequence, a report that says activated survives the next run that files one if and only if that run files under another digest |
| `Activation.CopyHidesActivation` | scripts/economic_activation_runner.py:528-528 | one request delivered and run twice: the script runs once, and the report that said activated says replayed |

## Left out

- Hexadecimal text, JSON shapes and canonical JSON, SHA-256: values arrive parsed, and digests are arbitrary functions.
- Python's recursion limit: the model decodes RLP of any depth.
- The concrete Keccak is not plugged into the trie proofs, which hold for every 32-byte hash.
- `validate_market` and the checkpoint builder's shape and proof checks before and after its borrower loop.
- InventoryBuilder.CheckpointBorrowers: the configuration bitmap comparison is one input per borrower; the protocol account cross-check is not modelled.
- InventoryBuilder.BuildInventory: the comparison of configuration bitmaps and end hashes is one input per borrower, and reasons for incompleteness are not listed.
- Replay.Ledger.Touch: evidence lists and last-block fields are not kept, because they feed no balance; the entries it creates are.
- Auction.EvaluateAuction: the lists of borrowers alone; `AuctionPairs.EvaluateAuctionPairs` adds the pairs, their errors and the status they decide.
- AuctionPairs.EvaluateAuctionPairs: quotes and close-factor rules arrive with all their fields; flash provider and unwind venue are not kept.
- `verify_agreement` and the hash bindings of `build_package`: equality checks on records.
- Replay.Ledger.ReplayAll: does not say what the ledger holds after a failure, because the source discards it.
- LogArchive.LogProvider.GetLogs: one call is one arbitrary verdict; which error texts count as range limits, and the retries inside a call, are not part of it.
- LogArchive.Archive.Chunk: schema, identity and content hash of a cached file are taken as intact, since files are written whole.
- LogArchive.Archive.Collect: the final sort, the duplicate-identity check and the borrower list of the artifact are not modelled.
- RpcProvider.Bridge.Call: the parameters and payload of a request are not modelled, only its id and its fate.
- Prefilter.Screen.Run: transports and retries of failed runs are not summed; bucket counts, cohort and monitoring artifacts are not modelled; classification is.
- ScreenQueue.Screen.Run: everything between the queue and the commit (reserves, users, agreement) is one input that says whether the run goes through.
- ScreenQueue.CollectTail: the result is not sorted, because only the set of its borrowers is used.
- Activation.Runner.RunOnce: file ownership and modes, the lock itself and the contents of the readiness files are not modelled; a run is atomic but for its crash points.
- The historical and retained-cohort modes of the checkpoint exporter, `summarize_current_state` and the exact-block verification of tails.
- Dashboards, deployment, report assembly, SSH and HTTP transport, and the Rust crates.
