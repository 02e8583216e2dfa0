# Provider rotation and escrow tasks of a peer-to-peer trading node, in Dafny

This project models three sequential pieces of a Bisq-derived trading node and
proves properties of them:

- **ProvidersRepository** — builds the list of price-relay provider endpoints
  (from the `providers` program argument, the localhost provider, or the
  default node list), drops every endpoint whose normalised form is on the ban
  list, and hands out endpoints round-robin. Modelled as an immutable
  `Repository` record and pure functions over it (`providers_repository.dfy`),
  on top of the Java string operations it relies on — `String.replace` with an
  empty replacement, `StringUtils.deleteWhitespace`, `String.split(",")` —
  written out with their edge cases (`java_strings.dfy`).
- **BuyerAsMakerCreatesAndSignsDepositTx** — the protocol task in which the
  buyer, as maker, stores the contract hash, locks its security deposit on its
  MULTI_SIG address entry, checks its multi-sig key and has the deposit
  transaction built (`buyer_as_maker_deposit.dfy`).
- **SellerSignAndFinalizePayoutTx** — the protocol task in which the seller
  computes the payouts, checks its MULTI_SIG entry and key, has the payout
  transaction signed, records it and releases the MULTI_SIG entry
  (`seller_payout.dfy`).

Each task is a pure function from a `TaskState` (trade, process model,
wallet address entries) and a `Services` record (the collaborators it calls)
to `Complete(state, trace)` or `Failed(state, trace, cause)`. The state is the
one the task leaves behind — changes made before a failure stay, as they do in
the source — and the trace lists the mutations and collaborator calls in the
order the task makes them, so "no signing call happens" can be stated. Amounts
are bitcoincashj `Coin`s: signed 64-bit values whose `add` throws on overflow,
which the model turns into a `CoinOverflow` failure (`trade_model.dfy`).

## Model

| member | source | states |
|---|---|---|
| `JavaStrings.RemoveAll` | core/src/main/java/bisq/core/provider/ProvidersRepository.java:205-207 | `replace(target, "")` never lengthens a string and only keeps characters of the input |
| `JavaStrings.RemoveAllAbsent` | core/src/main/java/bisq/core/provider/ProvidersRepository.java:205-207 | a replacement whose target does not occur returns the string unchanged |
| `JavaStrings.RemoveAllFirstOccurrence` | core/src/main/java/bisq/core/provider/ProvidersRepository.java:205-207 | when no occurrence of the target starts inside a prefix, `prefix + target + rest` loses exactly that first occurrence: the prefix is kept and the search resumes on `rest` — the left-to-right, non-overlapping replacement of `"http://"` and `".onion"` |
| `JavaStrings.RemoveAllChar` | core/src/main/java/bisq/core/provider/ProvidersRepository.java:206 | removing `"/"` removes every slash and keeps every other character in order (equals an independent filter) |
| `JavaStrings.RemoveAllDoesNotRescan` | core/src/main/java/bisq/core/provider/ProvidersRepository.java:205 | Java's replace does not rescan its output: removing `"http://"` from `"hthttp://tp://"` leaves `"http://"` |
| `JavaStrings.DeleteWhitespace` | core/src/main/java/bisq/core/provider/ProvidersRepository.java:201 | the result holds the non-whitespace characters of the input, each as often as in the input, and no whitespace |
| `JavaStrings.SplitAll` | core/src/main/java/bisq/core/provider/ProvidersRepository.java:201 | splitting yields at least one piece and no piece contains a comma |
| `JavaStrings.SplitAllJoin` | core/src/main/java/bisq/core/provider/ProvidersRepository.java:201 | joining all pieces with commas gives back the original string |
| `JavaStrings.DropTrailingEmpty` | core/src/main/java/bisq/core/provider/ProvidersRepository.java:201 | the result is a prefix ending in a non-empty piece, and only empty pieces were dropped |
| `JavaStrings.Split` | core/src/main/java/bisq/core/provider/ProvidersRepository.java:201 | `split(",")`: pieces have no comma, `""` gives `[""]`, otherwise the last piece is non-empty |
| `JavaStrings.SplitRoundTrip` | core/src/main/java/bisq/core/provider/ProvidersRepository.java:201 | `split(",")` loses nothing but trailing commas: joined pieces plus the dropped commas are the input |
| `ProvidersRepository.Normalize` | core/src/main/java/bisq/core/provider/ProvidersRepository.java:205-207 | the normalised form never contains a slash and is no longer than the provider string |
| `ProvidersRepository.NormalizeOnionUrl` | core/src/main/java/bisq/core/provider/ProvidersRepository.java:205-207 | `"http://abc.onion/"` normalises to `"abc"`, the form a ban list names |
| `ProvidersRepository.SourceList` | core/src/main/java/bisq/core/provider/ProvidersRepository.java:188-202 | with a null or empty argument: exactly `["http://127.0.0.1/"]` in localhost mode, else the default nodes; with an argument: comma- and whitespace-free pieces that rejoin to the whitespace-deleted argument up to trailing commas, `[""]` when the argument is only whitespace, and otherwise no trailing empty piece |
| `ProvidersRepository.FilterBanned` | core/src/main/java/bisq/core/provider/ProvidersRepository.java:203-208 | the result is an order-preserving subsequence holding exactly the non-banned candidates, each as often as in the source; a null ban list keeps the source list |
| `ProvidersRepository.FillProviderList` | core/src/main/java/bisq/core/provider/ProvidersRepository.java:187-209 | only the provider list changes, to a subsequence of the candidates holding each non-banned candidate as often as the source lists it and no banned one; a null ban list keeps the candidate list |
| `ProvidersRepository.SelectNextProviderBaseUrl` | core/src/main/java/bisq/core/provider/ProvidersRepository.java:170-185 | with providers: the base URL is the provider just before the new index, `1 <= index <= size`, a stale index wraps to the first; with none: empty base URL, index unchanged |
| `ProvidersRepository.ApplyBannedNodes` | core/src/main/java/bisq/core/provider/ProvidersRepository.java:158-168 | the list is rebuilt under the new ban list and one selection follows: a non-banned listed provider, continuing from the unreset index or wrapping to the first when the index is stale |
| `ProvidersRepository.Create` | core/src/main/java/bisq/core/provider/ProvidersRepository.java:145-156 | after construction the list is the filtered source list, the first listed provider is selected and the index is 1, or the base URL is empty and the index 0 |
| `ProvidersRepository.CreateFromDefaults` | core/src/main/java/bisq/core/provider/ProvidersRepository.java:43-127 | for any shuffle of `DEFAULT_NODES`, without an argument and outside localhost mode the providers are the declared default nodes the ban list does not exclude, each as often as declared |
| `ProvidersRepository.CreateFromPermutation` | core/src/main/java/bisq/core/provider/ProvidersRepository.java:153-156 | the constructor's provider list depends on the default-node order only up to permutation: each non-banned node appears as often as in the unshuffled list |
| `ProvidersRepository.SelectTimes` | core/src/main/java/bisq/core/provider/ProvidersRepository.java:170-176 | repeated selection never changes the provider list and keeps the index within `1..size` |
| `ProvidersRepository.RoundRobin` | core/src/main/java/bisq/core/provider/ProvidersRepository.java:171-176 | the (k+1)-th selection hands out the provider at `(start + k) mod n` and leaves the index one past it |
| `ProvidersRepository.FirstPass` | core/src/main/java/bisq/core/provider/ProvidersRepository.java:171-176 | from index 0 (or a stale index) the (j+1)-th selection hands out provider j |
| `ProvidersRepository.VisitsEachOnce` | core/src/main/java/bisq/core/provider/ProvidersRepository.java:171-176 | from index 0, n consecutive selections hand out the n providers once each, in list order |
| `ProvidersRepository.EmptySelection` | core/src/main/java/bisq/core/provider/ProvidersRepository.java:180-181 | with an empty list every selection yields the empty base URL and leaves the index, never failing |
| `TradeModel.CoinAdd` | core/src/main/java/bisq/core/trade/protocol/tasks/buyer_as_maker/BuyerAsMakerCreatesAndSignsDepositTx.java:79-82 | a `Coin` sum is defined exactly when it fits a signed 64-bit long, and is then the integer sum |
| `TradeModel.DepositOutputAmount` | core/src/main/java/bisq/core/trade/protocol/tasks/buyer_as_maker/BuyerAsMakerCreatesAndSignsDepositTx.java:79-82 | the multi-sig output is maker input + fee + seller deposit + trade amount, defined exactly when every left-to-right partial sum fits a signed 64-bit long |
| `TradeModel.OverflowPartWay` | core/src/main/java/bisq/core/trade/protocol/tasks/buyer_as_maker/BuyerAsMakerCreatesAndSignsDepositTx.java:79-82 | an overflow part-way fails even when the total fits: `(MaxLong, 1, -1, 0)` has no output amount |
| `TradeModel.FindEntry` | core/src/main/java/bisq/core/trade/protocol/tasks/buyer_as_maker/BuyerAsMakerCreatesAndSignsDepositTx.java:73 | the lookup returns the first entry bound to the offer id and context, or none when no entry is |
| `TradeModel.FindEntryExtend` | core/src/main/java/bisq/core/trade/protocol/tasks/seller/SellerSignAndFinalizePayoutTx.java:67-73 | creating entries for other contexts does not change which MULTI_SIG entry the lookup finds |
| `TradeModel.GetOrCreateAddressEntry` | core/src/main/java/bisq/core/trade/protocol/tasks/buyer_as_maker/BuyerAsMakerCreatesAndSignsDepositTx.java:90-91 | an existing entry is returned with the wallet untouched; otherwise one new matching entry on the next key, with nothing locked, is appended |
| `TradeModel.GetOrCreateKeepsOtherLookups` | core/src/main/java/bisq/core/trade/protocol/tasks/seller/SellerSignAndFinalizePayoutTx.java:67-73 | getting or creating the TRADE_PAYOUT entry does not change which MULTI_SIG entry the later lookup finds |
| `TradeModel.GetFreshAddressEntry` | core/src/main/java/bisq/core/trade/protocol/tasks/buyer_as_maker/BuyerAsMakerCreatesAndSignsDepositTx.java:93 | as modelled (the wallet service is not part of this model), `getFreshAddressEntry` always appends a new AVAILABLE entry without offer id on the next key of the chain |
| `TradeModel.GetFreshKeepsLookups` | core/src/main/java/bisq/core/trade/protocol/tasks/buyer_as_maker/BuyerAsMakerCreatesAndSignsDepositTx.java:93 | taking a fresh change address changes no lookup by offer id and context |
| `TradeModel.SetCoinLocked` | core/src/main/java/bisq/core/trade/protocol/tasks/buyer_as_maker/BuyerAsMakerCreatesAndSignsDepositTx.java:76 | only the chosen entry's locked coin changes; the other entries and the key counter stay |
| `TradeModel.SetCoinLockedKeepsLookups` | core/src/main/java/bisq/core/trade/protocol/tasks/buyer_as_maker/BuyerAsMakerCreatesAndSignsDepositTx.java:76 | locking a coin changes no lookup by offer id and context |
| `TradeModel.SwapToAvailable` | core/src/main/java/bisq/core/trade/protocol/tasks/seller/SellerSignAndFinalizePayoutTx.java:95 | the found entry is replaced by an AVAILABLE entry on the same key with nothing locked; without a match nothing changes |
| `BuyerAsMakerDeposit.Run` | core/src/main/java/bisq/core/trade/protocol/tasks/buyer_as_maker/BuyerAsMakerCreatesAndSignsDepositTx.java:52-125 | null trade amount fails with nothing touched; a failure never stores a prepared transaction or inputs; the builder is only called with the contract hash, the buyer deposit as maker input, the escrow formula, a key equal to the entry's, the RESERVED_FOR_TRADE entry's address as maker address and the key after it as change address; completion stores exactly the builder's transaction and inputs, as the last two steps |
| `BuyerAsMakerDeposit.ReservedAndChangeKeys` | core/src/main/java/bisq/core/trade/protocol/tasks/buyer_as_maker/BuyerAsMakerCreatesAndSignsDepositTx.java:90-93 | after the lock, the maker address is the existing RESERVED_FOR_TRADE entry's key or the next key, and the change address the key after that |
| `BuyerAsMakerDeposit.ContractHashSetFirst` | core/src/main/java/bisq/core/trade/protocol/tasks/buyer_as_maker/BuyerAsMakerCreatesAndSignsDepositTx.java:65-66 | past the amount check the trade's contract hash is `H(contractAsJson)`, set as the first step, and nothing else on the trade changes |
| `BuyerAsMakerDeposit.MissingEntryFailsAfterHash` | core/src/main/java/bisq/core/trade/protocol/tasks/buyer_as_maker/BuyerAsMakerCreatesAndSignsDepositTx.java:65-74 | a missing MULTI_SIG entry fails with the contract hash already set and nothing else changed |
| `BuyerAsMakerDeposit.LockedCoinIsBuyerDeposit` | core/src/main/java/bisq/core/trade/protocol/tasks/buyer_as_maker/BuyerAsMakerCreatesAndSignsDepositTx.java:72-77 | once found, the MULTI_SIG entry's locked coin is the buyer security deposit whatever happens later; other entries are kept |
| `BuyerAsMakerDeposit.OverflowOnlyFromAmount` | core/src/main/java/bisq/core/trade/protocol/tasks/buyer_as_maker/BuyerAsMakerCreatesAndSignsDepositTx.java:79-82 | a CoinOverflow failure happens only when the escrow sum overflows |
| `BuyerAsMakerDeposit.KeyMismatchFailsBeforeBuilder` | core/src/main/java/bisq/core/trade/protocol/tasks/buyer_as_maker/BuyerAsMakerCreatesAndSignsDepositTx.java:84-98 | a key mismatch fails without a builder call and stores nothing in the process model, while the MULTI_SIG entry keeps the buyer security deposit locked, and the RESERVED_FOR_TRADE entry and the fresh change entry persist |
| `BuyerAsMakerDeposit.ChecksPassedOnlyBuilderFails` | core/src/main/java/bisq/core/trade/protocol/tasks/buyer_as_maker/BuyerAsMakerCreatesAndSignsDepositTx.java:104-124 | when all checks pass the task completes unless the builder itself failed, which is then the last step |
| `SellerPayout.Run` | core/src/main/java/bisq/core/trade/protocol/tasks/seller/SellerSignAndFinalizePayoutTx.java:50-101 | null trade amount fails with nothing touched; the process model is only read; a failure leaves the trade and its payout transaction alone; the signer gets buyer payout = buyer deposit + amount and seller payout = seller deposit with the matching key, to the offer's TRADE_PAYOUT address; completion records the signer's transaction, then swaps the entry |
| `SellerPayout.FailureKeepsEntries` | core/src/main/java/bisq/core/trade/protocol/tasks/seller/SellerSignAndFinalizePayoutTx.java:67-99 | a failure keeps every wallet entry, MULTI_SIG included; at most one entry was added, and it is the offer's TRADE_PAYOUT entry |
| `SellerPayout.CompletionReleasesMultiSigKey` | core/src/main/java/bisq/core/trade/protocol/tasks/seller/SellerSignAndFinalizePayoutTx.java:93-97 | on completion the MULTI_SIG entry has left the wallet and its key is back as an AVAILABLE entry with nothing locked; every other entry stays, plus at most the TRADE_PAYOUT entry the task created |
| `SellerPayout.SwapAfterExtend` | core/src/main/java/bisq/core/trade/protocol/tasks/seller/SellerSignAndFinalizePayoutTx.java:95 | swapping the MULTI_SIG entry after other-context entries were added releases the original wallet's MULTI_SIG entry and keeps everything else, as a multiset |
| `SellerPayout.KeyCheckFailsBeforeSigning` | core/src/main/java/bisq/core/trade/protocol/tasks/seller/SellerSignAndFinalizePayoutTx.java:67-80 | an absent MULTI_SIG entry or a different key fails before the key-pair lookup and the signing call, with the payout transaction and MULTI_SIG lookup unchanged and a TRADE_PAYOUT entry present |
| `SellerPayout.ChecksPassedOnlyCollaboratorsFail` | core/src/main/java/bisq/core/trade/protocol/tasks/seller/SellerSignAndFinalizePayoutTx.java:78-99 | with the checks passed only the key lookup or the signer can fail; a signer failure leaves the payout transaction and the MULTI_SIG entry in place |
| `SellerPayout.PayoutsPlusFeeEqualEscrow` | core/src/main/java/bisq/core/trade/protocol/tasks/seller/SellerSignAndFinalizePayoutTx.java:63-64 | for the same offer, amount and fee, buyer payout + seller payout + fee equals the deposit task's multi-sig output (BuyerAsMakerCreatesAndSignsDepositTx.java:79-82): the payouts fall short of it by the fee |
| `SellerPayout.WorkedExampleDeposit` | core/src/main/java/bisq/core/trade/protocol/tasks/buyer_as_maker/BuyerAsMakerCreatesAndSignsDepositTx.java:79-82 | a concrete trade (deposits 5,000, fee 1,000, amount 50,000) runs the deposit task to completion and locks 61,000 |
| `SellerPayout.WorkedExamplePayout` | core/src/main/java/bisq/core/trade/protocol/tasks/seller/SellerSignAndFinalizePayoutTx.java:63-64 | the same trade runs the payout task to completion and pays 55,000 and 5,000, so with the fee the 61,000 are spent |

## Left out

- `Collections.shuffle(DEFAULT_NODES)` (ProvidersRepository.java:153): randomness; the repository takes the default nodes in whatever order the shuffle left them (`Create`'s `shuffledDefaultNodes`), and `CreateFromDefaults` holds for every permutation of the declared list `DefaultNodes`.
- Logging, Guice injection and the `BisqEnvironment` lookups, including the single-provider mainnet warning (ProvidersRepository.java:178): no effect on state.
- `JavaStrings.IsWhitespace`: follows `Character.isWhitespace` but leaves out U+180E, whose classification depends on the JDK's Unicode version.
- `JavaStrings.RemoveAll`: requires a non-empty target; every target the source uses is a non-empty literal.
- `JavaStrings.DeleteWhitespace`: its contract states which characters survive and how often, not their order (the body keeps the order).
- `Hash.getSha256Hash` is not part of this model: it is the `sha256` function of `Services`, with no property assumed; a null contract text is not modelled.
- `makerCreatesAndSignsDepositTx`, `sellerSignsAndFinalizesPayoutTx` and `getMultiSigKeyPair` are not part of this model: they are functions of `Services` with arbitrary results, a `Failure` standing for a thrown exception. How the transactions are assembled and signed, and the input/output balance inside them, is theirs.
- TradeModel.GetFreshAddressEntry: always derives a new AVAILABLE entry on the next key. The wallet service, which is not part of this model, may instead hand back an unused AVAILABLE entry it already holds; the clauses of `KeyMismatchFailsBeforeBuilder` that the wallet grew and ends in an AVAILABLE entry, and the change key of `ReservedAndChangeKeys`, rest on this choice.
- `BtcWalletService` is not part of this model. Its lookup, get-or-create, fresh-address and swap operations are modelled on an entry list and a key counter (`TradeModel`); key derivation is the `deriveKey` function of `Services`; `saveAddressEntryList` is persistence and is left out.
- `TaskRunner` and `TradeTask` are not part of this model: `runInterceptHook` and the `complete()`/`failed()` plumbing become the `Complete`/`Failed` result.
- Null counterparty data (signature, keys, inputs, addresses) and a null deposit transaction are passed through to the collaborators, which decide whether to fail; exceptions from getters such as a null offer are not modelled.
- The payouts are `buyerSecurityDeposit + tradeAmount` and `sellerSecurityDeposit`, that is the multi-sig output minus the fee (`PayoutsPlusFeeEqualEscrow`); the fee of the payout transaction itself is left to the signer.
- The maker input is the buyer security deposit: the task subtracts nothing from it and passes it, even a negative one, to the builder unchecked; overflow of `Coin.add` is the only arithmetic failure modelled.
- BtcNodesSetupPreferencesTest.java and BitcoinCash.java are not part of this model: the first tests a class whose code is not available, the second only wires a validator and network parameters.
