/** The protocol task in which the seller co-signs the payout transaction,
    records it on the trade and releases its multi-sig entry. */
module SellerPayout {
  import opened Wrappers
  import opened TradeModel
  import BuyerAsMakerDeposit

  /** Whether the combined check passes: the MULTI_SIG entry exists and its
      key is my multi-sig key. */
  predicate MultiSigKeyMatches(s: TaskState)
  {
    MultiSigEntry(s).Some? && s.processModel.myMultiSigPubKey == s.wallet.entries[MultiSigEntry(s).value].pubKey
  }

  /** The buyer's payout: buyer security deposit + trade amount. */
  function BuyerPayoutAmount(s: TaskState): Option<Coin>
    requires s.trade.tradeAmount.Some?
  {
    CoinAdd(s.trade.offer.buyerSecurityDeposit, s.trade.tradeAmount.value)
  }

  /** The only signing calls the task may make: the buyer gets its deposit
      plus the trade amount, the seller its deposit, signed with the key pair
      of my multi-sig key, which the MULTI_SIG entry carries, over the
      recorded deposit transaction and the counterparty's signature, paying
      the seller to the offer's TRADE_PAYOUT address. */
  predicate AllowedPayoutRequest(s: TaskState, sv: Services, q: PayoutRequest)
  {
    var offer := s.trade.offer;
    var peer := s.processModel.tradingPeer;
    var myKey := s.processModel.myMultiSigPubKey;
    && s.trade.tradeAmount.Some?
    && MultiSigKeyMatches(s)
    && q.buyerPayoutAmount == offer.buyerSecurityDeposit + s.trade.tradeAmount.value
    && q.sellerPayoutAmount == offer.sellerSecurityDeposit
    && q.sellerMultiSigPubKey == myKey
    && sv.getMultiSigKeyPair(s.processModel.offerId, myKey) == Success(q.multiSigKeyPair)
    && q.depositTx == s.trade.depositTx
    && q.buyerSignature == peer.signature
    && q.buyerMultiSigPubKey == peer.multiSigPubKey
    && q.buyerPayoutAddressString == peer.payoutAddressString
    && q.arbitratorBtcPubKey == s.trade.arbitratorBtcPubKey
    && q.sellerPayoutAddress == Address(EntryKey(s.wallet, s.processModel.offerId, TradePayout))
  }

  /** `SellerSignAndFinalizePayoutTx.run`. */
  function Run(s: TaskState, sv: Services): (r: TaskResult)
    // A null trade amount fails before anything is touched.
    ensures s.trade.tradeAmount.None? ==> r == Failed(s, [], NullTradeAmount)
    // The process model is only read.
    ensures r.state.processModel == s.processModel
    // A failure leaves the trade, and so its payout transaction, as it was.
    ensures r.Failed? ==> r.state.trade == s.trade
    // The signer is only ever called with the allowed arguments.
    ensures forall k :: 0 <= k < |r.trace| && r.trace[k].SignPayout? ==>
      AllowedPayoutRequest(s, sv, r.trace[k].payout)
    // Completion comes last: the signed payout transaction is recorded, then
    // the MULTI_SIG entry's key goes back to the available pool.
    ensures r.Complete? ==>
      && |r.trace| >= 3 && r.trace[|r.trace| - 3].SignPayout?
      && r.trace[|r.trace| - 2..] == [SetPayoutTx, SwapMultiSigToAvailable]
      && var signed := sv.sellerSignsAndFinalizesPayoutTx(r.trace[|r.trace| - 3].payout);
      && signed.Success?
      && r.state.trade == s.trade.(payoutTx := Some(signed.value))
  {
    if s.trade.tradeAmount.None? then Failed(s, [], NullTradeAmount)
    else
      var offer := s.trade.offer;
      var peer := s.processModel.tradingPeer;
      var id := s.processModel.offerId;
      match CoinAdd(offer.buyerSecurityDeposit, s.trade.tradeAmount.value)
      case None => Failed(s, [], CoinOverflow)
      case Some(buyerPayoutAmount) =>
        var sellerPayoutAmount := offer.sellerSecurityDeposit;
        var payoutEntry := GetOrCreateAddressEntry(s.wallet, id, TradePayout, sv.deriveKey);
        var s1 := s.(wallet := payoutEntry.0);
        var t1 := [GetOrCreateEntry(TradePayout)];
        var sellerMultiSigPubKey := s.processModel.myMultiSigPubKey;
        var multiSig := FindEntry(s1.wallet, id, MultiSig);
        GetOrCreateKeepsOtherLookups(s.wallet, id, TradePayout, sv.deriveKey, MultiSig);
        if !(multiSig.Some? && sellerMultiSigPubKey == s1.wallet.entries[multiSig.value].pubKey) then
          Failed(s1, t1, MultiSigPubKeyMismatch)
        else
          var t2 := t1 + [GetMultiSigKeyPair];
          match sv.getMultiSigKeyPair(id, sellerMultiSigPubKey)
          case Failure(e) => Failed(s1, t2, CollaboratorFailed(e))
          case Success(multiSigKeyPair) =>
            var request := PayoutRequest(
              s.trade.depositTx, peer.signature, buyerPayoutAmount, sellerPayoutAmount,
              peer.payoutAddressString, Address(payoutEntry.1.keyIndex), multiSigKeyPair,
              peer.multiSigPubKey, sellerMultiSigPubKey, s.trade.arbitratorBtcPubKey);
            var t3 := t2 + [SignPayout(request)];
            match sv.sellerSignsAndFinalizesPayoutTx(request)
            case Failure(e) => Failed(s1, t3, CollaboratorFailed(e))
            case Success(transaction) =>
              var s2 := s1.(trade := s1.trade.(payoutTx := Some(transaction)));
              var s3 := s2.(wallet := SwapToAvailable(s2.wallet, id, MultiSig));
              Complete(s3, t3 + [SetPayoutTx, SwapMultiSigToAvailable])
  }

  /** A failure keeps every wallet entry, the MULTI_SIG one included; at
      most a TRADE_PAYOUT entry has been added. */
  lemma FailureKeepsEntries(s: TaskState, sv: Services)
    requires Run(s, sv).Failed?
    ensures var r := Run(s, sv);
      && |s.wallet.entries| <= |r.state.wallet.entries| <= |s.wallet.entries| + 1
      && r.state.wallet.entries[..|s.wallet.entries|] == s.wallet.entries
      && forall k :: |s.wallet.entries| <= k < |r.state.wallet.entries| ==>
           Matches(r.state.wallet.entries[k], s.processModel.offerId, TradePayout)
  {
    if s.trade.tradeAmount.Some? {
      var w := GetOrCreateAddressEntry(s.wallet, s.processModel.offerId, TradePayout, sv.deriveKey).0;
      assert w.entries[..|s.wallet.entries|] == s.wallet.entries;
    }
  }

  /** On completion the MULTI_SIG entry has left the wallet and its key is
      back as an AVAILABLE entry with nothing locked; every other entry stays,
      and at most a TRADE_PAYOUT entry for the offer has been added. */
  lemma CompletionReleasesMultiSigKey(s: TaskState, sv: Services)
    requires Run(s, sv).Complete?
    ensures var r := Run(s, sv);
      var added := GetOrCreateAddressEntry(s.wallet, s.processModel.offerId, TradePayout, sv.deriveKey).0.entries[|s.wallet.entries|..];
      && MultiSigEntry(s).Some?
      && var ms := s.wallet.entries[MultiSigEntry(s).value];
      && |added| <= 1
      && (forall k :: 0 <= k < |added| ==> Matches(added[k], s.processModel.offerId, TradePayout))
      && |r.state.wallet.entries| == |s.wallet.entries| + |added|
      && r.state.wallet.entries[|r.state.wallet.entries| - 1] == Released(ms)
      && multiset(r.state.wallet.entries)
         == multiset(s.wallet.entries) - multiset{ms} + multiset{Released(ms)} + multiset(added)
  {
    var id := s.processModel.offerId;
    var w := GetOrCreateAddressEntry(s.wallet, id, TradePayout, sv.deriveKey).0;
    assert w.entries[..|s.wallet.entries|] == s.wallet.entries;
    assert Run(s, sv).state.wallet == SwapToAvailable(w, id, MultiSig);
    SwapAfterExtend(s.wallet, w, id);
  }

  /** Releasing the MULTI_SIG entry of a wallet that only grew by entries of
      other contexts releases the original wallet's entry. */
  lemma SwapAfterExtend(w0: Wallet, w: Wallet, id: string)
    requires FindEntry(w0, id, MultiSig).Some?
    requires |w0.entries| <= |w.entries| && w.entries[..|w0.entries|] == w0.entries
    requires forall k :: |w0.entries| <= k < |w.entries| ==> !Matches(w.entries[k], id, MultiSig)
    ensures var ms, added := w0.entries[FindEntry(w0, id, MultiSig).value], w.entries[|w0.entries|..];
      && |SwapToAvailable(w, id, MultiSig).entries| == |w.entries|
      && SwapToAvailable(w, id, MultiSig).entries[|w.entries| - 1] == Released(ms)
      && multiset(SwapToAvailable(w, id, MultiSig).entries)
         == multiset(w0.entries) - multiset{ms} + multiset{Released(ms)} + multiset(added)
  {
    FindEntryExtend(w0, w, id, MultiSig);
    var i := FindEntry(w0, id, MultiSig).value;
    assert w.entries[i] == w0.entries[i];
    assert w.entries == w0.entries + w.entries[|w0.entries|..];
  }

  /** If the MULTI_SIG entry is absent or carries another key, the task fails
      before the key-pair lookup and the signing call, leaving the payout
      transaction and the MULTI_SIG entry alone; only the TRADE_PAYOUT entry
      may have been created. */
  lemma KeyCheckFailsBeforeSigning(s: TaskState, sv: Services)
    requires s.trade.tradeAmount.Some? && BuyerPayoutAmount(s).Some?
    requires !MultiSigKeyMatches(s)
    ensures var r := Run(s, sv);
      && r.Failed? && r.cause == MultiSigPubKeyMismatch
      && r.trace == [GetOrCreateEntry(TradePayout)]
      && (forall k :: 0 <= k < |r.trace| ==> !r.trace[k].GetMultiSigKeyPair? && !r.trace[k].SignPayout?)
      && r.state.trade.payoutTx == s.trade.payoutTx
      && FindEntry(r.state.wallet, s.processModel.offerId, MultiSig) == MultiSigEntry(s)
      && FindEntry(r.state.wallet, s.processModel.offerId, TradePayout).Some?
  {
    GetOrCreateKeepsOtherLookups(s.wallet, s.processModel.offerId, TradePayout, sv.deriveKey, MultiSig);
  }

  /** When the combined check passes, only the key lookup or the signer can
      still make the task fail, and a signer failure leaves the payout
      transaction unset and the MULTI_SIG entry in place. */
  lemma ChecksPassedOnlyCollaboratorsFail(s: TaskState, sv: Services)
    requires s.trade.tradeAmount.Some? && BuyerPayoutAmount(s).Some? && MultiSigKeyMatches(s)
    ensures var r := Run(s, sv);
      || r.Complete?
      || (&& r.cause.CollaboratorFailed?
          && r.trace[|r.trace| - 1] == GetMultiSigKeyPair
          && sv.getMultiSigKeyPair(s.processModel.offerId, s.processModel.myMultiSigPubKey).Failure?)
      || (&& r.cause.CollaboratorFailed?
          && r.trace[|r.trace| - 1].SignPayout?
          && sv.sellerSignsAndFinalizesPayoutTx(r.trace[|r.trace| - 1].payout).Failure?
          && r.state.trade.payoutTx == s.trade.payoutTx
          && FindEntry(r.state.wallet, s.processModel.offerId, MultiSig) == MultiSigEntry(s))
  {
    GetOrCreateKeepsOtherLookups(s.wallet, s.processModel.offerId, TradePayout, sv.deriveKey, MultiSig);
  }

  /** The escrow balances across the two tasks: for the same offer, trade
      amount and fee, the two payouts plus the fee make up exactly the value
      the deposit transaction locked, so the payouts alone fall short of it
      by the fee the payout transaction pays. */
  lemma PayoutsPlusFeeEqualEscrow(d: TaskState, dsv: Services, p: TaskState, psv: Services, i: nat, j: nat)
    requires p.trade.offer.buyerSecurityDeposit == d.trade.offer.buyerSecurityDeposit
    requires p.trade.offer.sellerSecurityDeposit == d.trade.offer.sellerSecurityDeposit
    requires p.trade.tradeAmount == d.trade.tradeAmount && p.trade.txFee == d.trade.txFee
    requires i < |BuyerAsMakerDeposit.Run(d, dsv).trace| && BuyerAsMakerDeposit.Run(d, dsv).trace[i].CreateDeposit?
    requires j < |Run(p, psv).trace| && Run(p, psv).trace[j].SignPayout?
    ensures var deposit := BuyerAsMakerDeposit.Run(d, dsv).trace[i].deposit;
      var payout := Run(p, psv).trace[j].payout;
      && payout.buyerPayoutAmount + payout.sellerPayoutAmount + d.trade.txFee == deposit.msOutputAmount
      && payout.buyerPayoutAmount + payout.sellerPayoutAmount == deposit.msOutputAmount - d.trade.txFee
  {
  }

  /** A buyer-as-maker trade with deposits of 5,000, a fee of 1,000 and a
      trade amount of 50,000; the wallet already holds the offer's MULTI_SIG
      entry on my multi-sig key. */
  function ExampleState(): TaskState
  {
    var peer := TradingPeer([2], [], 0, "change", [3], "buyer");
    var trade := Trade(Offer("offer", 5_000, 5_000), Some(50_000), 1_000, "{}", None, [4], Some([5]), None);
    var multiSig := AddressEntry(Some("offer"), MultiSig, 0, [1], 0);
    TaskState(trade, ProcessModel("offer", peer, [1], None, None), Wallet([multiSig], 1))
  }

  /** Collaborators that all succeed. */
  function ExampleServices(): Services
  {
    Services(
      (json: string) => [6],
      (n: nat) => [7],
      (q: DepositRequest) => Success(PreparedDeposit([8], [])),
      (id: string, key: PubKey) => Success(KeyPair(key, [9])),
      (q: PayoutRequest) => Success([10]))
  }

  /** A worked example, deposit side: the task completes and locks 61,000
      in the multi-sig output. */
  lemma WorkedExampleDeposit()
    ensures var d := BuyerAsMakerDeposit.Run(ExampleState(), ExampleServices());
      && d.Complete? && |d.trace| == 7 && d.trace[4].CreateDeposit?
      && d.trace[4].deposit.msOutputAmount == 61_000
  {
    var s := ExampleState();
    assert MultiSigEntry(s) == Some(0);
    assert DepositOutputAmount(5_000, 1_000, 5_000, 50_000) == Some(61_000);
  }

  /** The same trade, payout side: the task completes and pays 55,000 to the
      buyer and 5,000 to the seller, so with the fee of 1,000 the 61,000 the
      deposit locked are spent in full. */
  lemma WorkedExamplePayout()
    ensures var p := Run(ExampleState(), ExampleServices());
      && p.Complete? && |p.trace| == 5 && p.trace[2].SignPayout?
      && p.trace[2].payout.buyerPayoutAmount == 55_000
      && p.trace[2].payout.sellerPayoutAmount == 5_000
  {
    var s := ExampleState();
    assert MultiSigEntry(s) == Some(0);
    assert FindEntry(s.wallet, "offer", TradePayout).None?;
  }
}
