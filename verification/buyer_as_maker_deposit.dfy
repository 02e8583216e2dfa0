/** The protocol task in which the buyer, as maker, commits to the contract,
    locks its security deposit in the multi-sig entry and has the deposit
    transaction built and signed. */
module BuyerAsMakerDeposit {
  import opened Wrappers
  import opened TradeModel

  /** The only deposit-builder calls the task may make: the contract hash of
      the agreed text, the buyer security deposit as maker input, the escrow
      amount formula, my key equal to the MULTI_SIG entry's key, the
      RESERVED_FOR_TRADE entry's address as maker address, the key after it
      as change address, and the counterparty's data passed through
      unchanged. */
  predicate AllowedDepositRequest(s: TaskState, sv: Services, q: DepositRequest)
  {
    var offer := s.trade.offer;
    var peer := s.processModel.tradingPeer;
    && s.trade.tradeAmount.Some?
    && MultiSigEntry(s).Some?
    && q.makerIsBuyer
    && q.contractHash == sv.sha256(s.trade.contractAsJson)
    && q.makerInputAmount == offer.buyerSecurityDeposit
    && DepositOutputAmount(offer.buyerSecurityDeposit, s.trade.txFee, offer.sellerSecurityDeposit, s.trade.tradeAmount.value)
       == Some(q.msOutputAmount)
    && q.buyerPubKey == s.processModel.myMultiSigPubKey
    && q.buyerPubKey == s.wallet.entries[MultiSigEntry(s).value].pubKey
    && q.sellerPubKey == peer.multiSigPubKey
    && q.arbitratorBtcPubKey == s.trade.arbitratorBtcPubKey
    && q.takerRawTransactionInputs == peer.rawTransactionInputs
    && q.takerChangeOutputValue == peer.changeOutputValue
    && q.takerChangeAddressString == peer.changeOutputAddress
    && q.makerAddress == Address(EntryKey(s.wallet, s.processModel.offerId, ReservedForTrade))
    && q.makerChangeAddress
       == Address(s.wallet.nextKeyIndex + if FindEntry(s.wallet, s.processModel.offerId, ReservedForTrade).Some? then 0 else 1)
  }

  /** The escrow amount the task computes for `s`. */
  function MsOutputAmount(s: TaskState): Option<Coin>
    requires s.trade.tradeAmount.Some?
  {
    DepositOutputAmount(s.trade.offer.buyerSecurityDeposit, s.trade.txFee,
                        s.trade.offer.sellerSecurityDeposit, s.trade.tradeAmount.value)
  }

  /** `BuyerAsMakerCreatesAndSignsDepositTx.run`. */
  function Run(s: TaskState, sv: Services): (r: TaskResult)
    // A null trade amount fails before anything is touched.
    ensures s.trade.tradeAmount.None? ==> r == Failed(s, [], NullTradeAmount)
    // A failure stores neither a prepared deposit transaction nor raw inputs.
    ensures r.Failed? ==> r.state.processModel == s.processModel
    // The builder is only ever called with the allowed arguments.
    ensures forall k :: 0 <= k < |r.trace| && r.trace[k].CreateDeposit? ==>
      AllowedDepositRequest(s, sv, r.trace[k].deposit)
    // Completion comes last, after the builder's transaction and inputs are stored.
    ensures r.Complete? ==>
      && |r.trace| >= 3 && r.trace[|r.trace| - 3].CreateDeposit?
      && r.trace[|r.trace| - 2..] == [SetPreparedDepositTx, SetRawTransactionInputs]
      && var built := sv.makerCreatesAndSignsDepositTx(r.trace[|r.trace| - 3].deposit);
      && built.Success?
      && r.state.processModel == s.processModel.(preparedDepositTx := Some(built.value.depositTransaction),
                                                 rawTransactionInputs := Some(built.value.rawMakerInputs))
  {
    if s.trade.tradeAmount.None? then Failed(s, [], NullTradeAmount)
    else
      var tradeAmount := s.trade.tradeAmount.value;
      var id := s.processModel.offerId;
      var peer := s.processModel.tradingPeer;
      var offer := s.trade.offer;
      var contractHash := sv.sha256(s.trade.contractAsJson);
      var s1 := s.(trade := s.trade.(contractHash := Some(contractHash)));
      var t1 := [SetContractHash(contractHash)];
      var makerInputAmount := offer.buyerSecurityDeposit;
      match FindEntry(s1.wallet, id, MultiSig)
      case None => Failed(s1, t1, MultiSigEntryMissing)
      case Some(i) =>
        var entry := s1.wallet.entries[i];
        var s2 := s1.(wallet := SetCoinLocked(s1.wallet, i, makerInputAmount));
        var t2 := t1 + [LockCoinInMultiSig(makerInputAmount)];
        match DepositOutputAmount(makerInputAmount, s.trade.txFee, offer.sellerSecurityDeposit, tradeAmount)
        case None => Failed(s2, t2, CoinOverflow)
        case Some(msOutputAmount) =>
          ReservedAndChangeKeys(s1.wallet, i, makerInputAmount, id, sv.deriveKey);
          var reserved := GetOrCreateAddressEntry(s2.wallet, id, ReservedForTrade, sv.deriveKey);
          var change := GetFreshAddressEntry(reserved.0, sv.deriveKey);
          var s3 := s2.(wallet := change.0);
          var t3 := t2 + [GetOrCreateEntry(ReservedForTrade), GetFreshEntry];
          var buyerPubKey := s.processModel.myMultiSigPubKey;
          if buyerPubKey != entry.pubKey then Failed(s3, t3, MultiSigPubKeyMismatch)
          else
            var request := DepositRequest(
              true, contractHash, makerInputAmount, msOutputAmount,
              peer.rawTransactionInputs, peer.changeOutputValue, peer.changeOutputAddress,
              Address(reserved.1.keyIndex), Address(change.1.keyIndex),
              buyerPubKey, peer.multiSigPubKey, s.trade.arbitratorBtcPubKey);
            var t4 := t3 + [CreateDeposit(request)];
            match sv.makerCreatesAndSignsDepositTx(request)
            case Failure(e) => Failed(s3, t4, CollaboratorFailed(e))
            case Success(result) =>
              var pm := s3.processModel.(preparedDepositTx := Some(result.depositTransaction),
                                         rawTransactionInputs := Some(result.rawMakerInputs));
              Complete(s3.(processModel := pm), t4 + [SetPreparedDepositTx, SetRawTransactionInputs])
  }

  /** Locking a coin does not move keys: the RESERVED_FOR_TRADE address is
      the entry's existing key or the next one, and the fresh change address
      takes the key after that. */
  lemma ReservedAndChangeKeys(w: Wallet, i: nat, amount: Coin, id: string, deriveKey: nat -> PubKey)
    requires i < |w.entries|
    ensures var reserved := GetOrCreateAddressEntry(SetCoinLocked(w, i, amount), id, ReservedForTrade, deriveKey);
      && reserved.1.keyIndex == EntryKey(w, id, ReservedForTrade)
      && GetFreshAddressEntry(reserved.0, deriveKey).1.keyIndex
         == w.nextKeyIndex + if FindEntry(w, id, ReservedForTrade).Some? then 0 else 1
  {
    SetCoinLockedKeepsLookups(w, i, amount, id, ReservedForTrade);
  }

  /** Past the amount check the trade carries the hash of its contract text,
      set as the first step, and nothing else on the trade changes. */
  lemma ContractHashSetFirst(s: TaskState, sv: Services)
    requires s.trade.tradeAmount.Some?
    ensures var r := Run(s, sv);
      && r.state.trade == s.trade.(contractHash := Some(sv.sha256(s.trade.contractAsJson)))
      && |r.trace| > 0 && r.trace[0] == SetContractHash(sv.sha256(s.trade.contractAsJson))
  {
  }

  /** Without a MULTI_SIG entry the task fails with only the hash set. */
  lemma MissingEntryFailsAfterHash(s: TaskState, sv: Services)
    requires s.trade.tradeAmount.Some? && MultiSigEntry(s).None?
    ensures var h := sv.sha256(s.trade.contractAsJson);
      Run(s, sv) == Failed(s.(trade := s.trade.(contractHash := Some(h))), [SetContractHash(h)], MultiSigEntryMissing)
  {
  }

  /** Once the entry is found its locked coin is the buyer security deposit,
      whatever happens later, and the other entries are kept. */
  lemma LockedCoinIsBuyerDeposit(s: TaskState, sv: Services)
    requires s.trade.tradeAmount.Some? && MultiSigEntry(s).Some?
    ensures var r, i := Run(s, sv), MultiSigEntry(s).value;
      && |s.wallet.entries| <= |r.state.wallet.entries|
      && r.state.wallet.entries[i] == s.wallet.entries[i].(coinLockedInMultiSig := s.trade.offer.buyerSecurityDeposit)
      && (forall k :: 0 <= k < |s.wallet.entries| && k != i ==> r.state.wallet.entries[k] == s.wallet.entries[k])
  {
  }

  /** `Coin.add` overflowing is the only way to fail with CoinOverflow. */
  lemma OverflowOnlyFromAmount(s: TaskState, sv: Services)
    requires Run(s, sv).Failed? && Run(s, sv).cause == CoinOverflow
    ensures s.trade.tradeAmount.Some? && MsOutputAmount(s).None?
  {
  }

  /** A key mismatch fails without calling the builder, after the locked
      coin, the RESERVED_FOR_TRADE entry and a fresh change address exist. */
  lemma KeyMismatchFailsBeforeBuilder(s: TaskState, sv: Services)
    requires s.trade.tradeAmount.Some? && MultiSigEntry(s).Some? && MsOutputAmount(s).Some?
    requires s.processModel.myMultiSigPubKey != s.wallet.entries[MultiSigEntry(s).value].pubKey
    ensures var r := Run(s, sv);
      && r.Failed? && r.cause == MultiSigPubKeyMismatch
      && (forall k :: 0 <= k < |r.trace| ==> !r.trace[k].CreateDeposit?)
      && r.state.processModel == s.processModel
      && r.state.wallet.entries[MultiSigEntry(s).value].coinLockedInMultiSig == s.trade.offer.buyerSecurityDeposit
      && FindEntry(r.state.wallet, s.processModel.offerId, ReservedForTrade).Some?
      && |r.state.wallet.entries| > |s.wallet.entries|
      && r.state.wallet.entries[|r.state.wallet.entries| - 1].context == Available
  {
    var id := s.processModel.offerId;
    var locked := SetCoinLocked(s.wallet, MultiSigEntry(s).value, s.trade.offer.buyerSecurityDeposit);
    var reserved := GetOrCreateAddressEntry(locked, id, ReservedForTrade, sv.deriveKey);
    GetFreshKeepsLookups(reserved.0, sv.deriveKey, id, ReservedForTrade);
    LockedCoinIsBuyerDeposit(s, sv);
  }

  /** When every check passes, only the builder can still make the task fail. */
  lemma ChecksPassedOnlyBuilderFails(s: TaskState, sv: Services)
    requires s.trade.tradeAmount.Some? && MultiSigEntry(s).Some? && MsOutputAmount(s).Some?
    requires s.processModel.myMultiSigPubKey == s.wallet.entries[MultiSigEntry(s).value].pubKey
    ensures var r := Run(s, sv);
      r.Complete? || (&& r.cause.CollaboratorFailed? && r.trace[|r.trace| - 1].CreateDeposit?
                      && sv.makerCreatesAndSignsDepositTx(r.trace[|r.trace| - 1].deposit).Failure?)
  {
  }
}
