/** The state the two protocol tasks read and write: amounts, the wallet's
    address entries, the trade, the per-session process model, and the
    collaborators the tasks call into. */
module TradeModel {
  import opened Wrappers

  const MinLong: int := -0x8000_0000_0000_0000
  const MaxLong: int := 0x7FFF_FFFF_FFFF_FFFF

  /** A bitcoincashj `Coin`: a number of satoshis held in a signed 64-bit long. */
  type Coin = v: int | MinLong <= v <= MaxLong

  type Bytes = seq<bv8>
  type PubKey = Bytes
  type Hash = Bytes
  /** A serialized transaction. */
  type Tx = Bytes

  /** `Coin.add`: an overflowing sum throws instead of wrapping. */
  function CoinAdd(a: Coin, b: Coin): (r: Option<Coin>)
    ensures r.Some? <==> MinLong <= a + b <= MaxLong
    ensures r.Some? ==> r.value == a + b
  {
    if MinLong <= a + b <= MaxLong then Some(a + b) else None
  }

  /** The value locked in the 2-of-3 output of the deposit transaction:
      maker input (the buyer security deposit) + fee + seller security
      deposit + trade amount, added left to right. */
  function DepositOutputAmount(makerInput: Coin, txFee: Coin, sellerDeposit: Coin, tradeAmount: Coin): (r: Option<Coin>)
    ensures r.Some? ==> r.value == makerInput + txFee + sellerDeposit + tradeAmount
    // Each partial sum must fit: an overflow part-way fails even when the
    // total would fit again.
    ensures r.Some? <==>
      && MinLong <= makerInput + txFee <= MaxLong
      && MinLong <= makerInput + txFee + sellerDeposit <= MaxLong
      && MinLong <= makerInput + txFee + sellerDeposit + tradeAmount <= MaxLong
  {
    match CoinAdd(makerInput, txFee)
    case None => None
    case Some(a) =>
      match CoinAdd(a, sellerDeposit)
      case None => None
      case Some(b) => CoinAdd(b, tradeAmount)
  }

  /** The sum is checked after every addition, so a maker input of MaxLong
      with a fee of 1 fails even though the seller deposit of -1 would bring
      the total, MaxLong + 1 - 1 + 0 = MaxLong, back in range. */
  lemma OverflowPartWay()
    ensures DepositOutputAmount(MaxLong, 1, -1, 0).None?
  {
  }

  /** The address-entry contexts of the wallet. */
  datatype Context = Arbitrator | Available | OfferFunding | ReservedForTrade | MultiSig | TradePayout

  /** A wallet key bound to a context and, for trade contexts, an offer id.
      Keys are named by their position in the wallet's key chain. */
  datatype AddressEntry = AddressEntry(
    offerId: Option<string>,
    context: Context,
    keyIndex: nat,
    pubKey: PubKey,
    coinLockedInMultiSig: Coin)

  /** The address of an entry, identified by the key behind it. */
  datatype Address = Address(keyIndex: nat)

  datatype Wallet = Wallet(entries: seq<AddressEntry>, nextKeyIndex: nat)

  predicate Matches(e: AddressEntry, id: string, ctx: Context)
  {
    e.offerId == Some(id) && e.context == ctx
  }

  function FindEntryFrom(entries: seq<AddressEntry>, id: string, ctx: Context, from: nat): (r: Option<nat>)
    requires from <= |entries|
    ensures r.Some? ==>
      && from <= r.value < |entries| && Matches(entries[r.value], id, ctx)
      && forall k :: from <= k < r.value ==> !Matches(entries[k], id, ctx)
    ensures r.None? ==> forall k :: from <= k < |entries| ==> !Matches(entries[k], id, ctx)
    decreases |entries| - from
  {
    if from == |entries| then None
    else if Matches(entries[from], id, ctx) then Some(from)
    else FindEntryFrom(entries, id, ctx, from + 1)
  }

  /** `getAddressEntry(id, ctx)`: the position of the first entry bound to
      this offer id and context, if any. */
  function FindEntry(w: Wallet, id: string, ctx: Context): (r: Option<nat>)
    ensures r.Some? ==>
      && r.value < |w.entries| && Matches(w.entries[r.value], id, ctx)
      && forall k :: 0 <= k < r.value ==> !Matches(w.entries[k], id, ctx)
    ensures r.None? ==> forall k :: 0 <= k < |w.entries| ==> !Matches(w.entries[k], id, ctx)
  {
    FindEntryFrom(w.entries, id, ctx, 0)
  }

  /** Appending entries that are not bound to (id, ctx) does not change
      which entry the lookup finds. */
  lemma FindEntryExtend(w: Wallet, w': Wallet, id: string, ctx: Context)
    requires |w.entries| <= |w'.entries| && w'.entries[..|w.entries|] == w.entries
    requires forall k :: |w.entries| <= k < |w'.entries| ==> !Matches(w'.entries[k], id, ctx)
    ensures FindEntry(w', id, ctx) == FindEntry(w, id, ctx)
  {
    var a, b := FindEntry(w, id, ctx), FindEntry(w', id, ctx);
    if a.Some? {
      assert w'.entries[a.value] == w.entries[a.value];
      assert b.Some? && b.value <= a.value;
      assert w'.entries[b.value] == w.entries[b.value];
    }
  }

  /** The key of the entry bound to (id, ctx), or, when there is none, the
      next key of the chain, on which such an entry would be created. */
  function EntryKey(w: Wallet, id: string, ctx: Context): nat
  {
    match FindEntry(w, id, ctx)
    case Some(i) => w.entries[i].keyIndex
    case None => w.nextKeyIndex
  }

  /** A new entry on the next key of the chain. */
  function NewEntry(w: Wallet, offerId: Option<string>, ctx: Context, deriveKey: nat -> PubKey): AddressEntry
  {
    AddressEntry(offerId, ctx, w.nextKeyIndex, deriveKey(w.nextKeyIndex), 0)
  }

  /** `getOrCreateAddressEntry(id, ctx)`: the existing entry, or a new one
      on a fresh key, appended to the wallet. */
  function GetOrCreateAddressEntry(w: Wallet, id: string, ctx: Context, deriveKey: nat -> PubKey): (r: (Wallet, AddressEntry))
    ensures Matches(r.1, id, ctx)
    ensures FindEntry(w, id, ctx).Some? ==> r.0 == w && r.1 == w.entries[FindEntry(w, id, ctx).value]
    ensures FindEntry(w, id, ctx).None? ==>
      && r.0.entries == w.entries + [r.1]
      && r.1.keyIndex == w.nextKeyIndex && r.0.nextKeyIndex == w.nextKeyIndex + 1
      && r.1.coinLockedInMultiSig == 0
    ensures FindEntry(r.0, id, ctx).Some?
  {
    match FindEntry(w, id, ctx)
    case Some(i) => (w, w.entries[i])
    case None =>
      var e := NewEntry(w, Some(id), ctx, deriveKey);
      var w' := Wallet(w.entries + [e], w.nextKeyIndex + 1);
      assert w'.entries[|w.entries|] == e;
      (w', e)
  }

  /** Getting or creating an entry for one context leaves the lookups of
      every other context as they were. */
  lemma GetOrCreateKeepsOtherLookups(w: Wallet, id: string, ctx: Context, deriveKey: nat -> PubKey, c: Context)
    requires c != ctx
    ensures FindEntry(GetOrCreateAddressEntry(w, id, ctx, deriveKey).0, id, c) == FindEntry(w, id, c)
  {
    var w' := GetOrCreateAddressEntry(w, id, ctx, deriveKey).0;
    assert w'.entries[..|w.entries|] == w.entries;
    FindEntryExtend(w, w', id, c);
  }

  /** `getFreshAddressEntry()`, modelled as always deriving a new AVAILABLE
      entry on the next key of the chain; the wallet service's reuse of an
      unused AVAILABLE entry is not modelled. */
  function GetFreshAddressEntry(w: Wallet, deriveKey: nat -> PubKey): (r: (Wallet, AddressEntry))
    ensures r.1.context == Available && r.1.offerId.None? && r.1.keyIndex == w.nextKeyIndex
    ensures r.0.entries == w.entries + [r.1] && r.0.nextKeyIndex == w.nextKeyIndex + 1
  {
    var e := NewEntry(w, None, Available, deriveKey);
    (Wallet(w.entries + [e], w.nextKeyIndex + 1), e)
  }

  /** A fresh entry is bound to no offer, so no lookup changes. */
  lemma GetFreshKeepsLookups(w: Wallet, deriveKey: nat -> PubKey, id: string, c: Context)
    ensures FindEntry(GetFreshAddressEntry(w, deriveKey).0, id, c) == FindEntry(w, id, c)
  {
    var w' := GetFreshAddressEntry(w, deriveKey).0;
    assert w'.entries[..|w.entries|] == w.entries;
    FindEntryExtend(w, w', id, c);
  }

  /** `setCoinLockedInMultiSig` on the entry at position i. */
  function SetCoinLocked(w: Wallet, i: nat, amount: Coin): (r: Wallet)
    requires i < |w.entries|
    ensures |r.entries| == |w.entries| && r.nextKeyIndex == w.nextKeyIndex
    ensures r.entries[i] == w.entries[i].(coinLockedInMultiSig := amount)
    ensures forall k :: 0 <= k < |w.entries| && k != i ==> r.entries[k] == w.entries[k]
  {
    w.(entries := w.entries[i := w.entries[i].(coinLockedInMultiSig := amount)])
  }

  /** Locking a coin changes no entry's offer id or context, so no lookup
      changes. */
  lemma SetCoinLockedKeepsLookups(w: Wallet, i: nat, amount: Coin, id: string, c: Context)
    requires i < |w.entries|
    ensures FindEntry(SetCoinLocked(w, i, amount), id, c) == FindEntry(w, id, c)
  {
    var r := SetCoinLocked(w, i, amount);
    assert forall k :: 0 <= k < |w.entries| ==> (Matches(r.entries[k], id, c) <==> Matches(w.entries[k], id, c));
  }

  /** The entry that replaces a trade entry once its funds have moved on:
      same key, AVAILABLE, no offer id, nothing locked. */
  function Released(e: AddressEntry): AddressEntry
  {
    AddressEntry(None, Available, e.keyIndex, e.pubKey, 0)
  }

  /** `swapTradeEntryToAvailableEntry(id, ctx)`: the found entry leaves the
      list and its key comes back as an AVAILABLE entry; nothing happens when
      there is no such entry. */
  function SwapToAvailable(w: Wallet, id: string, ctx: Context): (r: Wallet)
    ensures FindEntry(w, id, ctx).None? ==> r == w
    ensures FindEntry(w, id, ctx).Some? ==>
      var i := FindEntry(w, id, ctx).value;
      && r.nextKeyIndex == w.nextKeyIndex
      && |r.entries| == |w.entries|
      && r.entries[|r.entries| - 1] == Released(w.entries[i])
      && multiset(r.entries) == multiset(w.entries) - multiset{w.entries[i]} + multiset{Released(w.entries[i])}
  {
    match FindEntry(w, id, ctx)
    case None => w
    case Some(i) =>
      assert w.entries == w.entries[..i] + [w.entries[i]] + w.entries[i + 1..];
      w.(entries := w.entries[..i] + w.entries[i + 1..] + [Released(w.entries[i])])
  }

  /** The negotiated terms the tasks read. */
  datatype Offer = Offer(id: string, buyerSecurityDeposit: Coin, sellerSecurityDeposit: Coin)

  /** An input the taker contributes to the deposit transaction. */
  datatype RawTransactionInput = RawTransactionInput(index: int, parentTransaction: Bytes, value: int)

  /** What the counterparty has sent so far. */
  datatype TradingPeer = TradingPeer(
    multiSigPubKey: PubKey,
    rawTransactionInputs: seq<RawTransactionInput>,
    changeOutputValue: int,
    changeOutputAddress: string,
    signature: Bytes,
    payoutAddressString: string)

  /** The persisted trade; `None` stands for a null field. */
  datatype Trade = Trade(
    offer: Offer,
    tradeAmount: Option<Coin>,
    txFee: Coin,
    contractAsJson: string,
    contractHash: Option<Hash>,
    arbitratorBtcPubKey: PubKey,
    depositTx: Option<Tx>,
    payoutTx: Option<Tx>)

  /** The per-session working set. */
  datatype ProcessModel = ProcessModel(
    offerId: string,
    tradingPeer: TradingPeer,
    myMultiSigPubKey: PubKey,
    preparedDepositTx: Option<Tx>,
    rawTransactionInputs: Option<seq<RawTransactionInput>>)

  /** Everything a task may read or change. */
  datatype TaskState = TaskState(trade: Trade, processModel: ProcessModel, wallet: Wallet)

  /** Position of the offer's MULTI_SIG entry in the wallet of `s`. */
  function MultiSigEntry(s: TaskState): Option<nat>
  {
    FindEntry(s.wallet, s.processModel.offerId, MultiSig)
  }

  /** The arguments of `makerCreatesAndSignsDepositTx`. */
  datatype DepositRequest = DepositRequest(
    makerIsBuyer: bool,
    contractHash: Hash,
    makerInputAmount: Coin,
    msOutputAmount: Coin,
    takerRawTransactionInputs: seq<RawTransactionInput>,
    takerChangeOutputValue: int,
    takerChangeAddressString: string,
    makerAddress: Address,
    makerChangeAddress: Address,
    buyerPubKey: PubKey,
    sellerPubKey: PubKey,
    arbitratorBtcPubKey: PubKey)

  /** What `makerCreatesAndSignsDepositTx` returns. */
  datatype PreparedDeposit = PreparedDeposit(depositTransaction: Tx, rawMakerInputs: seq<RawTransactionInput>)

  /** The key pair `getMultiSigKeyPair` hands back. */
  datatype KeyPair = KeyPair(pubKey: PubKey, privKey: Bytes)

  /** The arguments of `sellerSignsAndFinalizesPayoutTx`. */
  datatype PayoutRequest = PayoutRequest(
    depositTx: Option<Tx>,
    buyerSignature: Bytes,
    buyerPayoutAmount: Coin,
    sellerPayoutAmount: Coin,
    buyerPayoutAddressString: string,
    sellerPayoutAddress: Address,
    multiSigKeyPair: KeyPair,
    buyerMultiSigPubKey: PubKey,
    sellerMultiSigPubKey: PubKey,
    arbitratorBtcPubKey: PubKey)

  /** The collaborators a task calls into. Their results are arbitrary; a
      `Failure` stands for an exception thrown by the call. */
  datatype Services = Services(
    sha256: string -> Hash,
    deriveKey: nat -> PubKey,
    makerCreatesAndSignsDepositTx: DepositRequest -> Result<PreparedDeposit, string>,
    getMultiSigKeyPair: (string, PubKey) -> Result<KeyPair, string>,
    sellerSignsAndFinalizesPayoutTx: PayoutRequest -> Result<Tx, string>)

  /** One observable step of a task, in the order the task takes it: a
      change to the trade, process model or wallet, or a collaborator call. */
  datatype Step =
    | SetContractHash(hash: Hash)
    | LockCoinInMultiSig(amount: Coin)
    | GetOrCreateEntry(context: Context)
    | GetFreshEntry
    | CreateDeposit(deposit: DepositRequest)
    | SetPreparedDepositTx
    | SetRawTransactionInputs
    | GetMultiSigKeyPair
    | SignPayout(payout: PayoutRequest)
    | SetPayoutTx
    | SwapMultiSigToAvailable

  /** Why a task failed. */
  datatype Cause =
    | NullTradeAmount
    | MultiSigEntryMissing
    | MultiSigPubKeyMismatch
    | CoinOverflow
    | CollaboratorFailed(message: string)

  /** A task's outcome: `complete()` or `failed(cause)`, with the state as
      the task left it (changes made before a failure stay) and the steps it
      took. */
  datatype TaskResult =
    | Complete(state: TaskState, trace: seq<Step>)
    | Failed(state: TaskState, trace: seq<Step>, cause: Cause)
}
