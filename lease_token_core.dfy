/** The lease contract's ownership token (NEP-171, Non-Fungible Token Core,
    "Interface" section): one token per active lease, owned by the lease's
    lender. `nft_token` assembles it; `nft_transfer`, `nft_transfer_call` and
    `nft_resolve_transfer` move the lender. */
module LeaseTokenCore {
  import opened Wrappers

  /** A lease as the contract stores it (the fields this file reads). */
  datatype LeaseCondition = LeaseCondition(
    contractAddr: string,
    tokenId: string,
    lenderId: string,
    borrowerId: string,
    startTsNano: nat,
    endTsNano: nat)

  // ---------------------------------------------------------------------
  // Lease ids and token ids
  // ---------------------------------------------------------------------

  const LenderSuffix: string := "_lender"

  /** `lease_id_to_lease_token_id`: "test_key" becomes "test_key_lender". */
  function LeaseIdToTokenId(leaseId: string): (t: string)
    ensures |t| == |leaseId| + |LenderSuffix|
    ensures t[..|leaseId|] == leaseId && t[|leaseId|..] == LenderSuffix
  {
    leaseId + LenderSuffix
  }

  /** `lease_token_id_to_lease_id`: strips the suffix; a token id without it
      names no lease. */
  function TokenIdToLeaseId(tokenId: string): (r: Option<string>)
    ensures r.Some? ==> LeaseIdToTokenId(r.value) == tokenId
  {
    var n := |tokenId| - |LenderSuffix|;
    if n >= 0 && tokenId[n..] == LenderSuffix then Some(tokenId[..n]) else None
  }

  /** Mapping a lease id to its token id and back recovers the lease id. */
  lemma LeaseTokenIdRoundTrip(leaseId: string)
    ensures TokenIdToLeaseId(LeaseIdToTokenId(leaseId)) == Some(leaseId)
  {
    var t := LeaseIdToTokenId(leaseId);
    assert t[|leaseId|..] == LenderSuffix;
    assert t[..|leaseId|] == leaseId;
  }

  /** Two leases never share a token id. */
  lemma LeaseTokenIdInjective(a: string, b: string)
    requires LeaseIdToTokenId(a) == LeaseIdToTokenId(b)
    ensures a == b
  {
    LeaseTokenIdRoundTrip(a);
    LeaseTokenIdRoundTrip(b);
  }

  // ---------------------------------------------------------------------
  // nft_token
  // ---------------------------------------------------------------------

  /** `TokenMetadata` with the fields the contract sets; all others are None. */
  datatype TokenMetadata = TokenMetadata(title: Option<string>, description: Option<string>, media: Option<string>)

  datatype Token = Token(
    tokenId: string,
    ownerId: string,
    metadata: Option<TokenMetadata>,
    approvedAccountIds: Option<map<string, nat>>)

  /** The ways a call aborts: a panic, or a failed assertion. */
  datatype Abort =
    | UnwrapOnNone        // `lease_map.get(..).unwrap()` on a missing lease
    | RequiresOneYocto    // `assert_one_yocto()`
    | PromiseNotReady     // `env::abort()` in `nft_resolve_transfer`
    | TokenNotFound       // `internal_transfer` on a token with no active lease

  const Indent: string := "                    "

  function TokenTitle(leaseId: string): string {
    "RentApp Lease Ownership Token: " + leaseId
  }

  function TokenDescription(leaseId: string, lease: LeaseCondition): string {
    "\n" + Indent + "This is a token representing the ownership of the NFT under the RentApp lease: " + leaseId + "\n"
    + "\n" + Indent + "Leasing NFT's contract: " + lease.contractAddr + "\n"
    + "\n" + Indent + "Leasing NFT's token id: " + lease.tokenId + "\n"
  }

  /** The lease a token id stands for, when it is active. */
  predicate IsActiveToken(activeLeaseIds: set<string>, tokenId: string) {
    TokenIdToLeaseId(tokenId).Some? && TokenIdToLeaseId(tokenId).value in activeLeaseIds
  }

  // ---------------------------------------------------------------------
  // Transfers, as functions of the lease map
  // ---------------------------------------------------------------------

  /** A call's result together with the lease map it leaves. An aborted call
      leaves the map it found. */
  datatype Step<T> = Step(result: Result<T, Abort>, leaseMap: map<string, LeaseCondition>)

  /** The lease map with the lender of one lease replaced. */
  function WithLender(leaseMap: map<string, LeaseCondition>, leaseId: string, lenderId: string): map<string, LeaseCondition>
    requires leaseId in leaseMap
  {
    leaseMap[leaseId := leaseMap[leaseId].(lenderId := lenderId)]
  }

  /** `internal_transfer`, whose body is not part of this model: the token of
      an active lease passes to the receiver, and the previous owner is
      returned. */
  function InternalTransfer(leaseMap: map<string, LeaseCondition>, activeLeaseIds: set<string>,
                            receiverId: string, tokenId: string): (s: Step<string>)
    ensures s.result.Ok? <==> IsActiveToken(activeLeaseIds, tokenId) && TokenIdToLeaseId(tokenId).value in leaseMap
    ensures s.result.Ok? ==>
              var l := TokenIdToLeaseId(tokenId).value;
              s.result.value == leaseMap[l].lenderId && s.leaseMap == WithLender(leaseMap, l, receiverId)
    ensures s.result.Err? ==> s.leaseMap == leaseMap
  {
    match TokenIdToLeaseId(tokenId)
    case None => Step(Err(TokenNotFound), leaseMap)
    case Some(l) =>
      if l in activeLeaseIds && l in leaseMap then Step(Ok(leaseMap[l].lenderId), WithLender(leaseMap, l, receiverId))
      else Step(Err(TokenNotFound), leaseMap)
  }

  /** `env::promise_result(0)`, with the receiver's answer parsed as JSON
      (`parsed` is None when the bytes are not a boolean). */
  datatype PromiseResult = NotReady | Successful(parsed: Option<bool>) | Failed

  /** Lines 154-164: None when the call aborts, else whether to revert. */
  function ShouldRevert(p: PromiseResult): (r: Option<bool>)
    ensures r.None? <==> p.NotReady?
    ensures r == Some(false) <==> p == Successful(Some(false))
  {
    match p
    case NotReady => None
    case Successful(parsed) => if parsed.Some? then Some(parsed.value) else Some(true)
    case Failed => Some(true)
  }

  /** `nft_resolve_transfer` AS WRITTEN: the lease map is looked up with the
      token id itself (line 172), although its keys are lease ids. The
      lender update (`internal_update_active_lease_lender`, not part of this
      model) is given the token id and updates that token's lease. */
  function ResolveTransferAsWritten(leaseMap: map<string, LeaseCondition>, previousOwnerId: string,
                                    receiverId: string, tokenId: string, p: PromiseResult): (s: Step<bool>)
    ensures p.NotReady? <==> s.result == Err(PromiseNotReady)
    ensures s.result != Ok(false) ==> s.leaseMap == leaseMap
    ensures s.result == Ok(false) ==> tokenId in leaseMap && leaseMap[tokenId].lenderId == receiverId
    ensures !p.NotReady? && s.result != Ok(false) ==> s.result == Ok(true)
  {
    match ShouldRevert(p)
    case None => Step(Err(PromiseNotReady), leaseMap)
    case Some(revert) =>
      if !revert then Step(Ok(true), leaseMap)
      else if tokenId !in leaseMap || leaseMap[tokenId].lenderId != receiverId then Step(Ok(true), leaseMap)
      else
        var l := TokenIdToLeaseId(tokenId);
        Step(Ok(false), if l.Some? && l.value in leaseMap then WithLender(leaseMap, l.value, previousOwnerId) else leaseMap)
  }

  /** `nft_resolve_transfer` with the lookup keyed by the token's lease id,
      as the rest of the contract keys it. */
  function ResolveTransfer(leaseMap: map<string, LeaseCondition>, previousOwnerId: string,
                           receiverId: string, tokenId: string, p: PromiseResult): (s: Step<bool>)
    ensures p.NotReady? <==> s.result == Err(PromiseNotReady)
    ensures s.result == Ok(false) <==>
              && ShouldRevert(p) == Some(true)
              && TokenIdToLeaseId(tokenId).Some? && TokenIdToLeaseId(tokenId).value in leaseMap
              && leaseMap[TokenIdToLeaseId(tokenId).value].lenderId == receiverId
    ensures s.result == Ok(false) ==> s.leaseMap == WithLender(leaseMap, TokenIdToLeaseId(tokenId).value, previousOwnerId)
    ensures s.result != Ok(false) ==> s.leaseMap == leaseMap
    ensures !p.NotReady? && s.result != Ok(false) ==> s.result == Ok(true)
  {
    match ShouldRevert(p)
    case None => Step(Err(PromiseNotReady), leaseMap)
    case Some(revert) =>
      if !revert then Step(Ok(true), leaseMap)
      else
        match TokenIdToLeaseId(tokenId)
        case None => Step(Ok(true), leaseMap)
        case Some(l) =>
          if l !in leaseMap || leaseMap[l].lenderId != receiverId then Step(Ok(true), leaseMap)
          else Step(Ok(false), WithLender(leaseMap, l, previousOwnerId))
  }

  /** A receiver that asks for the token back (answers true, fails, or
      answers something that is not a boolean) gets the transfer undone: the
      lease map is exactly what it was before `nft_transfer_call`. */
  lemma TransferCallThenRevertRestores(leaseMap: map<string, LeaseCondition>, activeLeaseIds: set<string>,
                                                          receiverId: string, tokenId: string, p: PromiseResult)
    requires ShouldRevert(p) == Some(true)
    requires InternalTransfer(leaseMap, activeLeaseIds, receiverId, tokenId).result.Ok?
    ensures var t := InternalTransfer(leaseMap, activeLeaseIds, receiverId, tokenId);
            ResolveTransfer(t.leaseMap, t.result.value, receiverId, tokenId, p) == Step(Ok(false), leaseMap)
  {
    var t := InternalTransfer(leaseMap, activeLeaseIds, receiverId, tokenId);
    var l := TokenIdToLeaseId(tokenId).value;
    assert t.leaseMap[l].lenderId == receiverId;
    var restored := ResolveTransfer(t.leaseMap, t.result.value, receiverId, tokenId, p);
    assert restored.leaseMap[l] == leaseMap[l];
    assert restored.leaseMap == leaseMap;
  }

  /** A receiver that keeps the token (answers false) keeps it. */
  lemma TransferCallAcceptedKeeps(leaseMap: map<string, LeaseCondition>, previousOwnerId: string,
                                  receiverId: string, tokenId: string)
    ensures ResolveTransfer(leaseMap, previousOwnerId, receiverId, tokenId, Successful(Some(false)))
            == Step(Ok(true), leaseMap)
  {
  }

  /** As written, a lease token is never handed back: its id ends in
      "_lender" while the lease map is keyed by the bare lease id, so the
      lookup misses and the call returns true with nothing changed. */
  lemma ResolveAsWrittenNeverReverts(leaseMap: map<string, LeaseCondition>, previousOwnerId: string,
                                                        receiverId: string, leaseId: string, p: PromiseResult)
    requires LeaseIdToTokenId(leaseId) !in leaseMap
    ensures var s := ResolveTransferAsWritten(leaseMap, previousOwnerId, receiverId, LeaseIdToTokenId(leaseId), p);
            s.result != Ok(false) && s.leaseMap == leaseMap
  {
  }

  /** The concrete case: lease "test_key" lent by alice, its token
      "test_key_lender" transferred to bob, and bob's contract asks for it
      back. As written, bob keeps it; with the lookup by lease id, alice gets
      it back. */
  lemma ResolveAsWrittenCounterexample(lease: LeaseCondition)
    requires lease.lenderId == "alice"
    ensures var before := map["test_key" := lease];
            var t := InternalTransfer(before, {"test_key"}, "bob", "test_key_lender");
            && t.result == Ok("alice")
            && ResolveTransferAsWritten(t.leaseMap, "alice", "bob", "test_key_lender", Successful(Some(true)))
               == Step(Ok(true), t.leaseMap)
            && t.leaseMap["test_key"].lenderId == "bob"
            && ResolveTransfer(t.leaseMap, "alice", "bob", "test_key_lender", Successful(Some(true)))
               == Step(Ok(false), before)
  {
    var before := map["test_key" := lease];
    LeaseTokenIdRoundTrip("test_key");
    assert LeaseIdToTokenId("test_key") == "test_key_lender";
    TransferCallThenRevertRestores(before, {"test_key"}, "bob", "test_key_lender", Successful(Some(true)));
  }

  // ---------------------------------------------------------------------
  // The contract
  // ---------------------------------------------------------------------

  /** The `nft_on_transfer` call to the receiver and the `nft_resolve_transfer`
      callback that `nft_transfer_call` chains after it. */
  datatype TransferCallPromise = TransferCallPromise(
    receiverId: string,
    senderId: string,
    previousOwnerId: string,
    tokenId: string,
    msg: string,
    memo: Option<string>)

  class LeaseContract {
    var leaseMap: map<string, LeaseCondition>
    var activeLeaseIds: set<string>

    /** Every active lease id has a lease record. */
    predicate Valid()
      reads this
    {
      activeLeaseIds <= leaseMap.Keys
    }

    /** `Contract::new` as far as this file reads it: no leases yet. */
    constructor()
      ensures leaseMap == map[] && activeLeaseIds == {}
      ensures Valid()
    {
      leaseMap := map[];
      activeLeaseIds := {};
    }

    /** `nft_token` (lines 95-137). `dataImageSvg` is the contents of
        `data_image_svg.txt`. */
    function NftToken(tokenId: string, dataImageSvg: string): (r: Result<Option<Token>, Abort>)
      reads this
      ensures r == Ok(None) <==> !IsActiveToken(activeLeaseIds, tokenId)
      ensures r.Err? <==> IsActiveToken(activeLeaseIds, tokenId) && TokenIdToLeaseId(tokenId).value !in leaseMap
      ensures Valid() ==> r.Ok?
      ensures r.Ok? && r.value.Some? ==>
                var token, l := r.value.value, TokenIdToLeaseId(tokenId).value;
                && l in leaseMap
                && token.tokenId == tokenId
                && token.ownerId == leaseMap[l].lenderId
                && token.metadata.Some?
                && token.metadata.value.title.Some?
                && token.metadata.value.description.Some?
                && token.approvedAccountIds.None?
    {
      var leaseId := TokenIdToLeaseId(tokenId);
      if leaseId.Some? && leaseId.value in activeLeaseIds then
        if leaseId.value !in leaseMap then Err(UnwrapOnNone)
        else
          var lease := leaseMap[leaseId.value];
          var metadata := TokenMetadata(Some(TokenTitle(leaseId.value)),
                                        Some(TokenDescription(leaseId.value, lease)),
                                        Some(dataImageSvg));
          Ok(Some(Token(tokenId, lease.lenderId, Some(metadata), None)))
      else Ok(None)
    }

    /** `nft_transfer` (lines 43-55): exactly one yoctoNEAR must be attached.
        The sender and the memo only reach `internal_transfer`'s sender
        checks and the transfer event, neither of which is modelled, so they
        are not parameters here. */
    method NftTransfer(attachedDeposit: nat, receiverId: string, tokenId: string)
      returns (r: Result<(), Abort>)
      modifies this
      ensures attachedDeposit != 1 ==> r == Err(RequiresOneYocto) && leaseMap == old(leaseMap)
      ensures attachedDeposit == 1 ==>
                var t := InternalTransfer(old(leaseMap), old(activeLeaseIds), receiverId, tokenId);
                && leaseMap == t.leaseMap
                && (r.Ok? <==> t.result.Ok?)
      ensures activeLeaseIds == old(activeLeaseIds)
      ensures old(Valid()) ==> Valid()
    {
      if attachedDeposit != 1 {
        return Err(RequiresOneYocto);
      }
      var t := InternalTransfer(leaseMap, activeLeaseIds, receiverId, tokenId);
      leaseMap := t.leaseMap;
      r := if t.result.Ok? then Ok(()) else Err(t.result.error);
    }

    /** `nft_transfer_call` (lines 58-92): the same guard and transfer, then
        the promise to the receiver with the previous owner. */
    method NftTransferCall(attachedDeposit: nat, predecessorId: string, receiverId: string, tokenId: string,
                           memo: Option<string>, msg: string)
      returns (r: Result<TransferCallPromise, Abort>)
      modifies this
      ensures attachedDeposit != 1 ==> r == Err(RequiresOneYocto) && leaseMap == old(leaseMap)
      ensures attachedDeposit == 1 ==>
                var t := InternalTransfer(old(leaseMap), old(activeLeaseIds), receiverId, tokenId);
                && leaseMap == t.leaseMap
                && (r.Ok? <==> t.result.Ok?)
                && (r.Ok? ==> r.value == TransferCallPromise(receiverId, predecessorId, t.result.value, tokenId, msg, memo))
      ensures activeLeaseIds == old(activeLeaseIds)
      ensures old(Valid()) ==> Valid()
    {
      if attachedDeposit != 1 {
        return Err(RequiresOneYocto);
      }
      var t := InternalTransfer(leaseMap, activeLeaseIds, receiverId, tokenId);
      leaseMap := t.leaseMap;
      if t.result.Err? {
        return Err(t.result.error);
      }
      r := Ok(TransferCallPromise(receiverId, predecessorId, t.result.value, tokenId, msg, memo));
    }

    /** `nft_resolve_transfer` (lines 144-196), with the lease looked up by
        the token's lease id (see ResolveTransferAsWritten). */
    method NftResolveTransfer(previousOwnerId: string, receiverId: string, tokenId: string,
                              memo: Option<string>, p: PromiseResult)
      returns (r: Result<bool, Abort>)
      modifies this
      ensures var s := ResolveTransfer(old(leaseMap), previousOwnerId, receiverId, tokenId, p);
              r == s.result && leaseMap == s.leaseMap
      ensures activeLeaseIds == old(activeLeaseIds)
      ensures old(Valid()) ==> Valid()
    {
      var revert := ShouldRevert(p);
      if revert.None? {
        return Err(PromiseNotReady);
      }
      if !revert.value {
        return Ok(true);
      }
      var leaseId := TokenIdToLeaseId(tokenId);
      if leaseId.None? || leaseId.value !in leaseMap || leaseMap[leaseId.value].lenderId != receiverId {
        return Ok(true);
      }
      leaseMap := WithLender(leaseMap, leaseId.value, previousOwnerId);
      r := Ok(false);
    }
  }
}
