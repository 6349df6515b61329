/** The marketplace contract's `nft_on_approve` receiver (NEP-178, Non-Fungible
    Token Approval Management, "Interface" section): the guards a listing
    request must pass and the calls it then schedules. */
module NftCallbacks {
  import opened Wrappers

  /** `MAX_LEN_PAYOUT` */
  const MaxLenPayout: nat := 50

  /** The listing details carried in `msg` as JSON (`ListingJson`). */
  datatype ListingJson = ListingJson(
    ftContractId: string,
    price: nat,
    leaseStartTsNano: nat,
    leaseEndTsNano: nat)

  /** The parts of the marketplace's state the receiver reads. Of
      `listing_by_id` only the keys are read. */
  datatype Marketplace = Marketplace(
    allowedNftContractIds: set<string>,
    listedKeys: set<(string, string)>,
    allowedFtContractIds: set<string>)

  /** The call's environment. */
  datatype Env = Env(currentAccountId: string, predecessorAccountId: string, signerAccountId: string)

  /** The panics of the guards, in the order the guards run. */
  datatype ApprovalError =
    | NotCrossContractCall   // "nft_on_approve should only be called via XCC"
    | OwnerNotSigner         // "owner_id should be signer_id"
    | NftContractNotAllowed  // "nft_contract_id is not allowed!"
    | AlreadyListed          // "One nft token cannot be listed more than once!!"
    | InvalidListingJson     // "Invalid Listing Json!"
    | FtContractNotAllowed   // "ft_contract_id is not allowed!"

  /** `nft_payout(token_id, price, Some(MAX_LEN_PAYOUT))` on the NFT contract. */
  datatype NftPayoutCall = NftPayoutCall(nftContractId: string, tokenId: string, balance: nat, maxLenPayout: Option<nat>)

  /** The `create_listing_with_payout` callback on the marketplace itself. */
  datatype CreateListingCall = CreateListingCall(
    marketplaceId: string,
    ownerId: string,
    approvalId: nat,
    nftContractId: string,
    tokenId: string,
    ftContractId: string,
    price: nat,
    leaseStartTsNano: nat,
    leaseEndTsNano: nat)

  /** The promise chain returned on success: the payout query, then the callback. */
  datatype ListingPromise = ListingPromise(payout: NftPayoutCall, callback: CreateListingCall)

  /** One guard: whether it holds and the panic it raises when it does not. */
  datatype Guard = Guard(holds: bool, error: ApprovalError)

  /** Reference definition: the six guards in source order. A guard that
      needs the parsed message only holds when the message parsed. */
  function Guards(m: Marketplace, env: Env, tokenId: string, ownerId: string, parsed: Option<ListingJson>): seq<Guard> {
    [ Guard(env.currentAccountId != env.predecessorAccountId, NotCrossContractCall),
      Guard(ownerId == env.signerAccountId, OwnerNotSigner),
      Guard(env.predecessorAccountId in m.allowedNftContractIds, NftContractNotAllowed),
      Guard((env.predecessorAccountId, tokenId) !in m.listedKeys, AlreadyListed),
      Guard(parsed.Some?, InvalidListingJson),
      Guard(parsed.Some? && parsed.value.ftContractId in m.allowedFtContractIds, FtContractNotAllowed) ]
  }

  /** The panic of the first guard that fails, if any. */
  function FirstFailure(guards: seq<Guard>): (r: Option<ApprovalError>)
    ensures r.None? <==> forall i :: 0 <= i < |guards| ==> guards[i].holds
    ensures r.Some? ==> exists i :: 0 <= i < |guards| && !guards[i].holds && guards[i].error == r.value
                                    && forall j :: 0 <= j < i ==> guards[j].holds
    decreases |guards|
  {
    if guards == [] then None
    else if !guards[0].holds then Some(guards[0].error)
    else
      var r := FirstFailure(guards[1..]);
      assert forall i :: 0 < i < |guards| ==> guards[i] == guards[1..][i - 1];
      if r.Some? then
        assert exists i :: 0 <= i < |guards[1..]| && !guards[1..][i].holds && guards[1..][i].error == r.value
                           && forall j :: 0 <= j < i ==> guards[1..][j].holds;
        var i :| 0 <= i < |guards[1..]| && !guards[1..][i].holds && guards[1..][i].error == r.value
                 && forall j :: 0 <= j < i ==> guards[1..][j].holds;
        assert !guards[i + 1].holds && guards[i + 1].error == r.value;
        r
      else r
  }

  /** `nft_on_approve` (lines 33-98). `parse` is `serde_json::from_str` on
      `msg`. The receiver writes no state: its only effect is the promise. */
  function NftOnApprove(m: Marketplace, env: Env, tokenId: string, ownerId: string, approvalId: nat,
                        msg: string, parse: string -> Option<ListingJson>): (r: Result<ListingPromise, ApprovalError>)
    ensures r.Ok? ==> parse(msg).Some?
    ensures r.Ok? ==>
              var l := parse(msg).value;
              && r.value.payout == NftPayoutCall(env.predecessorAccountId, tokenId, l.price, Some(MaxLenPayout))
              && r.value.callback == CreateListingCall(env.currentAccountId, ownerId, approvalId, env.predecessorAccountId,
                                                       tokenId, l.ftContractId, l.price,
                                                       l.leaseStartTsNano, l.leaseEndTsNano)
  {
    var nftContractId := env.predecessorAccountId;
    if env.currentAccountId == nftContractId then Err(NotCrossContractCall)
    else if ownerId != env.signerAccountId then Err(OwnerNotSigner)
    else if nftContractId !in m.allowedNftContractIds then Err(NftContractNotAllowed)
    else if (nftContractId, tokenId) in m.listedKeys then Err(AlreadyListed)
    else match parse(msg)
      case None => Err(InvalidListingJson)
      case Some(listing) =>
        if listing.ftContractId !in m.allowedFtContractIds then Err(FtContractNotAllowed)
        else Ok(ListingPromise(
               NftPayoutCall(nftContractId, tokenId, listing.price, Some(MaxLenPayout)),
               CreateListingCall(env.currentAccountId, ownerId, approvalId, nftContractId, tokenId,
                                 listing.ftContractId, listing.price,
                                 listing.leaseStartTsNano, listing.leaseEndTsNano)))
  }

  /** The guards run in order: the call succeeds exactly when every guard
      holds, and otherwise fails with the panic of the first failing guard. */
  lemma NftOnApproveFirstFailingGuard(m: Marketplace, env: Env, tokenId: string, ownerId: string, approvalId: nat,
                                      msg: string, parse: string -> Option<ListingJson>)
    ensures var r := NftOnApprove(m, env, tokenId, ownerId, approvalId, msg, parse);
            var first := FirstFailure(Guards(m, env, tokenId, ownerId, parse(msg)));
            && (r.Ok? <==> first.None?)
            && (r.Err? ==> first == Some(r.error))
  {
    var gs := Guards(m, env, tokenId, ownerId, parse(msg));
    var first := FirstFailure(gs);
    if first.Some? {
      var i :| 0 <= i < |gs| && !gs[i].holds && gs[i].error == first.value
               && forall j :: 0 <= j < i ==> gs[j].holds;
      assert i == 0 || gs[0].holds;
      assert i <= 1 || gs[1].holds;
      assert i <= 2 || gs[2].holds;
      assert i <= 3 || gs[3].holds;
      assert i <= 4 || gs[4].holds;
    } else {
      assert gs[0].holds && gs[1].holds && gs[2].holds && gs[3].holds && gs[4].holds && gs[5].holds;
    }
  }

  /** A token already listed under its NFT contract is never listed again. */
  lemma NeverListedTwice(m: Marketplace, env: Env, tokenId: string, ownerId: string, approvalId: nat,
                         msg: string, parse: string -> Option<ListingJson>)
    requires (env.predecessorAccountId, tokenId) in m.listedKeys
    ensures NftOnApprove(m, env, tokenId, ownerId, approvalId, msg, parse).Err?
  {
  }

  /** Each guard on its own rejects the call, whatever the later guards say. */
  lemma EachGuardRejects(m: Marketplace, env: Env, tokenId: string, ownerId: string, approvalId: nat,
                         msg: string, parse: string -> Option<ListingJson>)
    ensures var r := NftOnApprove(m, env, tokenId, ownerId, approvalId, msg, parse);
            && (env.currentAccountId == env.predecessorAccountId ==> r == Err(NotCrossContractCall))
            && (ownerId != env.signerAccountId ==> r.Err?)
            && (env.predecessorAccountId !in m.allowedNftContractIds ==> r.Err?)
            && (parse(msg).None? ==> r.Err?)
            && (parse(msg).Some? && parse(msg).value.ftContractId !in m.allowedFtContractIds ==> r.Err?)
  {
  }
}
