/** The NFT detail page (rendered both as "nfts" and as "details"): whether
    the viewer owns the token, the Lend button and the Back button. */
module NftPage {
  import opened Wrappers
  import opened Records

  /** The fields of `params`; reading one of `{}` gives `undefined`. */
  function ParamTitle(params: Option<Click>): Option<string> {
    if params.Some? then Some(params.value.title) else None
  }

  function ParamContractId(params: Option<Click>): Option<string> {
    if params.Some? then params.value.contractId else None
  }

  function ParamTokenId(params: Option<Click>): Option<string> {
    if params.Some? then params.value.tokenId else None
  }

  /** `user_owned.find((nft) => nft.token_id === tokenId)`: an undefined
      `tokenId` is never strictly equal to a row's string. */
  function FindOwned(userOwned: seq<IndexedNft>, tokenId: Option<string>): (r: Option<IndexedNft>)
    ensures r.Some? <==> tokenId.Some? && exists i :: 0 <= i < |userOwned| && userOwned[i].tokenId == tokenId.value
    ensures r.Some? ==> r.value in userOwned && r.value.tokenId == tokenId.value
    decreases |userOwned|
  {
    if tokenId.None? || userOwned == [] then None
    else if userOwned[0].tokenId == tokenId.value then Some(userOwned[0])
    else
      var r := FindOwned(userOwned[1..], tokenId);
      assert forall i :: 0 < i < |userOwned| ==> userOwned[i] == userOwned[1..][i - 1];
      r
  }

  /** `valid` (line 61): the query has answered and one of the viewer's rows
      has the page's token id. */
  predicate IsValid(data: Option<TokenQuery>, params: Option<Click>)
    ensures IsValid(data, params) <==>
              && data.Some? && ParamTokenId(params).Some?
              && exists i :: 0 <= i < |data.value.userOwned| && data.value.userOwned[i].tokenId == ParamTokenId(params).value
  {
    data.Some? && FindOwned(data.value.userOwned, ParamTokenId(params)).Some?
  }

  /** Only the token id is compared: a row of another contract with the same
      token id makes the page valid too. */
  lemma ValidIgnoresContract(data: TokenQuery, params: Option<Click>, i: nat)
    requires i < |data.userOwned| && ParamTokenId(params) == Some(data.userOwned[i].tokenId)
    ensures IsValid(Some(data), params)
  {
  }

  /** While the query has not answered, the page is not valid. */
  lemma NotValidWithoutData(params: Option<Click>)
    ensures !IsValid(None, params)
  {
  }

  /** The Lend button (lines 72-73). */
  function LendClick(data: Option<TokenQuery>, params: Option<Click>): (c: Option<Click>)
    ensures c.Some? <==> IsValid(data, params)
    ensures c.Some? ==> c.value == Click("lend", ParamContractId(params), ParamTokenId(params))
  {
    if IsValid(data, params) then Some(Click("lend", ParamContractId(params), ParamTokenId(params))) else None
  }

  /** The Back button's target as written (line 82). */
  function BackTarget(params: Option<Click>): (t: string)
    ensures t == "My NFT" <==> ParamTitle(params) == Some("nft")
    ensures t != "My NFT" ==> t == "Shops"
  {
    if ParamTitle(params) == Some("nft") then "My NFT" else "Shops"
  }

  /** The Back target the page evidently means: back to My NFT when it was
      opened from a My NFT card ("details"), back to the shop otherwise. */
  function BackTargetIntended(params: Option<Click>): (t: string)
    ensures t == "My NFT" <==> ParamTitle(params) == Some("details")
    ensures t != "My NFT" ==> t == "Shops"
  {
    if ParamTitle(params) == Some("details") then "My NFT" else "Shops"
  }

  /** What the page offers. */
  datatype Screen = Screen(lend: Option<Click>, back: Click)

  function Render(data: Option<TokenQuery>, params: Option<Click>): (s: Screen)
    ensures s.lend == LendClick(data, params)
    ensures s.back == Click(BackTargetIntended(params), None, None)
  {
    Screen(LendClick(data, params), Click(BackTargetIntended(params), None, None))
  }
}
