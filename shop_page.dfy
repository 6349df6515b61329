/** The Shop page: the listings of one NFT contract, looked up by token id
    in the indexer's rows, one card per listing. */
module ShopPage {
  import opened Wrappers
  import opened Records

  /** The only NFT contract the shop shows. */
  const ShopContractId: string := "ricardostore.mintspace2.testnet"

  /** A listing as the marketplace contract returns it. */
  datatype Listing = Listing(
    nftContractId: string,
    nftTokenId: string,
    price: nat,
    ftContractId: string,
    leaseStartTsNano: int,
    leaseEndTsNano: int)

  /** A row of the shop's query: the four fields it selects. */
  datatype ShopToken = ShopToken(owner: string, media: string, title: string, tokenId: string)

  /** The variables of the shop's query. */
  datatype QueryVariables = QueryVariables(nftContractId: string, nftTokenIds: seq<string>)

  /** Lines 48-51: the fixed contract and the listings' token ids. */
  function TokenQueryVariables(listings: seq<Listing>): (v: QueryVariables)
    ensures v.nftContractId == ShopContractId
    ensures |v.nftTokenIds| == |listings|
    ensures forall i :: 0 <= i < |listings| ==> v.nftTokenIds[i] == listings[i].nftTokenId
  {
    QueryVariables(ShopContractId, seq(|listings|, i requires 0 <= i < |listings| => listings[i].nftTokenId))
  }

  // ---------------------------------------------------------------------
  // The token-id index
  // ---------------------------------------------------------------------

  /** `nft_info_by_token_id` after the loop has seen `tokens`. */
  function TokenIndex(tokens: seq<ShopToken>): map<string, ShopToken>
    decreases |tokens|
  {
    if tokens == [] then map[]
    else TokenIndex(tokens[..|tokens| - 1])[tokens[|tokens| - 1].tokenId := tokens[|tokens| - 1]]
  }

  /** No row after position j has the same token id. */
  predicate LastWithId(tokens: seq<ShopToken>, j: int) {
    0 <= j < |tokens| && forall j' :: j < j' < |tokens| ==> tokens[j'].tokenId != tokens[j].tokenId
  }

  /** The index has a key for every row's token id and no other, and each
      key maps to a row with that token id. */
  lemma {:induction false} TokenIndexKeys(tokens: seq<ShopToken>)
    ensures forall id :: id in TokenIndex(tokens) <==> exists j :: 0 <= j < |tokens| && tokens[j].tokenId == id
    ensures forall id :: id in TokenIndex(tokens) ==> TokenIndex(tokens)[id].tokenId == id
    decreases |tokens|
  {
    if tokens != [] {
      var init, t := tokens[..|tokens| - 1], tokens[|tokens| - 1];
      TokenIndexKeys(init);
      forall id | exists j :: 0 <= j < |tokens| && tokens[j].tokenId == id
        ensures id in TokenIndex(tokens)
      {
        var j :| 0 <= j < |tokens| && tokens[j].tokenId == id;
        if j < |tokens| - 1 {
          assert init[j].tokenId == id;
        }
      }
      forall id | id in TokenIndex(tokens) && id != t.tokenId
        ensures exists j :: 0 <= j < |tokens| && tokens[j].tokenId == id
      {
        assert id in TokenIndex(init);
        var j :| 0 <= j < |init| && init[j].tokenId == id;
        assert tokens[j].tokenId == id;
      }
    }
  }

  /** When token ids repeat, the later row wins. */
  lemma {:induction false} TokenIndexLastWins(tokens: seq<ShopToken>)
    ensures forall j :: LastWithId(tokens, j) ==>
              tokens[j].tokenId in TokenIndex(tokens) && TokenIndex(tokens)[tokens[j].tokenId] == tokens[j]
    decreases |tokens|
  {
    if tokens != [] {
      var init := tokens[..|tokens| - 1];
      TokenIndexLastWins(init);
      forall j | LastWithId(tokens, j) && j < |tokens| - 1
        ensures TokenIndex(tokens)[tokens[j].tokenId] == tokens[j]
      {
        assert LastWithId(init, j);
      }
    }
  }

  /** The loop of lines 61-64. */
  method IndexByTokenId(tokens: seq<ShopToken>) returns (index: map<string, ShopToken>)
    ensures index == TokenIndex(tokens)
  {
    index := map[];
    var n := 0;
    while n < |tokens|
      invariant 0 <= n <= |tokens|
      invariant index == TokenIndex(tokens[..n])
    {
      var i := tokens[n];
      assert tokens[..n + 1][..n] == tokens[..n];
      index := index[i.tokenId := i];
      n := n + 1;
    }
    assert tokens[..n] == tokens;
  }

  // ---------------------------------------------------------------------
  // The cards
  // ---------------------------------------------------------------------

  /** What one listing's card shows. The price, symbol and durations are
      shown through formatting helpers; the card keeps their raw inputs. */
  datatype Card = Card(
    title: string,
    media: string,
    price: nat,
    ftContractId: string,
    leaseDurationNano: int,
    leaseStartTsNano: int,
    rent: Click,
    details: Click)

  /** One card (lines 73-85): the token's title and media, the listing's
      price and times, and two clicks about the same listed token. */
  function CardFor(l: Listing, info: ShopToken): (c: Card)
    ensures c.title == info.title && c.media == info.media
    ensures c.price == l.price && c.ftContractId == l.ftContractId
    ensures c.leaseStartTsNano + c.leaseDurationNano == l.leaseEndTsNano
    ensures c.leaseStartTsNano == l.leaseStartTsNano
    ensures c.rent.title == "rent" && c.details.title == "nfts"
    ensures c.rent.contractId == c.details.contractId == Some(l.nftContractId)
    ensures c.rent.tokenId == c.details.tokenId == Some(l.nftTokenId)
  {
    Card(info.title, info.media, l.price, l.ftContractId,
         l.leaseEndTsNano - l.leaseStartTsNano, l.leaseStartTsNano,
         Click("rent", Some(l.nftContractId), Some(l.nftTokenId)),
         Click("nfts", Some(l.nftContractId), Some(l.nftTokenId)))
  }

  /** Reading `nft_info.title` of a listing whose token is not in the index
      throws a TypeError, which aborts the render. */
  datatype RenderError = TypeError

  /** Lines 71-87: one card per listing, in order, or the TypeError. */
  function Cards(listings: seq<Listing>, index: map<string, ShopToken>): (r: Result<seq<Card>, RenderError>)
    ensures r.Ok? <==> forall i :: 0 <= i < |listings| ==> listings[i].nftTokenId in index
    ensures r.Ok? ==> |r.value| == |listings|
    ensures r.Ok? ==> forall i :: 0 <= i < |listings| ==>
              var l, c := listings[i], r.value[i];
              && c.title == index[l.nftTokenId].title
              && c.media == index[l.nftTokenId].media
              && c.price == l.price && c.ftContractId == l.ftContractId
              && c.leaseDurationNano == l.leaseEndTsNano - l.leaseStartTsNano
              && c.leaseStartTsNano == l.leaseStartTsNano
              && c.rent == Click("rent", Some(l.nftContractId), Some(l.nftTokenId))
              && c.details == Click("nfts", Some(l.nftContractId), Some(l.nftTokenId))
    decreases |listings|
  {
    if listings == [] then Ok([])
    else if listings[0].nftTokenId !in index then Err(TypeError)
    else
      match Cards(listings[1..], index)
      case Err(e) => Err(e)
      case Ok(rest) =>
        Ok([CardFor(listings[0], index[listings[0].nftTokenId])] + rest)
  }

  datatype Screen =
    | ErrorScreen
    | LoadingScreen
    | Crashed
    | Grid(emptyMessage: bool, cards: seq<Card>)

  /** Lines 55-91: the early returns, the index, the empty-shop message and
      the cards. A missing `data` after loading throws like a missing row. */
  function Render(query: QueryState<seq<ShopToken>>, listings: seq<Listing>): (s: Screen)
    ensures query.Failed? <==> s.ErrorScreen?
    ensures query.Loading? <==> s.LoadingScreen?
    ensures s.Grid? ==> (s.emptyMessage <==> |listings| == 0)
    ensures s.Grid? ==> query.Loaded? && Cards(listings, TokenIndex(query.data)) == Ok(s.cards)
    ensures query.Loaded? && Cards(listings, TokenIndex(query.data)).Ok? ==> s.Grid?
  {
    match query
    case Failed => ErrorScreen
    case Loading => LoadingScreen
    case NoData => Crashed
    case Loaded(tokens) =>
      match Cards(listings, TokenIndex(tokens))
      case Err(_) => Crashed
      case Ok(cards) => Grid(|listings| == 0, cards)
  }

  /** When the indexer returns a row for every listed token, the shop shows
      one card per listing whose record is the last row with the listing's
      token id; the row's contract is never compared. */
  lemma ShopShowsEveryListing(tokens: seq<ShopToken>, listings: seq<Listing>)
    requires forall i :: 0 <= i < |listings| ==> exists j :: 0 <= j < |tokens| && tokens[j].tokenId == listings[i].nftTokenId
    ensures var s := Render(Loaded(tokens), listings);
            && s.Grid? && |s.cards| == |listings|
            && forall i :: 0 <= i < |listings| ==>
                 exists j :: LastWithId(tokens, j) && tokens[j].tokenId == listings[i].nftTokenId
                             && s.cards[i].title == tokens[j].title && s.cards[i].media == tokens[j].media
  {
    var index := TokenIndex(tokens);
    TokenIndexKeys(tokens);
    TokenIndexLastWins(tokens);
    assert forall i :: 0 <= i < |listings| ==> listings[i].nftTokenId in index;
    var s := Render(Loaded(tokens), listings);
    forall i | 0 <= i < |listings|
      ensures exists j :: LastWithId(tokens, j) && tokens[j].tokenId == listings[i].nftTokenId
                          && s.cards[i].title == tokens[j].title && s.cards[i].media == tokens[j].media
    {
      var id := listings[i].nftTokenId;
      var j := LastIndexOf(tokens, id);
    }
  }

  /** The position of the last row with a given token id. */
  function LastIndexOf(tokens: seq<ShopToken>, id: string): (j: int)
    requires exists j :: 0 <= j < |tokens| && tokens[j].tokenId == id
    ensures LastWithId(tokens, j) && tokens[j].tokenId == id
    decreases |tokens|
  {
    if tokens[|tokens| - 1].tokenId == id then |tokens| - 1
    else
      var init := tokens[..|tokens| - 1];
      assert exists j :: 0 <= j < |init| && init[j].tokenId == id by {
        var j :| 0 <= j < |tokens| && tokens[j].tokenId == id;
        assert init[j].tokenId == id;
      }
      LastIndexOf(init, id)
  }
}
