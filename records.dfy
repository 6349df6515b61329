/** Records exchanged between the indexer, the lease contract and the pages
    of the front end, and JavaScript's notion of a "truthy" value. */
module Records {
  import opened Wrappers

  /** A string field that may be `undefined`; it is truthy when present and not "". */
  predicate Truthy(s: Option<string>) {
    s.Some? && s.value != ""
  }

  /** A numeric field that may be `undefined`; it is truthy when present and not 0. */
  predicate TruthyNumber(n: Option<int>) {
    n.Some? && n.value != 0
  }

  /** The JavaScript values a JSX condition evaluates to: `true`, `false`, a
      string, a number, `undefined`, or a React element. */
  datatype JsValue = JsBool(b: bool) | JsString(s: string) | JsNumber(n: int) | JsUndefined | JsElement

  predicate JsTruthy(v: JsValue) {
    match v
    case JsBool(b) => b
    case JsString(s) => s != ""
    case JsNumber(n) => n != 0
    case JsUndefined => false
    case JsElement => true
  }

  /** `a && b`: the first operand when it is falsy, else the second. */
  function JsAnd(a: JsValue, b: JsValue): JsValue {
    if JsTruthy(a) then b else a
  }

  /** `a || b`: the first operand when it is truthy, else the second. */
  function JsOr(a: JsValue, b: JsValue): JsValue {
    if JsTruthy(a) then a else b
  }

  function OfString(s: Option<string>): (v: JsValue)
    ensures JsTruthy(v) <==> Truthy(s)
  {
    if s.Some? then JsString(s.value) else JsUndefined
  }

  function OfNumber(n: Option<int>): (v: JsValue)
    ensures JsTruthy(v) <==> TruthyNumber(n)
  {
    if n.Some? then JsNumber(n.value) else JsUndefined
  }

  /** One row of the indexer's `mb_views_nft_tokens` view, with the fields the
      My NFT query selects. */
  datatype IndexedNft = IndexedNft(
    owner: string,
    media: string,
    title: string,
    tokenId: string,
    description: string,
    minter: string,
    nftContractIcon: string,
    nftContractId: string,
    nftContractName: string)

  /** The lease record the rental contract returns for a lending or a borrowing. */
  datatype LeaseInfo = LeaseInfo(
    contractAddr: string,
    tokenId: string,
    lenderId: string,
    borrowerId: string,
    startTsNano: int,
    endTsNano: int)

  /** One `[lease_id, lease]` pair of the lendings or borrowings list. */
  datatype LeaseEntry = LeaseEntry(leaseId: string, info: LeaseInfo)

  /** The lease fields the My NFT page copies onto an indexer row. */
  datatype LeaseFields = LeaseFields(
    leaseId: string,
    lenderId: string,
    borrowerId: string,
    leaseStartTsNano: int,
    leaseEndTsNano: int)

  /** An indexer row, possibly enriched with lease fields. Rows of `user_owned`
      carry no lease fields: reading one of them gives `undefined`. */
  datatype NftRecord = NftRecord(nft: IndexedNft, lease: Option<LeaseFields>)
  {
    function LenderId(): Option<string> {
      if lease.Some? then Some(lease.value.lenderId) else None
    }

    function BorrowerId(): Option<string> {
      if lease.Some? then Some(lease.value.borrowerId) else None
    }

    function LeaseEndTsNano(): Option<int> {
      if lease.Some? then Some(lease.value.leaseEndTsNano) else None
    }
  }

  /** The object a page passes to `handleClick`: a page title and, for the
      pages about one token, the token's contract and id. */
  datatype Click = Click(title: string, contractId: Option<string>, tokenId: Option<string>)

  /** The two lists of the `GetTokens` query of the My NFT and NFT pages:
      the rows the rental contract holds and the rows the account owns. */
  datatype TokenQuery = TokenQuery(underLease: seq<IndexedNft>, userOwned: seq<IndexedNft>)

  /** The state of a GraphQL query as the pages read it. `NoData` is a query
      that was skipped or returned nothing. */
  datatype QueryState<T> = Loading | Failed | NoData | Loaded(data: T)
}
