# NEAR NFT rental app: a Dafny model of its core

The rental app lets owners of NEAR non-fungible tokens lend them out for a
time. This project models these parts of it:

- **The lease contract's NEP-171 core** (`lease_token_core.dfy`). Each active
  lease is represented by a lease ownership token whose id is the lease id
  followed by `_lender`. The token's owner is the lease's lender. `nft_token`
  builds the token on the fly. `nft_transfer` and `nft_transfer_call` move the
  lender, and both require exactly one yoctoNEAR. `nft_resolve_transfer` is
  meant to undo a transfer when the receiver asks for it. As written, its
  lease lookup at `core.rs:172` uses the token id, which misses unless some
  lease id equals the token id, so it does not undo the transfer (see
  "Findings"); the rest of the model uses the lookup by lease id.
- **The marketplace's `nft_on_approve` receiver** (`nft_callbacks.dfy`). It runs
  six guards in order, then schedules `nft_payout` (with at most 50 payout
  entries) followed by the `create_listing_with_payout` callback.
- **The My NFT page** (`my_nft_page.dfy`):
  - It joins the account's lendings and borrowings with the indexer rows held
    by the rental contract.
  - It groups the records by NFT contract.
  - It decides what each card shows: the lease-end labels, Lend, Claim back,
    "Rented from/to" and Details.
- **The Shop page** (`shop_page.dfy`). It indexes the indexer's rows by token
  id and renders one card per listing of the shop's contract. A listing whose
  row is missing throws a TypeError.
- **The NFT detail page** (`nft_page.dfy`). It covers whether the viewer owns
  the token, the Lend button and the Back button.
- **The landing page** (`landing.dfy`). It covers `classNames`, the
  page-selection state (`lendModal`, `shopRent`, the buy modal), the handlers
  that change that state, and the table that renders one page per
  `lendModal` value.

`records.dfy` holds the records the pages share, together with JavaScript
truthiness of optional strings and numbers. `wrappers.dfy` holds `Option` and
`Result`. Rust panics (`assert!`, `require!`, `unwrap`, `expect`,
`env::abort`) are modelled as `Err` values. In NEAR a panic rolls back the
call's state changes, so an `Err` result always comes with the state
unchanged. The JavaScript TypeError of the shop is also an `Err` value.

## Model

| member | source | states |
|---|---|---|
| LeaseTokenCore.LeaseIdToTokenId | contract/src/nft/core.rs:244 | A lease's token id is the lease id followed by `_lender` |
| LeaseTokenCore.TokenIdToLeaseId | contract/src/nft/core.rs:96 | A token id names a lease only if it ends in `_lender`, and the lease's token id is then the token id itself |
| LeaseTokenCore.LeaseTokenIdRoundTrip | contract/src/nft/core.rs:244-248 | Mapping a lease id to its token id and back gives the lease id |
| LeaseTokenCore.LeaseTokenIdInjective | contract/src/nft/core.rs:244 | Two different leases never share a token id |
| LeaseTokenCore.LeaseContract.constructor | contract/src/nft/core.rs:220 | A new contract has no leases and no active leases, so it is valid |
| LeaseTokenCore.LeaseContract.NftToken | contract/src/nft/core.rs:95-137 | None exactly when the token's lease is not active. A panic happens exactly when an active lease has no record, which a valid state rules out. Otherwise the result is the same token id, owned by the lease's lender, with a title and a description, and with no approvals |
| LeaseTokenCore.InternalTransfer | contract/src/nft/core.rs:54 | The transfer succeeds exactly when the token's lease is active and recorded. On success the lender becomes the receiver and the previous lender is returned. On failure nothing changes |
| LeaseTokenCore.LeaseContract.NftTransfer | contract/src/nft/core.rs:43-55 | The sender and memo are not parameters, because the sender checks and the event log are not modelled. Any deposit other than one yoctoNEAR aborts with nothing changed. Otherwise the lease map is exactly what the transfer leaves, and validity is preserved |
| LeaseTokenCore.LeaseContract.NftTransferCall | contract/src/nft/core.rs:58-92 | Applies the same one-yocto guard and the same transfer, then returns the receiver call carrying the sender, the previous owner, the token id, the message and the memo |
| LeaseTokenCore.ShouldRevert | contract/src/nft/core.rs:154-164 | Aborts exactly on NotReady. Keeps the token only on a parsed `false`. A failed promise or an unparsable answer reverts |
| LeaseTokenCore.ResolveTransferAsWritten | contract/src/nft/core.rs:144-196 | The code as written: it reverts only when the map has an entry under the token id itself whose lender is the receiver. Otherwise it returns true with nothing changed, unless the promise was not ready |
| LeaseTokenCore.ResolveTransfer | contract/src/nft/core.rs:144-196 | Returns false exactly when a revert is asked for and the token's lease still has the receiver as lender. In that case only that lease's lender changes, back to the previous owner. In every other case nothing changes, and the result is true unless the promise was not ready |
| LeaseTokenCore.LeaseContract.NftResolveTransfer | contract/src/nft/core.rs:144-196 | The result and the new lease map are those of ResolveTransfer, and validity is preserved |
| LeaseTokenCore.TransferCallThenRevertRestores | contract/src/nft/core.rs:58-92 | A transfer followed by a reverting resolve returns false and restores the original lease map exactly |
| LeaseTokenCore.TransferCallAcceptedKeeps | contract/src/nft/core.rs:166-169 | A receiver that answers false keeps the token: the result is true and nothing changes |
| LeaseTokenCore.ResolveAsWrittenNeverReverts | contract/src/nft/core.rs:172-181 | As written, a lease token is never handed back, because the lookup by token id misses |
| LeaseTokenCore.ResolveAsWrittenCounterexample | contract/src/nft/core.rs:172 | Lease "test_key" lent by alice, with its token sent to bob and then asked back: as written bob keeps it, and when keyed by the lease id alice gets it back |
| NftCallbacks.FirstFailure | marketplace/src/nft_callbacks.rs:39-75 | None exactly when every guard holds. Otherwise it is the error of a failing guard that every earlier guard passes |
| NftCallbacks.NftOnApprove | marketplace/src/nft_callbacks.rs:33-98 | On success the message parsed, and the payout query and the listing callback carry the token, the price, the lease times, the owner, the approval id and the predecessor as the NFT contract. The payout query asks for at most 50 payout entries |
| NftCallbacks.NftOnApproveFirstFailingGuard | marketplace/src/nft_callbacks.rs:39-75 | The call succeeds exactly when all six guards hold. Otherwise it fails with the panic of the first failing guard |
| NftCallbacks.NeverListedTwice | marketplace/src/nft_callbacks.rs:58-64 | A token already listed under its NFT contract is rejected |
| NftCallbacks.EachGuardRejects | marketplace/src/nft_callbacks.rs:40-75 | Each guard on its own rejects the call: a call that is not cross-contract, an owner who is not the signer, an NFT contract that is not allowed, an unparsable message, an FT contract that is not allowed |
| MyNftPage.FindUnderLease | frontend/src/section/myNft/MyNftPage.jsx:82 | None exactly when no row under lease has the lease's contract and token id. Otherwise it is the index of the first such row |
| MyNftPage.MatchedEntriesMembers | frontend/src/section/myNft/MyNftPage.jsx:82-83 | A lease is among the matched leases exactly when it is listed and has a matching row |
| MyNftPage.EnrichedIsMatched | frontend/src/section/myNft/MyNftPage.jsx:80-94 | One loop pushes one record per matched lease, in lease order. Each record is the first matching row with all the lease's fields |
| MyNftPage.ReconciledShape | frontend/src/section/myNft/MyNftPage.jsx:79-109 | The joined list holds the owned rows unchanged and without lease fields, then the matched lendings, then the matched borrowings |
| MyNftPage.UnmatchedLeaseDropped | frontend/src/section/myNft/MyNftPage.jsx:83 | A lease without a matching row adds nothing |
| MyNftPage.DualRoleNotDeduplicated | frontend/src/section/myNft/MyNftPage.jsx:80-108 | A matched lease that is both a lending and a borrowing yields two records |
| MyNftPage.Reconcile | frontend/src/section/myNft/MyNftPage.jsx:79-109 | The two loops build exactly the joined list |
| MyNftPage.ContractKeysExact | frontend/src/section/myNft/MyNftPage.jsx:111-119 | The groups' keys are exactly the records' contract ids, each once |
| MyNftPage.ContractKeysFirstSeenOrder | frontend/src/section/myNft/MyNftPage.jsx:111-119 | Keys are created in the order their contracts first occur |
| MyNftPage.BucketMembers | frontend/src/section/myNft/MyNftPage.jsx:113-118 | A group holds only records of its contract and every record of it. A contract without records has an empty group |
| MyNftPage.GroupingPreservesCount | frontend/src/section/myNft/MyNftPage.jsx:111-119 | The groups together hold as many records as the input |
| MyNftPage.GroupByContract | frontend/src/section/myNft/MyNftPage.jsx:111-119 | The loop builds the keys in creation order, and each key's group holds that contract's records in order |
| MyNftPage.TimeLeft | frontend/src/section/myNft/MyNftPage.jsx:139-141 | The remaining time is positive and reaches the lease end from now |
| MyNftPage.TimeSinceEnd | frontend/src/section/myNft/MyNftPage.jsx:142-144 | The time since the end is non-negative and reaches now from the lease end |
| MyNftPage.LeaseLabelsExclusive | frontend/src/section/myNft/MyNftPage.jsx:139-144 | For a present lease end exactly one of "Lease ends" and "Lease ended" shows. Without one, neither shows |
| MyNftPage.EndInstantIsEndedButNotClaimable | frontend/src/section/myNft/MyNftPage.jsx:142-150 | At the instant the lease ends the card says "ended", but the strict claim-back test fails |
| MyNftPage.ClaimBackAsWritten | frontend/src/section/myNft/MyNftPage.jsx:149-151 | Evaluated with JavaScript's `&&` and `\|\|`, the expression as written is the button exactly when the intended claim-back condition fails and a wallet is signed in. When the condition holds it is `true`, which renders nothing |
| MyNftPage.RentedFromAsWritten | frontend/src/section/myNft/MyNftPage.jsx:137 | As written, "Rented from" is the element exactly when the intended condition (a lender other than the viewer) fails and a wallet is signed in |
| MyNftPage.RentedToAsWritten | frontend/src/section/myNft/MyNftPage.jsx:138 | As written, "Rented to" is the element exactly when the intended condition (a borrower other than the viewer) fails and a wallet is signed in |
| MyNftPage.ClaimBackAsWrittenInverted | frontend/src/section/myNft/MyNftPage.jsx:149-151 | As written, Claim back is hidden on the claimable lending and shown on a plain owned token |
| MyNftPage.RentedFromAsWrittenInverted | frontend/src/section/myNft/MyNftPage.jsx:137 | As written, "Rented from" is hidden on a borrowed token and shown on a plain owned token |
| MyNftPage.RentedToAsWrittenInverted | frontend/src/section/myNft/MyNftPage.jsx:138 | As written, "Rented to" is hidden on a lent-out token and shown on a plain owned token |
| MyNftPage.CardView | frontend/src/section/myNft/MyNftPage.jsx:128-154 | As meant (the code as written shows "Rented from/to" and Claim back in exactly the opposite cases; see Findings): a card shows the row's title and media. It shows "Rented from" with the lender exactly when there is a lender other than the viewer, and "Rented to" with the borrower under the same rule. It offers Lend exactly when there is neither a lender nor a borrower, and shows each lease label under its own condition with the right duration. It offers Claim back, for the lease id, exactly when the lease has ended strictly and the viewer is its lender. Its Details click goes to "details" with the contract and the token |
| MyNftPage.AsWrittenInvertsCard | frontend/src/section/myNft/MyNftPage.jsx:137-151 | For every card and every signed-in wallet, each as-written element (Claim back, "Rented from", "Rented to") shows exactly when the card as meant hides it |
| MyNftPage.ActionsOnReconciled | frontend/src/section/myNft/MyNftPage.jsx:146-151 | As meant (see Findings for Claim back as written): over the joined list, Lend is offered exactly on the owned rows. Claim back is offered only on a leased record of the viewer whose end has passed |
| MyNftPage.Render | frontend/src/section/myNft/MyNftPage.jsx:73-119 | Error, Loading and "No data" come first, in that order. Otherwise the page shows the groups of the joined list |
| ShopPage.TokenQueryVariables | frontend/src/section/shop/ShopPage.jsx:48-51 | The query asks for the shop's fixed contract and for each listing's token id, in order |
| ShopPage.TokenIndexKeys | frontend/src/section/shop/ShopPage.jsx:61-64 | The index has a key for every row's token id and no other, and each key maps to a row with that id |
| ShopPage.TokenIndexLastWins | frontend/src/section/shop/ShopPage.jsx:61-64 | When token ids repeat, the last row wins |
| ShopPage.IndexByTokenId | frontend/src/section/shop/ShopPage.jsx:61-64 | The loop builds exactly the index |
| ShopPage.CardFor | frontend/src/section/shop/ShopPage.jsx:73-85 | A card shows the token's title and media and the listing's price, FT contract, start and duration (start plus duration is the end). Its Rent ("rent") and Details ("nfts") clicks both name the listing's contract and token |
| ShopPage.Cards | frontend/src/section/shop/ShopPage.jsx:71-87 | The render fails exactly when some listing's token is missing from the index. Otherwise there is one card per listing with that token's title and media, the listing's price, FT contract, duration and start, and Rent ("rent") and Details ("nfts") clicks |
| ShopPage.Render | frontend/src/section/shop/ShopPage.jsx:55-91 | Error and Loading come first. The empty-shop message shows exactly when there are no listings. The grid shows exactly when every card can be built |
| ShopPage.ShopShowsEveryListing | frontend/src/section/shop/ShopPage.jsx:61-87 | When every listed token has a row, every listing gets a card showing the last row with its token id |
| NftPage.FindOwned | frontend/src/section/shop/NftPage.jsx:61 | Finds a row of the viewer exactly when the token id is defined and some row has it |
| NftPage.IsValid | frontend/src/section/shop/NftPage.jsx:61 | `valid` holds exactly when the query has answered, the page has a token id, and one of the viewer's rows has that token id |
| NftPage.ValidIgnoresContract | frontend/src/section/shop/NftPage.jsx:61 | Owning a token of any contract with the same token id makes the page valid |
| NftPage.NotValidWithoutData | frontend/src/section/shop/NftPage.jsx:61 | Before the query answers, the page is not valid |
| NftPage.LendClick | frontend/src/section/shop/NftPage.jsx:72-73 | Lend is offered exactly when the page is valid, and it goes to "lend" with the page's contract and token |
| NftPage.BackTarget | frontend/src/section/shop/NftPage.jsx:82 | As written, Back goes to My NFT exactly when the page's title is "nft", and to the shop otherwise |
| NftPage.BackTargetIntended | frontend/src/section/shop/NftPage.jsx:82 | Back goes to My NFT exactly when the page was opened as "details", and to the shop otherwise |
| NftPage.Render | frontend/src/section/shop/NftPage.jsx:72-85 | The page offers the Lend click and the intended Back click |
| Landing.TruthyClasses | frontend/src/components/Landing.tsx:18 | The filter keeps no empty class |
| Landing.TruthyClassesAppend | frontend/src/components/Landing.tsx:18 | The filter keeps order: filtering a concatenation concatenates the filtered parts |
| Landing.SplitJoinRoundTrip | frontend/src/components/Landing.tsx:18 | Joining with single spaces and splitting again gives back the classes, when no class contains a space |
| Landing.ClassNames | frontend/src/components/Landing.tsx:17-19 | For any arguments, the result is "" exactly when no argument is truthy |
| Landing.JoinWithSpaceAppend | frontend/src/components/Landing.tsx:18 | Joining two non-empty lists puts exactly one space between their joins |
| Landing.ClassNamesConcat | frontend/src/components/Landing.tsx:17-19 | For any arguments, spaces inside them included: two argument lists that each have a truthy argument give their results joined by one space. A list with no truthy argument contributes nothing |
| Landing.ClassNamesSingle | frontend/src/components/Landing.tsx:17-19 | One argument gives itself when truthy and "" otherwise |
| Landing.NavigationButtonClasses | frontend/src/components/Landing.tsx:93-98 | The navigation button's classes are its colour classes (by `current`), one space, then its layout classes |
| Landing.ClassNamesSplitsBack | frontend/src/components/Landing.tsx:17-19 | When every argument is a single class name, splitting the result on spaces gives back the truthy arguments, in order |
| Landing.PageFor | frontend/src/components/Landing.tsx:108-115 | Each of the eight values renders its page. Any other value renders nothing |
| Landing.AtMostOnePage | frontend/src/components/Landing.tsx:108-115 | No value renders two pages |
| Landing.LandingPage.CurrentPage | frontend/src/components/Landing.tsx:108-115 | The page rendered is the one keyed by `lendModal`, or none |
| Landing.LandingPage.constructor | frontend/src/components/Landing.tsx:41-44 | The shop shows first, with nothing selected and the buy modal closed |
| Landing.LandingPage.HandleCloseBuyModal | frontend/src/components/Landing.tsx:57-60 | Clears the selection and closes the buy modal, and changes nothing else |
| Landing.LandingPage.HandleRentModal | frontend/src/components/Landing.tsx:62-64 | Selects the named page and changes nothing else. A navigation name keeps the page consistent with its parameters |
| Landing.LandingPage.HandleShop | frontend/src/components/Landing.tsx:66-69 | Selects the item's page and makes the item its parameters, so a page that takes parameters shows the item that selected it |
| Landing.LandingPage.FinishLend | frontend/src/components/Landing.tsx:115 | Finishing the lend page returns to My NFT |
| Landing.BackAsWrittenAlwaysShops | frontend/src/section/shop/NftPage.jsx:82 | In every state the handlers reach, the detail page's Back as written goes to the shop |
| Landing.DetailsClicksRoundTrip | frontend/src/section/myNft/MyNftPage.jsx:153 | A My NFT Details click opens the detail page, whose intended Back returns to My NFT. A shop Details click opens the same page, whose Back returns to the shop |

## Left out

- Network and storage I/O are not modelled: the GraphQL queries (`useQuery`), the `useEffect` fetches of lendings, borrowings and listings, `initContract`, `getAllowedFTs` and the rest of `near-api.js`. Their answers are parameters, and a query's state is `Loading | Failed | NoData | Loaded`.
- The clock (`Date.now() * MS_TO_NS_SCALE`) is a parameter `now` in nanoseconds.
- `window.accountId` is a parameter, and so is the wallet's `activeAccountId`.
- `Object.entries` lists integer-like keys first, in ascending order, and only then the other keys in creation order. The model keeps creation order only: NEAR contract ids are not integer-like.
- ShopPage.Cards: `nft_info_by_token_id` is a plain `{}` object, and the model assumes no token id is an `Object.prototype` property name. For an id such as "constructor", the lookup finds the inherited property: `.title` is undefined and nothing is thrown, so such a listing is not "missing".
- MyNftPage.GroupByContract: `nfts_by_contract` is a plain `{}` object, and the model assumes no contract id is an `Object.prototype` property name. For a contract id such as "constructor", line 114 is truthy on first sight and the `push` at line 115 throws.
- The formatting helpers `durationString`, `dateTimeString`, `fromNormalisedAmount` and `ftSymbol` are not part of this model. Cards keep their raw inputs instead.
- `claimBack`, the buy modal, `NftInfo`, `ListingAcceptPage`, `ListingCreationPage`, `LendingsPage` and `BorrowingsPage` are not part of this model, beyond the page table.
- Markup and CSS classes, other than `classNames` itself, are not modelled.
- `lease_token_id_to_lease_id`, `internal_transfer` and `internal_update_active_lease_lender` are not part of this model. They are modelled from their uses: the `_lender` suffix, a transfer that needs an active and recorded lease, and a lender update.
- LeaseTokenCore.InternalTransfer: does not model the sender checks of `internal_transfer`, whose body is not part of this model.
- The NEP-297 transfer event logs are not modelled.
- Gas amounts (`GAS_FOR_RESOLVE_TRANSFER`, `GAS_FOR_NFT_ON_TRANSFER`, `GAS_FOR_ROYALTIES`) are not modelled.
- The `approval_id` argument, which the contract ignores, is not modelled.
- The lease state field and the other `LeaseCondition` fields that these calls do not read are not modelled.
- The contents of `data_image_svg.txt` are a parameter of `NftToken`.
- `U128` and `U64` are modelled as unbounded naturals. JSON parsing is a parameter `parse`, which returns None on a malformed message or an out-of-range number.
- The on-chain effects of `nft_payout` and `create_listing_with_payout` are not modelled. They run in later receipts.
- The JavaScript lease end is a number taken as it comes. Comparing a string with a number is not modelled.

## Findings

| source | as written | input that shows it | evidently intended | confidence | as-written member | corrected member |
|---|---|---|---|---|---|---|
| contract/src/nft/core.rs:172 | `nft_resolve_transfer` looks up `lease_map` with the token id, but the map is keyed by lease id | lease "test_key" lent by alice; its token "test_key_lender" sent to bob by `nft_transfer_call`; bob's contract answers true. The lookup misses, the call returns true and bob keeps the token | look up the lease of the token (`lease_token_id_to_lease_id`) and hand the token back to alice | medium, not executed | LeaseTokenCore.ResolveTransferAsWritten | LeaseTokenCore.ResolveTransfer |
| frontend/src/section/myNft/MyNftPage.jsx:149-151 | `A && B && C && D \|\| activeAccountId && <button>` groups as `(A&&B&&C&&D) \|\| (activeAccountId && <button>)`, and React renders `true` as nothing | a lending of the signed-in viewer whose end has passed: no Claim back button. A plain owned token: a Claim back button. Lines 137-138 ("Rented from/to") have the same shape | show Claim back when the lease has ended and the viewer is its lender | high, not executed | MyNftPage.ClaimBackAsWritten | MyNftPage.CardView |
| frontend/src/section/shop/NftPage.jsx:82 | Back goes to My NFT only when the page's title is "nft", but the page is opened only as "nfts" (shop) or "details" (My NFT) | Details on a My NFT card, then Back: the shop opens | return to My NFT when opened from My NFT ("details") | medium, not executed | Landing.BackAsWrittenAlwaysShops | NftPage.BackTargetIntended |
