/** The My NFT page: joining the account's lendings and borrowings with the
    indexer rows the rental contract holds, grouping the result by NFT
    contract, and the per-card conditions (lease end, Lend, Claim back). */
module MyNftPage {
  import opened Wrappers
  import opened Records

  // ---------------------------------------------------------------------
  // The join
  // ---------------------------------------------------------------------

  /** The test of the `find` callback: same NFT contract and same token id. */
  predicate KeyMatches(x: IndexedNft, i: LeaseInfo) {
    x.nftContractId == i.contractAddr && x.tokenId == i.tokenId
  }

  /** Some row held under lease is the token the lease is about. */
  predicate HasMatch(underLease: seq<IndexedNft>, i: LeaseInfo) {
    exists k :: 0 <= k < |underLease| && KeyMatches(underLease[k], i)
  }

  /** Row k is the first row matching the lease. */
  predicate FirstMatchAt(underLease: seq<IndexedNft>, i: LeaseInfo, k: int) {
    && 0 <= k < |underLease|
    && KeyMatches(underLease[k], i)
    && forall j :: 0 <= j < k ==> !KeyMatches(underLease[j], i)
  }

  /** `under_lease.find(...)`: the index of the first matching row, if any. */
  function FindUnderLease(underLease: seq<IndexedNft>, i: LeaseInfo): (r: Option<nat>)
    ensures r.None? <==> !HasMatch(underLease, i)
    ensures r.Some? ==> FirstMatchAt(underLease, i, r.value)
    decreases |underLease|
  {
    if |underLease| == 0 then None
    else if KeyMatches(underLease[0], i) then Some(0)
    else
      match FindUnderLease(underLease[1..], i)
      case None =>
        assert forall k :: 0 < k < |underLease| ==> underLease[k] == underLease[1..][k - 1];
        None
      case Some(k) =>
        assert forall j :: 0 < j < k + 1 ==> underLease[j] == underLease[1..][j - 1];
        Some(k + 1)
  }

  /** `{...nft, lease_id, lender_id, borrower_id, lease_start_ts_nano, lease_end_ts_nano}` */
  function Enrich(nft: IndexedNft, e: LeaseEntry): NftRecord {
    NftRecord(nft, Some(LeaseFields(e.leaseId, e.info.lenderId, e.info.borrowerId,
                                    e.info.startTsNano, e.info.endTsNano)))
  }

  /** `r` is the first matching row (FindUnderLease) enriched with every
      lease field of `e`. */
  predicate EnrichedFrom(underLease: seq<IndexedNft>, e: LeaseEntry, r: NftRecord) {
    var k := FindUnderLease(underLease, e.info);
    k.Some? && FirstMatchAt(underLease, e.info, k.value) && r == Enrich(underLease[k.value], e)
  }

  /** `[...data.user_owned]`: the owned rows, with no lease fields. */
  function Unenriched(userOwned: seq<IndexedNft>): seq<NftRecord> {
    seq(|userOwned|, k requires 0 <= k < |userOwned| => NftRecord(userOwned[k], None))
  }

  /** What one lease pushes: the enriched first match, or nothing. */
  function Contribution(underLease: seq<IndexedNft>, e: LeaseEntry): seq<NftRecord> {
    match FindUnderLease(underLease, e.info)
    case None => []
    case Some(k) => [Enrich(underLease[k], e)]
  }

  /** What a whole `for` loop over lendings (or borrowings) pushes. */
  function Enriched(underLease: seq<IndexedNft>, entries: seq<LeaseEntry>): seq<NftRecord>
    decreases |entries|
  {
    if entries == [] then []
    else Enriched(underLease, entries[..|entries| - 1])
         + Contribution(underLease, entries[|entries| - 1])
  }

  /** The `nfts` array after both loops. */
  function Reconciled(userOwned: seq<IndexedNft>, underLease: seq<IndexedNft>,
                      lendings: seq<LeaseEntry>, borrowings: seq<LeaseEntry>): seq<NftRecord>
  {
    Unenriched(userOwned) + Enriched(underLease, lendings) + Enriched(underLease, borrowings)
  }

  /** Reference definition: the leases that have a matching row, in order. */
  function MatchedEntries(underLease: seq<IndexedNft>, entries: seq<LeaseEntry>): (m: seq<LeaseEntry>)
    decreases |entries|
  {
    if entries == [] then []
    else MatchedEntries(underLease, entries[..|entries| - 1])
         + (if HasMatch(underLease, entries[|entries| - 1].info) then [entries[|entries| - 1]] else [])
  }

  /** A lease is among the matched ones exactly when it is in the list and has a match. */
  lemma {:induction false} MatchedEntriesMembers(underLease: seq<IndexedNft>, entries: seq<LeaseEntry>, e: LeaseEntry)
    ensures e in MatchedEntries(underLease, entries) <==> e in entries && HasMatch(underLease, e.info)
    decreases |entries|
  {
    if entries != [] {
      var init := entries[..|entries| - 1];
      MatchedEntriesMembers(underLease, init, e);
      assert entries == init + [entries[|entries| - 1]];
    }
  }

  /** The j-th record pushed by a loop is the enrichment of the j-th lease that
      has a match: one record per matched lease, none for the others, in lease
      order, built from the first matching row and all of the lease's fields. */
  lemma {:induction false} EnrichedIsMatched(underLease: seq<IndexedNft>, entries: seq<LeaseEntry>)
    ensures |Enriched(underLease, entries)| == |MatchedEntries(underLease, entries)|
    ensures forall j :: 0 <= j < |Enriched(underLease, entries)| ==>
              EnrichedFrom(underLease, MatchedEntries(underLease, entries)[j], Enriched(underLease, entries)[j])
    decreases |entries|
  {
    if entries != [] {
      var init, e := entries[..|entries| - 1], entries[|entries| - 1];
      EnrichedIsMatched(underLease, init);
      var found := FindUnderLease(underLease, e.info);
      if found.Some? {
        assert EnrichedFrom(underLease, e, Enrich(underLease[found.value], e));
      }
    }
  }

  /** The whole join: the owned rows first and unchanged, then one record per
      matched lending, then one per matched borrowing. */
  lemma ReconciledShape(userOwned: seq<IndexedNft>, underLease: seq<IndexedNft>,
                        lendings: seq<LeaseEntry>, borrowings: seq<LeaseEntry>)
    ensures var out := Reconciled(userOwned, underLease, lendings, borrowings);
            var ml, mb := MatchedEntries(underLease, lendings), MatchedEntries(underLease, borrowings);
            && |out| == |userOwned| + |ml| + |mb|
            && (forall j :: 0 <= j < |userOwned| ==> out[j] == NftRecord(userOwned[j], None))
            && (forall j :: 0 <= j < |ml| ==> EnrichedFrom(underLease, ml[j], out[|userOwned| + j]))
            && (forall j :: 0 <= j < |mb| ==> EnrichedFrom(underLease, mb[j], out[|userOwned| + |ml| + j]))
  {
    EnrichedIsMatched(underLease, lendings);
    EnrichedIsMatched(underLease, borrowings);
  }

  /** A lease without a matching row contributes nothing: the output is what
      it would be without that lease. */
  lemma {:induction false} UnmatchedLeaseDropped(underLease: seq<IndexedNft>, entries: seq<LeaseEntry>, e: LeaseEntry)
    requires !HasMatch(underLease, e.info)
    ensures Enriched(underLease, entries + [e]) == Enriched(underLease, entries)
  {
    assert (entries + [e])[..|entries|] == entries;
  }

  /** No deduplication: a matched lease that is both a lending and a borrowing
      of the account yields two records, one in each part of the output. */
  lemma DualRoleNotDeduplicated(userOwned: seq<IndexedNft>, underLease: seq<IndexedNft>,
                                lendings: seq<LeaseEntry>, borrowings: seq<LeaseEntry>, e: LeaseEntry)
    requires e in lendings && e in borrowings && HasMatch(underLease, e.info)
    ensures var out := Reconciled(userOwned, underLease, lendings, borrowings);
            exists j1, j2 :: |userOwned| <= j1 < j2 < |out| && EnrichedFrom(underLease, e, out[j1])
                             && EnrichedFrom(underLease, e, out[j2])
  {
    var el, eb := Enriched(underLease, lendings), Enriched(underLease, borrowings);
    var a := EnrichedRecordOf(underLease, lendings, e);
    var b := EnrichedRecordOf(underLease, borrowings, e);
    var out := Reconciled(userOwned, underLease, lendings, borrowings);
    var j1, j2 := |userOwned| + a, |userOwned| + |el| + b;
    assert j2 < |out| && out[j1] == el[a] && out[j2] == eb[b] by {
      assert out == Unenriched(userOwned) + el + eb;
    }
    assert EnrichedFrom(underLease, e, out[j1]) && EnrichedFrom(underLease, e, out[j2]);
  }

  /** The position of a matched lease's record in one loop's output. */
  lemma EnrichedRecordOf(underLease: seq<IndexedNft>, entries: seq<LeaseEntry>, e: LeaseEntry) returns (j: nat)
    requires e in entries && HasMatch(underLease, e.info)
    ensures j < |Enriched(underLease, entries)| && EnrichedFrom(underLease, e, Enriched(underLease, entries)[j])
  {
    var ml := MatchedEntries(underLease, entries);
    MatchedEntriesMembers(underLease, entries, e);
    EnrichedIsMatched(underLease, entries);
    j :| 0 <= j < |ml| && ml[j] == e;
  }

  /** The body of `MyNftPage` from line 79 to line 109. */
  method Reconcile(userOwned: seq<IndexedNft>, underLease: seq<IndexedNft>,
                   lendings: seq<LeaseEntry>, borrowings: seq<LeaseEntry>)
    returns (nfts: seq<NftRecord>)
    ensures nfts == Reconciled(userOwned, underLease, lendings, borrowings)
  {
    nfts := Unenriched(userOwned);
    var n := 0;
    while n < |lendings|
      invariant 0 <= n <= |lendings|
      invariant nfts == Unenriched(userOwned) + Enriched(underLease, lendings[..n])
    {
      var l := lendings[n];
      var nft := FindUnderLease(underLease, l.info);
      if nft.Some? {
        nfts := nfts + [Enrich(underLease[nft.value], l)];
      }
      assert lendings[..n + 1][..n] == lendings[..n];
      n := n + 1;
    }
    assert lendings[..n] == lendings;
    var m := 0;
    while m < |borrowings|
      invariant 0 <= m <= |borrowings|
      invariant nfts == Unenriched(userOwned) + Enriched(underLease, lendings)
                        + Enriched(underLease, borrowings[..m])
    {
      var b := borrowings[m];
      var nft := FindUnderLease(underLease, b.info);
      if nft.Some? {
        nfts := nfts + [Enrich(underLease[nft.value], b)];
      }
      assert borrowings[..m + 1][..m] == borrowings[..m];
      m := m + 1;
    }
    assert borrowings[..m] == borrowings;
  }

  // ---------------------------------------------------------------------
  // Grouping by NFT contract
  // ---------------------------------------------------------------------

  function ContractOf(r: NftRecord): string {
    r.nft.nftContractId
  }

  /** The keys of `nfts_by_contract`, in the order the loop creates them. */
  function ContractKeys(s: seq<NftRecord>): seq<string>
    decreases |s|
  {
    if s == [] then []
    else
      var keys := ContractKeys(s[..|s| - 1]);
      var key := ContractOf(s[|s| - 1]);
      if key in keys then keys else keys + [key]
  }

  /** The bucket of one contract: the records of that contract, in order. */
  function Bucket(s: seq<NftRecord>, key: string): seq<NftRecord>
    decreases |s|
  {
    if s == [] then []
    else Bucket(s[..|s| - 1], key) + (if ContractOf(s[|s| - 1]) == key then [s[|s| - 1]] else [])
  }

  /** The keys are the contract ids of the records, each exactly once. */
  lemma {:induction false} ContractKeysExact(s: seq<NftRecord>)
    ensures forall key :: key in ContractKeys(s) <==> exists j :: 0 <= j < |s| && ContractOf(s[j]) == key
    ensures forall a, b :: 0 <= a < b < |ContractKeys(s)| ==> ContractKeys(s)[a] != ContractKeys(s)[b]
    decreases |s|
  {
    if s != [] {
      var init := s[..|s| - 1];
      ContractKeysExact(init);
      forall key | exists j :: 0 <= j < |s| && ContractOf(s[j]) == key
        ensures key in ContractKeys(s)
      {
        var j :| 0 <= j < |s| && ContractOf(s[j]) == key;
        if j < |s| - 1 {
          assert ContractOf(init[j]) == key;
        }
      }
      forall key | key in ContractKeys(s)
        ensures exists j :: 0 <= j < |s| && ContractOf(s[j]) == key
      {
        if key in ContractKeys(init) {
          var j :| 0 <= j < |init| && ContractOf(init[j]) == key;
          assert ContractOf(s[j]) == key;
        } else {
          assert ContractOf(s[|s| - 1]) == key;
        }
      }
    }
  }

  /** Some record before position j belongs to the contract. */
  ghost predicate SeenBefore(s: seq<NftRecord>, key: string, j: int) {
    exists i :: 0 <= i < j && i < |s| && ContractOf(s[i]) == key
  }

  /** Keys appear in first-seen order: wherever a later key occurs in the
      records, every earlier key has already occurred before it. */
  lemma {:induction false} ContractKeysFirstSeenOrder(s: seq<NftRecord>)
    ensures forall a, b, j :: 0 <= a < b < |ContractKeys(s)| && 0 <= j < |s| && ContractOf(s[j]) == ContractKeys(s)[b]
              ==> SeenBefore(s, ContractKeys(s)[a], j)
    decreases |s|
  {
    if s != [] {
      var init := s[..|s| - 1];
      var keys, old_keys := ContractKeys(s), ContractKeys(init);
      var last := ContractOf(s[|s| - 1]);
      assert keys == if last in old_keys then old_keys else old_keys + [last];
      ContractKeysFirstSeenOrder(init);
      ContractKeysExact(init);
      forall a, b, j | 0 <= a < b < |keys| && 0 <= j < |s| && ContractOf(s[j]) == keys[b]
        ensures SeenBefore(s, keys[a], j)
      {
        assert keys[a] == old_keys[a];
        if j < |s| - 1 {
          assert ContractOf(init[j]) == keys[b];
          if b == |old_keys| {
            // keys[b] is the new key, which no earlier record has
            assert false;
          }
          assert SeenBefore(init, old_keys[a], j);
          var i :| 0 <= i < j && i < |init| && ContractOf(init[i]) == keys[a];
          assert ContractOf(s[i]) == keys[a];
        } else if b < |old_keys| {
          assert keys[b] in old_keys;
          var j' :| 0 <= j' < |init| && ContractOf(init[j']) == keys[b];
          assert SeenBefore(init, old_keys[a], j');
          var i :| 0 <= i < j' && i < |init| && ContractOf(init[i]) == keys[a];
          assert ContractOf(s[i]) == keys[a];
        } else {
          assert keys[a] in old_keys;
          var i :| 0 <= i < |init| && ContractOf(init[i]) == keys[a];
          assert ContractOf(s[i]) == keys[a];
        }
      }
    }
  }

  /** Every record of a bucket has the bucket's contract, every record lies in
      its own contract's bucket, and a contract with no record has no bucket
      contents. */
  lemma {:induction false} BucketMembers(s: seq<NftRecord>, key: string)
    ensures forall r :: r in Bucket(s, key) ==> ContractOf(r) == key
    ensures forall j :: 0 <= j < |s| && ContractOf(s[j]) == key ==> s[j] in Bucket(s, key)
    ensures key !in ContractKeys(s) ==> Bucket(s, key) == []
    decreases |s|
  {
    if s != [] {
      var init := s[..|s| - 1];
      BucketMembers(init, key);
      forall j | 0 <= j < |s| - 1 && ContractOf(s[j]) == key
        ensures s[j] in Bucket(s, key)
      {
        assert s[j] == init[j];
      }
    }
  }

  /** Sum of the bucket sizes over a list of keys. */
  function BucketSizes(s: seq<NftRecord>, keys: seq<string>): nat
    decreases |keys|
  {
    if keys == [] then 0 else |Bucket(s, keys[0])| + BucketSizes(s, keys[1..])
  }

  /** Appending one record grows the sum by one when its key is listed once,
      and leaves it alone when its key is not listed. */
  lemma {:induction false} BucketSizesAppend(s: seq<NftRecord>, r: NftRecord, keys: seq<string>)
    requires forall a, b :: 0 <= a < b < |keys| ==> keys[a] != keys[b]
    ensures BucketSizes(s + [r], keys) == BucketSizes(s, keys) + (if ContractOf(r) in keys then 1 else 0)
    decreases |keys|
  {
    if keys != [] {
      assert (s + [r])[..|s|] == s;
      BucketSizesAppend(s, r, keys[1..]);
      if ContractOf(r) == keys[0] {
        assert ContractOf(r) !in keys[1..];
      }
    }
  }

  lemma {:induction false} BucketSizesSnoc(s: seq<NftRecord>, keys: seq<string>, key: string)
    ensures BucketSizes(s, keys + [key]) == BucketSizes(s, keys) + |Bucket(s, key)|
    decreases |keys|
  {
    if keys != [] {
      assert (keys + [key])[1..] == keys[1..] + [key];
      BucketSizesSnoc(s, keys[1..], key);
    }
  }

  /** Grouping loses and duplicates nothing: the buckets of all keys hold as
      many records as the input. */
  lemma {:induction false} GroupingPreservesCount(s: seq<NftRecord>)
    ensures BucketSizes(s, ContractKeys(s)) == |s|
    decreases |s|
  {
    if s != [] {
      var init, r := s[..|s| - 1], s[|s| - 1];
      assert s == init + [r];
      GroupingPreservesCount(init);
      ContractKeysExact(init);
      BucketSizesAppend(init, r, ContractKeys(init));
      if ContractOf(r) !in ContractKeys(init) {
        BucketSizesSnoc(s, ContractKeys(init), ContractOf(r));
        BucketMembers(init, ContractOf(r));
        assert Bucket(s, ContractOf(r)) == [r];
      }
    }
  }

  /** The loop of lines 111-119: `nfts_by_contract` as a map plus the order
      in which its keys were created. */
  method GroupByContract(nfts: seq<NftRecord>) returns (keys: seq<string>, groups: map<string, seq<NftRecord>>)
    ensures keys == ContractKeys(nfts)
    ensures forall key :: key in groups <==> key in keys
    ensures forall key :: key in groups ==> groups[key] == Bucket(nfts, key)
  {
    keys, groups := [], map[];
    var n := 0;
    while n < |nfts|
      invariant 0 <= n <= |nfts|
      invariant keys == ContractKeys(nfts[..n])
      invariant forall key :: key in groups <==> key in keys
      invariant forall key :: key in groups ==> groups[key] == Bucket(nfts[..n], key)
    {
      var i := nfts[n];
      var key := ContractOf(i);
      assert nfts[..n + 1][..n] == nfts[..n];
      assert nfts[..n + 1][n] == i;
      if key in groups {
        groups := groups[key := groups[key] + [i]];
      } else {
        BucketMembers(nfts[..n], key);
        groups := groups[key := [i]];
        keys := keys + [key];
      }
      n := n + 1;
    }
    assert nfts[..n] == nfts;
  }

  // ---------------------------------------------------------------------
  // One card
  // ---------------------------------------------------------------------

  /** "Lease ends: …" is shown (line 139). */
  predicate LeaseEndsShown(r: NftRecord, now: int) {
    TruthyNumber(r.LeaseEndTsNano()) && r.LeaseEndTsNano().value > now
  }

  /** "Lease ended: … ago" is shown (line 142). */
  predicate LeaseEndedShown(r: NftRecord, now: int) {
    TruthyNumber(r.LeaseEndTsNano()) && r.LeaseEndTsNano().value <= now
  }

  /** The duration handed to `durationString` under "Lease ends". */
  function TimeLeft(r: NftRecord, now: int): (d: nat)
    requires LeaseEndsShown(r, now)
    ensures d > 0 && now + d == r.lease.value.leaseEndTsNano
  {
    r.lease.value.leaseEndTsNano - now
  }

  /** The duration handed to `durationString` under "Lease ended". */
  function TimeSinceEnd(r: NftRecord, now: int): (d: nat)
    requires LeaseEndedShown(r, now)
    ensures r.lease.value.leaseEndTsNano + d == now
  {
    now - r.lease.value.leaseEndTsNano
  }

  /** For a lease end that is present (and non-zero), exactly one of the two
      labels shows; for a missing one, neither does. */
  lemma LeaseLabelsExclusive(r: NftRecord, now: int)
    ensures TruthyNumber(r.LeaseEndTsNano()) ==> (LeaseEndsShown(r, now) <==> !LeaseEndedShown(r, now))
    ensures !TruthyNumber(r.LeaseEndTsNano()) ==> !LeaseEndsShown(r, now) && !LeaseEndedShown(r, now)
  {
  }

  /** The Lend button (line 146). */
  predicate LendShown(r: NftRecord) {
    !Truthy(r.LenderId()) && !Truthy(r.BorrowerId())
  }

  /** The time test of Claim back (line 149) is strict. */
  predicate ClaimBackTimeTest(r: NftRecord, now: int) {
    TruthyNumber(r.LeaseEndTsNano()) && r.LeaseEndTsNano().value < now
  }

  /** The whole left operand of the Claim-back `||` (lines 149-150): the lease
      has ended and the viewer is its lender. */
  predicate ClaimBackEligible(r: NftRecord, now: int, windowAccountId: Option<string>) {
    ClaimBackTimeTest(r, now) && Truthy(r.LenderId()) && r.LenderId() == windowAccountId
  }

  /** At the instant the lease ends the card already says "ended", but the
      claim-back time test does not pass yet. */
  lemma EndInstantIsEndedButNotClaimable(r: NftRecord, now: int, windowAccountId: Option<string>)
    requires r.lease.Some? && r.lease.value.leaseEndTsNano == now && now != 0
    ensures LeaseEndedShown(r, now) && !LeaseEndsShown(r, now)
    ensures !ClaimBackTimeTest(r, now) && !ClaimBackEligible(r, now, windowAccountId)
  {
  }

  /** Claim back as written (lines 149-151):
      `end && end < now && lender && lender == window.accountId || activeAccountId && <button>`.
      `&&` binds tighter than `||`, so the button is the value only when the
      left operand is falsy; when it holds the value is `true`, which React
      renders as nothing. */
  function ClaimBackAsWritten(r: NftRecord, now: int, windowAccountId: Option<string>,
                              activeAccountId: Option<string>): (v: JsValue)
    ensures v == JsElement <==> !ClaimBackEligible(r, now, windowAccountId) && Truthy(activeAccountId)
    ensures ClaimBackEligible(r, now, windowAccountId) ==> v == JsBool(true)
  {
    var end, lender := OfNumber(r.LeaseEndTsNano()), OfString(r.LenderId());
    var ended := JsBool(r.LeaseEndTsNano().Some? && r.LeaseEndTsNano().value < now);
    var isLender := JsBool(lender == OfString(windowAccountId));
    JsOr(JsAnd(JsAnd(JsAnd(end, ended), lender), isLender), JsAnd(OfString(activeAccountId), JsElement))
  }

  /** "Rented from" as written (line 137):
      `lender && lender != window.accountId || activeAccountId && <p>`. */
  function RentedFromAsWritten(r: NftRecord, windowAccountId: Option<string>, activeAccountId: Option<string>): (v: JsValue)
    ensures v == JsElement <==> !(Truthy(r.LenderId()) && r.LenderId() != windowAccountId) && Truthy(activeAccountId)
    ensures Truthy(r.LenderId()) && r.LenderId() != windowAccountId ==> v == JsBool(true)
  {
    var lender := OfString(r.LenderId());
    JsOr(JsAnd(lender, JsBool(lender != OfString(windowAccountId))), JsAnd(OfString(activeAccountId), JsElement))
  }

  /** "Rented to" as written (line 138), with the same precedence. */
  function RentedToAsWritten(r: NftRecord, windowAccountId: Option<string>, activeAccountId: Option<string>): (v: JsValue)
    ensures v == JsElement <==> !(Truthy(r.BorrowerId()) && r.BorrowerId() != windowAccountId) && Truthy(activeAccountId)
    ensures Truthy(r.BorrowerId()) && r.BorrowerId() != windowAccountId ==> v == JsBool(true)
  {
    var borrower := OfString(r.BorrowerId());
    JsOr(JsAnd(borrower, JsBool(borrower != OfString(windowAccountId))), JsAnd(OfString(activeAccountId), JsElement))
  }

  /** As written, the Claim-back button is hidden on precisely the card whose
      lease the viewer may claim back, and shown on a plain owned token. */
  lemma ClaimBackAsWrittenInverted(nft: IndexedNft, e: LeaseEntry, now: int, account: string)
    requires account != "" && e.info.lenderId == account
    requires e.info.endTsNano != 0 && e.info.endTsNano < now
    ensures var leased := Enrich(nft, e);
            ClaimBackEligible(leased, now, Some(account))
            && ClaimBackAsWritten(leased, now, Some(account), Some(account)) != JsElement
    ensures ClaimBackAsWritten(NftRecord(nft, None), now, Some(account), Some(account)) == JsElement
  {
  }

  /** As written, "Rented from" is hidden on a borrowed token and shown on a
      plain owned token. */
  lemma RentedFromAsWrittenInverted(nft: IndexedNft, e: LeaseEntry, account: string)
    requires account != "" && e.info.lenderId != "" && e.info.lenderId != account
    ensures RentedFromAsWritten(Enrich(nft, e), Some(account), Some(account)) != JsElement
    ensures RentedFromAsWritten(NftRecord(nft, None), Some(account), Some(account)) == JsElement
  {
  }

  /** As written, "Rented to" is hidden on a lent-out token and shown on a
      plain owned token. */
  lemma RentedToAsWrittenInverted(nft: IndexedNft, e: LeaseEntry, account: string)
    requires account != "" && e.info.borrowerId != "" && e.info.borrowerId != account
    ensures RentedToAsWritten(Enrich(nft, e), Some(account), Some(account)) != JsElement
    ensures RentedToAsWritten(NftRecord(nft, None), Some(account), Some(account)) == JsElement
  {
  }

  /** What one card shows, with the labels and buttons as the code evidently
      means them (see ClaimBackAsWritten for the code as written). */
  datatype Card = Card(
    title: string,
    media: string,
    rentedFrom: Option<string>,
    rentedTo: Option<string>,
    leaseEndsIn: Option<nat>,
    leaseEndedAgo: Option<nat>,
    lend: Option<Click>,
    claimBack: Option<string>,
    details: Click)

  function CardView(r: NftRecord, now: int, windowAccountId: Option<string>): (c: Card)
    ensures c.lend.Some? <==> LendShown(r)
    ensures c.lend.Some? ==> c.lend.value == Click("lend", Some(r.nft.nftContractId), Some(r.nft.tokenId))
    ensures c.details == Click("details", Some(r.nft.nftContractId), Some(r.nft.tokenId))
    ensures c.leaseEndsIn.Some? <==> LeaseEndsShown(r, now)
    ensures c.leaseEndedAgo.Some? <==> LeaseEndedShown(r, now)
    ensures c.leaseEndsIn.Some? ==> now + c.leaseEndsIn.value == r.lease.value.leaseEndTsNano
    ensures c.leaseEndedAgo.Some? ==> r.lease.value.leaseEndTsNano + c.leaseEndedAgo.value == now
    ensures c.claimBack.Some? <==> ClaimBackEligible(r, now, windowAccountId)
    ensures c.claimBack.Some? ==> c.claimBack == Some(r.lease.value.leaseId)
    ensures c.title == r.nft.title && c.media == r.nft.media
    ensures c.rentedFrom.Some? <==> Truthy(r.LenderId()) && r.LenderId() != windowAccountId
    ensures c.rentedFrom.Some? ==> c.rentedFrom == r.LenderId()
    ensures c.rentedTo.Some? <==> Truthy(r.BorrowerId()) && r.BorrowerId() != windowAccountId
    ensures c.rentedTo.Some? ==> c.rentedTo == r.BorrowerId()
  {
    var lender, borrower := r.LenderId(), r.BorrowerId();
    Card(
      r.nft.title,
      r.nft.media,
      if Truthy(lender) && lender != windowAccountId then lender else None,
      if Truthy(borrower) && borrower != windowAccountId then borrower else None,
      if LeaseEndsShown(r, now) then Some(TimeLeft(r, now)) else None,
      if LeaseEndedShown(r, now) then Some(TimeSinceEnd(r, now)) else None,
      if LendShown(r) then Some(Click("lend", Some(r.nft.nftContractId), Some(r.nft.tokenId))) else None,
      if ClaimBackEligible(r, now, windowAccountId) then Some(r.lease.value.leaseId) else None,
      Click("details", Some(r.nft.nftContractId), Some(r.nft.tokenId)))
  }

  /** For every card and every signed-in wallet, each as-written element
      shows exactly when the card as meant hides it. */
  lemma AsWrittenInvertsCard(r: NftRecord, now: int, windowAccountId: Option<string>, activeAccountId: string)
    requires activeAccountId != ""
    ensures var c, a := CardView(r, now, windowAccountId), Some(activeAccountId);
            && (ClaimBackAsWritten(r, now, windowAccountId, a) == JsElement <==> c.claimBack.None?)
            && (RentedFromAsWritten(r, windowAccountId, a) == JsElement <==> c.rentedFrom.None?)
            && (RentedToAsWritten(r, windowAccountId, a) == JsElement <==> c.rentedTo.None?)
  {
  }

  /** Over the joined list, given that every lease names a lender (account ids
      are never empty): Lend is offered exactly on the owned rows, and Claim
      back only on a lending of the viewer whose end lies strictly before now. */
  lemma {:induction false} ActionsOnReconciled(userOwned: seq<IndexedNft>, underLease: seq<IndexedNft>,
                                               lendings: seq<LeaseEntry>, borrowings: seq<LeaseEntry>,
                                               now: int, windowAccountId: Option<string>)
    requires forall e :: e in lendings + borrowings ==> e.info.lenderId != ""
    ensures var out := Reconciled(userOwned, underLease, lendings, borrowings);
            forall j :: 0 <= j < |out| ==>
              && (CardView(out[j], now, windowAccountId).lend.Some? <==> j < |userOwned|)
              && (CardView(out[j], now, windowAccountId).claimBack.Some? ==>
                    j >= |userOwned| && windowAccountId == Some(out[j].lease.value.lenderId)
                    && out[j].lease.value.leaseEndTsNano < now)
  {
    var out := Reconciled(userOwned, underLease, lendings, borrowings);
    var ml, mb := MatchedEntries(underLease, lendings), MatchedEntries(underLease, borrowings);
    ReconciledShape(userOwned, underLease, lendings, borrowings);
    forall j | |userOwned| <= j < |out|
      ensures out[j].lease.Some? && out[j].lease.value.lenderId != ""
    {
      var e := if j < |userOwned| + |ml| then ml[j - |userOwned|] else mb[j - |userOwned| - |ml|];
      MatchedEntriesMembers(underLease, lendings, e);
      MatchedEntriesMembers(underLease, borrowings, e);
      assert EnrichedFrom(underLease, e, out[j]);
      assert e in lendings + borrowings;
    }
  }

  // ---------------------------------------------------------------------
  // The page
  // ---------------------------------------------------------------------

  datatype Screen =
    | ErrorScreen
    | LoadingScreen
    | NoDataScreen
    | Groups(keys: seq<string>, buckets: map<string, seq<NftRecord>>)

  /** Lines 73-119: the early returns, then the join and the grouping. */
  method Render(query: QueryState<TokenQuery>, lendings: seq<LeaseEntry>, borrowings: seq<LeaseEntry>)
    returns (screen: Screen)
    ensures query.Failed? <==> screen.ErrorScreen?
    ensures query.Loading? <==> screen.LoadingScreen?
    ensures query.NoData? <==> screen.NoDataScreen?
    ensures query.Loaded? ==>
              var nfts := Reconciled(query.data.userOwned, query.data.underLease, lendings, borrowings);
              && screen.Groups?
              && screen.keys == ContractKeys(nfts)
              && (forall key :: key in screen.buckets <==> key in screen.keys)
              && (forall key :: key in screen.buckets ==> screen.buckets[key] == Bucket(nfts, key))
  {
    match query
    case Failed => screen := ErrorScreen;
    case Loading => screen := LoadingScreen;
    case NoData => screen := NoDataScreen;
    case Loaded(data) =>
      var nfts := Reconcile(data.userOwned, data.underLease, lendings, borrowings);
      var keys, groups := GroupByContract(nfts);
      screen := Groups(keys, groups);
  }
}
