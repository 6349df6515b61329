/** The landing page: `classNames`, the page-selection state (`lendModal`,
    `shopRent`, the buy modal) and the table that renders one page per value. */
module Landing {
  import opened Wrappers
  import opened Records
  import NftPage
  import MyNftPage
  import ShopPage

  // ---------------------------------------------------------------------
  // classNames
  // ---------------------------------------------------------------------

  /** `classes.filter(Boolean)`: the present, non-empty class strings. */
  function TruthyClasses(classes: seq<Option<string>>): (r: seq<string>)
    ensures forall x :: x in r ==> x != ""
    decreases |classes|
  {
    if classes == [] then []
    else (if Truthy(classes[0]) then [classes[0].value] else []) + TruthyClasses(classes[1..])
  }

  /** The filter keeps order: filtering a concatenation concatenates the filtered parts. */
  lemma {:induction false} TruthyClassesAppend(a: seq<Option<string>>, b: seq<Option<string>>)
    ensures TruthyClasses(a + b) == TruthyClasses(a) + TruthyClasses(b)
    decreases |a|
  {
    if a != [] {
      assert (a + b)[0] == a[0];
      assert (a + b)[1..] == a[1..] + b;
      TruthyClassesAppend(a[1..], b);
    } else {
      assert a + b == b;
    }
  }

  /** `.join(" ")` */
  function JoinWithSpace(parts: seq<string>): string
    decreases |parts|
  {
    if parts == [] then ""
    else if |parts| == 1 then parts[0]
    else parts[0] + " " + JoinWithSpace(parts[1..])
  }

  /** `classNames` (lines 17-19): "" exactly when no argument is truthy. */
  function ClassNames(classes: seq<Option<string>>): (r: string)
    ensures r == "" <==> TruthyClasses(classes) == []
  {
    var parts := TruthyClasses(classes);
    JoinEmptyIff(parts);
    JoinWithSpace(parts)
  }

  /** Joining non-empty strings gives "" only for no strings at all. */
  lemma JoinEmptyIff(parts: seq<string>)
    requires forall x :: x in parts ==> x != ""
    ensures JoinWithSpace(parts) == "" <==> parts == []
  {
    if parts != [] {
      assert parts[0] in parts;
      JoinStartsWithFirst(parts);
    }
  }

  /** Joining two non-empty lists puts one space between their joins. */
  lemma {:induction false} JoinWithSpaceAppend(p: seq<string>, q: seq<string>)
    requires p != [] && q != []
    ensures JoinWithSpace(p + q) == JoinWithSpace(p) + " " + JoinWithSpace(q)
    decreases |p|
  {
    assert (p + q)[0] == p[0];
    assert (p + q)[1..] == p[1..] + q;
    if |p| > 1 {
      JoinWithSpaceAppend(p[1..], q);
    }
  }

  /** For any arguments, with or without spaces inside them: the classes of
      two argument lists are joined by one space when both have a truthy
      argument, and the classes of a list without one vanish. */
  lemma ClassNamesConcat(a: seq<Option<string>>, b: seq<Option<string>>)
    ensures TruthyClasses(a) != [] && TruthyClasses(b) != [] ==> ClassNames(a + b) == ClassNames(a) + " " + ClassNames(b)
    ensures TruthyClasses(a) == [] ==> ClassNames(a + b) == ClassNames(b)
    ensures TruthyClasses(b) == [] ==> ClassNames(a + b) == ClassNames(a)
  {
    var pa, pb := TruthyClasses(a), TruthyClasses(b);
    TruthyClassesAppend(a, b);
    if pa == [] {
      assert pa + pb == pb;
    } else if pb == [] {
      assert pa + pb == pa;
    } else {
      JoinWithSpaceAppend(pa, pb);
    }
  }

  /** One argument gives itself when truthy, and "" otherwise. */
  lemma ClassNamesSingle(c: Option<string>)
    ensures ClassNames([c]) == if Truthy(c) then c.value else ""
  {
    assert [c][1..] == [];
    assert TruthyClasses([c]) == if Truthy(c) then [c.value] else [];
  }

  /** The call of lines 93-98: the navigation button's colour classes, a space,
      then its layout classes. */
  lemma NavigationButtonClasses(current: bool)
    ensures var colour := if current then "bg-zinc-800 text-white" else "text-black-100 hover:bg-zinc-600";
            var layout := "group flex items-center px-2 py-2 text-sm font-medium rounded-md";
            ClassNames([Some(colour), Some(layout)]) == colour + " " + layout
  {
    var colour := if current then "bg-zinc-800 text-white" else "text-black-100 hover:bg-zinc-600";
    var layout := "group flex items-center px-2 py-2 text-sm font-medium rounded-md";
    ClassNamesSingle(Some(colour));
    ClassNamesSingle(Some(layout));
    ClassNamesConcat([Some(colour)], [Some(layout)]);
    assert [Some(colour)] + [Some(layout)] == [Some(colour), Some(layout)];
  }

  /** `s.split(" ")`: the pieces between single spaces. */
  function SplitOnSpace(s: string): (parts: seq<string>)
    ensures |parts| >= 1
    decreases |s|
  {
    if s == [] then [""]
    else if s[0] == ' ' then [""] + SplitOnSpace(s[1..])
    else
      var rest := SplitOnSpace(s[1..]);
      [[s[0]] + rest[0]] + rest[1..]
  }

  predicate NoSpace(s: string) {
    forall i :: 0 <= i < |s| ==> s[i] != ' '
  }

  lemma {:induction false} SplitWord(w: string, rest: string)
    requires NoSpace(w)
    ensures SplitOnSpace(w + " " + rest) == [w] + SplitOnSpace(rest)
    ensures SplitOnSpace(w) == [w]
    decreases |w|
  {
    if w == [] {
      assert w + " " + rest == [' '] + rest;
      assert (w + " " + rest)[1..] == rest;
    } else {
      assert (w + " " + rest)[1..] == w[1..] + " " + rest;
      SplitWord(w[1..], rest);
      assert [w[0]] + w[1..] == w;
    }
  }

  /** Splitting the joined classes on spaces gives back the truthy classes,
      provided no class itself contains a space. */
  lemma {:induction false} SplitJoinRoundTrip(parts: seq<string>)
    requires parts != []
    requires forall i :: 0 <= i < |parts| ==> NoSpace(parts[i])
    ensures SplitOnSpace(JoinWithSpace(parts)) == parts
    decreases |parts|
  {
    if |parts| == 1 {
      SplitWord(parts[0], "");
    } else {
      SplitWord(parts[0], JoinWithSpace(parts[1..]));
      SplitJoinRoundTrip(parts[1..]);
    }
  }

  /** When the arguments are single class names (no spaces), splitting the
      result on spaces gives back exactly the truthy arguments, in order. */
  lemma ClassNamesSplitsBack(classes: seq<Option<string>>)
    requires forall i :: 0 <= i < |classes| && classes[i].Some? ==> NoSpace(classes[i].value)
    ensures TruthyClasses(classes) != [] ==> SplitOnSpace(ClassNames(classes)) == TruthyClasses(classes)
  {
    var parts := TruthyClasses(classes);
    if parts != [] {
      TruthyClassesNoSpace(classes);
      SplitJoinRoundTrip(parts);
    }
  }

  lemma {:induction false} TruthyClassesNoSpace(classes: seq<Option<string>>)
    requires forall i :: 0 <= i < |classes| && classes[i].Some? ==> NoSpace(classes[i].value)
    ensures forall i :: 0 <= i < |TruthyClasses(classes)| ==> NoSpace(TruthyClasses(classes)[i])
    decreases |classes|
  {
    if classes != [] {
      TruthyClassesNoSpace(classes[1..]);
    }
  }

  lemma JoinStartsWithFirst(parts: seq<string>)
    requires parts != []
    ensures |JoinWithSpace(parts)| >= |parts[0]|
  {
  }

  // ---------------------------------------------------------------------
  // The page table
  // ---------------------------------------------------------------------

  /** The eight pages of lines 108-115. */
  datatype Page =
    | ShopView
    | MyNftView
    | LendingsPage
    | BorrowingsPage
    | ListingAcceptPage
    | AcceptBorrowingPage
    | NftDetails
    | ListingCreationPage

  /** The `lendModal` value each page is rendered for. */
  function PageKey(p: Page): string {
    match p
    case ShopView => "Shops"
    case MyNftView => "My NFT"
    case LendingsPage => "Lending"
    case BorrowingsPage => "Borrowing"
    case ListingAcceptPage => "rent"
    case AcceptBorrowingPage => "nfts"
    case NftDetails => "details"
    case ListingCreationPage => "lend"
  }

  /** The page rendered for a `lendModal` value. */
  function PageFor(lendModal: string): (p: Option<Page>)
    ensures p.Some? ==> PageKey(p.value) == lendModal
    ensures p.None? <==> forall q: Page :: PageKey(q) != lendModal
  {
    if lendModal == "Shops" then Some(ShopView)
    else if lendModal == "My NFT" then Some(MyNftView)
    else if lendModal == "Lending" then Some(LendingsPage)
    else if lendModal == "Borrowing" then Some(BorrowingsPage)
    else if lendModal == "rent" then Some(ListingAcceptPage)
    else if lendModal == "nfts" then Some(AcceptBorrowingPage)
    else if lendModal == "details" then Some(NftDetails)
    else if lendModal == "lend" then Some(ListingCreationPage)
    else None
  }

  /** No value renders two pages at once. */
  lemma AtMostOnePage(lendModal: string, p: Page, q: Page)
    requires PageKey(p) == lendModal && PageKey(q) == lendModal
    ensures p == q
  {
  }

  /** The pages that receive `shopRent` as their `params`. */
  predicate TakesParams(p: Page) {
    p.ListingAcceptPage? || p.AcceptBorrowingPage? || p.NftDetails? || p.ListingCreationPage?
  }

  /** A page that takes parameters is showing the item that selected it. */
  predicate ParamsMatch(lendModal: string, shopRent: Option<Click>) {
    var p := PageFor(lendModal);
    p.Some? && TakesParams(p.value) ==> shopRent.Some? && shopRent.value.title == lendModal
  }

  /** The names of the navigation buttons (lines 21-38). */
  const Navigation: seq<string> := ["Shops", "My NFT"]

  /** `SelectedNft` is an object type; `{}` is the empty selection. */
  datatype SelectedNft = SelectedNft(fields: map<string, string>)

  const EmptySelection := SelectedNft(map[])

  // ---------------------------------------------------------------------
  // The state
  // ---------------------------------------------------------------------

  class LandingPage {
    var showBuyModal: bool
    var selectedItem: SelectedNft
    var lendModal: string
    var shopRent: Option<Click>

    predicate Consistent()
      reads this
    {
      ParamsMatch(lendModal, shopRent)
    }

    /** The page rendered now. */
    function CurrentPage(): (p: Option<Page>)
      reads this
      ensures p.Some? ==> PageKey(p.value) == lendModal
      ensures p.None? <==> forall q: Page :: PageKey(q) != lendModal
    {
      PageFor(lendModal)
    }

    /** Lines 41-44: the shop is shown first, nothing is selected. */
    constructor ()
      ensures lendModal == "Shops" && shopRent == None
      ensures selectedItem == EmptySelection && !showBuyModal
      ensures CurrentPage() == Some(ShopView) && Consistent()
    {
      showBuyModal := false;
      selectedItem := EmptySelection;
      lendModal := "Shops";
      shopRent := None;
    }

    /** Lines 57-60. */
    method HandleCloseBuyModal()
      modifies this
      ensures selectedItem == EmptySelection && !showBuyModal
      ensures lendModal == old(lendModal) && shopRent == old(shopRent)
    {
      selectedItem := EmptySelection;
      showBuyModal := false;
    }

    /** Lines 62-64: a navigation button selects a page by name. */
    method HandleRentModal(name: string)
      modifies this
      ensures lendModal == name
      ensures shopRent == old(shopRent) && selectedItem == old(selectedItem) && showBuyModal == old(showBuyModal)
      ensures name in Navigation ==> Consistent()
    {
      lendModal := name;
    }

    /** Lines 66-69: a page's `handleClick` selects the item's page and makes
        the item that page's parameters. */
    method HandleShop(item: Click)
      modifies this
      ensures lendModal == item.title && shopRent == Some(item)
      ensures selectedItem == old(selectedItem) && showBuyModal == old(showBuyModal)
      ensures Consistent()
    {
      lendModal := item.title;
      shopRent := Some(item);
    }

    /** Line 115: finishing the lend page returns to My NFT. */
    method FinishLend()
      modifies this
      ensures lendModal == "My NFT"
      ensures shopRent == old(shopRent) && selectedItem == old(selectedItem) && showBuyModal == old(showBuyModal)
      ensures Consistent()
    {
      lendModal := "My NFT";
    }
  }

  // ---------------------------------------------------------------------
  // What the detail page's Back button can do
  // ---------------------------------------------------------------------

  /** In every state the handlers reach, the detail page is shown with an
      item titled "nfts" or "details", never "nft": as written, its Back
      button always leads to the shop. */
  lemma BackAsWrittenAlwaysShops(lendModal: string, shopRent: Option<Click>)
    requires ParamsMatch(lendModal, shopRent)
    requires PageFor(lendModal) == Some(AcceptBorrowingPage) || PageFor(lendModal) == Some(NftDetails)
    ensures NftPage.BackTarget(shopRent) == "Shops"
    ensures NftPage.BackTargetIntended(shopRent) == (if PageFor(lendModal) == Some(NftDetails) then "My NFT" else "Shops")
  {
  }

  /** A My NFT card's Details click opens the detail page, whose intended
      Back target is My NFT (as written it is the shop); a shop card's
      Details click opens the same page, whose Back target is the shop. */
  lemma DetailsClicksRoundTrip(r: NftRecord, now: int, windowAccountId: Option<string>,
                               l: ShopPage.Listing, info: ShopPage.ShopToken)
    ensures var c := MyNftPage.CardView(r, now, windowAccountId).details;
            && PageFor(c.title) == Some(NftDetails)
            && ParamsMatch(c.title, Some(c))
            && NftPage.BackTargetIntended(Some(c)) == "My NFT"
            && NftPage.BackTarget(Some(c)) == "Shops"
    ensures var c := ShopPage.CardFor(l, info).details;
            && PageFor(c.title) == Some(AcceptBorrowingPage)
            && NftPage.BackTargetIntended(Some(c)) == "Shops"
  {
  }
}
