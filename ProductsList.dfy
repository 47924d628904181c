/**
 * The product list page: the list received from the catalog, the search
 * box that filters it, and the delete confirmation flow, which removes a
 * product from the page's own copy of the list only.
 */
module ProductsList {

  import opened Wrappers
  import opened Text
  import opened Seqs

  /** A catalog entry as the list page holds it. */
  datatype Product = Product(id: int, title: string, price: real, stock: real, thumbnail: string)

  /** The banner shown when the catalog could not be fetched. */
  const FetchError: string := "Failed to fetch products. Check the network connection or API URL."

  // ------------------------------------------------------------- search

  /**
   * The search test for one product, given the already lower-cased term:
   * the lower-cased title contains it, or the decimal id contains it.
   */
  predicate Matches(p: Product, lowerTerm: string)
    ensures lowerTerm == [] ==> Matches(p, lowerTerm)
    ensures Matches(p, lowerTerm) ==> |lowerTerm| <= |p.title| || |lowerTerm| <= |IntToString(p.id)|
  {
    assert lowerTerm == [] ==> IsPrefix(lowerTerm, Lower(p.title));
    Contains(Lower(p.title), lowerTerm) || Contains(IntToString(p.id), lowerTerm)
  }

  /** A product matches exactly when the term occurs somewhere in its lower-cased title or its decimal id. */
  lemma MatchesIff(p: Product, lowerTerm: string)
    ensures Matches(p, lowerTerm) <==>
      (exists i :: OccursAt(Lower(p.title), lowerTerm, i)) || (exists i :: OccursAt(IntToString(p.id), lowerTerm, i))
  {
    ContainsIff(Lower(p.title), lowerTerm);
    ContainsIff(IntToString(p.id), lowerTerm);
  }

  /** `Matches` as the callback handed to `filter`. */
  function MatchesTerm(lowerTerm: string): Product -> bool {
    p => Matches(p, lowerTerm)
  }

  /** `p => p.id !== id`, the callback of `handleDelete`'s filter. */
  function OtherId(id: int): Product -> bool {
    (p: Product) => p.id != id
  }

  /** `filteredProducts`: an empty term shows everything. */
  function FilteredProducts(products: seq<Product>, searchTerm: string): (r: seq<Product>)
    ensures |r| <= |products|
    ensures forall i :: 0 <= i < |r| ==> r[i] in products
  {
    if searchTerm == [] then products
    else
      var term := Lower(searchTerm);
      Keep(products, MatchesTerm(term))
  }

  /** An empty search term leaves the list as it is. */
  lemma FilterEmptyTerm(products: seq<Product>)
    ensures FilteredProducts(products, "") == products
  {
  }

  /**
   * A product is shown exactly when it is in the list and the term is
   * empty or the product matches the lower-cased term.
   */
  lemma FilterMembership(products: seq<Product>, searchTerm: string, p: Product)
    ensures p in FilteredProducts(products, searchTerm)
            <==> p in products && (searchTerm == [] || Matches(p, Lower(searchTerm)))
  {
    var r := FilteredProducts(products, searchTerm);
    if searchTerm != [] {
      if p in r {
        var i :| 0 <= i < |r| && r[i] == p;
        assert r[i] in products && Matches(r[i], Lower(searchTerm));
      }
      if p in products && Matches(p, Lower(searchTerm)) {
        var i :| 0 <= i < |products| && products[i] == p;
        assert products[i] in r;
      }
    }
  }

  /**
   * The search only hides products: the shown list is a subsequence of the
   * list, so nothing is added, duplicated or reordered, and each matching
   * product keeps all of its occurrences.
   */
  lemma FilterSubsequence(products: seq<Product>, searchTerm: string, p: Product)
    ensures IsSubsequence(FilteredProducts(products, searchTerm), products)
    ensures multiset(FilteredProducts(products, searchTerm))[p]
            == if searchTerm == [] || Matches(p, Lower(searchTerm)) then multiset(products)[p] else 0
  {
    if searchTerm == [] {
      SubsequenceRefl(products);
    } else {
      var term := Lower(searchTerm);
      KeepIsSubsequence(products, MatchesTerm(term));
      KeepMultiplicity(products, MatchesTerm(term), p);
    }
  }

  /** Terms that lower-case to the same string select the same products. */
  lemma FilterCaseInsensitive(products: seq<Product>, t1: string, t2: string)
    requires Lower(t1) == Lower(t2)
    ensures FilteredProducts(products, t1) == FilteredProducts(products, t2)
  {
    assert |t1| == |Lower(t1)| == |t2|;
    if t1 != [] {
      var l1, l2 := Lower(t1), Lower(t2);
      KeepCongruent(products, MatchesTerm(l1), MatchesTerm(l2));
    }
  }

  /** A term and its lower-cased form give the same result. */
  lemma FilterLowerCaseTerm(products: seq<Product>, searchTerm: string)
    ensures FilteredProducts(products, Lower(searchTerm)) == FilteredProducts(products, searchTerm)
  {
    LowerIdempotent(searchTerm);
    FilterCaseInsensitive(products, Lower(searchTerm), searchTerm);
  }

  /** Typing a product's id into the search box always shows that product. */
  lemma FilterFindsOwnId(products: seq<Product>, p: Product)
    requires p in products
    ensures p in FilteredProducts(products, IntToString(p.id))
  {
    var s := IntToString(p.id);
    forall i | 0 <= i < |s| ensures !IsUpper(s[i]) {
      if p.id >= 0 {
        assert IsDigit(NatToString(p.id)[i]);
      } else if i > 0 {
        assert s[i] == NatToString(-p.id)[i - 1];
      }
    }
    LowerNoUpper(s);
    assert IsPrefix(s, s);
    FilterMembership(products, s, p);
  }

  /** The search examples: "sh" finds both shoes and shirts, "1" only id 1, "" all. */
  lemma SearchExamples()
    ensures var shirt, shoe := Product(1, "Shirt", 10.0, 5.0, ""), Product(2, "Shoe", 20.0, 3.0, "");
      && FilteredProducts([shirt, shoe], "sh") == [shirt, shoe]
      && FilteredProducts([shirt, shoe], "1") == [shirt]
      && FilteredProducts([shirt, shoe], "") == [shirt, shoe]
  {
    var shirt, shoe := Product(1, "Shirt", 10.0, 5.0, ""), Product(2, "Shoe", 20.0, 3.0, "");
    var both := [shirt, shoe];
    assert both[1..] == [shoe] && [shoe][1..] == [];
    assert Lower("sh") == "sh" && Lower("1") == "1";
    assert Lower("Shirt") == "shirt" && "shirt"[..2] == "sh";
    assert Lower("Shoe") == "shoe" && "shoe"[..2] == "sh";
    assert Matches(shirt, "sh") && Matches(shoe, "sh");
    assert Keep(both, MatchesTerm("sh")) == [shirt] + Keep([shoe], MatchesTerm("sh"));
    assert Keep([shoe], MatchesTerm("sh")) == [shoe] + Keep([], MatchesTerm("sh"));
    assert IntToString(1) == "1" && IntToString(2) == "2";
    assert "1"[..1] == "1";
    assert Matches(shirt, "1");
    assert !Contains("2", "1") by {
      assert !IsPrefix("1", "2");
      assert "2"[1..] == [];
      assert !IsPrefix("1", "");
    }
    assert !Contains("shoe", "1") by {
      assert "shoe"[1..] == "hoe" && "hoe"[1..] == "oe" && "oe"[1..] == "e" && "e"[1..] == "";
      assert !Contains("", "1");
    }
    assert !Matches(shoe, "1");
    assert Keep(both, MatchesTerm("1")) == [shirt] + Keep([shoe], MatchesTerm("1"));
  }

  // ------------------------------------------------------------- delete

  /** The page's list with every product of the given id taken out. */
  function RemoveId(products: seq<Product>, id: int): (r: seq<Product>)
    ensures forall i :: 0 <= i < |r| ==> r[i].id != id && r[i] in products
    ensures forall i :: 0 <= i < |products| && products[i].id != id ==> products[i] in r
  {
    Keep(products, OtherId(id))
  }

  /**
   * After removal no product carries the id, every other product is still
   * there with all its occurrences, and the order is kept.
   */
  lemma RemoveIdSpec(products: seq<Product>, id: int, p: Product)
    ensures forall q :: q in RemoveId(products, id) ==> q.id != id
    ensures p in RemoveId(products, id) <==> p in products && p.id != id
    ensures multiset(RemoveId(products, id))[p] == if p.id != id then multiset(products)[p] else 0
    ensures IsSubsequence(RemoveId(products, id), products)
  {
    var r := RemoveId(products, id);
    forall q | q in r ensures q.id != id {
      var i :| 0 <= i < |r| && r[i] == q;
    }
    if p in products && p.id != id {
      var i :| 0 <= i < |products| && products[i] == p;
    }
    KeepMultiplicity(products, OtherId(id), p);
    KeepIsSubsequence(products, OtherId(id));
  }

  /** Removing an id that no product carries changes nothing. */
  lemma RemoveAbsentId(products: seq<Product>, id: int)
    requires forall i :: 0 <= i < |products| ==> products[i].id != id
    ensures RemoveId(products, id) == products
  {
    KeepAll(products, OtherId(id));
  }

  /**
   * Deleting and then searching shows the same products as searching and
   * then deleting: the search results lose exactly the deleted product.
   */
  lemma RemoveThenFilter(products: seq<Product>, id: int, searchTerm: string)
    ensures FilteredProducts(RemoveId(products, id), searchTerm)
            == RemoveId(FilteredProducts(products, searchTerm), id)
  {
    if searchTerm != [] {
      var term := Lower(searchTerm);
      KeepCommute(products, OtherId(id), MatchesTerm(term));
    }
  }

  // --------------------------------------------------------- view state

  /** The state of the list page. */
  class ProductsListView {
    var products: seq<Product>
    var loading: bool
    var error: Option<string>
    var showDeleteModal: bool
    var productToDelete: Option<int>
    var totalProducts: int
    var searchTerm: string
    /** The list most recently received from the catalog. */
    ghost var fetched: seq<Product>

    /** The page only ever shows part of what it fetched, in the fetched order. */
    ghost predicate Valid()
      reads this
    {
      IsSubsequence(products, fetched)
    }

    /** The cards on screen. */
    function Visible(): (r: seq<Product>)
      reads this
      ensures IsSubsequence(r, products)
      ensures searchTerm == [] ==> r == products
    {
      FilterSubsequence(products, searchTerm, Product(0, "", 0.0, 0.0, ""));
      FilteredProducts(products, searchTerm)
    }

    /** A freshly mounted page: empty list, loading, no dialog. */
    constructor ()
      ensures Valid()
      ensures products == [] && fetched == [] && totalProducts == 0
      ensures loading && error == None
      ensures !showDeleteModal && productToDelete == None && searchTerm == ""
    {
      products := [];
      loading := true;
      error := None;
      showDeleteModal := false;
      productToDelete := None;
      totalProducts := 0;
      searchTerm := "";
      fetched := [];
    }

    /**
     * `fetchProducts`, once the catalog has answered: `response` is the
     * list and the reported total, or `None` when the request failed.
     */
    method ApplyFetch(response: Option<(seq<Product>, int)>)
      requires Valid()
      modifies this
      ensures Valid()
      ensures !loading
      ensures response.Some? ==>
        && products == response.value.0 && fetched == response.value.0
        && totalProducts == response.value.1 && error == None
      ensures response.None? ==>
        && products == old(products) && fetched == old(fetched)
        && totalProducts == old(totalProducts) && error == Some(FetchError)
      ensures showDeleteModal == old(showDeleteModal) && productToDelete == old(productToDelete)
      ensures searchTerm == old(searchTerm)
    {
      loading := true;
      error := None;
      match response {
        case Some((list, total)) =>
          products := list;
          fetched := list;
          totalProducts := total;
          SubsequenceRefl(list);
        case None =>
          error := Some(FetchError);
      }
      loading := false;
    }

    /** Typing into the search box. */
    method SetSearchTerm(term: string)
      requires Valid()
      modifies this`searchTerm
      ensures Valid()
      ensures searchTerm == term
    {
      searchTerm := term;
    }

    /** A card's Delete button: remember the product and open the dialog. */
    method RequestDelete(id: int)
      requires Valid()
      modifies this`productToDelete, this`showDeleteModal
      ensures Valid()
      ensures productToDelete == Some(id) && showDeleteModal
    {
      productToDelete := Some(id);
      showDeleteModal := true;
    }

    /** The dialog's cancel button or close: the dialog closes, the chosen id stays. */
    method CancelDelete()
      requires Valid()
      modifies this`showDeleteModal
      ensures Valid()
      ensures !showDeleteModal
    {
      showDeleteModal := false;
    }

    /**
     * `handleDelete`: a missing id or id 0 (falsy) does nothing; otherwise
     * every product with that id leaves the page's list, the dialog closes
     * and the reported total is left as it was.
     */
    method HandleDelete(id: Option<int>)
      requires Valid()
      modifies this`products, this`showDeleteModal, this`productToDelete
      ensures Valid()
      ensures id == None || id == Some(0) ==>
        && products == old(products)
        && showDeleteModal == old(showDeleteModal)
        && productToDelete == old(productToDelete)
      ensures id.Some? && id.value != 0 ==>
        && products == RemoveId(old(products), id.value)
        && !showDeleteModal && productToDelete == None
      ensures totalProducts == old(totalProducts) && fetched == old(fetched)
    {
      if id == None || id == Some(0) {
        return;
      }
      var target := id.value;
      KeepIsSubsequence(products, OtherId(target));
      SubsequenceTrans(RemoveId(products, target), products, fetched);
      products := RemoveId(products, target);
      showDeleteModal := false;
      productToDelete := None;
    }

    /** The dialog's confirm button. */
    method ConfirmDelete()
      requires Valid()
      modifies this`products, this`showDeleteModal, this`productToDelete
      ensures Valid()
      ensures old(productToDelete) == None || old(productToDelete) == Some(0) ==>
        && products == old(products) && showDeleteModal == old(showDeleteModal)
        && productToDelete == old(productToDelete)
      ensures old(productToDelete).Some? && old(productToDelete).value != 0 ==>
        && products == RemoveId(old(products), old(productToDelete).value)
        && !showDeleteModal && productToDelete == None
      ensures totalProducts == old(totalProducts) && fetched == old(fetched)
    {
      HandleDelete(productToDelete);
    }
  }

  /**
   * What a search shows once a product has been deleted: nothing with that
   * id, every other matching product of the list, in the list's order.
   */
  lemma VisibleAfterDelete(list: seq<Product>, id: int, searchTerm: string)
    ensures var shown := FilteredProducts(RemoveId(list, id), searchTerm);
      && (forall p :: p in shown ==> p.id != id)
      && (forall p :: p in list && p.id != id && (searchTerm == [] || Matches(p, Lower(searchTerm)))
            ==> p in shown)
      && IsSubsequence(shown, list)
  {
    var filtered := FilteredProducts(list, searchTerm);
    var shown := FilteredProducts(RemoveId(list, id), searchTerm);
    RemoveThenFilter(list, id, searchTerm);
    forall p | p in shown ensures p.id != id {
      RemoveIdSpec(filtered, id, p);
    }
    forall p | p in list && p.id != id && (searchTerm == [] || Matches(p, Lower(searchTerm)))
      ensures p in shown
    {
      FilterMembership(list, searchTerm, p);
      RemoveIdSpec(filtered, id, p);
    }
    FilterSubsequence(list, searchTerm, Product(0, "", 0.0, 0.0, ""));
    KeepIsSubsequence(filtered, OtherId(id));
    SubsequenceTrans(shown, filtered, list);
  }

  /**
   * Requesting and confirming a delete on a loaded page: the product is no
   * longer shown under any search, the other matching products still are,
   * the dialog is closed and the header count is unchanged.
   */
  method DeleteFlow(list: seq<Product>, total: int, id: int, searchTerm: string)
    returns (shown: seq<Product>, header: int, dialogOpen: bool)
    requires id != 0
    ensures shown == FilteredProducts(RemoveId(list, id), searchTerm)
    ensures header == total && !dialogOpen
  {
    var view := new ProductsListView();
    view.ApplyFetch(Some((list, total)));
    view.SetSearchTerm(searchTerm);
    view.RequestDelete(id);
    view.ConfirmDelete();
    shown, header, dialogOpen := view.Visible(), view.totalProducts, view.showDeleteModal;
  }
}
