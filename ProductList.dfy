/**
 * The list view: its sorted projection of the catalogue (a copy, stably sorted
 * in place by one key and reversed in place for descending order), the sort
 * control, the delete confirmation and the one-shot fetch guard.
 */
module ProductList {

  import opened Wrappers
  import opened Seqs
  import opened ProductModel
  import ProductsSlice

  /** The values of the sort control: `'alphabetical' | 'count' | 'weight'`. */
  datatype SortOrder = Alphabetical | Count | Weight

  datatype SortDirection = Ascending | Descending

  // ---------------------------------------------------------------------------
  // The comparators
  // ---------------------------------------------------------------------------

  /** Lexicographic order on strings, the model of `a.localeCompare(b) <= 0`. */
  predicate StringLe(a: string, b: string)
    decreases |a|
  {
    a == [] || (b != [] && (a[0] < b[0] || (a[0] == b[0] && StringLe(a[1..], b[1..]))))
  }

  lemma {:induction false} StringLeTotal(a: string, b: string)
    ensures StringLe(a, b) || StringLe(b, a)
    decreases |a|
  {
    if a != [] && b != [] && a[0] == b[0] {
      StringLeTotal(a[1..], b[1..]);
    }
  }

  lemma {:induction false} StringLeTransitive(a: string, b: string, c: string)
    requires StringLe(a, b) && StringLe(b, c)
    ensures StringLe(a, c)
    decreases |a|
  {
    if a != [] && a[0] == b[0] && b[0] == c[0] {
      StringLeTransitive(a[1..], b[1..], c[1..]);
    }
  }

  /**
   * The comparator of the chosen order returns a value `<= 0`: `a` may stay in
   * front of `b`. (`a.count - b.count <= 0` is `a.count <= b.count`.)
   */
  predicate Precedes(order: SortOrder, a: Product, b: Product) {
    match order
    case Alphabetical => StringLe(a.name, b.name)
    case Count => a.count <= b.count
    case Weight => a.weight <= b.weight
  }

  /** Every comparator is a total preorder. */
  lemma PrecedesTotalPreorder(order: SortOrder, a: Product, b: Product, c: Product)
    ensures Precedes(order, a, b) || Precedes(order, b, a)
    ensures Precedes(order, a, b) && Precedes(order, b, c) ==> Precedes(order, a, c)
  {
    if order == Alphabetical {
      StringLeTotal(a.name, b.name);
      if StringLe(a.name, b.name) && StringLe(b.name, c.name) {
        StringLeTransitive(a.name, b.name, c.name);
      }
    }
  }

  /** `a` and `b` compare equal under the chosen order. */
  predicate Tied(order: SortOrder, a: Product, b: Product) {
    Precedes(order, a, b) && Precedes(order, b, a)
  }

  /** The products tied with `y`, as a filter predicate. */
  function TiedWith(order: SortOrder, y: Product): Product -> bool {
    (e: Product) => Tied(order, y, e)
  }

  ghost predicate SortedBy(order: SortOrder, s: seq<Product>) {
    forall i, j :: 0 <= i < j < |s| ==> Precedes(order, s[i], s[j])
  }

  // ---------------------------------------------------------------------------
  // The sort, as a function
  // ---------------------------------------------------------------------------

  /** Inserts `x` after the last element that may precede it. */
  function Insert(order: SortOrder, t: seq<Product>, x: Product): seq<Product>
    decreases |t|
  {
    if t == [] || Precedes(order, t[|t| - 1], x) then t + [x]
    else Insert(order, t[..|t| - 1], x) + [t[|t| - 1]]
  }

  /** The stable sort `sorted.sort(compare)` performs, as insertion sort. */
  function StableSort(order: SortOrder, s: seq<Product>): seq<Product>
    decreases |s|
  {
    if s == [] then [] else Insert(order, StableSort(order, s[..|s| - 1]), s[|s| - 1])
  }

  /** The sorted projection the list view renders. */
  function Projection(products: seq<Product>, order: SortOrder, direction: SortDirection): seq<Product> {
    var ascending := StableSort(order, products);
    if direction == Descending then Reverse(ascending) else ascending
  }

  lemma {:induction false} InsertPermutes(order: SortOrder, t: seq<Product>, x: Product)
    ensures multiset(Insert(order, t, x)) == multiset(t) + multiset{x}
    decreases |t|
  {
    if t != [] && !Precedes(order, t[|t| - 1], x) {
      InsertPermutes(order, t[..|t| - 1], x);
      assert t == t[..|t| - 1] + [t[|t| - 1]];
    }
  }

  lemma {:induction false} InsertKeepsSorted(order: SortOrder, t: seq<Product>, x: Product)
    requires SortedBy(order, t)
    ensures SortedBy(order, Insert(order, t, x))
    decreases |t|
  {
    if t == [] {
    } else if Precedes(order, t[|t| - 1], x) {
      var r := t + [x];
      forall i, j | 0 <= i < j < |r| ensures Precedes(order, r[i], r[j]) {
        if j == |t| && i < |t| - 1 {
          PrecedesTotalPreorder(order, t[i], t[|t| - 1], x);
        }
      }
    } else {
      var t', last := t[..|t| - 1], t[|t| - 1];
      InsertKeepsSorted(order, t', x);
      InsertPermutes(order, t', x);
      var ins := Insert(order, t', x);
      var r := ins + [last];
      PrecedesTotalPreorder(order, last, x, x);
      forall k | 0 <= k < |ins| ensures Precedes(order, ins[k], last) {
        assert ins[k] in multiset(ins);
        if ins[k] != x {
          var m :| 0 <= m < |t'| && t'[m] == ins[k];
        }
      }
      forall i, j | 0 <= i < j < |r| ensures Precedes(order, r[i], r[j]) {
      }
    }
  }

  /**
   * Insertion keeps the relative order of any group of mutually tied products:
   * `x` lands after every element it is tied with.
   */
  lemma {:induction false} InsertKeepsTieOrder(order: SortOrder, t: seq<Product>, x: Product, keep: Product -> bool)
    requires forall a, b :: keep(a) && keep(b) ==> Precedes(order, a, b)
    ensures Filter(Insert(order, t, x), keep) == Filter(t, keep) + Filter([x], keep)
    decreases |t|
  {
    if t == [] || Precedes(order, t[|t| - 1], x) {
      FilterAppend(t, [x], keep);
    } else {
      var t', last := t[..|t| - 1], t[|t| - 1];
      assert t == t' + [last];
      assert !(keep(x) && keep(last));
      InsertKeepsTieOrder(order, t', x, keep);
      FilterAppendUnrelated(t', Insert(order, t', x), x, last, keep);
    }
  }

  lemma {:induction false} StableSortPermutes(order: SortOrder, s: seq<Product>)
    ensures multiset(StableSort(order, s)) == multiset(s)
    decreases |s|
  {
    if s != [] {
      var s', last := s[..|s| - 1], s[|s| - 1];
      StableSortPermutes(order, s');
      InsertPermutes(order, StableSort(order, s'), last);
      assert s == s' + [last];
      assert multiset(s) == multiset(s') + multiset{last};
    }
  }

  lemma {:induction false} StableSortSorts(order: SortOrder, s: seq<Product>)
    ensures SortedBy(order, StableSort(order, s))
    decreases |s|
  {
    if s != [] {
      StableSortSorts(order, s[..|s| - 1]);
      InsertKeepsSorted(order, StableSort(order, s[..|s| - 1]), s[|s| - 1]);
    }
  }

  /** Any group of mutually tied products appears in the sorted list in its input order. */
  lemma {:induction false} StableSortKeepsTieOrder(order: SortOrder, s: seq<Product>, keep: Product -> bool)
    requires forall a, b :: keep(a) && keep(b) ==> Precedes(order, a, b)
    ensures Filter(StableSort(order, s), keep) == Filter(s, keep)
    decreases |s|
  {
    if s != [] {
      var s', last := s[..|s| - 1], s[|s| - 1];
      StableSortKeepsTieOrder(order, s', keep);
      InsertKeepsTieOrder(order, StableSort(order, s'), last, keep);
      FilterAppend(s', [last], keep);
      assert s == s' + [last];
    }
  }

  /** The sort is stable: the products tied with any `y` keep their input order. */
  lemma StableSortIsStable(order: SortOrder, s: seq<Product>, y: Product)
    ensures Filter(StableSort(order, s), TiedWith(order, y)) == Filter(s, TiedWith(order, y))
  {
    var keep := TiedWith(order, y);
    forall a, b | keep(a) && keep(b) ensures Precedes(order, a, b) {
      PrecedesTotalPreorder(order, a, y, b);
    }
    StableSortKeepsTieOrder(order, s, keep);
  }

  /** A list that is already sorted is left as it is. */
  lemma {:induction false} StableSortOfSorted(order: SortOrder, s: seq<Product>)
    requires SortedBy(order, s)
    ensures StableSort(order, s) == s
    decreases |s|
  {
    if s != [] {
      var s' := s[..|s| - 1];
      assert SortedBy(order, s');
      StableSortOfSorted(order, s');
      if |s'| > 0 {
        assert Precedes(order, s'[|s'| - 1], s[|s| - 1]);
      }
    }
  }

  /**
   * The ascending projection is a sorted permutation of the products, keeps ties
   * in input order, and is unchanged when it is sorted again.
   */
  lemma AscendingProjection(products: seq<Product>, order: SortOrder, y: Product)
    ensures var r := Projection(products, order, Ascending);
      && multiset(r) == multiset(products)
      && SortedBy(order, r)
      && Filter(r, TiedWith(order, y)) == Filter(products, TiedWith(order, y))
      && Projection(r, order, Ascending) == r
  {
    StableSortPermutes(order, products);
    StableSortSorts(order, products);
    StableSortIsStable(order, products, y);
    StableSortOfSorted(order, StableSort(order, products));
  }

  /**
   * The descending projection is the ascending one reversed: a permutation of
   * the products in non-increasing order.
   */
  lemma DescendingProjection(products: seq<Product>, order: SortOrder)
    ensures var r := Projection(products, order, Descending);
      && r == Reverse(Projection(products, order, Ascending))
      && multiset(r) == multiset(products)
      && forall i, j :: 0 <= i < j < |r| ==> Precedes(order, r[j], r[i])
  {
    var ascending := StableSort(order, products);
    var r := Reverse(ascending);
    StableSortPermutes(order, products);
    StableSortSorts(order, products);
    ReverseMultiset(ascending);
    forall i, j | 0 <= i < j < |r| ensures Precedes(order, r[j], r[i]) {
      ReverseAt(ascending, i);
      ReverseAt(ascending, j);
    }
  }

  /**
   * Sorting the descending projection again in descending order does not in
   * general give it back: two products with the same name swap places.
   */
  lemma DescendingReappliedSwapsTies(a: Product, b: Product)
    requires a.name == b.name && a != b
    ensures Projection([a, b], Alphabetical, Descending) == [b, a]
    ensures Projection([b, a], Alphabetical, Descending) == [a, b]
  {
    StringLeTotal(a.name, a.name);
    SortPair(a, b);
    SortPair(b, a);
  }

  lemma SortPair(a: Product, b: Product)
    requires StringLe(a.name, b.name)
    ensures Projection([a, b], Alphabetical, Descending) == [b, a]
  {
    assert [a, b][..1] == [a] && [a][..0] == [];
    assert StableSort(Alphabetical, [a]) == [a];
    assert StableSort(Alphabetical, [a, b]) == [a, b];
    assert [a, b][1..] == [b] && [b][1..] == [];
    assert Reverse([b]) == [b];
  }

  // ---------------------------------------------------------------------------
  // The sort, in place
  // ---------------------------------------------------------------------------

  /** `sorted.sort(compare)`: a stable in-place sort of the array. */
  method SortInPlace(a: array<Product>, order: SortOrder)
    modifies a
    ensures a[..] == StableSort(order, old(a[..]))
  {
    ghost var input := a[..];
    var i := 0;
    while i < a.Length
      invariant 0 <= i <= a.Length
      invariant a[..i] == StableSort(order, input[..i])
      invariant a[i..] == input[i..]
    {
      assert a[i] == input[i];
      InsertAt(a, i, order);
      StableSortOfPrefix(order, input, i);
      assert a[i + 1..] == input[i + 1..];
      i := i + 1;
    }
    assert input[..a.Length] == input;
  }

  /** One pass of the sort: moves `a[i]` left past the elements of the sorted prefix it must follow. */
  method InsertAt(a: array<Product>, i: nat, order: SortOrder)
    requires i < a.Length
    modifies a
    ensures a[..i + 1] == Insert(order, old(a[..i]), old(a[i]))
    ensures a[i + 1..] == old(a[i + 1..])
  {
    ghost var sorted := a[..i];
    var x := a[i];
    var j := i;
    while j > 0 && !Precedes(order, a[j - 1], x)
      invariant 0 <= j <= i
      invariant a[..j] == sorted[..j]
      invariant a[j + 1..i + 1] == sorted[j..i]
      invariant a[i + 1..] == old(a[i + 1..])
      invariant Insert(order, sorted, x) == Insert(order, sorted[..j], x) + sorted[j..i]
    {
      InsertStep(order, sorted, j, x);
      a[j] := a[j - 1];
      j := j - 1;
    }
    assert Insert(order, sorted[..j], x) == sorted[..j] + [x];
    a[j] := x;
    assert a[..i + 1] == a[..j] + [x] + a[j + 1..i + 1];
  }

  lemma StableSortOfPrefix(order: SortOrder, s: seq<Product>, i: nat)
    requires i < |s|
    ensures StableSort(order, s[..i + 1]) == Insert(order, StableSort(order, s[..i]), s[i])
  {
    assert s[..i + 1][..i] == s[..i];
  }

  lemma InsertStep(order: SortOrder, sorted: seq<Product>, j: nat, x: Product)
    requires 0 < j <= |sorted|
    requires !Precedes(order, sorted[j - 1], x)
    ensures Insert(order, sorted[..j], x) + sorted[j..] == Insert(order, sorted[..j - 1], x) + sorted[j - 1..]
  {
    assert sorted[..j][..j - 1] == sorted[..j - 1];
    assert sorted[j - 1..] == [sorted[j - 1]] + sorted[j..];
  }

  /** `sorted.reverse()`. */
  method ReverseInPlace(a: array<Product>)
    modifies a
    ensures a[..] == Reverse(old(a[..]))
  {
    ghost var input := a[..];
    var lo, hi := 0, a.Length;
    while lo + 1 < hi
      invariant 0 <= lo <= hi <= a.Length && lo + hi == a.Length
      invariant forall k :: 0 <= k < lo ==> a[k] == input[a.Length - 1 - k]
      invariant forall k :: hi <= k < a.Length ==> a[k] == input[a.Length - 1 - k]
      invariant forall k :: lo <= k < hi ==> a[k] == input[k]
    {
      a[lo], a[hi - 1] := a[hi - 1], a[lo];
      lo, hi := lo + 1, hi - 1;
    }
    ReversedElementwise(input, a[..]);
  }

  lemma ReversedElementwise(s: seq<Product>, r: seq<Product>)
    requires |r| == |s|
    requires forall k :: 0 <= k < |r| ==> r[k] == s[|s| - 1 - k]
    ensures r == Reverse(s)
  {
    forall k | 0 <= k < |r| ensures r[k] == Reverse(s)[k] {
      ReverseAt(s, k);
    }
  }

  /**
   * The sort effect's computation: copy the products, sort the copy, reverse
   * it when descending. The products themselves are a value and are not touched.
   */
  method SortedCopy(products: seq<Product>, order: SortOrder, direction: SortDirection)
    returns (sorted: seq<Product>)
    ensures sorted == Projection(products, order, direction)
  {
    var a := new Product[|products|](i requires 0 <= i < |products| => products[i]);
    assert a[..] == products;
    SortInPlace(a, order);
    if direction == Descending {
      ReverseInPlace(a);
    }
    sorted := a[..];
  }

  // ---------------------------------------------------------------------------
  // The sort control
  // ---------------------------------------------------------------------------

  datatype SortState = SortState(order: SortOrder, direction: SortDirection)

  /** `handleSortChange`'s transition when `selected` is chosen in state `s`. */
  function SelectSort(s: SortState, selected: SortOrder): (r: SortState)
    ensures r.order == selected
    ensures selected == s.order ==> r.direction != s.direction
    ensures selected != s.order ==> r.direction == Ascending
  {
    if selected == s.order then
      SortState(selected, if s.direction == Ascending then Descending else Ascending)
    else
      SortState(selected, Ascending)
  }

  /** Selecting the current key twice restores the state; a new key twice ends descending. */
  lemma SelectTwice(s: SortState, selected: SortOrder)
    ensures selected == s.order ==> SelectSort(SelectSort(s, selected), selected) == s
    ensures selected != s.order ==> SelectSort(SelectSort(s, selected), selected) == SortState(selected, Descending)
  {
  }

  // ---------------------------------------------------------------------------
  // The fetch guard
  // ---------------------------------------------------------------------------

  /** The mount effect's condition `!products.length && !loading`. */
  predicate ShouldFetch(products: seq<Product>, loading: bool) {
    |products| == 0 && !loading
  }

  /**
   * The mount effect: dispatching the fetch thunk applies `pending` at once,
   * so the effect does not fire again before the fetch settles.
   */
  method RunFetchEffect(store: ProductsSlice.ProductsState) returns (dispatched: bool)
    modifies store
    ensures dispatched == ShouldFetch(old(store.products), old(store.loading))
    ensures dispatched ==> store.loading && store.error == None && store.products == old(store.products)
    ensures !dispatched ==> unchanged(store)
    ensures !ShouldFetch(store.products, store.loading)
  {
    dispatched := ShouldFetch(store.products, store.loading);
    if dispatched {
      store.FetchPending();
    }
  }

  /**
   * Mounting on an empty store fetches once, a re-render before the fetch
   * settles does not fetch again, and after a failed fetch the guard fires again.
   */
  method MountScenario(failure: Option<string>) returns (first: bool, rerender: bool, afterFailure: bool)
    ensures first && !rerender && afterFailure
  {
    var store := new ProductsSlice.ProductsState();
    first := RunFetchEffect(store);
    rerender := RunFetchEffect(store);
    store.FetchRejected(failure);
    afterFailure := RunFetchEffect(store);
  }

  // ---------------------------------------------------------------------------
  // The component's state
  // ---------------------------------------------------------------------------

  /** The hook cells of the list view. */
  class ProductListView {
    var sortedProducts: seq<Product>
    var sortOrder: SortOrder
    var sortDirection: SortDirection
    var showModal: bool
    var productToDelete: Option<int>

    /** The dialog is shown exactly when a delete is pending. */
    ghost predicate Valid()
      reads this
    {
      showModal <==> productToDelete.Some?
    }

    constructor ()
      ensures Valid()
      ensures sortedProducts == [] && sortOrder == Alphabetical && sortDirection == Ascending
      ensures !showModal && productToDelete == None
    {
      sortedProducts := [];
      sortOrder := Alphabetical;
      sortDirection := Ascending;
      showModal := false;
      productToDelete := None;
    }

    /** The sort effect, re-run whenever the products or the sort state change. */
    method RunSortEffect(products: seq<Product>)
      modifies this`sortedProducts
      ensures sortedProducts == Projection(products, sortOrder, sortDirection)
    {
      sortedProducts := SortedCopy(products, sortOrder, sortDirection);
    }

    /** `handleSortChange`: compares with the order of the current render, then sets both cells. */
    method HandleSortChange(newOrder: SortOrder)
      modifies this`sortOrder, this`sortDirection
      ensures SortState(sortOrder, sortDirection) == SelectSort(old(SortState(sortOrder, sortDirection)), newOrder)
    {
      var previous := sortOrder;
      sortOrder := newOrder;
      if newOrder == previous {
        sortDirection := if sortDirection == Ascending then Descending else Ascending;
      } else {
        sortDirection := Ascending;
      }
    }

    /** `handleDelete`: remember the product and open the dialog. */
    method HandleDelete(productId: int)
      modifies this`productToDelete, this`showModal
      ensures productToDelete == Some(productId) && showModal
      ensures Valid()
    {
      productToDelete := Some(productId);
      showModal := true;
    }

    /**
     * `confirmDelete`: with a pending id, returns the one remove request it
     * dispatches and closes the dialog; without one, changes nothing and
     * requests nothing.
     */
    method ConfirmDelete() returns (request: Option<int>)
      requires Valid()
      modifies this`showModal, this`productToDelete
      ensures request == old(productToDelete)
      ensures !showModal && productToDelete == None
      ensures Valid()
    {
      request := None;
      if productToDelete.Some? {
        request := productToDelete;
        showModal := false;
        productToDelete := None;
      }
    }

    /** `cancelDelete`: close the dialog and forget the pending id, requesting nothing. */
    method CancelDelete()
      modifies this`showModal, this`productToDelete
      ensures !showModal && productToDelete == None
      ensures Valid()
    {
      showModal := false;
      productToDelete := None;
    }
  }

  /**
   * Confirming in the dialog and the DELETE request settling: the store
   * changes only when a delete was pending and the request succeeded, and
   * then loses exactly the products with that id.
   */
  method ConfirmAndSettle(view: ProductListView, store: ProductsSlice.ProductsState, deleteSucceeded: bool)
    requires view.Valid()
    modifies view, store
    ensures view.Valid() && !view.showModal
    ensures store.products ==
      if old(view.productToDelete).Some? && deleteSucceeded
      then ProductsSlice.WithoutId(old(store.products), old(view.productToDelete).value)
      else old(store.products)
    ensures store.loading == old(store.loading) && store.error == old(store.error)
  {
    var request := view.ConfirmDelete();
    if request.Some? && deleteSucceeded {
      store.RemoveFulfilled(request.value);
    }
  }
}
