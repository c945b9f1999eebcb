# Product catalogue front end: a Dafny model of its state logic

The catalogue is a React/Redux front end that lists products, sorts them,
shows one product with its comments and deletes a product after a
confirmation. This project models the part of it that is logic rather than
HTTP, rendering or routing:

- the products slice of the store (`ProductsSlice.dfy`): the client-side merge
  that attaches to every product the comments whose `productId` is its `id`,
  and the state `{products, loading, error}` as a class whose methods are the
  reducers (`initialState`, `setProducts`, fetch `pending`/`fulfilled`/`rejected`,
  `removeProduct.fulfilled`);
- the list view (`ProductList.dfy`): the sorted projection (the products are
  copied into an array, sorted stably in place by name, count or weight, and
  reversed in place for descending order), the sort control's toggle, the
  delete confirmation state and the one-shot fetch guard;
- the detail view (`ProductView.dfy`): parsing the route id with `parseInt`,
  finding the first loaded product with that id, and the `product` cell that is
  written only on a hit;
- the records (`ProductModel.dfy`) and the array built-ins `filter` and
  `reverse` (`Seqs.dfy`) that the above are written with.

The HTTP responses are inputs: a settled request is a `Response` (its payload,
or the message of its error), and a DELETE's success is a boolean.

Where the catalogue's design description and the code disagree, the model
follows the code:

- Removal filters out *every* product with the deleted id
  (`ProductsSlice.RemovalKeepsOthers`); exactly one entry goes away only when ids
  are unique (`ProductsSlice.RemovalOfUniqueId`).
- The fetch guard is not one-shot after a failure: a rejected fetch leaves the
  list empty and `loading` false, so the guard fires again
  (`ProductList.MountScenario` proves one such step). Because `loading` is one
  of the effect's dependencies (src/components/ProductList/ProductList.tsx:22),
  every settle of a fetch turns it from true to false and re-runs the effect;
  while the backend keeps failing, or keeps returning an empty catalogue, the
  list stays empty and the view refetches without bound, although no automatic
  retry is intended. Before a fetch settles the guard does not fire twice,
  because dispatching the thunk applies `pending` at once.
- Sorting again with the same key and direction is idempotent for ascending
  order (`ProductList.AscendingProjection`); for descending order it is
  idempotent only when no two products tie on the key: re-sorting a descending
  projection descending swaps tied products
  (`ProductList.DescendingReappliedSwapsTies`). The code always sorts the
  store's list, never its own output, so this never shows in the view.
- The sort handler is modelled as written: choosing the current key flips the
  direction (`ProductList.SelectSort`, `ProductList.SelectTwice`). The control
  that calls it is a `<select>` bound to the current key
  (src/components/ProductList/ProductList.tsx:84), and a `<select>` raises a
  change only when a different option is picked, so from the page itself the
  same-key branch (line 67) is not reached and the direction stays ascending;
  the descending results (`ProductList.DescendingProjection`) describe the
  handler and the sort effect, not a state the page can be brought to. DOM
  event semantics are not part of this model.
- The `rejected` reducer stores `action.error.message || default`; since `||`
  treats the empty string as absent, an empty message also gives the default.

## Model

| member | source | states |
|---|---|---|
| `ProductModel.Comment` | src/models/productModel.ts:12-17 | the comment record: id, owning product id, description, date text |
| `ProductModel.Product` | src/models/productModel.ts:1-10 | the product record, with integer `count`, `weight` and size fields and its embedded comments |
| `Seqs.Filter` | src/redux/productsSlice.ts:40 | `Array.prototype.filter`: the elements that pass the test, in input order (its contract bounds the length; counts and order are stated by `Seqs.FilterCount` and `Seqs.FilterIsSubsequence`) |
| `ProductsSlice.CommentsOf` | src/redux/productsSlice.ts:40 | `comments.filter(c => c.productId === id)`, the comments the merge attaches to the product with that id (properties in `ProductsSlice.MergeAttachesOwnComments`) |
| `ProductsSlice.MergeComments` | src/redux/productsSlice.ts:38-41 | the merge returns one product per input product, in the same order, with every field other than `comments` copied |
| `ProductsSlice.MergeAttachesOwnComments` | src/redux/productsSlice.ts:40 | a product's merged comments hold each comment with its `productId` as often as the input does, no other comment, and form a sub-sequence of the input (input order kept) |
| `ProductsSlice.MergedCommentsBelong` | src/redux/productsSlice.ts:38-41 | after the merge every comment a product carries has `productId == id` |
| `ProductsSlice.OrphanCommentDropped` | src/redux/productsSlice.ts:40 | a comment whose `productId` matches no product is attached to no product |
| `ProductsSlice.FetchProductsAndComments` | src/redux/productsSlice.ts:26-43 | the thunk succeeds exactly when both requests succeed, then with the merged list; otherwise it fails with one of the failing requests' errors |
| `ProductsSlice.RejectionMessage` | src/redux/productsSlice.ts:78-79 | the stored error is never empty: the failure's message when it has a non-empty one, the fixed default otherwise |
| `ProductsSlice.ProductsState.constructor` | src/redux/productsSlice.ts:19-23 | the initial state has no products, `loading` false and no error |
| `ProductsSlice.ProductsState.SetProducts` | src/redux/productsSlice.ts:58-60 | `setProducts` replaces the products and nothing else |
| `ProductsSlice.ProductsState.FetchPending` | src/redux/productsSlice.ts:65-68 | `pending` sets `loading`, clears the error, keeps the products |
| `ProductsSlice.ProductsState.FetchFulfilled` | src/redux/productsSlice.ts:69-75 | `fulfilled` clears `loading`, replaces the products with the payload, leaves the error as it was |
| `ProductsSlice.ProductsState.FetchRejected` | src/redux/productsSlice.ts:76-80 | `rejected` clears `loading`, stores the rejection message, keeps the products |
| `ProductsSlice.ProductsState.RemoveFulfilled` | src/redux/productsSlice.ts:81-85 | `removeProduct.fulfilled` filters the products by id and leaves `loading` and `error` alone |
| `ProductsSlice.FetchCatalog` | src/redux/productsSlice.ts:26-80 | a fetch run through `pending` then `fulfilled` or `rejected` ends not loading; on success with the merged list, no error and every comment owned by its product; on failure with the old products and a non-empty error |
| `ProductsSlice.WithoutId` | src/redux/productsSlice.ts:82-84 | `products.filter(p => p.id !== id)`, the list the remove reducer stores (properties in the `Removal` lemmas below) |
| `ProductsSlice.RemovalKeepsOthers` | src/redux/productsSlice.ts:81-85 | after removal no product has the id, every other product keeps its multiplicity, and the result is a sub-sequence of the old list (order kept) |
| `ProductsSlice.RemovalOfAbsentId` | src/redux/productsSlice.ts:82-84 | removing an id no product has leaves the list unchanged |
| `ProductsSlice.RemovalOfUniqueId` | src/redux/productsSlice.ts:82-84 | with unique ids, removing the id at position i removes exactly that entry |
| `ProductsSlice.RemovalIdempotent` | src/redux/productsSlice.ts:82-84 | removing an id twice is removing it once |
| `ProductsSlice.RemovalPreservesInvariants` | src/redux/productsSlice.ts:82-84 | removal keeps every comment on its owning product and keeps ids unique |
| `ProductList.StringLe` | src/components/ProductList/ProductList.tsx:28 | `a.localeCompare(b) <= 0`, modelled as lexicographic order on code points (total and transitive by `StringLeTotal`, `StringLeTransitive`) |
| `ProductList.Precedes` | src/components/ProductList/ProductList.tsx:27-33 | the chosen comparator returns at most 0: by name, `a.count - b.count <= 0` or `a.weight - b.weight <= 0` |
| `Seqs.Reverse` | src/components/ProductList/ProductList.tsx:36 | `Array.prototype.reverse` as a value, same length (element positions by `Seqs.ReverseAt`) |
| `ProductList.StableSort` | src/components/ProductList/ProductList.tsx:27-33 | the result of the stable `sorted.sort(compare)`, as insertion sort from the left (properties in the `StableSort` lemmas below) |
| `ProductList.Projection` | src/components/ProductList/ProductList.tsx:26-37 | the list the sort effect stores: the stable sort, reversed when descending (properties in `AscendingProjection`, `DescendingProjection`) |
| `ProductList.PrecedesTotalPreorder` | src/components/ProductList/ProductList.tsx:27-33 | each of the three comparators (name, count, weight) is total and transitive |
| `ProductList.StableSortPermutes` | src/components/ProductList/ProductList.tsx:26-33 | the sorted list is a permutation of the products |
| `ProductList.StableSortSorts` | src/components/ProductList/ProductList.tsx:27-33 | the sorted list is non-decreasing in the chosen key |
| `ProductList.StableSortIsStable` | src/components/ProductList/ProductList.tsx:27-33 | products that tie on the chosen key keep their input order |
| `ProductList.StableSortOfSorted` | src/components/ProductList/ProductList.tsx:27-33 | a list already in order is left unchanged by the sort |
| `ProductList.AscendingProjection` | src/components/ProductList/ProductList.tsx:24-40 | the ascending projection is a sorted, stable permutation of the products and sorting it again gives it back |
| `ProductList.DescendingProjection` | src/components/ProductList/ProductList.tsx:35-37 | the descending projection is the reverse of the ascending one, a permutation of the products, non-increasing in the key |
| `ProductList.DescendingReappliedSwapsTies` | src/components/ProductList/ProductList.tsx:35-37 | two products with the same name come out of a descending sort of [a, b] as [b, a] and of [b, a] as [a, b] |
| `ProductList.SortInPlace` | src/components/ProductList/ProductList.tsx:27-33 | the in-place sort of the copied array leaves in it the stable sort of its old contents |
| `ProductList.ReverseInPlace` | src/components/ProductList/ProductList.tsx:35-37 | the in-place reversal leaves in the array the reverse of its old contents |
| `ProductList.SortedCopy` | src/components/ProductList/ProductList.tsx:24-39 | copying, sorting in place and reversing when descending computes the projection |
| `ProductList.SelectSort` | src/components/ProductList/ProductList.tsx:62-73 | a sort change always selects the chosen key; the same key flips the direction, a different key makes it ascending |
| `ProductList.SelectTwice` | src/components/ProductList/ProductList.tsx:67-68 | choosing the current key twice restores the state; choosing a new key twice ends descending on it |
| `ProductList.ShouldFetch` | src/components/ProductList/ProductList.tsx:19 | the mount effect's condition `!products.length && !loading` |
| `ProductList.RunFetchEffect` | src/components/ProductList/ProductList.tsx:18-22 | the effect dispatches exactly when the list is empty and not loading; dispatching sets `loading`, so the guard is then false |
| `ProductList.MountScenario` | src/components/ProductList/ProductList.tsx:18-22 | on an empty store the first run fetches, a re-render before settling does not, and after a rejected fetch the guard fires again |
| `ProductList.ProductListView.constructor` | src/components/ProductList/ProductList.tsx:12-16 | the view starts with no sorted products, name order ascending, no dialog and no pending id |
| `ProductList.ProductListView.RunSortEffect` | src/components/ProductList/ProductList.tsx:24-40 | the sort effect stores the projection for the current key and direction |
| `ProductList.ProductListView.HandleSortChange` | src/components/ProductList/ProductList.tsx:62-73 | the handler moves the (key, direction) cells by the sort control's transition |
| `ProductList.ProductListView.HandleDelete` | src/components/ProductList/ProductList.tsx:43-46 | `handleDelete` stores the id as pending and opens the dialog |
| `ProductList.ProductListView.ConfirmDelete` | src/components/ProductList/ProductList.tsx:48-54 | `confirmDelete` returns a remove request exactly for the pending id (none without one) and leaves the dialog closed with nothing pending |
| `ProductList.ProductListView.CancelDelete` | src/components/ProductList/ProductList.tsx:56-59 | `cancelDelete` closes the dialog and clears the pending id, requesting nothing |
| `ProductList.ConfirmAndSettle` | src/components/ProductList/ProductList.tsx:48-54 | confirming and the DELETE settling changes the store only when a delete was pending and succeeded, and then removes exactly the products with that id |
| `ProductView.ParseInt` | src/components/ProductView/ProductView.tsx:17 | `parseInt(id, 10)`: skip leading blanks, an optional sign, then the longest digit run; NaN (None) without digits |
| `ProductView.IntToString` | src/components/ProductList/ProductList.tsx:95 | the decimal text of an id as `/product/${product.id}` writes it, with `-` for negatives |
| `ProductView.ParseIntOfRendered` | src/components/ProductView/ProductView.tsx:17 | `parseInt` reads back the decimal id written into the link, whatever non-digit text follows |
| `ProductView.ParseIntNaN` | src/components/ProductView/ProductView.tsx:17 | a segment that does not start (after blanks) with a sign or digit parses to NaN |
| `ProductView.Find` | src/components/ProductView/ProductView.tsx:17 | `find` misses exactly when no product has the id (always for NaN) and otherwise returns the first product with it |
| `ProductView.LinkLeadsToProduct` | src/components/ProductView/ProductView.tsx:17-19 | with unique ids, the lookup of the id a product's link carries finds that product |
| `ProductView.ProductViewState.constructor` | src/components/ProductView/ProductView.tsx:11 | the view starts without a product |
| `ProductView.ProductViewState.RunLookupEffect` | src/components/ProductView/ProductView.tsx:14-21 | an absent or empty route id changes nothing; otherwise a hit stores the first matching product and a miss keeps the old one |
| `ProductView.MountScenario` | src/components/ProductView/ProductView.tsx:11-23 | mounted on a list without the id (the empty list included) the view shows not-found; later it shows the looked-up product or still nothing |

## Left out

- The axios GET and DELETE requests and their URLs (src/redux/productsSlice.ts:29-32, 48): their settled results are inputs.
- The concurrency of `Promise.all` and of the thunks' lifecycle: a fetch is modelled as `pending` followed by its outcome, with no interleaving.
- ProductsSlice.FetchProductsAndComments: when both requests fail, `Promise.all` rejects with whichever fails first; the model returns the products request's error and its contract says only that the error is one of the two.
- `removeProduct` has no `pending` or `rejected` reducer, so a failed DELETE leaves the store as it is; `ConfirmAndSettle` models this with its `deleteSucceeded` flag.
- `localeCompare` is locale dependent; it is modelled as lexicographic order on Unicode code points (Dafny's `char`), which differs from JavaScript's UTF-16 code-unit order for characters above U+FFFF.
- `Array.prototype.sort`'s algorithm is the engine's; it is modelled as a stable insertion sort, which gives the same result as any stable sort with the same comparator.
- JavaScript numbers (`count`, `weight`, `size`, ids) are modelled as integers; fractional weights and NaN are not covered.
- `parseInt`: the white space skipped is the ASCII set plus U+00A0 and U+FEFF (other Unicode space separators and line terminators are not), and precision loss for very long digit strings is not modelled.
- Rendering: the JSX, the loading indicator (src/components/ProductList/ProductList.tsx:75), the `Modal` component, which only renders and forwards its callbacks, and the back button.
- Routing (src/App.tsx) and store wiring (src/redux/store.ts).
- React's scheduling of effects and state updates: effects are methods called explicitly, and a state cell's new value is visible once the handler returns (the sort handler compares with the render's old key, as the source does).
- The second `Comment` interface in src/redux/productsSlice.ts:5-10 has the same shape as src/models/productModel.ts:12-17 and is modelled once.
