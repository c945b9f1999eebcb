/**
 * The products slice of the store: the client-side merge of comments into
 * products, and the state `{products, loading, error}` with its reducers.
 * The two GET requests and the DELETE request are not modelled; their results
 * are the inputs of the transitions.
 */
module ProductsSlice {

  import opened Wrappers
  import opened Seqs
  import opened ProductModel

  /** The message stored when a failed fetch carries no usable message of its own. */
  const FetchFailedMessage: string := "Failed to fetch products and comments"

  // ---------------------------------------------------------------------------
  // Merging comments into products
  // ---------------------------------------------------------------------------

  /** `comments.filter(c => c.productId === productId)`. */
  function CommentsOf(comments: seq<Comment>, productId: int): seq<Comment> {
    Filter(comments, (c: Comment) => c.productId == productId)
  }

  /**
   * `products.map(p => ({...p, comments: CommentsOf(comments, p.id)}))`: one
   * product out per product in, in the same order, with every field but
   * `comments` copied.
   */
  function MergeComments(products: seq<Product>, comments: seq<Comment>): (r: seq<Product>)
    ensures |r| == |products|
    ensures forall i :: 0 <= i < |r| ==> r[i].(comments := []) == products[i].(comments := [])
  {
    seq(|products|, i requires 0 <= i < |products| => products[i].(comments := CommentsOf(comments, products[i].id)))
  }

  /**
   * The comments attached to the i-th product are exactly the comments owned by
   * it: each one as often as it occurs in the input, nothing else, in the input's order.
   */
  lemma MergeAttachesOwnComments(products: seq<Product>, comments: seq<Comment>, i: nat, c: Comment)
    requires i < |products|
    ensures var attached := MergeComments(products, comments)[i].comments;
      && multiset(attached)[c] == (if c.productId == products[i].id then multiset(comments)[c] else 0)
      && Subsequence(attached, comments)
  {
    FilterCount(comments, (c: Comment) => c.productId == products[i].id, c);
    FilterIsSubsequence(comments, (c: Comment) => c.productId == products[i].id);
  }

  /** After the merge every product carries only comments that belong to it. */
  lemma MergedCommentsBelong(products: seq<Product>, comments: seq<Comment>)
    ensures forall p :: p in MergeComments(products, comments) ==> CommentsBelong(p)
  {
    var r := MergeComments(products, comments);
    forall i, c | 0 <= i < |r| && c in r[i].comments ensures c.productId == r[i].id {
      MergeAttachesOwnComments(products, comments, i, c);
    }
  }

  /** A comment whose `productId` matches no product ends up on no product. */
  lemma OrphanCommentDropped(products: seq<Product>, comments: seq<Comment>, c: Comment)
    requires forall p :: p in products ==> p.id != c.productId
    ensures forall p :: p in MergeComments(products, comments) ==> c !in p.comments
  {
    var r := MergeComments(products, comments);
    forall i | 0 <= i < |r| ensures c !in r[i].comments {
      assert products[i] in products;
      MergeAttachesOwnComments(products, comments, i, c);
    }
  }

  // ---------------------------------------------------------------------------
  // Removing a product
  // ---------------------------------------------------------------------------

  /** `products.filter(p => p.id !== id)`. */
  function WithoutId(products: seq<Product>, id: int): seq<Product> {
    Filter(products, (p: Product) => p.id != id)
  }

  /**
   * Removal drops every product with the id and keeps every other product:
   * each as often as before, in the original order.
   */
  lemma RemovalKeepsOthers(products: seq<Product>, id: int, p: Product)
    ensures p in WithoutId(products, id) ==> p.id != id
    ensures p.id != id ==> multiset(WithoutId(products, id))[p] == multiset(products)[p]
    ensures Subsequence(WithoutId(products, id), products)
  {
    FilterCount(products, (p: Product) => p.id != id, p);
    FilterIsSubsequence(products, (p: Product) => p.id != id);
  }

  /** Removing an id that no product has leaves the list unchanged. */
  lemma RemovalOfAbsentId(products: seq<Product>, id: int)
    requires forall p :: p in products ==> p.id != id
    ensures WithoutId(products, id) == products
  {
    assert forall k :: 0 <= k < |products| ==> products[k] in products;
    FilterKeepsAll(products, (p: Product) => p.id != id);
  }

  /**
   * When ids are unique, removing the id of the product at position `i` removes
   * exactly that one entry.
   */
  lemma RemovalOfUniqueId(products: seq<Product>, i: nat)
    requires UniqueIds(products)
    requires i < |products|
    ensures WithoutId(products, products[i].id) == products[..i] + products[i + 1..]
  {
    var id := products[i].id;
    var keep := (p: Product) => p.id != id;
    var before, after := products[..i], products[i + 1..];
    assert products == before + [products[i]] + after;
    assert forall k :: 0 <= k < |before| ==> keep(before[k]) by {
      forall k | 0 <= k < |before| ensures keep(before[k]) {
        assert before[k] == products[k];
      }
    }
    assert forall k :: 0 <= k < |after| ==> keep(after[k]) by {
      forall k | 0 <= k < |after| ensures keep(after[k]) {
        assert after[k] == products[i + 1 + k];
      }
    }
    FilterDropsOne(before, products[i], after, keep);
  }

  /** Removing the same id twice is the same as removing it once. */
  lemma RemovalIdempotent(products: seq<Product>, id: int)
    ensures WithoutId(WithoutId(products, id), id) == WithoutId(products, id)
  {
    forall p | p in WithoutId(products, id) ensures p.id != id {
      RemovalKeepsOthers(products, id, p);
    }
    RemovalOfAbsentId(WithoutId(products, id), id);
  }

  /** Removal keeps comment ownership and id uniqueness. */
  lemma RemovalPreservesInvariants(products: seq<Product>, id: int)
    ensures (forall p :: p in products ==> CommentsBelong(p))
      ==> forall p :: p in WithoutId(products, id) ==> CommentsBelong(p)
    ensures UniqueIds(products) ==> UniqueIds(WithoutId(products, id))
  {
    var r := WithoutId(products, id);
    forall p | p in r ensures p in products {
      FilterCount(products, (p: Product) => p.id != id, p);
    }
    if UniqueIds(products) {
      FilterIsSubsequence(products, (p: Product) => p.id != id);
      SubsequenceKeepsUniqueIds(r, products);
    }
  }

  lemma {:induction false} SubsequenceKeepsUniqueIds(a: seq<Product>, b: seq<Product>)
    requires Subsequence(a, b) && UniqueIds(b)
    ensures UniqueIds(a)
    decreases |b|
  {
    if a != [] && b != [] {
      var b' := b[..|b| - 1];
      assert UniqueIds(b');
      if Subsequence(a, b') {
        SubsequenceKeepsUniqueIds(a, b');
      } else {
        var a' := a[..|a| - 1];
        SubsequenceKeepsUniqueIds(a', b');
        forall k | 0 <= k < |a'| ensures a'[k].id != a[|a| - 1].id {
          SubsequenceMembers(a', b', k);
          var j :| 0 <= j < |b'| && b'[j] == a'[k];
          assert b[j] == a'[k] && b[|b| - 1] == a[|a| - 1];
        }
      }
    }
  }

  lemma {:induction false} SubsequenceMembers(a: seq<Product>, b: seq<Product>, k: nat)
    requires Subsequence(a, b) && k < |a|
    ensures a[k] in b
    decreases |b|
  {
    var b' := b[..|b| - 1];
    if Subsequence(a, b') {
      SubsequenceMembers(a, b', k);
    } else if k < |a| - 1 {
      SubsequenceMembers(a[..|a| - 1], b', k);
    }
  }

  // ---------------------------------------------------------------------------
  // The fetch thunk
  // ---------------------------------------------------------------------------

  /** The settled result of a request: its payload, or the message of its error if it has one. */
  datatype Response<T> = Ok(data: T) | Failed(message: Option<string>)

  /**
   * `fetchProductsAndComments` once both GET requests have settled: all or
   * nothing, with the merge applied only when both succeeded.
   */
  function FetchProductsAndComments(products: Response<seq<Product>>, comments: Response<seq<Comment>>)
    : (r: Response<seq<Product>>)
    ensures r.Ok? <==> products.Ok? && comments.Ok?
    ensures r.Ok? ==> r.data == MergeComments(products.data, comments.data)
    ensures r.Failed? ==> r == products || (comments.Failed? && r.message == comments.message)
  {
    match (products, comments)
    case (Ok(ps), Ok(cs)) => Ok(MergeComments(ps, cs))
    case (Failed(m), _) => Failed(m)
    case (Ok(_), Failed(m)) => Failed(m)
  }

  /**
   * `action.error.message || FetchFailedMessage`: with `||`, an empty message
   * falls back to the default as an absent one does.
   */
  function RejectionMessage(message: Option<string>): (r: string)
    ensures r != []
    ensures message == Some(r) || (r == FetchFailedMessage && (message == None || message == Some([])))
  {
    if message.Some? && message.value != [] then message.value else FetchFailedMessage
  }

  // ---------------------------------------------------------------------------
  // The state and its reducers
  // ---------------------------------------------------------------------------

  /** The slice's state; each method is one reducer, mutating the draft in place. */
  class ProductsState {
    var products: seq<Product>
    var loading: bool
    var error: Option<string>

    /** `initialState`. */
    constructor ()
      ensures products == [] && !loading && error == None
    {
      products := [];
      loading := false;
      error := None;
    }

    /** `setProducts`: only `products` changes. */
    method SetProducts(payload: seq<Product>)
      modifies this
      ensures products == payload
      ensures loading == old(loading) && error == old(error)
    {
      products := payload;
    }

    /** `fetchProductsAndComments.pending`. */
    method FetchPending()
      modifies this
      ensures loading && error == None
      ensures products == old(products)
    {
      loading := true;
      error := None;
    }

    /** `fetchProductsAndComments.fulfilled`: `error` is left as it was. */
    method FetchFulfilled(payload: seq<Product>)
      modifies this
      ensures !loading && products == payload
      ensures error == old(error)
    {
      loading := false;
      products := payload;
    }

    /** `fetchProductsAndComments.rejected`. */
    method FetchRejected(message: Option<string>)
      modifies this
      ensures !loading && error == Some(RejectionMessage(message))
      ensures products == old(products)
    {
      loading := false;
      error := Some(RejectionMessage(message));
    }

    /** `removeProduct.fulfilled`: the payload is the id the DELETE request removed. */
    method RemoveFulfilled(id: int)
      modifies this
      ensures products == WithoutId(old(products), id)
      ensures loading == old(loading) && error == old(error)
    {
      products := WithoutId(products, id);
    }
  }

  /**
   * One run of the fetch thunk against the store: `pending`, then `fulfilled`
   * or `rejected` according to the settled responses.
   */
  method FetchCatalog(state: ProductsState, products: Response<seq<Product>>, comments: Response<seq<Comment>>)
    modifies state
    ensures !state.loading
    ensures products.Ok? && comments.Ok? ==>
      && state.products == MergeComments(products.data, comments.data)
      && state.error == None
      && forall p :: p in state.products ==> CommentsBelong(p)
    ensures !(products.Ok? && comments.Ok?) ==>
      && state.products == old(state.products)
      && state.error.Some? && state.error.value != []
  {
    state.FetchPending();
    var outcome := FetchProductsAndComments(products, comments);
    if outcome.Ok? {
      MergedCommentsBelong(products.data, comments.data);
      state.FetchFulfilled(outcome.data);
    } else {
      state.FetchRejected(outcome.message);
    }
  }
}
