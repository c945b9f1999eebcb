/**
 * The records the catalogue exchanges with its backend: a product and the
 * comments attached to it. JavaScript numbers are modelled as integers.
 */
module ProductModel {

  /** A comment, owned by the product whose `id` equals `productId`; `date` is opaque display text. */
  datatype Comment = Comment(id: int, productId: int, description: string, date: string)

  datatype Size = Size(width: int, height: int)

  /** A product; `comments` is filled in by the client-side merge, not by the backend. */
  datatype Product = Product(
    id: int,
    imageUrl: string,
    name: string,
    description: string,
    count: int,
    size: Size,
    weight: int,
    comments: seq<Comment>)

  /** Every comment a product carries belongs to that product. */
  predicate CommentsBelong(p: Product) {
    forall c :: c in p.comments ==> c.productId == p.id
  }

  /** No two products in the list share an id. */
  predicate UniqueIds(products: seq<Product>) {
    forall i, j :: 0 <= i < j < |products| ==> products[i].id != products[j].id
  }
}
