/**
 * The detail view: parse the route's id, find the first loaded product with
 * that id, and keep it in the view's `product` cell, which is written only on a hit.
 */
module ProductView {

  import opened Wrappers
  import opened ProductModel

  // ---------------------------------------------------------------------------
  // parseInt(s, 10) and the decimal rendering of an id
  // ---------------------------------------------------------------------------

  predicate IsDigit(c: char) {
    '0' <= c <= '9'
  }

  /** The white-space characters `parseInt` skips before the number. */
  predicate IsSpace(c: char) {
    c == ' ' || c == '\t' || c == '\n' || c == '\r' || c == '\U{B}' || c == '\U{C}'
      || c == '\U{A0}' || c == '\U{FEFF}'
  }

  function TrimStart(s: string): (r: string)
    ensures |r| <= |s| && r == s[|s| - |r|..]
    ensures r == [] || !IsSpace(r[0])
  {
    if s != [] && IsSpace(s[0]) then TrimStart(s[1..]) else s
  }

  /** The longest prefix of `s` made of decimal digits. */
  function DigitPrefix(s: string): (r: string)
    ensures |r| <= |s| && r == s[..|r|]
    ensures forall k :: 0 <= k < |r| ==> IsDigit(r[k])
    ensures |r| < |s| ==> !IsDigit(s[|r|])
  {
    if s == [] || !IsDigit(s[0]) then [] else [s[0]] + DigitPrefix(s[1..])
  }

  /** The value of a string of decimal digits, most significant first. */
  function DigitsValue(ds: string): nat
    requires forall k :: 0 <= k < |ds| ==> IsDigit(ds[k])
  {
    if ds == [] then 0
    else
      assert IsDigit(ds[|ds| - 1]);
      DigitsValue(ds[..|ds| - 1]) * 10 + (ds[|ds| - 1] as int - '0' as int)
  }

  /**
   * `parseInt(s, 10)`: skip leading white space, read an optional sign and
   * the longest run of digits after it; `None` (NaN) when there are no digits.
   */
  function ParseInt(s: string): Option<int> {
    ParseSigned(TrimStart(s))
  }

  function ParseSigned(t: string): Option<int> {
    if t != [] && t[0] == '-' then
      match ParseDigits(t[1..])
      case Some(v) => Some(-v)
      case None => None
    else if t != [] && t[0] == '+' then ParseDigits(t[1..])
    else ParseDigits(t)
  }

  function ParseDigits(u: string): Option<int> {
    var digits := DigitPrefix(u);
    if digits == [] then None else Some(DigitsValue(digits))
  }

  function DigitChar(d: nat): (c: char)
    requires d < 10
    ensures IsDigit(c) && c as int - '0' as int == d
  {
    ('0' as int + d) as char
  }

  /** `${n}` for a natural number: its decimal digits, no leading zeros. */
  function NatToString(n: nat): (r: string)
    ensures r != [] && forall k :: 0 <= k < |r| ==> IsDigit(r[k])
  {
    if n < 10 then [DigitChar(n)] else NatToString(n / 10) + [DigitChar(n % 10)]
  }

  /** `${n}` for an integer, as the list view writes it into `/product/${product.id}`. */
  function IntToString(n: int): string {
    if n < 0 then "-" + NatToString(-n) else NatToString(n)
  }

  lemma {:induction false} NatToStringValue(n: nat)
    ensures DigitsValue(NatToString(n)) == n
  {
    if n >= 10 {
      NatToStringValue(n / 10);
      var s := NatToString(n);
      assert s[..|s| - 1] == NatToString(n / 10);
    }
  }

  lemma {:induction false} DigitPrefixOfDigits(ds: string, rest: string)
    requires forall k :: 0 <= k < |ds| ==> IsDigit(ds[k])
    requires rest == [] || !IsDigit(rest[0])
    ensures DigitPrefix(ds + rest) == ds
    decreases |ds|
  {
    if ds != [] {
      assert (ds + rest)[1..] == ds[1..] + rest;
      DigitPrefixOfDigits(ds[1..], rest);
    }
  }

  /**
   * Parsing reads back the id the list view rendered, whatever non-digit text
   * follows it in the path segment.
   */
  lemma ParseIntOfRendered(n: int, rest: string)
    requires rest == [] || !IsDigit(rest[0])
    ensures ParseInt(IntToString(n) + rest) == Some(n)
  {
    var m: nat := if n < 0 then -n else n;
    ParseDigitsOfRendered(m, rest);
    var digits := NatToString(m) + rest;
    if n < 0 {
      var s := "-" + digits;
      assert IntToString(n) + rest == s;
      assert s[1..] == digits;
      TrimStartNoop(s);
    } else {
      assert IntToString(n) + rest == digits;
      assert IsDigit(digits[0]);
      TrimStartNoop(digits);
    }
  }

  lemma TrimStartNoop(s: string)
    requires s != [] && !IsSpace(s[0])
    ensures TrimStart(s) == s
  {
  }

  lemma ParseDigitsOfRendered(m: nat, rest: string)
    requires rest == [] || !IsDigit(rest[0])
    ensures ParseDigits(NatToString(m) + rest) == Some(m)
  {
    NatToStringValue(m);
    DigitPrefixOfDigits(NatToString(m), rest);
  }

  /** A segment whose first non-blank character is neither a sign nor a digit is NaN. */
  lemma ParseIntNaN(s: string)
    requires var t := TrimStart(s); t == [] || (!IsDigit(t[0]) && t[0] != '-' && t[0] != '+')
    ensures ParseInt(s) == None
  {
  }

  // ---------------------------------------------------------------------------
  // The lookup
  // ---------------------------------------------------------------------------

  /** `products.find(p => p.id === id)`, where `None` is NaN and is equal to nothing. */
  function Find(products: seq<Product>, id: Option<int>): (r: Option<Product>)
    ensures r.None? <==> forall i :: 0 <= i < |products| ==> Some(products[i].id) != id
    ensures forall i :: (0 <= i < |products| && Some(products[i].id) == id
      && (forall j :: 0 <= j < i ==> Some(products[j].id) != id)) ==> r == Some(products[i])
  {
    if products == [] then None
    else if Some(products[0].id) == id then Some(products[0])
    else Find(products[1..], id)
  }

  /** With unique ids, the link the list view renders for a product leads back to that product. */
  lemma LinkLeadsToProduct(products: seq<Product>, i: nat)
    requires UniqueIds(products) && i < |products|
    ensures Find(products, ParseInt(IntToString(products[i].id))) == Some(products[i])
  {
    ParseIntOfRendered(products[i].id, []);
    assert IntToString(products[i].id) + [] == IntToString(products[i].id);
  }

  /** The view's state: the `product` cell. */
  class ProductViewState {
    var product: Option<Product>

    /** `useState<Product | null>(null)`. */
    constructor ()
      ensures product == None
    {
      product := None;
    }

    /** The view renders "Product not found". */
    predicate ShowsNotFound()
      reads this
    {
      product == None
    }

    /**
     * The lookup effect: skipped when the route id is absent or empty; otherwise
     * `product` is set to the first match and left alone on a miss.
     */
    method RunLookupEffect(id: Option<string>, products: seq<Product>)
      modifies this
      ensures id == None || id == Some("") ==> product == old(product)
      ensures id.Some? && id.value != "" ==>
        var found := Find(products, ParseInt(id.value));
        product == if found.Some? then found else old(product)
    {
      if id == None || id.value == "" {
        return;
      }
      var found := Find(products, ParseInt(id.value));
      if found.Some? {
        product := found;
      }
    }
  }

  /**
   * The view mounted on a list without the requested id (the empty list
   * included) shows "Product not found"; once the id is loaded it shows that product.
   */
  method MountScenario(id: string, missing: seq<Product>, loaded: seq<Product>)
    returns (before: bool, after: Option<Product>)
    requires forall p :: p in missing ==> Some(p.id) != ParseInt(id)
    ensures before
    ensures id != "" ==> after == (var f := Find(loaded, ParseInt(id)); if f.Some? then f else None)
  {
    var view := new ProductViewState();
    view.RunLookupEffect(Some(id), missing);
    before := view.ShowsNotFound();
    view.RunLookupEffect(Some(id), loaded);
    after := view.product;
  }
}
