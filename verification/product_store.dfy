/** The product repository over a document collection. The collection is
    the sequence of stored documents in store (insertion) order; each
    repository call is a function of it. */
module ProductStore {
  import opened Results
  import opened Text
  import opened ProductModel
  import opened ProductListing
  import JavaInt

  type Collection = seq<ProductDoc>

  /** A query document: match by product id, or by (name, attribute). */
  datatype Query = ById(productId: int) | ByKey(name: string, attribute: Value)

  predicate Matches(q: Query, d: ProductDoc) {
    match q
    case ById(id) => d.productId == id
    case ByKey(n, a) => d.name == n && d.attribute == a
  }

  /** The position of the first document, in store order, that matches `q`:
      the one `find(q).first()`, `updateOne` and `deleteOne` act on. */
  function FirstMatch(c: Collection, q: Query): (k: Option<nat>)
    ensures k.Some? ==> k.value < |c| && Matches(q, c[k.value])
    ensures k.Some? ==> forall j :: 0 <= j < k.value ==> !Matches(q, c[j])
    ensures k.None? <==> forall j :: 0 <= j < |c| ==> !Matches(q, c[j])
  {
    if c == [] then None
    else if Matches(q, c[0]) then Some(0)
    else
      match FirstMatch(c[1..], q)
      case None => None
      case Some(k) => Some(k + 1)
  }

  /** The (name, attribute) key update and delete look a product up by. */
  function KeyOf(p: Product): Query {
    ByKey(p.name, p.Attribute())
  }

  // ---------------------------------------------------------------------
  // Mapping between products and documents

  /** The document `addProduct` writes for `p` under the allocated id. */
  function EncodeProduct(p: Product, productId: int): ProductDoc {
    ProductDoc(p.name, productId, p.quantity, p.price, TypeName(p.Type()), p.Attribute())
  }

  /** Builds the variant a tag selects. A tree needs a double attribute (the
      cast fails otherwise); flowers and decorations take it as it is. */
  function CreateProduct(productId: int, name: string, quantity: int, price: real,
                         t: ProductType, attribute: Value): Result<Product, StoreError>
  {
    match t
    case FLOWER => Ok(Flower(Some(productId), name, quantity, price, attribute))
    case DECORATION => Ok(Decoration(Some(productId), name, quantity, price, attribute))
    case TREE =>
      if attribute.DoubleValue? then Ok(Tree(Some(productId), name, quantity, price, attribute.number))
      else Err(AttributeMismatch(TypeName(TREE)))
  }

  /** Decodes a stored document. The stored type string is upper-cased and
      must then name a tag exactly; there is no default variant. */
  function DecodeProduct(d: ProductDoc): (r: Result<Product, StoreError>)
    ensures TypeFromName(Upper(d.typeName)).None? ==> r == Err(UnknownVariant(d.typeName))
    ensures r.Ok? <==>
      TypeFromName(Upper(d.typeName)).Some?
      && (TypeFromName(Upper(d.typeName)) == Some(TREE) ==> d.attribute.DoubleValue?)
    ensures r.Ok? ==>
      && TypeName(r.value.Type()) == Upper(d.typeName)
      && r.value.productId == Some(d.productId)
      && r.value.name == d.name
      && r.value.quantity == d.quantity
      && r.value.price == d.price
      && r.value.Attribute() == d.attribute
  {
    match TypeFromName(Upper(d.typeName))
    case None => Err(UnknownVariant(d.typeName))
    case Some(t) => CreateProduct(d.productId, d.name, d.quantity, d.price, t, d.attribute)
  }

  lemma UpperOfTypeName(t: ProductType)
    ensures Upper(TypeName(t)) == TypeName(t)
  {
    var s := TypeName(t);
    assert forall i :: 0 <= i < |s| ==> 'A' <= s[i] <= 'Z';
    assert Upper(s) == s;
  }

  /** Decoding a document `addProduct` wrote gives back the product with the
      allocated id, field for field, for every variant. */
  lemma DecodeEncode(p: Product, productId: int)
    ensures DecodeProduct(EncodeProduct(p, productId)) == Ok(p.(productId := Some(productId)))
  {
    UpperOfTypeName(p.Type());
  }

  /** The stored type is upper-cased before matching, so "tree" decodes as a
      tree, while "ROCK" is an unknown variant. */
  lemma TypeCaseExamples()
    ensures DecodeProduct(ProductDoc("Pine", 1, 5, 20.0, "tree", DoubleValue(3.5)))
            == Ok(Tree(Some(1), "Pine", 5, 20.0, 3.5))
    ensures DecodeProduct(ProductDoc("Stone", 2, 1, 2.0, "ROCK", StringValue("grey")))
            == Err(UnknownVariant("ROCK"))
  {
    assert Upper("tree") == "TREE";
    assert Upper("ROCK") == "ROCK";
  }

  // ---------------------------------------------------------------------
  // Reads

  /** Position of the document with the greatest product id; among equal
      ids the first in store order. */
  function MaxIdIndex(c: Collection): (k: nat)
    requires |c| > 0
    ensures k < |c|
    ensures forall j :: 0 <= j < |c| ==> c[j].productId <= c[k].productId
    ensures forall j :: 0 <= j < k ==> c[j].productId < c[k].productId
  {
    if |c| == 1 then 0
    else
      var k := MaxIdIndex(c[..|c| - 1]);
      if c[|c| - 1].productId > c[k].productId then |c| - 1 else k
  }

  /** The stored product with the greatest id, or `None` on an empty
      collection. That document is decoded, so decoding may fail. */
  function LastProduct(c: Collection): (r: Result<Option<Product>, StoreError>)
    ensures r == Ok(None) <==> |c| == 0
    ensures r.Ok? && |c| > 0 ==> r.value.Some? && Ok(r.value.value) == DecodeProduct(c[MaxIdIndex(c)])
    ensures r.Ok? && r.value.Some? ==> |c| > 0 && r.value.value.productId == Some(c[MaxIdIndex(c)].productId)
    ensures r.Err? <==> |c| > 0 && DecodeProduct(c[MaxIdIndex(c)]).Err?
  {
    if |c| == 0 then Ok(None)
    else
      var p :- DecodeProduct(c[MaxIdIndex(c)]);
      Ok(Some(p))
  }

  /** No stored id is `Integer.MAX_VALUE` or more, so one more than the
      greatest stored id does not wrap. */
  predicate IdsBelowIntMax(c: Collection) {
    forall j :: 0 <= j < |c| ==> c[j].productId < JavaInt.MaxInt
  }

  /** Scan-max allocation: 1 on an empty collection, otherwise the greatest
      stored id plus one in 32-bit arithmetic. Unless the greatest id is
      `Integer.MAX_VALUE`, the result is above every stored id. */
  function NextProductId(c: Collection): (r: Result<int, StoreError>)
    ensures |c| == 0 ==> r == Ok(1)
    ensures r.Err? <==> |c| > 0 && DecodeProduct(c[MaxIdIndex(c)]).Err?
    ensures r.Ok? && |c| > 0 ==> r.value == JavaInt.Wrap(c[MaxIdIndex(c)].productId + 1)
    ensures r.Ok? && IdsBelowIntMax(c) ==> forall j :: 0 <= j < |c| ==> c[j].productId < r.value
  {
    var last :- LastProduct(c);
    match last
    case None => Ok(1)
    case Some(p) => Ok(JavaInt.Wrap(p.productId.value + 1))
  }

  /** Looks a product up by id: the first document with that id, decoded.
      An absent id decodes a missing document and fails. */
  function GetProduct(c: Collection, productId: int): (r: Result<Product, StoreError>)
    ensures (forall j :: 0 <= j < |c| ==> c[j].productId != productId) ==> r == Err(NotFound(productId))
    ensures r.Ok? ==> r.value.productId == Some(productId)
    ensures (exists j :: 0 <= j < |c| && c[j].productId == productId) ==>
      exists j :: 0 <= j < |c| && c[j].productId == productId && r == DecodeProduct(c[j])
  {
    match FirstMatch(c, ById(productId))
    case None => Err(NotFound(productId))
    case Some(k) => DecodeProduct(c[k])
  }

  /** Decodes every document, in order; fails when any document does. */
  function DecodeAll(ds: seq<ProductDoc>): (r: Result<seq<Product>, StoreError>)
    ensures r.Ok? <==> AllDecode(ds)
    ensures r.Ok? ==> |r.value| == |ds|
    ensures r.Ok? ==> forall i :: 0 <= i < |ds| ==> DecodeProduct(ds[i]) == Ok(r.value[i])
  {
    if ds == [] then Ok([])
    else
      var p :- DecodeProduct(ds[0]);
      var ps :- DecodeAll(ds[1..]);
      Ok([p] + ps)
  }

  /** Every document of the collection decodes. */
  predicate AllDecode(ds: seq<ProductDoc>) {
    forall i :: 0 <= i < |ds| ==> DecodeProduct(ds[i]).Ok?
  }

  lemma PermutationDecodes(s: seq<ProductDoc>, c: seq<ProductDoc>)
    requires multiset(s) == multiset(c)
    ensures AllDecode(s) <==> AllDecode(c)
  {
    if AllDecode(c) {
      forall i | 0 <= i < |s| ensures DecodeProduct(s[i]).Ok? {
        assert s[i] in multiset(c);
        var j :| 0 <= j < |c| && c[j] == s[i];
      }
    }
    if AllDecode(s) {
      forall i | 0 <= i < |c| ensures DecodeProduct(c[i]).Ok? {
        assert c[i] in multiset(s);
        var j :| 0 <= j < |s| && s[j] == c[i];
      }
    }
  }

  /** Every stored product, decoded, in listing order. */
  function GetAllProducts(c: Collection): (r: Result<seq<Product>, StoreError>)
    ensures r.Ok? <==> AllDecode(c)
    ensures r.Ok? ==> |r.value| == |c|
    ensures r.Ok? ==> forall i :: 0 <= i < |c| ==> DecodeProduct(ListingOrder(c)[i]) == Ok(r.value[i])
  {
    var s := ListingOrder(c);
    PermutationDecodes(s, c);
    DecodeAll(s)
  }

  /** The products of one variant, in the order they are given. */
  function OfType(t: ProductType, ps: seq<Product>): (r: seq<Product>)
    ensures forall i :: 0 <= i < |r| ==> r[i].Type() == t
    ensures forall p :: p in r <==> p in ps && p.Type() == t
    ensures |r| <= |ps|
  {
    if ps == [] then []
    else (if ps[0].Type() == t then [ps[0]] else []) + OfType(t, ps[1..])
  }

  /** `getTrees`, `getFlowers` and `getDecorations`: the full listing
      filtered to one variant. */
  function ListVariant(c: Collection, t: ProductType): (r: Result<seq<Product>, StoreError>)
    ensures r.Ok? <==> GetAllProducts(c).Ok?
    ensures r.Ok? ==> forall p :: p in r.value <==> p in GetAllProducts(c).value && p.Type() == t
  {
    var all :- GetAllProducts(c);
    Ok(OfType(t, all))
  }

  // ---------------------------------------------------------------------
  // Writes

  /** Appends one document for `p` under a freshly allocated id; the id the
      product object carries is ignored. */
  function AddProduct(c: Collection, p: Product): (r: Result<Collection, StoreError>)
    ensures r.Err? <==> NextProductId(c).Err?
    ensures r.Ok? ==> |r.value| == |c| + 1 && r.value[..|c|] == c
    ensures r.Ok? ==>
      var d := r.value[|c|];
      && NextProductId(c) == Ok(d.productId)
      && (IdsBelowIntMax(c) ==> forall j :: 0 <= j < |c| ==> c[j].productId < d.productId)
      && d.name == p.name && d.quantity == p.quantity && d.price == p.price
      && d.typeName == TypeName(p.Type()) && d.attribute == p.Attribute()
  {
    var productId :- NextProductId(c);
    Ok(c + [EncodeProduct(p, productId)])
  }

  /** Two documents agree on everything but quantity and price. */
  predicate SameExceptStock(a: ProductDoc, b: ProductDoc) {
    a.name == b.name && a.productId == b.productId
    && a.typeName == b.typeName && a.attribute == b.attribute
  }

  /** Sets quantity and price on the first document whose (name, attribute)
      match `p`'s; silently does nothing when none matches. */
  function UpdateProduct(c: Collection, p: Product): (r: Collection)
    ensures |r| == |c|
    ensures FirstMatch(c, KeyOf(p)).None? ==> r == c
    ensures forall i :: 0 <= i < |c| ==> SameExceptStock(r[i], c[i])
    ensures forall i :: 0 <= i < |c| && FirstMatch(c, KeyOf(p)) != Some(i) ==> r[i] == c[i]
    ensures FirstMatch(c, KeyOf(p)).Some? ==>
      var k := FirstMatch(c, KeyOf(p)).value;
      r[k].quantity == p.quantity && r[k].price == p.price
  {
    match FirstMatch(c, KeyOf(p))
    case None => c
    case Some(k) => c[k := c[k].(quantity := p.quantity, price := p.price)]
  }

  /** Removes the first document whose (name, attribute) match `p`'s;
      silently does nothing when none matches. */
  function DeleteProduct(c: Collection, p: Product): (r: Collection)
    ensures FirstMatch(c, KeyOf(p)).None? ==> r == c
    ensures FirstMatch(c, KeyOf(p)).Some? ==>
      var k := FirstMatch(c, KeyOf(p)).value;
      && |r| == |c| - 1
      && r[..k] == c[..k]
      && r[k..] == c[k + 1..]
      && multiset(r) + multiset{c[k]} == multiset(c)
  {
    match FirstMatch(c, KeyOf(p))
    case None => c
    case Some(k) =>
      assert c == c[..k] + [c[k]] + c[k + 1..];
      c[..k] + c[k + 1..]
  }
}
