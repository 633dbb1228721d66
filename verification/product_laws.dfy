/** Laws relating the product repository's operations to one another. */
module ProductLaws {
  import opened Results
  import opened ProductModel
  import opened ProductListing
  import opened ProductStore
  import JavaInt

  // ---------------------------------------------------------------------
  // Listing order and the variant filters

  /** Every stored type string is one of the three tag names. */
  predicate CanonicalTags(c: Collection) {
    forall i :: 0 <= i < |c| ==> TypeFromName(c[i].typeName).Some?
  }

  /** With canonical tags, the listing shows all trees, then all flowers,
      then all decorations, each group in ascending id order. */
  lemma ListingGroupsByVariant(c: Collection)
    requires CanonicalTags(c)
    requires GetAllProducts(c).Ok?
    ensures var ps := GetAllProducts(c).value;
      forall i, j :: 0 <= i < j < |ps| ==>
        Rank(ps[i].Type()) < Rank(ps[j].Type())
        || (ps[i].Type() == ps[j].Type() && ps[i].productId.value <= ps[j].productId.value)
  {
    var ps := GetAllProducts(c).value;
    var s := ListingOrder(c);
    forall i, j | 0 <= i < j < |ps|
      ensures Rank(ps[i].Type()) < Rank(ps[j].Type())
        || (ps[i].Type() == ps[j].Type() && ps[i].productId.value <= ps[j].productId.value)
    {
      assert DecodeProduct(s[i]) == Ok(ps[i]) && DecodeProduct(s[j]) == Ok(ps[j]);
      assert ListedBefore(s[i], s[j]);
      TagOfCanonical(c, s, i);
      TagOfCanonical(c, s, j);
      TagStringOrder(ps[i].Type(), ps[j].Type());
    }
  }

  /** A listed document with a canonical tag string decodes to that tag. */
  lemma TagOfCanonical(c: Collection, s: seq<ProductDoc>, i: int)
    requires CanonicalTags(c)
    requires multiset(s) == multiset(c)
    requires 0 <= i < |s| && DecodeProduct(s[i]).Ok?
    ensures TypeName(DecodeProduct(s[i]).value.Type()) == s[i].typeName
  {
    assert s[i] in multiset(c);
    var j :| 0 <= j < |c| && c[j] == s[i];
    var t := TypeFromName(s[i].typeName).value;
    UpperOfTypeName(t);
  }

  /** Filtering distributes over concatenation, so it keeps relative order. */
  lemma {:induction false} OfTypeAppend(t: ProductType, a: seq<Product>, b: seq<Product>)
    ensures OfType(t, a + b) == OfType(t, a) + OfType(t, b)
  {
    if a == [] {
      assert a + b == b;
    } else {
      assert (a + b)[1..] == a[1..] + b;
      OfTypeAppend(t, a[1..], b);
    }
  }

  /** The three variant filters split a product list: every product lands in
      exactly one of them, and nothing else does. */
  lemma {:induction false} OfTypePartition(ps: seq<Product>)
    ensures multiset(OfType(TREE, ps)) + multiset(OfType(FLOWER, ps)) + multiset(OfType(DECORATION, ps))
            == multiset(ps)
    ensures |OfType(TREE, ps)| + |OfType(FLOWER, ps)| + |OfType(DECORATION, ps)| == |ps|
  {
    if ps != [] {
      OfTypePartition(ps[1..]);
      assert ps == [ps[0]] + ps[1..];
    }
  }

  /** `getTrees`, `getFlowers` and `getDecorations` together partition
      `getAllProducts`, each keeping the listing's relative order. */
  lemma VariantListingsPartition(c: Collection)
    requires GetAllProducts(c).Ok?
    ensures var all := GetAllProducts(c).value;
      && ListVariant(c, TREE) == Ok(OfType(TREE, all))
      && ListVariant(c, FLOWER) == Ok(OfType(FLOWER, all))
      && ListVariant(c, DECORATION) == Ok(OfType(DECORATION, all))
      && multiset(OfType(TREE, all)) + multiset(OfType(FLOWER, all)) + multiset(OfType(DECORATION, all))
         == multiset(all)
  {
    OfTypePartition(GetAllProducts(c).value);
  }

  // ---------------------------------------------------------------------
  // Writes

  /** The first match depends only on whether each document matches. */
  lemma {:induction false} FirstMatchSameMatches(c: Collection, c': Collection, q: Query)
    requires |c| == |c'|
    requires forall i :: 0 <= i < |c| ==> (Matches(q, c[i]) <==> Matches(q, c'[i]))
    ensures FirstMatch(c, q) == FirstMatch(c', q)
  {
    if c != [] {
      FirstMatchSameMatches(c[1..], c'[1..], q);
    }
  }

  /** Updating twice with the same product is updating once: the update
      leaves the (name, attribute) key of every document alone. */
  lemma UpdateIdempotent(c: Collection, p: Product)
    ensures UpdateProduct(UpdateProduct(c, p), p) == UpdateProduct(c, p)
  {
    var r := UpdateProduct(c, p);
    FirstMatchSameMatches(c, r, KeyOf(p));
  }

  /** A document whose key nobody else shares is found by update: its
      quantity and price are replaced and nothing else in the store moves. */
  lemma UpdateReachesSoleMatch(c: Collection, p: Product, k: nat)
    requires k < |c| && Matches(KeyOf(p), c[k])
    requires forall j :: 0 <= j < |c| && j != k ==> !Matches(KeyOf(p), c[j])
    ensures UpdateProduct(c, p) == c[k := c[k].(quantity := p.quantity, price := p.price)]
  {
  }

  /** After an add, looking the allocated id up returns the added product,
      provided the allocated id did not wrap onto a stored one. */
  lemma AddThenFetch(c: Collection, p: Product)
    requires AddProduct(c, p).Ok? && IdsBelowIntMax(c)
    ensures var c' := AddProduct(c, p).value;
      GetProduct(c', c'[|c|].productId) == Ok(p.(productId := Some(c'[|c|].productId)))
  {
    var c' := AddProduct(c, p).value;
    var id := c'[|c|].productId;
    assert c' == c + [EncodeProduct(p, id)];
    assert FirstMatch(c', ById(id)) == Some(|c|);
    DecodeEncode(p, id);
  }

  /** Delete undoes an add: when no stored document shares the product's
      (name, attribute) key, deleting it right after adding it gives back the
      collection as it was. */
  lemma AddThenDelete(c: Collection, p: Product)
    requires AddProduct(c, p).Ok?
    requires FirstMatch(c, KeyOf(p)).None?
    ensures DeleteProduct(AddProduct(c, p).value, p) == c
  {
    var c' := AddProduct(c, p).value;
    assert Matches(KeyOf(p), c'[|c|]);
    assert FirstMatch(c', KeyOf(p)) == Some(|c|);
    assert c'[..|c|] == c;
  }

  /** At `Integer.MAX_VALUE` the allocator wraps: a store whose only id is
      the largest `int` hands out `Integer.MIN_VALUE`, and with a document
      already holding that id, the new id is not fresh. */
  lemma IdWrapsAtIntMax()
    ensures var c := [ProductDoc("Pine", JavaInt.MaxInt, 5, 20.0, "TREE", DoubleValue(3.5))];
      NextProductId(c) == Ok(JavaInt.MinInt)
    ensures var c := [ProductDoc("Rose", JavaInt.MinInt, 9, 2.5, "FLOWER", StringValue("red")),
                      ProductDoc("Pine", JavaInt.MaxInt, 5, 20.0, "TREE", DoubleValue(3.5))];
      NextProductId(c) == Ok(c[0].productId)
  {
    var c1 := [ProductDoc("Pine", JavaInt.MaxInt, 5, 20.0, "TREE", DoubleValue(3.5))];
    assert MaxIdIndex(c1) == 0;
    assert DecodeProduct(c1[0]).Ok? by { UpperOfTypeName(TREE); }
    var c2 := [ProductDoc("Rose", JavaInt.MinInt, 9, 2.5, "FLOWER", StringValue("red"))] + c1;
    assert MaxIdIndex(c2) == 1;
    assert c2[1] == c1[0];
  }

  /** Adds a sequence of products one after another. */
  function AddAll(c: Collection, ps: seq<Product>): Result<Collection, StoreError>
    decreases |ps|
  {
    if ps == [] then Ok(c)
    else
      var c' :- AddProduct(c, ps[0]);
      AddAll(c', ps[1..])
  }

  /** Document `i` (in store order) carries id `i + 1`. */
  predicate NumberedFromOne(c: Collection) {
    forall i :: 0 <= i < |c| ==> c[i].productId == i + 1
  }

  lemma {:induction false} AllocationCountsUp(c: Collection, ps: seq<Product>)
    requires NumberedFromOne(c) && AllDecode(c)
    requires |c| + |ps| <= JavaInt.MaxInt
    ensures AddAll(c, ps).Ok?
    ensures |AddAll(c, ps).value| == |c| + |ps|
    ensures NumberedFromOne(AddAll(c, ps).value) && AllDecode(AddAll(c, ps).value)
    decreases |ps|
  {
    if ps != [] {
      var r := AddProduct(c, ps[0]);
      assert r.Ok?;
      var c' := r.value;
      var d := c'[|c|];
      assert c' == c + [d];
      assert d.productId == |c| + 1 by {
        if |c| > 0 {
          var k := MaxIdIndex(c);
          assert c[|c| - 1].productId <= c[k].productId;
          assert k == |c| - 1;
        }
      }
      assert d == EncodeProduct(ps[0], |c| + 1);
      DecodeEncode(ps[0], |c| + 1);
      AllocationCountsUp(c', ps[1..]);
    }
  }

  /** Starting from an empty catalogue, N sequential adds receive ids
      1, 2, ..., N with no repeats. */
  lemma SequentialIdsFromEmpty(ps: seq<Product>)
    requires |ps| <= JavaInt.MaxInt
    ensures AddAll([], ps).Ok?
    ensures var c := AddAll([], ps).value;
      |c| == |ps| && forall i :: 0 <= i < |c| ==> c[i].productId == i + 1
  {
    AllocationCountsUp([], ps);
  }
}
