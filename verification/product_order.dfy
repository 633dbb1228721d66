/** Product documents and the order the catalogue listing returns them in:
    type string descending, then product id ascending. */
module ProductListing {
  import Text
  import opened ProductModel

  /** The flat document a product is stored as. */
  datatype ProductDoc = ProductDoc(
    name: string,
    productId: int,
    quantity: int,
    price: real,
    typeName: string,
    attribute: Value)

  /** `a` may be listed before `b`: a greater type string, or the same type
      string and a product id that is not greater. */
  predicate ListedBefore(a: ProductDoc, b: ProductDoc) {
    Text.Less(b.typeName, a.typeName)
    || (a.typeName == b.typeName && a.productId <= b.productId)
  }

  predicate Sorted(s: seq<ProductDoc>) {
    forall i, j :: 0 <= i < j < |s| ==> ListedBefore(s[i], s[j])
  }

  lemma ListedBeforeTotal(a: ProductDoc, b: ProductDoc)
    ensures ListedBefore(a, b) || ListedBefore(b, a)
  {
    if a.typeName != b.typeName {
      Text.LessTotal(a.typeName, b.typeName);
    }
  }

  lemma ListedBeforeTransitive(a: ProductDoc, b: ProductDoc, c: ProductDoc)
    requires ListedBefore(a, b) && ListedBefore(b, c)
    ensures ListedBefore(a, c)
  {
    if Text.Less(b.typeName, a.typeName) && Text.Less(c.typeName, b.typeName) {
      Text.LessTransitive(c.typeName, b.typeName, a.typeName);
    }
  }

  /** Inserts `d` before the first element it may be listed before. */
  function Insert(d: ProductDoc, s: seq<ProductDoc>): (r: seq<ProductDoc>)
    ensures multiset(r) == multiset(s) + multiset{d}
    ensures |r| == |s| + 1
  {
    if s == [] then [d]
    else if ListedBefore(d, s[0]) then [d] + s
    else
      assert s == [s[0]] + s[1..];
      [s[0]] + Insert(d, s[1..])
  }

  lemma {:induction false} InsertSorted(d: ProductDoc, s: seq<ProductDoc>)
    requires Sorted(s)
    ensures Sorted(Insert(d, s))
  {
    if s == [] {
    } else if ListedBefore(d, s[0]) {
      forall j | 1 <= j < |s| + 1
        ensures ListedBefore(d, ([d] + s)[j])
      {
        ListedBeforeTransitive(d, s[0], s[j - 1]);
      }
    } else {
      var rest := Insert(d, s[1..]);
      InsertSorted(d, s[1..]);
      ListedBeforeTotal(d, s[0]);
      forall j | 0 <= j < |rest|
        ensures ListedBefore(s[0], rest[j])
      {
        assert rest[j] in multiset(rest);
        if rest[j] != d {
          assert rest[j] in multiset(s[1..]);
          var k :| 0 <= k < |s[1..]| && s[1..][k] == rest[j];
          assert s[k + 1] == rest[j];
        }
      }
    }
  }

  /** The listing order: a sorted permutation of the stored documents. The
      contract does not fix the relative order of two documents with the
      same type string and id. */
  function ListingOrder(c: seq<ProductDoc>): (r: seq<ProductDoc>)
    ensures multiset(r) == multiset(c)
    ensures |r| == |c|
    ensures Sorted(r)
  {
    if c == [] then []
    else
      assert c == [c[0]] + c[1..];
      var rest := ListingOrder(c[1..]);
      InsertSorted(c[0], rest);
      Insert(c[0], rest)
  }

  /** Position within the listing of the three canonical tag strings. */
  function Rank(t: ProductType): nat {
    match t
    case TREE => 0
    case FLOWER => 1
    case DECORATION => 2
  }

  /** For the three tag strings, descending string order puts TREE first,
      then FLOWER, then DECORATION. */
  lemma {:induction false} TagStringOrder(s: ProductType, t: ProductType)
    ensures Text.Less(TypeName(t), TypeName(s)) <==> Rank(s) < Rank(t)
  {
    var tree, flower, deco := TypeName(TREE), TypeName(FLOWER), TypeName(DECORATION);
    assert Text.Less(flower, tree) by { assert flower[0] < tree[0]; }
    assert Text.Less(deco, flower) by { assert deco[0] < flower[0]; }
    Text.LessTransitive(deco, flower, tree);
    Text.LessAsymmetric(flower, tree);
    Text.LessAsymmetric(deco, flower);
    Text.LessAsymmetric(deco, tree);
    Text.LessIrreflexive(TypeName(s));
  }
}
