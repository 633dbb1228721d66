/** The pure rules of the catalogue manager, with prompting stripped: user
    entries are given as sequences of typed values. */
module ManagerRules {
  import opened Results
  import opened Text
  import opened ProductModel
  import opened ProductListing
  import opened ProductStore

  // ---------------------------------------------------------------------
  // Adding a product

  /** A decoration material is "madera" or "plastico", ignoring case. */
  function MaterialAccepted(s: string): (ok: bool)
    ensures ok <==> Lower(s) == "madera" || Lower(s) == "plastico"
  {
    EqualsIgnoreCaseLower(s, "madera");
    EqualsIgnoreCaseLower(s, "plastico");
    EqualsIgnoreCase(s, "madera") || EqualsIgnoreCase(s, "plastico")
  }

  lemma MaterialExamples()
    ensures MaterialAccepted("MaDeRa") && MaterialAccepted("plastico")
    ensures !MaterialAccepted("metal") && !MaterialAccepted("maderas")
  {
    assert Lower("MaDeRa") == "madera";
    assert Lower("plastico") == "plastico";
    assert Lower("metal")[0] == 'm';
  }

  /** Prompts until a material is accepted: the result is the first accepted
      entry exactly as typed (not normalised); `None` if every entry is
      rejected. `consumed` counts the entries read. */
  method ReadMaterial(entries: seq<string>) returns (material: Option<string>, consumed: nat)
    ensures consumed <= |entries|
    ensures material.None? ==>
      consumed == |entries| && forall j :: 0 <= j < |entries| ==> !MaterialAccepted(entries[j])
    ensures material.Some? ==>
      && 0 < consumed
      && material.value == entries[consumed - 1]
      && MaterialAccepted(material.value)
      && forall j :: 0 <= j < consumed - 1 ==> !MaterialAccepted(entries[j])
  {
    material := None;
    consumed := 0;
    while consumed < |entries| && material.None?
      invariant consumed <= |entries|
      invariant material.None? ==> forall j :: 0 <= j < consumed ==> !MaterialAccepted(entries[j])
      invariant material.Some? ==>
        && 0 < consumed
        && material.value == entries[consumed - 1]
        && MaterialAccepted(material.value)
        && forall j :: 0 <= j < consumed - 1 ==> !MaterialAccepted(entries[j])
    {
      var typed := entries[consumed];
      consumed := consumed + 1;
      if MaterialAccepted(typed) {
        material := Some(typed);
      }
    }
  }

  /** Menu numbering shared by adding and listing: 1 tree, 2 flower,
      3 decoration. */
  function OptionType(option: int): Option<ProductType> {
    if option == 1 then Some(TREE)
    else if option == 2 then Some(FLOWER)
    else if option == 3 then Some(DECORATION)
    else None
  }

  /** The new (id-less) product a menu choice builds from the entered values;
      only the chosen variant's attribute is used. */
  function MenuProduct(option: int, name: string, quantity: int, price: real,
                       height: real, color: string, material: string): (r: Option<Product>)
    ensures r.Some? <==> 1 <= option <= 3
    ensures r.Some? ==>
      && Some(r.value.Type()) == OptionType(option)
      && r.value.productId == None
      && r.value.name == name && r.value.quantity == quantity && r.value.price == price
    ensures r.Some? && r.value.Tree? ==> r.value.height == height
    ensures r.Some? && r.value.Flower? ==> r.value.color == StringValue(color)
    ensures r.Some? && r.value.Decoration? ==> r.value.material == StringValue(material)
  {
    match OptionType(option)
    case Some(TREE) => Some(Tree(None, name, quantity, price, height))
    case Some(FLOWER) => Some(Flower(None, name, quantity, price, StringValue(color)))
    case Some(DECORATION) => Some(Decoration(None, name, quantity, price, StringValue(material)))
    case None => None
  }

  // ---------------------------------------------------------------------
  // Choosing a product

  /** The listing a menu choice shows: trees, flowers or decorations; an
      option outside the menu lists nothing. */
  function TypeSelection(c: Collection, option: int): (r: Result<seq<Product>, StoreError>)
    ensures OptionType(option).None? ==> r == Ok([])
    ensures OptionType(option).Some? ==> r == ListVariant(c, OptionType(option).value)
    ensures r.Ok? ==> forall p :: p in r.value ==> Some(p.Type()) == OptionType(option)
  {
    match OptionType(option)
    case None => Ok([])
    case Some(t) => ListVariant(c, t)
  }

  /** Every listed product carries an id. */
  predicate AllHaveIds(ps: seq<Product>) {
    forall i :: 0 <= i < |ps| ==> ps[i].productId.Some?
  }

  function ShownIds(ps: seq<Product>): (ids: seq<int>)
    requires AllHaveIds(ps)
    ensures |ids| == |ps|
    ensures forall i :: 0 <= i < |ps| ==> ps[i].productId == Some(ids[i])
  {
    seq(|ps|, i requires 0 <= i < |ps| => ps[i].productId.value)
  }

  /** The id range a listing spans, as the bracketing scan leaves it. */
  datatype Bounds = Bounds(firstID: int, lastID: int)

  /** The bracketing scan: `firstID` starts at the first listed id, `lastID`
      at 0. It ends with the least listed id and the greater of 0 and the
      greatest listed id. An empty listing has no first id to start from:
      reading it throws, which is `None` here. */
  method BracketIds(ids: seq<int>) returns (bounds: Option<Bounds>)
    ensures bounds.None? <==> |ids| == 0
    ensures bounds.Some? ==> bounds.value.firstID in ids
    ensures bounds.Some? ==>
      var lastID := bounds.value.lastID;
      0 <= lastID && (lastID == 0 || lastID in ids)
    ensures bounds.Some? ==> forall j :: 0 <= j < |ids| ==> bounds.value.firstID <= ids[j] <= bounds.value.lastID
  {
    if |ids| == 0 {
      return None;
    }
    var firstID := ids[0];
    var lastID := 0;
    var i := 0;
    while i < |ids|
      invariant 0 <= i <= |ids|
      invariant firstID in ids
      invariant 0 <= lastID && (lastID == 0 || lastID in ids)
      invariant forall j :: 0 <= j < i ==> firstID <= ids[j] <= lastID
    {
      if firstID > ids[i] {
        firstID := ids[i];
      }
      if lastID < ids[i] {
        lastID := ids[i];
      }
      i := i + 1;
    }
    bounds := Some(Bounds(firstID, lastID));
  }

  /** The membership scan: stops at the first listed id equal to `typed`. */
  method IsListed(ids: seq<int>, typed: int) returns (found: bool)
    ensures found <==> typed in ids
  {
    found := false;
    var i := 0;
    while i < |ids| && !found
      invariant 0 <= i <= |ids|
      invariant found <==> typed in ids[..i]
    {
      if typed == ids[i] {
        found := true;
      }
      i := i + 1;
    }
    assert !found ==> ids[..i] == ids;
  }

  /** How the id prompt ends: the listing was empty (the bracketing scan
      throws before anything is read), an id was accepted, or the entries
      ran out with every one rejected. */
  datatype Selection = EmptyListing | Selected(productId: int) | NoneAccepted

  /** Prompts for an id until one is both inside [firstID, lastID] and
      listed. Returns the outcome and the number of entries read. Only listed
      ids are accepted, and a listed id is never refused by the range check. */
  method SelectProductId(ids: seq<int>, entries: seq<int>) returns (selection: Selection, consumed: nat)
    ensures selection.EmptyListing? <==> |ids| == 0
    ensures selection.EmptyListing? ==> consumed == 0
    ensures consumed <= |entries|
    ensures selection.NoneAccepted? ==>
      consumed == |entries| && forall j :: 0 <= j < |entries| ==> entries[j] !in ids
    ensures selection.Selected? ==>
      && 0 < consumed
      && selection.productId == entries[consumed - 1]
      && selection.productId in ids
      && forall j :: 0 <= j < consumed - 1 ==> entries[j] !in ids
  {
    var bounds := BracketIds(ids);
    if bounds.None? {
      return EmptyListing, 0;
    }
    var firstID, lastID := bounds.value.firstID, bounds.value.lastID;
    selection := NoneAccepted;
    consumed := 0;
    while consumed < |entries| && selection.NoneAccepted?
      invariant consumed <= |entries|
      invariant !selection.EmptyListing?
      invariant selection.NoneAccepted? ==> forall j :: 0 <= j < consumed ==> entries[j] !in ids
      invariant selection.Selected? ==>
        && 0 < consumed
        && selection.productId == entries[consumed - 1]
        && selection.productId in ids
        && forall j :: 0 <= j < consumed - 1 ==> entries[j] !in ids
    {
      var typeId := entries[consumed];
      consumed := consumed + 1;
      if typeId < firstID || typeId > lastID {
        // rejected by the range check
      } else {
        var correctID := IsListed(ids, typeId);
        if correctID {
          selection := Selected(typeId);
        }
      }
    }
  }

  /** Products listed by a menu choice were decoded from stored documents,
      so each carries the id of a document in the collection. */
  lemma ListedProductsAreStored(c: Collection, option: int)
    requires TypeSelection(c, option).Ok?
    ensures var ps := TypeSelection(c, option).value;
      AllHaveIds(ps)
      && forall i :: 0 <= i < |ps| ==> exists j :: 0 <= j < |c| && Some(c[j].productId) == ps[i].productId
  {
    var ps := TypeSelection(c, option).value;
    if OptionType(option).Some? {
      var all := GetAllProducts(c).value;
      var s := ListingOrder(c);
      forall i | 0 <= i < |ps|
        ensures ps[i].productId.Some?
        ensures exists j :: 0 <= j < |c| && Some(c[j].productId) == ps[i].productId
      {
        assert ps[i] in all;
        var k :| 0 <= k < |all| && all[k] == ps[i];
        assert DecodeProduct(s[k]) == Ok(ps[i]);
        assert s[k] in multiset(c);
        var j :| 0 <= j < |c| && c[j] == s[k];
      }
    }
  }

  /** An id accepted from a listing always resolves: looking it up in the
      store returns a product with that id. */
  lemma SelectedIdResolves(c: Collection, option: int, id: int)
    requires TypeSelection(c, option).Ok?
    requires AllHaveIds(TypeSelection(c, option).value)
    requires id in ShownIds(TypeSelection(c, option).value)
    ensures GetProduct(c, id).Ok? && GetProduct(c, id).value.productId == Some(id)
  {
    ListedProductsAreStored(c, option);
    var ps := TypeSelection(c, option).value;
    var ids := ShownIds(ps);
    var i :| 0 <= i < |ids| && ids[i] == id;
    var j :| 0 <= j < |c| && Some(c[j].productId) == ps[i].productId;
    assert GetAllProducts(c).Ok?;
  }

  // ---------------------------------------------------------------------
  // Updating stock

  /** The stock update: a positive entry replaces the quantity (it is not
      added to it) and sets the price of the first stored document with the
      selected product's (name, attribute); any other entry changes nothing. */
  function UpdateStock(c: Collection, selected: Product, entered: int, price: real): (r: Collection)
    ensures entered <= 0 ==> r == c
    ensures |r| == |c|
    ensures forall i :: 0 <= i < |c| ==> SameExceptStock(r[i], c[i])
    ensures forall i :: 0 <= i < |c| && (entered <= 0 || FirstMatch(c, KeyOf(selected)) != Some(i)) ==> r[i] == c[i]
    ensures entered > 0 && FirstMatch(c, KeyOf(selected)).Some? ==>
      var k := FirstMatch(c, KeyOf(selected)).value;
      r[k].quantity == entered && r[k].price == price
  {
    if entered > 0 then
      var changed := selected.(quantity := entered, price := price);
      assert KeyOf(changed) == KeyOf(selected);
      UpdateProduct(c, changed)
    else
      c
  }

  // ---------------------------------------------------------------------
  // Stock report

  /** The reported stock: the sum of the listed quantities. */
  function StockCount(ps: seq<Product>): int {
    if ps == [] then 0 else ps[0].quantity + StockCount(ps[1..])
  }

  lemma {:induction false} StockCountAppend(a: seq<Product>, b: seq<Product>)
    ensures StockCount(a + b) == StockCount(a) + StockCount(b)
  {
    if a == [] {
      assert a + b == b;
    } else {
      assert (a + b)[1..] == a[1..] + b;
      StockCountAppend(a[1..], b);
    }
  }

  /** The stock of the whole catalogue is the sum of the three per-variant
      stock reports. */
  lemma {:induction false} StockCountByVariant(ps: seq<Product>)
    ensures StockCount(ps) == StockCount(OfType(TREE, ps)) + StockCount(OfType(FLOWER, ps))
                              + StockCount(OfType(DECORATION, ps))
  {
    if ps != [] {
      StockCountByVariant(ps[1..]);
      var head := [ps[0]];
      StockCountAppend(if ps[0].Type() == TREE then head else [], OfType(TREE, ps[1..]));
      StockCountAppend(if ps[0].Type() == FLOWER then head else [], OfType(FLOWER, ps[1..]));
      StockCountAppend(if ps[0].Type() == DECORATION then head else [], OfType(DECORATION, ps[1..]));
    }
  }
}
