/** The Decoration variant: its two constructors, the material accessor and
    its rendering. */
module Decorations {
  import opened Results
  import opened ProductModel

  /** The rehydration constructor: the caller supplies the stored id. */
  function StoredDecoration(productId: int, name: string, quantity: int, price: real, material: Value): (p: Product)
    ensures p.Type() == DECORATION
    ensures p.productId == Some(productId)
    ensures p.name == name && p.quantity == quantity && p.price == price
    ensures Material(p) == material && p.Attribute() == material
  {
    Decoration(Some(productId), name, quantity, price, material)
  }

  /** The new-entry constructor: it takes no id. */
  function NewDecoration(name: string, quantity: int, price: real, material: Value): (p: Product)
    ensures p.Type() == DECORATION
    ensures p.productId == None
    ensures p.name == name && p.quantity == quantity && p.price == price
    ensures Material(p) == material && p.Attribute() == material
  {
    Decoration(None, name, quantity, price, material)
  }

  function Material(p: Product): Value
    requires p.Decoration?
  {
    p.material
  }

  /** Every decoration, however built, is tagged DECORATION and exposes its
      material as the generic attribute. */
  lemma MaterialIsAttribute(p: Product)
    requires p.Decoration?
    ensures p.Type() == DECORATION
    ensures Material(p) == p.Attribute()
  {
  }

  const MaterialLabel := ", Material: "

  /** The decoration's rendering: the generic product rendering `base`,
      then the label, then the material's string form. */
  function DecorationText(base: string, p: Product, show: real -> string): (r: string)
    requires p.Decoration?
    ensures |r| == |base| + |MaterialLabel| + |ValueText(Material(p), show)|
    ensures r[..|base|] == base
    ensures r[|base|..|base| + |MaterialLabel|] == MaterialLabel
    ensures r[|base| + |MaterialLabel|..] == ValueText(Material(p), show)
  {
    base + MaterialLabel + ValueText(Material(p), show)
  }

  /** Given the generic rendering, the decoration rendering determines the
      material's string form. */
  lemma {:induction false} RenderingDeterminesMaterial(base: string, p: Product, q: Product, show: real -> string)
    requires p.Decoration? && q.Decoration?
    requires DecorationText(base, p, show) == DecorationText(base, q, show)
    ensures ValueText(Material(p), show) == ValueText(Material(q), show)
  {
    var r := DecorationText(base, p, show);
    assert ValueText(Material(p), show) == r[|base| + |MaterialLabel|..];
  }
}
