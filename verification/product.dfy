/** The catalogue entity: three product variants sharing a uniform read
    surface (id, name, quantity, price, type tag, attribute). */
module ProductModel {
  import opened Results

  /** The discriminant stored in every product document. */
  datatype ProductType = TREE | FLOWER | DECORATION

  /** The tag's constant name, as the enum renders it. */
  function TypeName(t: ProductType): string {
    match t
    case TREE => "TREE"
    case FLOWER => "FLOWER"
    case DECORATION => "DECORATION"
  }

  /** Looks a tag up by its exact (case-sensitive) constant name; `None`
      stands for the exception thrown on an unknown name. */
  function TypeFromName(s: string): (r: Option<ProductType>)
    ensures forall t :: r == Some(t) <==> s == TypeName(t)
  {
    if s == "TREE" then Some(TREE)
    else if s == "FLOWER" then Some(FLOWER)
    else if s == "DECORATION" then Some(DECORATION)
    else None
  }

  /** A stored attribute value: a double (tree height) or a string (flower
      colour, decoration material). */
  datatype Value = DoubleValue(number: real) | StringValue(text: string)

  /** The string form of an attribute value. How a double is printed is
      supplied by the caller as `show`. */
  function ValueText(v: Value, show: real -> string): string {
    match v
    case DoubleValue(x) => show(x)
    case StringValue(s) => s
  }

  /** A catalogue line. `productId` is `None` for the constructors that take
      no id (new entries and ticket line items). A tree's attribute is its
      height; flowers and decorations carry an arbitrary attribute value. */
  datatype Product =
    | Tree(productId: Option<int>, name: string, quantity: int, price: real, height: real)
    | Flower(productId: Option<int>, name: string, quantity: int, price: real, color: Value)
    | Decoration(productId: Option<int>, name: string, quantity: int, price: real, material: Value)
  {
    /** The fixed type tag of the variant. */
    function Type(): ProductType {
      match this
      case Tree(_, _, _, _, _) => TREE
      case Flower(_, _, _, _, _) => FLOWER
      case Decoration(_, _, _, _, _) => DECORATION
    }

    /** The generic attribute every variant exposes. */
    function Attribute(): Value {
      match this
      case Tree(_, _, _, _, h) => DoubleValue(h)
      case Flower(_, _, _, _, c) => c
      case Decoration(_, _, _, _, m) => m
    }
  }

  /** Why a repository call fails. */
  datatype StoreError =
    | NotFound(productId: int)          // a lookup decoded an absent document
    | UnknownVariant(typeName: string)  // a stored type string names no variant
    | AttributeMismatch(typeName: string) // a tree document whose attribute is not a double
    | BadNumber(text: string)           // a tree line item whose features do not parse
}
