# FlowerStore persistence core in Dafny

This project models the persistence layer of a flower shop. The shop has a
catalogue of three product variants (Tree, Flower, Decoration) and a ledger
of sales tickets. Both are stored as documents in a MongoDB-style store.
Each collection is a sequence of document records in store (insertion)
order. Every repository method is a pure function of that sequence: a read
returns a value, and a write returns the new sequence. Java exceptions
become `Err` values of a `Result`, and a Java `null` becomes `None`.

Modules, following the source:

- `Results`: `Option` and `Result`.
- `Text`: ASCII case mapping, the `equalsIgnoreCase` comparison, and the
  binary string order the store sorts by.
- `ProductModel`: the product variants, the `ProductType` tag, attribute
  values and the error cases.
- `Decorations`: `Decoration.java`.
- `ProductListing`: the product document and the `getAllProducts` sort
  order. The sort is modelled as an insertion sort, proved to return a
  sorted permutation.
- `ProductStore` and `ProductLaws`: `ProductRepositoryMongoDB.java`.
- `TicketStore` and `TicketLaws`: `TicketRepositoryMongoDB.java`.
- `ManagerRules`: the prompt-free rules of `ManagerProducts.java`.
- `JavaInt`: the 32-bit range and wrap-around of Java `int` arithmetic.

Facts about the code that the model makes explicit:

- `getAllProducts` sorts the `type` string descending. That puts TREE first,
  then FLOWER, then DECORATION.
- `updateProduct` and `deleteProduct` silently do nothing when no document
  matches. They do not report `NotFound`.
- `newTicket` takes its id from the scan-based `nextTicketID`, not from the
  atomic counter.
- `nextProductId` and `nextTicketID` decode the document with the greatest
  id. When that document does not decode, they fail, and so do
  `addProduct` and `newTicket`. They all return `Result`.
- Both allocators add one in Java `int` arithmetic. At `Integer.MAX_VALUE`
  the next id wraps to `Integer.MIN_VALUE`, which can repeat a stored id.

## Model

| member | source | states |
|---|---|---|
| ProductModel.TypeFromName | src/main/java/Contexts/Product/Infrastructure/MongoDB/ProductRepositoryMongoDB.java:138 | a tag is recognised exactly when the string is that tag's constant name; it is the inverse of the tag's string form |
| ProductListing.ListingOrder | src/main/java/Contexts/Product/Infrastructure/MongoDB/ProductRepositoryMongoDB.java:53 | the listing is a permutation of the stored documents, sorted by type string descending and then by productId ascending |
| ProductListing.TagStringOrder | src/main/java/Contexts/Product/Infrastructure/MongoDB/ProductRepositoryMongoDB.java:53 | for the three tag strings, descending string order is exactly TREE, then FLOWER, then DECORATION |
| ProductStore.FirstMatch | src/main/java/Contexts/Product/Infrastructure/MongoDB/ProductRepositoryMongoDB.java:44-45 | a query acts on the first matching document in store order; no earlier document matches; `None` exactly when nothing matches |
| ProductStore.DecodeProduct | src/main/java/Contexts/Product/Infrastructure/MongoDB/ProductRepositoryMongoDB.java:133-154 | the stored type is upper-cased and must then name a tag (otherwise `UnknownVariant`); a tree needs a double attribute; on success id, name, quantity, price and attribute are copied and the variant is the named one, with no default |
| ProductStore.DecodeEncode | src/main/java/Contexts/Product/Infrastructure/MongoDB/ProductRepositoryMongoDB.java:105-110 | decoding a document written for a product gives back that product with the allocated id, for all three variants |
| ProductStore.TypeCaseExamples | src/main/java/Contexts/Product/Infrastructure/MongoDB/ProductRepositoryMongoDB.java:143-153 | a document typed "tree" decodes as a Tree; one typed "ROCK" fails with an unknown variant |
| ProductStore.MaxIdIndex | src/main/java/Contexts/Product/Infrastructure/MongoDB/ProductRepositoryMongoDB.java:65 | the chosen document's id is at least every stored id; it is the first document in store order with that id |
| ProductStore.LastProduct | src/main/java/Contexts/Product/Infrastructure/MongoDB/ProductRepositoryMongoDB.java:63-72 | `None` exactly on an empty collection; otherwise exactly the decoding of the document with the greatest id, which fails exactly when that document does not decode |
| ProductStore.NextProductId | src/main/java/Contexts/Product/Infrastructure/MongoDB/ProductRepositoryMongoDB.java:32-39 | 1 on an empty collection; otherwise the greatest stored id plus one, wrapped to 32 bits; while every stored id is below `Integer.MAX_VALUE` it is greater than every stored id |
| JavaInt.Wrap | src/main/java/Contexts/Product/Infrastructure/MongoDB/ProductRepositoryMongoDB.java:37 | the wrapped value is an `int` congruent to the exact sum modulo 2^32; an in-range value is unchanged, and a value up to `Integer.MAX_VALUE` never goes down |
| ProductStore.GetProduct | src/main/java/Contexts/Product/Infrastructure/MongoDB/ProductRepositoryMongoDB.java:42-47 | an absent id fails with `NotFound`; a present id decodes a document carrying that id |
| ProductStore.DecodeAll | src/main/java/Contexts/Product/Infrastructure/MongoDB/ProductRepositoryMongoDB.java:54-57 | one decoded product per document, in order; it fails exactly when some document does not decode |
| ProductStore.PermutationDecodes | src/main/java/Contexts/Product/Infrastructure/MongoDB/ProductRepositoryMongoDB.java:53-55 | reordering the documents does not change whether all of them decode |
| ProductStore.GetAllProducts | src/main/java/Contexts/Product/Infrastructure/MongoDB/ProductRepositoryMongoDB.java:51-61 | one decoded product per stored document, in listing order; it fails exactly when some stored document does not decode |
| ProductStore.OfType | src/main/java/Contexts/Product/Infrastructure/MongoDB/ProductRepositoryMongoDB.java:76-78 | the result holds exactly the products of the given variant, and nothing else |
| ProductStore.ListVariant | src/main/java/Contexts/Product/Infrastructure/MongoDB/ProductRepositoryMongoDB.java:74-93 | `getTrees`/`getFlowers`/`getDecorations` succeed exactly when the full listing does, and return exactly its products of that variant |
| ProductStore.AddProduct | src/main/java/Contexts/Product/Infrastructure/MongoDB/ProductRepositoryMongoDB.java:104-112 | appends exactly one document and leaves the others unchanged; its id is the allocated one (fresh while every stored id is below `Integer.MAX_VALUE`), and the product's own id is ignored; name, quantity, price, type string and attribute are copied |
| ProductStore.UpdateProduct | src/main/java/Contexts/Product/Infrastructure/MongoDB/ProductRepositoryMongoDB.java:115-121 | only the first document matching (name, attribute) changes, and only in quantity and price; without a match nothing changes |
| ProductStore.DeleteProduct | src/main/java/Contexts/Product/Infrastructure/MongoDB/ProductRepositoryMongoDB.java:125-130 | removes exactly the first document matching (name, attribute), keeping the order of the rest; without a match nothing changes |
| ProductLaws.AddThenDelete | src/main/java/Contexts/Product/Infrastructure/MongoDB/ProductRepositoryMongoDB.java:104-130 | deleting a product right after adding it, when no stored document shared its (name, attribute) key, restores the collection exactly |
| ProductLaws.ListingGroupsByVariant | src/main/java/Contexts/Product/Infrastructure/MongoDB/ProductRepositoryMongoDB.java:53 | with canonical tag strings, the listing shows trees, then flowers, then decorations, each group in ascending id order |
| ProductLaws.OfTypeAppend | src/main/java/Contexts/Product/Infrastructure/MongoDB/ProductRepositoryMongoDB.java:74-93 | filtering distributes over concatenation, so the filters keep the listing's relative order |
| ProductLaws.OfTypePartition | src/main/java/Contexts/Product/Infrastructure/MongoDB/ProductRepositoryMongoDB.java:81-93 | the three variant filters split a list: their multisets add up to the list's, and their lengths to its length |
| ProductLaws.VariantListingsPartition | src/main/java/Contexts/Product/Infrastructure/MongoDB/ProductRepositoryMongoDB.java:75-92 | the three variant listings are the filters of `getAllProducts`, and together they partition it |
| ProductLaws.FirstMatchSameMatches | src/main/java/Contexts/Product/Infrastructure/MongoDB/ProductRepositoryMongoDB.java:120 | the first match depends only on which documents match |
| ProductLaws.UpdateIdempotent | src/main/java/Contexts/Product/Infrastructure/MongoDB/ProductRepositoryMongoDB.java:116-120 | updating twice with the same product is the same as updating once, because the update never touches the lookup key |
| ProductLaws.UpdateReachesSoleMatch | src/main/java/Contexts/Product/Infrastructure/MongoDB/ProductRepositoryMongoDB.java:117-118 | when exactly one document has the key, that document gets the new quantity and price, and nothing else changes |
| ProductLaws.AddThenFetch | src/main/java/Contexts/Product/Infrastructure/MongoDB/ProductRepositoryMongoDB.java:104-111 | after an add to a store whose ids are below `Integer.MAX_VALUE`, looking up the allocated id returns the added product with that id |
| ProductLaws.IdWrapsAtIntMax | src/main/java/Contexts/Product/Infrastructure/MongoDB/ProductRepositoryMongoDB.java:37 | a store whose greatest id is `Integer.MAX_VALUE` is handed `Integer.MIN_VALUE`, which repeats a stored id when one holds it |
| ProductLaws.AllocationCountsUp | src/main/java/Contexts/Product/Infrastructure/MongoDB/ProductRepositoryMongoDB.java:32-37 | adds to a collection numbered 1..n always succeed and keep it numbered 1..n+k, as long as n+k fits in an `int` |
| ProductLaws.SequentialIdsFromEmpty | src/main/java/Contexts/Product/Infrastructure/MongoDB/ProductRepositoryMongoDB.java:106 | up to `Integer.MAX_VALUE` sequential adds on an empty catalogue allocate ids 1..N with no repeats |
| TicketStore.DecodeLine | src/main/java/Contexts/Ticket/Infrastructure/MongoDB/TicketRepositoryMongoDB.java:67-84 | the line's type string must equal a tag name exactly (case-sensitive), otherwise `UnknownVariant`; the product has no id, and its quantity is the sold quantity; a flower's or decoration's attribute is the Features string; a tree's height is the parsed Features |
| TicketStore.DecodeLines | src/main/java/Contexts/Ticket/Infrastructure/MongoDB/TicketRepositoryMongoDB.java:66-85 | one sale per line item, in order; it fails exactly when some line item does not decode |
| TicketStore.MaxTicketIndex | src/main/java/Contexts/Ticket/Infrastructure/MongoDB/TicketRepositoryMongoDB.java:38 | the chosen ticket's id is at least every stored ticket id |
| TicketStore.LastTicket | src/main/java/Contexts/Ticket/Infrastructure/MongoDB/TicketRepositoryMongoDB.java:37-46 | `None` exactly on an empty ledger; otherwise exactly the decoding of the ticket with the greatest id, which fails exactly when that ticket does not decode |
| TicketStore.NextTicketId | src/main/java/Contexts/Ticket/Infrastructure/MongoDB/TicketRepositoryMongoDB.java:49-57 | 1 on an empty ledger; otherwise the greatest stored ticket id plus one, wrapped to 32 bits; while every stored id is below `Integer.MAX_VALUE` it is greater than all of them |
| TicketLaws.TicketIdWrapsAtIntMax | src/main/java/Contexts/Ticket/Infrastructure/MongoDB/TicketRepositoryMongoDB.java:55 | a ledger whose greatest ticket id is `Integer.MAX_VALUE` is handed `Integer.MIN_VALUE`, which repeats a stored id when one holds it |
| TicketStore.NewTicket | src/main/java/Contexts/Ticket/Infrastructure/MongoDB/TicketRepositoryMongoDB.java:91-114 | appends exactly one document with id `nextTicketID`, ignoring the ticket's own id; date and total are stored verbatim; one line item per sale holds name, type string, attribute string, sold quantity and unit price |
| TicketStore.GetAllTickets | src/main/java/Contexts/Ticket/Infrastructure/MongoDB/TicketRepositoryMongoDB.java:117-127 | one decoded ticket per stored document, in store order |
| TicketLaws.LineRoundTrip | src/main/java/Contexts/Ticket/Infrastructure/MongoDB/TicketRepositoryMongoDB.java:100-104 | a line item written for a sale decodes to the sale's snapshot; a string attribute of a flower or decoration comes back unchanged |
| TicketLaws.TicketRoundTrip | src/main/java/Contexts/Ticket/Infrastructure/MongoDB/TicketRepositoryMongoDB.java:107-110 | a stored ticket decodes to the allocated id, the same date and total, and its sales' snapshots in order |
| TicketLaws.LineTypeIsCaseSensitive | src/main/java/Contexts/Ticket/Infrastructure/MongoDB/TicketRepositoryMongoDB.java:74-81 | a "flower" line item is an unknown variant, while a "flower" product document decodes as a Flower |
| TicketLaws.EncodedTicketDecodes | src/main/java/Contexts/Ticket/Infrastructure/MongoDB/TicketRepositoryMongoDB.java:93-105 | a ticket whose tree heights parse back can be read back |
| TicketLaws.TicketIdsCountUp | src/main/java/Contexts/Ticket/Infrastructure/MongoDB/TicketRepositoryMongoDB.java:51-55 | new tickets on a ledger numbered 1..n succeed and keep it numbered 1..n+k, as long as n+k fits in an `int` |
| TicketLaws.SequentialTicketIds | src/main/java/Contexts/Ticket/Infrastructure/MongoDB/TicketRepositoryMongoDB.java:107 | up to `Integer.MAX_VALUE` sequential `newTicket` calls on an empty ledger store ticket ids 1..N |
| TicketLaws.ListingAfterAppend | src/main/java/Contexts/Ticket/Infrastructure/MongoDB/TicketRepositoryMongoDB.java:119-125 | listing a ledger with one more document gives the earlier listing plus that ticket at the end |
| TicketLaws.ListingAfterNewTicket | src/main/java/Contexts/Ticket/Infrastructure/MongoDB/TicketRepositoryMongoDB.java:113 | after `newTicket`, the listing keeps the earlier tickets and ends with the new ticket, decoded |
| TicketLaws.AllSalesAppend | src/main/java/Contexts/Ticket/Infrastructure/MongoDB/TicketRepositoryMongoDB.java:132-135 | the sales total of two batches is the sum of their totals, so each ticket counts once |
| TicketLaws.AllSalesSingle | src/main/java/Contexts/Ticket/Infrastructure/MongoDB/TicketRepositoryMongoDB.java:134 | one ticket's sales total is its stored total |
| TicketLaws.AllSalesExample | src/main/java/Contexts/Ticket/Infrastructure/MongoDB/TicketRepositoryMongoDB.java:130-135 | totals 10.0, 25.5 and 4.5 add up to 40.0 |
| Decorations.StoredDecoration | src/main/java/Contexts/Product/Domain/Decoration.java:6-9 | the id-taking constructor keeps the id, fixes the tag to DECORATION, and makes the material both the attribute and the material |
| Decorations.NewDecoration | src/main/java/Contexts/Product/Domain/Decoration.java:11-14 | the new-entry constructor takes no id, fixes the tag to DECORATION, and makes the material both the attribute and the material |
| Decorations.MaterialIsAttribute | src/main/java/Contexts/Product/Domain/Decoration.java:16-18 | every decoration is tagged DECORATION and its material is its attribute |
| Decorations.RenderingDeterminesMaterial | src/main/java/Contexts/Product/Domain/Decoration.java:23 | with the same generic rendering, equal renderings mean equal material strings |
| Text.EqualsIgnoreCaseLower | src/main/java/FlowerStore/Manager/ManagerProducts.java:83-84 | comparing with a lower-case word ignoring case is the same as lower-casing the input |
| ManagerRules.MaterialAccepted | src/main/java/FlowerStore/Manager/ManagerProducts.java:83-84 | a material is accepted exactly when it lower-cases to "madera" or "plastico" |
| ManagerRules.MaterialExamples | src/main/java/FlowerStore/Manager/ManagerProducts.java:83-84 | "MaDeRa" is accepted; "metal" and "maderas" are refused |
| ManagerRules.ReadMaterial | src/main/java/FlowerStore/Manager/ManagerProducts.java:80-89 | returns the first accepted entry exactly as typed, not normalised; every earlier entry was refused |
| ManagerRules.MenuProduct | src/main/java/FlowerStore/Manager/ManagerProducts.java:61-92 | options 1, 2 and 3 build an id-less Tree, Flower and Decoration from the entered values; any other option builds nothing |
| ManagerRules.TypeSelection | src/main/java/FlowerStore/Manager/ManagerProducts.java:173-184 | options 1, 2 and 3 list trees, flowers and decorations; any other option lists nothing |
| ManagerRules.BracketIds | src/main/java/FlowerStore/Manager/ManagerProducts.java:100-111 | an empty listing fails (reading its first id throws); otherwise `firstID` is the least listed id, and `lastID` is at least every listed id and is 0 or a listed id |
| ManagerRules.IsListed | src/main/java/FlowerStore/Manager/ManagerProducts.java:121-127 | the membership scan finds the typed id exactly when it is listed |
| ManagerRules.SelectProductId | src/main/java/FlowerStore/Manager/ManagerProducts.java:100-132 | an empty listing fails before any entry is read; otherwise the loop accepts only a listed id, namely the first listed entry; every earlier entry was unlisted, so the range check never refused a listed id |
| ManagerRules.ListedProductsAreStored | src/main/java/FlowerStore/Manager/ManagerProducts.java:99 | every product in a listing carries the id of a stored document |
| ManagerRules.SelectedIdResolves | src/main/java/FlowerStore/Manager/ManagerProducts.java:133 | an id accepted from a listing always finds a stored product with that id |
| ManagerRules.UpdateStock | src/main/java/FlowerStore/Manager/ManagerProducts.java:33-41 | a positive entry replaces (does not add to) the quantity and sets the price of the first matching document; a non-positive entry changes nothing |
| ManagerRules.StockCountAppend | src/main/java/FlowerStore/Manager/ManagerProducts.java:153-156 | the stock of two lists is the sum of their stocks |
| ManagerRules.StockCountByVariant | src/main/java/FlowerStore/Manager/ManagerProducts.java:153-156 | the catalogue's stock is the sum of the three per-variant stocks |

## Left out

- The MongoDB driver, connections and collection handles. A collection is a
  sequence in insertion order. `find().first()`, `updateOne` and `deleteOne`
  act on the first match in that order.
- Sort ties: the store leaves the order of documents with equal sort keys
  unspecified. `ListingOrder` picks one order, and its contract does not say
  which. For `getLastProduct` and `getLastTicket`, the model takes the first
  document with the greatest id.
- `getNextTicketId`, the atomic-counter allocator. What it returns depends
  on the driver's default for `findOneAndUpdate`, and `newTicket` never
  calls it. Its counter document is assumed never to be in the ticket
  collection.
- `initialize` and `addPrimaryStock`: the `PrimaryStock` seeding
  collaborator is not part of this model.
- Console I/O: prompts, messages, the `showProducts` table, `getInstance`,
  `showAllProducts`, and the manager's `deleteProduct`, which only chains
  `getProduct` and the repository's delete. User entries are input
  sequences. The loops report that nothing was accepted when the entries run
  out, where the program would keep prompting.
- Floating point: prices, heights and totals are `real`, with no rounding.
  So are the sums in `getAllSales` and `stockValue`. `totalValue` and the
  money half of `stockValue` are not modelled.
- `Double.toString` and `Double.parseDouble` are the parameters `show` and
  `parse`. A tree height's round trip through `Features` is assumed where a
  lemma needs it, never proved.
- Ticket products form a sequence of (product, sold quantity) pairs. The
  `HashMap` keying and the collapsing of duplicate keys depend on
  `Product.equals`/`hashCode`, which are not part of this model.
- A `java.util.Date` is a millisecond count, and it is only copied.
- AllocationCountsUp, SequentialIdsFromEmpty, TicketIdsCountUp and
  SequentialTicketIds: the count-up holds only while the ids fit in an
  `int`. Past `Integer.MAX_VALUE` the next id wraps, as `IdWrapsAtIntMax`
  and `TicketIdWrapsAtIntMax` show.
- AddThenFetch: holds only while every stored id is below
  `Integer.MAX_VALUE`, for the same reason.
- Concurrency: everything is single-writer. The scan-max race is not
  modelled.
- Document fields are typed: `null`, missing fields and other BSON types are
  not modelled. An attribute is a double or a string.
- Tree and Flower are not part of this model. They are built as their
  repository call sites build them. `ProductType` is assumed to have exactly
  three constants, TREE, FLOWER and DECORATION, and its `toString()` is
  assumed to be the constant's name; `ProductType.java` is not part of this
  model. `Product.toString` is not part of this model either, so
  `DecorationText` takes its result as `base`.
- DecodeProduct: upper-cases only ASCII letters. Java's `toUpperCase` also
  maps non-ASCII letters in every locale, so a stored type such as
  "decoratıon" (dotless ı) or "ﬂower" (the ﬂ ligature) decodes in the
  program but is `UnknownVariant` here. Locale-dependent mappings, such as
  the Turkish dotted İ, are not modelled either.
- MaterialAccepted: ignores case for ASCII letters only. Java's
  `equalsIgnoreCase` also accepts a few non-ASCII letters, such as dotless ı
  for i and long ſ for s.
- StockCount: does not model 32-bit `int` wrap-around of the stock sum.
