/** The store inventory manager: a product list with an id counter starting at
    1001 and a running earnings total. Adding a product restocks a
    case-insensitive name match or appends a new product with a fresh id; a
    purchase moves value from stock to earnings. Prices and earnings are whole
    cents. */
module Inventory {
  import opened Store
  import opened Text

  const FirstProductId := 1001

  /** A product: `price` in cents, `quantity` the units in stock. */
  datatype Product = Product(id: int, name: string, price: int, quantity: int)

  /** The state the system works on: products, earnings and the id counter. */
  datatype InventoryData = InventoryData(products: seq<Product>, totalEarnings: int, nextProductId: int)

  /** The persisted document: the same fields, each product saved as the
      dictionary `to_dict` makes of it. */
  datatype InventoryDoc = InventoryDoc(products: seq<Record>, totalEarnings: int, nextProductId: int)

  /** The document `_load_data` gives: the decoded one, or the default
      skeleton when the file is absent, empty or corrupted. */
  function LoadDocument(f: StoredFile<InventoryDoc>): (doc: InventoryDoc)
    ensures f.Parsed? ==> doc == f.doc
    ensures !f.Parsed? ==> doc.products == [] && doc.totalEarnings == 0 && doc.nextProductId == 1001
  {
    Load(f, InventoryDoc([], 0, FirstProductId))
  }

  // ---------------------------------------------------------------------
  // Serialisation of one product

  /** `Product(**d)` as written: the constructor's parameters are
      `product_id`, `name`, `price` and `quantity`, so a dictionary with any
      other key, or without one of these, is refused (a TypeError). */
  function ProductFromKwargs(r: Record): (p: Option<Product>)
    ensures "id" in r ==> p.None?
    ensures p.Some? ==> "product_id" in r && r["product_id"] == Int(p.value.id)
  {
    if r.Keys == {"product_id", "name", "price", "quantity"}
       && r["product_id"].Int? && r["name"].Str? && r["price"].Int? && r["quantity"].Int?
    then Some(Product(r["product_id"].i, r["name"].s, r["price"].i, r["quantity"].i))
    else None
  }

  /** The rebuild the saved format calls for: a product from a dictionary with
      exactly the four keys `to_dict` writes, holding values of the right
      kind. */
  function ProductFromDict(r: Record): (p: Option<Product>)
    ensures p.Some? ==> "id" in r && r["id"] == Int(p.value.id)
  {
    if r.Keys == {"id", "name", "price", "quantity"}
       && r["id"].Int? && r["name"].Str? && r["price"].Int? && r["quantity"].Int?
    then Some(Product(r["id"].i, r["name"].s, r["price"].i, r["quantity"].i))
    else None
  }

  /** `Product.to_dict`: the saved dictionary has the keys `id`, `name`,
      `price` and `quantity`; it rebuilds to the same product by its saved
      keys, and never through the constructor as written. */
  function ProductToDict(p: Product): (r: Record)
    ensures r.Keys == {"id", "name", "price", "quantity"}
    ensures ProductFromDict(r) == Some(p)
    ensures ProductFromKwargs(r) == None
  {
    map["id" := Int(p.id), "name" := Str(p.name), "price" := Int(p.price), "quantity" := Int(p.quantity)]
  }

  /** A dictionary rebuilds to a product exactly when it is that product's
      saved dictionary. */
  lemma ProductDictRoundTrip(p: Product, r: Record)
    ensures ProductFromDict(r) == Some(p) <==> r == ProductToDict(p)
  {
    var d := ProductToDict(p);
    if ProductFromDict(r) == Some(p) {
      assert r.Keys == d.Keys;
      forall k | k in r ensures r[k] == d[k] {
        assert k == "id" || k == "name" || k == "price" || k == "quantity";
      }
    }
  }

  /** A dictionary fits `Product(**p)` and builds `p` exactly when it holds
      `p`'s fields under the constructor's own parameter names. */
  lemma ProductKwargsRoundTrip(p: Product, r: Record)
    ensures ProductFromKwargs(r) == Some(p) <==>
      r == map["product_id" := Int(p.id), "name" := Str(p.name), "price" := Int(p.price), "quantity" := Int(p.quantity)]
  {
    var d := map["product_id" := Int(p.id), "name" := Str(p.name), "price" := Int(p.price), "quantity" := Int(p.quantity)];
    if ProductFromKwargs(r) == Some(p) {
      assert r.Keys == d.Keys;
      forall k | k in r ensures r[k] == d[k] {
        assert k == "product_id" || k == "name" || k == "price" || k == "quantity";
      }
    }
  }

  // ---------------------------------------------------------------------
  // Saving and starting

  /** `_save_state`: the document written back. */
  function Save(d: InventoryData): (doc: InventoryDoc)
    ensures |doc.products| == |d.products|
    ensures forall i :: 0 <= i < |d.products| ==> doc.products[i] == ProductToDict(d.products[i])
    ensures doc.totalEarnings == d.totalEarnings && doc.nextProductId == d.nextProductId
  {
    InventoryDoc(MapSeq(d.products, ProductToDict), d.totalEarnings, d.nextProductId)
  }

  /** What `InventorySystem()` makes of the loaded document, as written:
      every saved product goes through `Product(**p)`, so the start fails
      (nothing) as soon as one dictionary does not fit the constructor. */
  function RebuildAsWritten(doc: InventoryDoc): (r: Option<InventoryData>)
    ensures r.Some? <==> forall i :: 0 <= i < |doc.products| ==> ProductFromKwargs(doc.products[i]).Some?
    ensures (exists i :: 0 <= i < |doc.products| && "id" in doc.products[i]) ==> r.None?
    ensures r.Some? ==> (|r.value.products| == |doc.products|
      && r.value.totalEarnings == doc.totalEarnings && r.value.nextProductId == doc.nextProductId)
  {
    match DecodeAll(doc.products, ProductFromKwargs)
    case None => None
    case Some(ps) => Some(InventoryData(ps, doc.totalEarnings, doc.nextProductId))
  }

  /** The start the saved format calls for: every saved product is rebuilt
      from the keys `to_dict` writes. */
  function Rebuild(doc: InventoryDoc): (r: Option<InventoryData>)
    ensures r.Some? <==> forall i :: 0 <= i < |doc.products| ==> ProductFromDict(doc.products[i]).Some?
    ensures r.Some? ==> (|r.value.products| == |doc.products|
      && r.value.totalEarnings == doc.totalEarnings && r.value.nextProductId == doc.nextProductId)
  {
    match DecodeAll(doc.products, ProductFromDict)
    case None => None
    case Some(ps) => Some(InventoryData(ps, doc.totalEarnings, doc.nextProductId))
  }

  /** As written, a saved store holding a product never starts again: the
      first saved dictionary has the key `id`, which `Product(**p)` refuses.
      The first run seeds two products, so every later run fails. */
  lemma SavedStoreNeverRestarts(d: InventoryData)
    requires d.products != []
    ensures RebuildAsWritten(Save(d)) == None
  {
    assert "id" in Save(d).products[0];
  }

  /** With the rebuild the saved format calls for, starting from a saved
      store gives back the store that was saved, and only a saved store
      rebuilds to it. */
  lemma {:induction false} SaveRebuildRoundTrip(d: InventoryData, doc: InventoryDoc)
    ensures Rebuild(Save(d)) == Some(d)
    ensures Rebuild(doc) == Some(d) ==> Save(d) == doc
  {
    var saved := Save(d);
    assert forall i :: 0 <= i < |d.products| ==> ProductFromDict(saved.products[i]) == Some(d.products[i]);
    var r := Rebuild(saved);
    assert r.value.products == d.products;
    if Rebuild(doc) == Some(d) {
      forall i | 0 <= i < |doc.products| ensures doc.products[i] == saved.products[i] {
        assert ProductFromDict(doc.products[i]) == Some(d.products[i]) by {
          var ps := DecodeAll(doc.products, ProductFromDict).value;
          assert ps == d.products;
        }
        ProductDictRoundTrip(d.products[i], doc.products[i]);
      }
    }
  }

  // ---------------------------------------------------------------------
  // Looking products up

  /** `a.lower() == b.lower()`: two names match when they agree after
      lower-casing both. */
  predicate SameName(a: string, b: string)
  {
    Lower(a) == Lower(b)
  }

  /** The match ignores the case of ASCII letters and nothing else: two names
      match exactly when they have the same length and agree position by
      position up to case. In particular a name matches its own lower-cased
      form. */
  lemma SameNameIgnoresCase(a: string, b: string)
    ensures SameName(a, b) <==>
      |a| == |b| && forall i :: 0 <= i < |a| ==> SameIgnoringCase(a[i], b[i])
    ensures SameName(a, Lower(a))
  {
    LowerMatch(a, b);
    LowerIdempotent(a);
  }

  /** Position `i` holds the first product whose name matches `name`. */
  ghost predicate FirstWithName(ps: seq<Product>, name: string, i: int)
  {
    0 <= i < |ps| && SameName(ps[i].name, name)
    && forall j :: 0 <= j < i ==> !SameName(ps[j].name, name)
  }

  /** Position `i` holds the first product whose id is `id`. */
  ghost predicate FirstWithId(ps: seq<Product>, id: int, i: int)
  {
    0 <= i < |ps| && ps[i].id == id
    && forall j :: 0 <= j < i ==> ps[j].id != id
  }

  /** The position of the first product whose name matches, as `add_product`
      searches for it. */
  function NameIndex(ps: seq<Product>, name: string): (r: Option<nat>)
    ensures r.Some? ==> FirstWithName(ps, name, r.value)
    ensures r.None? ==> forall j :: 0 <= j < |ps| ==> !SameName(ps[j].name, name)
  {
    if ps == [] then None
    else if SameName(ps[0].name, name) then Some(0)
    else match NameIndex(ps[1..], name)
      case Some(k) => assert ps[k + 1] == ps[1..][k]; Some(k + 1)
      case None => None
  }

  /** The position of the first product with the entered id, as
      `process_purchase` searches for it. */
  function IdIndex(ps: seq<Product>, id: int): (r: Option<nat>)
    ensures r.Some? ==> FirstWithId(ps, id, r.value)
    ensures r.None? ==> forall j :: 0 <= j < |ps| ==> ps[j].id != id
  {
    if ps == [] then None
    else if ps[0].id == id then Some(0)
    else match IdIndex(ps[1..], id)
      case Some(k) => assert ps[k + 1] == ps[1..][k]; Some(k + 1)
      case None => None
  }

  // ---------------------------------------------------------------------
  // Stock value

  /** The stock value `show_summary` reports: price times quantity, summed
      over the products. With no negative price or quantity it is never
      negative. */
  function StockValue(ps: seq<Product>): int
  {
    if ps == [] then 0
    else StockValue(ps[..|ps| - 1]) + ps[|ps| - 1].price * ps[|ps| - 1].quantity
  }

  /** With no negative price or quantity the stock value is never negative. */
  lemma {:induction false} StockValueNonNegative(ps: seq<Product>)
    requires forall i :: 0 <= i < |ps| ==> ps[i].price >= 0 && ps[i].quantity >= 0
    ensures StockValue(ps) >= 0
  {
    if ps != [] {
      var n := |ps| - 1;
      StockValueNonNegative(ps[..n]);
      assert ps[n].price * ps[n].quantity >= 0;
    }
  }

  /** Replacing one product changes the stock value by exactly the difference
      of that product's own value. */
  lemma {:induction false} StockValueUpdate(ps: seq<Product>, i: int, p: Product)
    requires 0 <= i < |ps|
    ensures StockValue(ps[i := p]) == StockValue(ps) - ps[i].price * ps[i].quantity + p.price * p.quantity
  {
    var n := |ps| - 1;
    if i == n {
      assert ps[i := p][..n] == ps[..n];
    } else {
      StockValueUpdate(ps[..n], i, p);
      assert ps[i := p][..n] == ps[..n][i := p];
    }
  }

  /** Appending a product adds exactly its own value. */
  lemma StockValueAppend(ps: seq<Product>, p: Product)
    ensures StockValue(ps + [p]) == StockValue(ps) + p.price * p.quantity
  {
    assert (ps + [p])[..|ps|] == ps;
  }

  // ---------------------------------------------------------------------
  // Input validation

  /** `get_valid_int` / `get_valid_float`: an entered number is accepted only
      when it is zero or positive (a rejected one is asked for again). */
  function AcceptNonNegative(v: int): (r: Option<nat>)
    ensures r.Some? <==> v >= 0
    ensures r.Some? ==> r.value == v
  {
    if v >= 0 then Some(v) else None
  }

  // ---------------------------------------------------------------------
  // The invariant

  /** The ids of a product list, in order. */
  function Ids(ps: seq<Product>): seq<int>
  {
    MapSeq(ps, (p: Product) => p.id)
  }

  /** Ids unique and below the counter; prices and stock never negative. */
  ghost predicate ValidData(d: InventoryData)
  {
    && UniqueBelow(Ids(d.products), d.nextProductId)
    && forall i :: 0 <= i < |d.products| ==> d.products[i].price >= 0 && d.products[i].quantity >= 0
  }

  /** The default skeleton satisfies the invariant. */
  lemma SkeletonValid()
    ensures ValidData(InventoryData([], 0, FirstProductId))
  {
  }

  /** Replacing a product by one with the same id, a non-negative price and a
      non-negative stock keeps the invariant. */
  lemma ReplaceKeepsValid(d: InventoryData, i: int, p: Product)
    requires ValidData(d) && 0 <= i < |d.products|
    requires p.id == d.products[i].id && p.price >= 0 && p.quantity >= 0
    ensures ValidData(d.(products := d.products[i := p]))
  {
    assert Ids(d.products[i := p]) == Ids(d.products);
  }

  // ---------------------------------------------------------------------
  // Adding and restocking

  /** What `add_product` makes of the document. */
  function AddProductTo(d: InventoryData, name: string, price: nat, quantity: nat): (r: InventoryData)
    ensures r.totalEarnings == d.totalEarnings
    ensures (exists j :: 0 <= j < |d.products| && SameName(d.products[j].name, name)) ==>
      && NameIndex(d.products, name).Some?
      && var i := NameIndex(d.products, name).value;
      && FirstWithName(d.products, name, i)
      && |r.products| == |d.products| && r.nextProductId == d.nextProductId
      && r.products[i] == d.products[i].(quantity := d.products[i].quantity + quantity)
      && forall j :: 0 <= j < |d.products| && j != i ==> r.products[j] == d.products[j]
    ensures (forall j :: 0 <= j < |d.products| ==> !SameName(d.products[j].name, name)) ==>
      && r.products == d.products + [Product(d.nextProductId, name, price, quantity)]
      && r.nextProductId == d.nextProductId + 1
  {
    match NameIndex(d.products, name)
    case Some(i) =>
      d.(products := d.products[i := d.products[i].(quantity := d.products[i].quantity + quantity)])
    case None =>
      d.(products := d.products + [Product(d.nextProductId, name, price, quantity)],
         nextProductId := d.nextProductId + 1)
  }

  /** Adding or restocking keeps ids unique and below the counter, and stock
      non-negative. */
  lemma AddProductKeepsValid(d: InventoryData, name: string, price: nat, quantity: nat)
    requires ValidData(d)
    ensures ValidData(AddProductTo(d, name, price, quantity))
  {
    match NameIndex(d.products, name)
    case Some(i) =>
      ReplaceKeepsValid(d, i, d.products[i].(quantity := d.products[i].quantity + quantity));
    case None =>
      var p := Product(d.nextProductId, name, price, quantity);
      assert Ids(d.products + [p]) == Ids(d.products) + [d.nextProductId];
      FreshIdKeepsUnique(Ids(d.products), d.nextProductId);
  }

  /** Adding `quantity` units raises the stock value by `quantity` times the
      price the stock is held at: the matched product's own price on a
      restock (the entered price is then ignored), the entered one otherwise. */
  lemma AddProductStockValue(d: InventoryData, name: string, price: nat, quantity: nat)
    ensures var r := AddProductTo(d, name, price, quantity);
      StockValue(r.products) == StockValue(d.products)
        + (match NameIndex(d.products, name)
           case Some(i) => d.products[i].price * quantity
           case None => price * quantity)
  {
    var r := AddProductTo(d, name, price, quantity);
    match NameIndex(d.products, name)
    case Some(i) =>
      var p := d.products[i].(quantity := d.products[i].quantity + quantity);
      assert r.products == d.products[i := p];
      StockValueUpdate(d.products, i, p);
    case None =>
      var p := Product(d.nextProductId, name, price, quantity);
      assert r.products == d.products + [p];
      StockValueAppend(d.products, p);
  }

  // ---------------------------------------------------------------------
  // Purchasing

  datatype PurchaseOutcome =
    | EmptyInventory
    | UnknownProduct
    | NonPositiveQuantity
    | InsufficientStock
    | Purchased(sale: int)

  /** What `process_purchase` decides for an entered product id and quantity,
      and the document afterwards. */
  function Purchase(d: InventoryData, productId: int, qty: int): (r: (PurchaseOutcome, InventoryData))
    ensures r.0 == EmptyInventory <==> d.products == []
    ensures r.0 == UnknownProduct <==>
      d.products != [] && forall j :: 0 <= j < |d.products| ==> d.products[j].id != productId
    ensures r.0.Purchased? <==>
      exists i :: FirstWithId(d.products, productId, i) && 0 < qty <= d.products[i].quantity
    ensures r.0 == NonPositiveQuantity ==> qty <= 0
    ensures r.0 == InsufficientStock ==> qty > 0
    ensures !r.0.Purchased? ==> r.1 == d
    ensures r.0.Purchased? ==>
      && IdIndex(d.products, productId).Some?
      && var i := IdIndex(d.products, productId).value;
      && var p := d.products[i];
      && r.0.sale == qty * p.price
      && r.1 == d.(products := d.products[i := p.(quantity := p.quantity - qty)],
                   totalEarnings := d.totalEarnings + qty * p.price)
  {
    if d.products == [] then (EmptyInventory, d)
    else match IdIndex(d.products, productId)
      case None => (UnknownProduct, d)
      case Some(i) =>
        var p := d.products[i];
        if qty <= 0 then (NonPositiveQuantity, d)
        else if qty > p.quantity then
          assert forall k :: FirstWithId(d.products, productId, k) ==> k == i;
          (InsufficientStock, d)
        else
          (Purchased(qty * p.price),
           d.(products := d.products[i := p.(quantity := p.quantity - qty)],
              totalEarnings := d.totalEarnings + qty * p.price))
  }

  /** A purchase keeps ids unique and below the counter, and never drives
      stock negative. */
  lemma PurchaseKeepsValid(d: InventoryData, productId: int, qty: int)
    requires ValidData(d)
    ensures ValidData(Purchase(d, productId, qty).1)
  {
    var r := Purchase(d, productId, qty);
    if r.0.Purchased? {
      var i := IdIndex(d.products, productId).value;
      var p := d.products[i];
      ReplaceKeepsValid(d, i, p.(quantity := p.quantity - qty));
      assert r.1.products == d.products[i := p.(quantity := p.quantity - qty)];
    }
  }

  /** A purchase moves value from stock to earnings: stock value plus earnings
      is the same before and after. */
  lemma PurchaseConservesValue(d: InventoryData, productId: int, qty: int)
    ensures var r := Purchase(d, productId, qty).1;
      StockValue(r.products) + r.totalEarnings == StockValue(d.products) + d.totalEarnings
  {
    var r := Purchase(d, productId, qty);
    if r.0.Purchased? {
      var i := IdIndex(d.products, productId).value;
      var p := d.products[i];
      StockValueUpdate(d.products, i, p.(quantity := p.quantity - qty));
    }
  }

  // ---------------------------------------------------------------------
  // The system

  /** Why an entry from the "Add/Restock Product" menu did or did not reach
      `add_product`. */
  datatype EntryOutcome = InvalidEntry | MissingName | Entered(restocked: bool)

  class InventorySystem {
    var products: seq<Product>
    var totalEarnings: int
    var nextProductId: int

    /** The state this system works on; `Save(State())` is what it writes. */
    function State(): InventoryData
      reads this
    {
      InventoryData(products, totalEarnings, nextProductId)
    }

    ghost predicate Valid()
      reads this
    {
      ValidData(State())
    }

    /** A system holding a rebuilt document. */
    constructor (d: InventoryData)
      ensures State() == d
    {
      products := d.products;
      totalEarnings := d.totalEarnings;
      nextProductId := d.nextProductId;
    }

    /** `InventorySystem()` as written: load the file and rebuild every saved
        product through the constructor; `null` stands for the TypeError
        that ends the program when a dictionary does not fit. */
    static method Start(f: StoredFile<InventoryDoc>) returns (system: InventorySystem?)
      ensures system == null <==> RebuildAsWritten(LoadDocument(f)).None?
      ensures system != null ==> fresh(system) && system.State() == RebuildAsWritten(LoadDocument(f)).value
      ensures !f.Parsed? ==> system != null && system.Valid()
    {
      var rebuilt := RebuildAsWritten(LoadDocument(f));
      if rebuilt.None? {
        return null;
      }
      system := new InventorySystem(rebuilt.value);
    }

    /** The start the saved format calls for: every saved product rebuilt
        from the keys `to_dict` writes, so a saved store starts again as it
        was saved. */
    static method StartFromSaved(f: StoredFile<InventoryDoc>) returns (system: InventorySystem?)
      ensures system == null <==> Rebuild(LoadDocument(f)).None?
      ensures system != null ==> fresh(system) && system.State() == Rebuild(LoadDocument(f)).value
      ensures !f.Parsed? ==> system != null && system.Valid()
    {
      var rebuilt := Rebuild(LoadDocument(f));
      if rebuilt.None? {
        return null;
      }
      system := new InventorySystem(rebuilt.value);
    }

    /** `add_product`: restock the first case-insensitive name match, or
        append a new product carrying the counter's value as its id. */
    method AddProduct(name: string, price: nat, quantity: nat) returns (restocked: bool)
      modifies this
      ensures State() == AddProductTo(old(State()), name, price, quantity)
      ensures restocked <==> exists j :: 0 <= j < |old(products)| && SameName(old(products)[j].name, name)
      ensures old(Valid()) ==> Valid()
    {
      ghost var d := State();
      match NameIndex(products, name)
      case Some(i) =>
        products := products[i := products[i].(quantity := products[i].quantity + quantity)];
        restocked := true;
      case None =>
        products := products + [Product(nextProductId, name, price, quantity)];
        nextProductId := nextProductId + 1;
        restocked := false;
      if ValidData(d) {
        AddProductKeepsValid(d, name, price, quantity);
      }
    }

    /** The "Add/Restock Product" menu entry with the typed name, price and
        quantity: a negative price or quantity is not accepted (it would be
        asked for again), a name that is empty once stripped is refused, and
        otherwise the stripped name goes to `add_product`. */
    method AddEntered(typedName: string, price: int, quantity: int) returns (outcome: EntryOutcome)
      modifies this
      ensures outcome == InvalidEntry <==> price < 0 || quantity < 0
      ensures outcome == MissingName <==> price >= 0 && quantity >= 0 && Strip(typedName) == ""
      ensures !outcome.Entered? ==> State() == old(State())
      ensures outcome.Entered? ==> State() == AddProductTo(old(State()), Strip(typedName), price, quantity)
      ensures old(Valid()) ==> Valid()
    {
      var acceptedPrice, acceptedQuantity := AcceptNonNegative(price), AcceptNonNegative(quantity);
      if acceptedPrice.None? || acceptedQuantity.None? {
        return InvalidEntry;
      }
      var name := Strip(typedName);
      if name == "" {
        return MissingName;
      }
      var restocked := AddProduct(name, acceptedPrice.value, acceptedQuantity.value);
      outcome := Entered(restocked);
    }

    /** `process_purchase` with the entered id and quantity as parameters: it
        goes through only for a product with that id and `0 < qty <= stock`;
        any rejection changes nothing. */
    method ProcessPurchase(productId: int, qty: int) returns (outcome: PurchaseOutcome)
      modifies this
      ensures (outcome, State()) == Purchase(old(State()), productId, qty)
      ensures old(Valid()) ==> Valid()
    {
      ghost var d := State();
      if products == [] {
        return EmptyInventory;
      }
      match IdIndex(products, productId)
      case None =>
        return UnknownProduct;
      case Some(i) =>
        var p := products[i];
        if qty <= 0 {
          return NonPositiveQuantity;
        }
        if qty > p.quantity {
          return InsufficientStock;
        }
        var sale := qty * p.price;
        products := products[i := p.(quantity := p.quantity - qty)];
        totalEarnings := totalEarnings + sale;
        outcome := Purchased(sale);
        if ValidData(d) {
          PurchaseKeepsValid(d, productId, qty);
        }
    }

    /** The figures `show_summary` reports: the earnings and the stock value,
        which is never negative while the invariant holds. */
    method ShowSummary() returns (earnings: int, stockValue: int)
      ensures earnings == totalEarnings
      ensures stockValue == StockValue(products)
      ensures Valid() ==> stockValue >= 0
    {
      earnings := totalEarnings;
      stockValue := StockValue(products);
      if Valid() {
        StockValueNonNegative(products);
      }
    }
  }

  /** A new store, one product added and bought from, one purchase refused. */
  method WidgetScenario()
  {
    var store := InventorySystem.StartFromSaved(Missing);
    var restocked := store.AddProduct("Widget", 1000, 5);
    assert store.products == [Product(1001, "Widget", 1000, 5)];
    assert store.nextProductId == 1002 && store.totalEarnings == 0;

    var bought := store.ProcessPurchase(1001, 3);
    assert bought == Purchased(3000);
    assert store.products == [Product(1001, "Widget", 1000, 2)];
    assert store.totalEarnings == 3000;

    var refused := store.ProcessPurchase(1001, 10);
    assert refused == InsufficientStock;
    assert store.products == [Product(1001, "Widget", 1000, 2)];
    assert store.totalEarnings == 3000;
  }

  /** The first run seeds the default products and saves them; as written the
      next start fails, while the rebuild from the saved keys restores the
      store. */
  method SecondStartScenario()
  {
    var first := InventorySystem.Start(Empty);
    var _ := first.AddProduct("Laptop Pro", 120000, 5);
    var _ := first.AddProduct("Wireless Mouse", 2550, 50);
    var saved := Save(first.State());

    SavedStoreNeverRestarts(first.State());
    var second := InventorySystem.Start(Parsed(saved));
    assert second == null;

    SaveRebuildRoundTrip(first.State(), saved);
    var restored := InventorySystem.StartFromSaved(Parsed(saved));
    assert restored != null && restored.State() == first.State();
  }
}
