/** The collection route of the product API: `GET` lists products through an
    optional name pattern and category, newest first; `POST` creates a product,
    and records its initial stock in the inventory history when it is positive. */
module ProductsRoute {
  import opened Common
  import opened Strings
  import opened ProductModel
  import opened InventoryHistoryModel
  import opened Database
  import opened ProductQuery

  /** The JSON body of a create request (its `status` is read and never used). */
  datatype CreateBody = CreateBody(
    name: Option<string>,
    unit: Option<string>,
    category: Option<string>,
    brand: Option<string>,
    stock: Option<int>,
    image: Option<string>)

  /** A create response: 201 with the created product, or an error status with its message. */
  datatype Response = Created(product: Product) | Failed(status: nat, error: string)

  // ---------------------------------------------------------------- GET

  /** Which products a list request selects: a truthy `name` is a
      case-insensitive pattern on the name; a truthy `category` other than
      'all' must equal the category exactly, after the schema's `trim` setter,
      which Mongoose applies to the values of a query filter too. */
  predicate ListSelects(name: Option<string>, category: Option<string>, p: Product)
  {
    (Truthy(name) ==> MatchesCaseInsensitive(p.name, name.value)) &&
    (Truthy(category) && category.value != "all" ==> p.category == Trim(category.value))
  }

  /** `GET`: exactly the selected stored products, each no more often than it
      is stored, newest first. */
  method List(db: Store, name: Option<string>, category: Option<string>) returns (products: seq<Product>)
    ensures forall p :: p in products <==> p in db.products && ListSelects(name, category, p)
    ensures NewestFirst(products)
    ensures multiset(products) <= multiset(db.products)
  {
    var query := EmptyQuery;
    if Truthy(name) {
      query := query.(name := Some(name.value));
    }
    if Truthy(category) && category.value != "all" {
      query := query.(category := Some(Equals(Trim(category.value))));
    }
    assert forall p :: Matches(query, p) <==> ListSelects(name, category, p);
    products := Find(db.products, query, None);
    FindUnlimited(db.products, query);
  }

  // ---------------------------------------------------------------- POST

  predicate RequiredPresent(body: CreateBody)
  {
    Truthy(body.name) && Truthy(body.unit) && Truthy(body.category) && Truthy(body.brand)
  }

  /** A required field of the create body. */
  datatype Field = Name | Unit | Category | Brand

  /** The label a field has in the error message. */
  function FieldLabel(f: Field): string
  {
    match f
    case Name => "Name"
    case Unit => "Unit"
    case Category => "Category"
    case Brand => "Brand"
  }

  /** The falsy required fields, in the order Name, Unit, Category, Brand. */
  function MissingFields(body: CreateBody): (fields: seq<Field>)
    ensures fields == [] <==> RequiredPresent(body)
  {
    (if !Truthy(body.name) then [Name] else []) +
    (if !Truthy(body.unit) then [Unit] else []) +
    (if !Truthy(body.category) then [Category] else []) +
    (if !Truthy(body.brand) then [Brand] else [])
  }

  /** Exactly the falsy fields are listed. */
  lemma MissingFieldsNamed(body: CreateBody)
    ensures var fields := MissingFields(body);
      (Name in fields <==> !Truthy(body.name)) && (Unit in fields <==> !Truthy(body.unit)) &&
      (Category in fields <==> !Truthy(body.category)) && (Brand in fields <==> !Truthy(body.brand))
  {
  }

  /** The position of a field in the order Name, Unit, Category, Brand. */
  function Rank(f: Field): nat
  {
    match f
    case Name => 0
    case Unit => 1
    case Category => 2
    case Brand => 3
  }

  /** The missing fields are listed in the order Name, Unit, Category, Brand. */
  lemma MissingFieldsInOrder(body: CreateBody)
    ensures var fields := MissingFields(body);
      forall i, j :: 0 <= i < j < |fields| ==> Rank(fields[i]) < Rank(fields[j])
  {
  }

  function Labels(fields: seq<Field>): (labels: seq<string>)
    ensures |labels| == |fields| && forall k :: 0 <= k < |fields| ==> labels[k] == FieldLabel(fields[k])
  {
    seq(|fields|, k requires 0 <= k < |fields| => FieldLabel(fields[k]))
  }

  /** The 400 message: the labels of the missing fields joined by ", ". */
  function MissingFieldsMessage(body: CreateBody): string
  {
    "Missing required fields: " + Join(Labels(MissingFields(body)), ", ")
  }

  /** The four `if (!field) missingFields.push(label)` steps. */
  method CollectMissingFields(body: CreateBody) returns (missingFields: seq<Field>)
    ensures missingFields == MissingFields(body)
  {
    missingFields := [];
    if !Truthy(body.name) { missingFields := missingFields + [Name]; }
    if !Truthy(body.unit) { missingFields := missingFields + [Unit]; }
    if !Truthy(body.category) { missingFields := missingFields + [Category]; }
    if !Truthy(body.brand) { missingFields := missingFields + [Brand]; }
  }

  function DuplicateNameMessage(name: string): string
  {
    "A product with the name \"" + name + "\" already exists. Please use a different name."
  }

  const CreateFailedMessage := "Failed to create product"

  /** `stock || 0`. */
  function StockOrZero(stock: Option<int>): int
  {
    if stock.Some? then stock.value else 0
  }

  /** The validators and the unique index accept the document built from a
      body whose required fields are present and whose name is not stored. */
  predicate SaveAccepts(products: seq<Product>, body: CreateBody)
    requires RequiredPresent(body)
  {
    ValidationIssues(Trim(body.name.value), Trim(body.unit.value), Trim(body.category.value),
                     Trim(body.brand.value), StockOrZero(body.stock)) == [] &&
    !NameTaken(products, Trim(body.name.value))
  }

  /** The product a successful create stores: trimmed text, `stock || 0`,
      `image || ''`, the status derived from the stock, created at `now`. */
  function CreatedProduct(body: CreateBody, id: nat, now: nat): (p: Product)
    requires RequiredPresent(body)
    ensures p.id == id && p.createdAt == now
    ensures p.name == Trim(body.name.value) && p.unit == Trim(body.unit.value)
    ensures p.category == Trim(body.category.value) && p.brand == Trim(body.brand.value)
    ensures p.stock == StockOrZero(body.stock) && p.image == OrElse(body.image, "")
    ensures p.status == InStock <==> p.stock > 0
  {
    var stock := StockOrZero(body.stock);
    Product(id, Trim(body.name.value), Trim(body.unit.value), Trim(body.category.value), Trim(body.brand.value),
            stock, DeriveStatus(stock), OrElse(body.image, ""), now, now)
  }

  /** The ledger entry of a product's initial stock: 0 to its stock, by the
      system, at `now`. */
  function InitialEntry(p: Product, id: nat, now: nat): (e: HistoryEntry)
    ensures e.id == id && e.productId == p.id && e.oldQuantity == 0 && e.newQuantity == p.stock
    ensures e.userId == SystemUserId && e.userName == SystemUserName && e.changeDate == now
  {
    HistoryEntry(id, p.id, 0, p.stock, now, SystemUserId, SystemUserName)
  }

  /** `POST`: the checks run in the order required fields, duplicate name
      (looked up by the trimmed name, as the `trim` setter casts the filter),
      save; any failure writes nothing. A success stores exactly one product,
      status derived from stock, and exactly one ledger entry (0 to stock, by
      the system, written after the product) when the stock is positive. */
  method Create(db: Store, body: CreateBody) returns (resp: Response)
    requires db.Valid()
    modifies db
    ensures db.Valid()
    ensures !RequiredPresent(body) ==> resp == Failed(400, MissingFieldsMessage(body))
    ensures RequiredPresent(body) && NameTaken(old(db.products), Trim(body.name.value)) ==>
      resp == Failed(409, DuplicateNameMessage(body.name.value))
    ensures resp.Created? <==>
      RequiredPresent(body) && !NameTaken(old(db.products), Trim(body.name.value)) && SaveAccepts(old(db.products), body)
    ensures resp.Failed? ==> resp.status in {400, 409, 500}
    ensures resp.Failed? && resp.status == 500 ==> resp.error == CreateFailedMessage
    ensures !resp.Created? ==> db.products == old(db.products) && db.ledger == old(db.ledger)
    ensures resp.Created? ==>
      RequiredPresent(body) && resp.product == CreatedProduct(body, old(db.nextId), old(db.clock)) &&
      db.products == old(db.products) + [resp.product]
    ensures resp.Created? && resp.product.stock > 0 ==>
      db.ledger == old(db.ledger) + [InitialEntry(resp.product, old(db.nextId) + 1, old(db.clock) + 1)]
    ensures resp.Created? && resp.product.stock <= 0 ==> db.ledger == old(db.ledger)
    ensures db.users == old(db.users)
  {
    if !RequiredPresent(body) {
      var missingFields := CollectMissingFields(body);
      return Failed(400, "Missing required fields: " + Join(Labels(missingFields), ", "));
    }
    var name := body.name.value;
    if NameTaken(db.products, Trim(name)) {
      return Failed(409, DuplicateNameMessage(name));
    }
    resp := Insert(db, body);
  }

  /** The part of `POST` after the checks: build the document with its
      defaults, save it, then write the initial-stock entry. */
  method Insert(db: Store, body: CreateBody) returns (resp: Response)
    requires db.Valid() && RequiredPresent(body) && !NameTaken(db.products, Trim(body.name.value))
    modifies db
    ensures db.Valid()
    ensures resp.Created? <==> SaveAccepts(old(db.products), body)
    ensures resp.Failed? ==> resp == Failed(500, CreateFailedMessage)
    ensures !resp.Created? ==> db.products == old(db.products) && db.ledger == old(db.ledger)
    ensures resp.Created? ==>
      resp.product == CreatedProduct(body, old(db.nextId), old(db.clock)) &&
      db.products == old(db.products) + [resp.product]
    ensures resp.Created? && resp.product.stock > 0 ==>
      db.ledger == old(db.ledger) + [InitialEntry(resp.product, old(db.nextId) + 1, old(db.clock) + 1)]
    ensures resp.Created? && resp.product.stock <= 0 ==> db.ledger == old(db.ledger)
    ensures db.users == old(db.users)
  {
    var saved := SaveNew(db, body);
    if saved.Err? {
      return Failed(500, CreateFailedMessage);
    }
    var product := saved.value;
    if body.stock.Some? && body.stock.value > 0 {
      RecordInitialStock(db, product);
    }
    resp := Created(product);
  }

  /** `new Product({...})` with the defaults, then `product.save()`. */
  method SaveNew(db: Store, body: CreateBody) returns (saved: Result<Product, SaveError>)
    requires db.Valid() && RequiredPresent(body) && !NameTaken(db.products, Trim(body.name.value))
    modifies db
    ensures db.Valid()
    ensures saved.Ok? <==> SaveAccepts(old(db.products), body)
    ensures saved.Ok? ==>
      saved.value == CreatedProduct(body, old(db.nextId), old(db.clock)) &&
      db.products == old(db.products) + [saved.value] &&
      db.nextId == old(db.nextId) + 1 && db.clock == old(db.clock) + 1
    ensures saved.Err? ==> db.products == old(db.products) && db.nextId == old(db.nextId) && db.clock == old(db.clock)
    ensures db.ledger == old(db.ledger) && db.users == old(db.users)
  {
    var stock := StockOrZero(body.stock);
    var doc := new ProductDocument(body.name.value, body.unit.value, body.category.value, body.brand.value,
                                   Some(stock), Some(if stock > 0 then InStock else OutOfStock),
                                   Some(OrElse(body.image, "")));
    saved := db.SaveProduct(doc);
  }

  /** `historyEntry.save()` for the initial stock of a product just saved. */
  method RecordInitialStock(db: Store, product: Product)
    requires db.Valid()
    modifies db
    ensures db.Valid()
    ensures db.ledger == old(db.ledger) + [InitialEntry(product, old(db.nextId), old(db.clock))]
    ensures db.clock == old(db.clock) + 1 && db.nextId == old(db.nextId) + 1
    ensures db.products == old(db.products) && db.users == old(db.users)
  {
    var entry := db.SaveHistory(HistoryFields(Some(product.id), Some(0), Some(product.stock),
                                              Some(db.clock), Some(SystemUserId), Some(SystemUserName)));
  }

  /** Mongoose casts the `findOne` filter through the `trim` setter, so the
      duplicate check and the unique index compare the same trimmed name: a
      create that passes the 409 check is refused by the save (the 500
      answer) only for text that is blank after trimming or a negative stock. */
  lemma SaveRefusedOnlyForInvalidDocument(products: seq<Product>, body: CreateBody)
    requires RequiredPresent(body) && !NameTaken(products, Trim(body.name.value))
    ensures !SaveAccepts(products, body) <==>
      Trim(body.name.value) == "" || Trim(body.unit.value) == "" || Trim(body.category.value) == "" ||
      Trim(body.brand.value) == "" || StockOrZero(body.stock) < 0
  {
  }
}
