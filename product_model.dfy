/** The product schema: its fields, the trimming setters and defaults applied
    when a document is built, the validators run before a save, and the two
    hooks that derive `status` from `stock`. */
module ProductModel {
  import opened Common
  import opened Strings

  /** The two values the `status` enum admits. */
  datatype Status = InStock | OutOfStock

  function StatusLabel(s: Status): (text: string)
    ensures text == "In Stock" || text == "Out of Stock"
  {
    match s
    case InStock => "In Stock"
    case OutOfStock => "Out of Stock"
  }

  /** The status the hooks assign for a stock value. */
  function DeriveStatus(stock: int): (s: Status)
    ensures s == InStock <==> stock > 0
  {
    if stock > 0 then InStock else OutOfStock
  }

  /** A stored product. `createdAt` and `updatedAt` are readings of the store's
      write counter. */
  datatype Product = Product(
    id: nat,
    name: string,
    unit: string,
    category: string,
    brand: string,
    stock: int,
    status: Status,
    image: string,
    createdAt: nat,
    updatedAt: nat)

  /** A required string field passes the `required` validator when it holds a
      non-empty value after the `trim` setter. */
  predicate RequiredText(s: string)
  {
    s != "" && IsTrimmed(s)
  }

  /** What every stored product satisfies: required text present and trimmed,
      `stock` at least its minimum 0, and `status` derived from `stock`. */
  predicate WellFormed(p: Product)
  {
    RequiredText(p.name) && RequiredText(p.unit) && RequiredText(p.category) &&
    RequiredText(p.brand) && p.stock >= 0 && p.status == DeriveStatus(p.stock)
  }

  /** A schema validator that rejects a document. */
  datatype ValidationIssue = NameRequired | UnitRequired | CategoryRequired | BrandRequired | StockBelowMinimum

  /** The validators of a document in schema order; empty when it is valid. */
  function ValidationIssues(name: string, unit: string, category: string, brand: string, stock: int): (issues: seq<ValidationIssue>)
    ensures (NameRequired in issues) <==> name == ""
    ensures (UnitRequired in issues) <==> unit == ""
    ensures (CategoryRequired in issues) <==> category == ""
    ensures (BrandRequired in issues) <==> brand == ""
    ensures (StockBelowMinimum in issues) <==> stock < 0
    ensures issues == [] <==> name != "" && unit != "" && category != "" && brand != "" && stock >= 0
  {
    (if name == "" then [NameRequired] else []) +
    (if unit == "" then [UnitRequired] else []) +
    (if category == "" then [CategoryRequired] else []) +
    (if brand == "" then [BrandRequired] else []) +
    (if stock < 0 then [StockBelowMinimum] else [])
  }

  /** A product document before it is saved (`new Product({...})`). The
      constructor applies the `trim` setters and the defaults; `PreSave` is the
      `pre('save')` hook. */
  class ProductDocument {
    var name: string
    var unit: string
    var category: string
    var brand: string
    var stock: int
    var status: Status
    var image: string

    /** Text fields hold what the `trim` setters leave. */
    ghost predicate Valid()
      reads this
    {
      IsTrimmed(name) && IsTrimmed(unit) && IsTrimmed(category) && IsTrimmed(brand)
    }

    /** Absent `stock`, `status` and `image` take the defaults 0,
        'Out of Stock' and ''. */
    constructor (name: string, unit: string, category: string, brand: string,
                 stock: Option<int>, status: Option<Status>, image: Option<string>)
      ensures Valid()
      ensures this.name == Trim(name) && this.unit == Trim(unit)
      ensures this.category == Trim(category) && this.brand == Trim(brand)
      ensures this.stock == (if stock.Some? then stock.value else 0)
      ensures this.status == (if status.Some? then status.value else OutOfStock)
      ensures this.image == (if image.Some? then image.value else "")
    {
      this.name := Trim(name);
      this.unit := Trim(unit);
      this.category := Trim(category);
      this.brand := Trim(brand);
      this.stock := if stock.Some? then stock.value else 0;
      this.status := if status.Some? then status.value else OutOfStock;
      this.image := if image.Some? then image.value else "";
    }

    function Issues(): (issues: seq<ValidationIssue>)
      reads this
    {
      ValidationIssues(name, unit, category, brand, stock)
    }

    /** `pre('save')`: whatever status the caller supplied, the saved status is
        'In Stock' exactly when the stock is positive. Nothing else changes. */
    method PreSave()
      modifies this
      ensures status == DeriveStatus(stock)
      ensures status == InStock <==> stock > 0
      ensures name == old(name) && unit == old(unit) && category == old(category)
      ensures brand == old(brand) && stock == old(stock) && image == old(image)
    {
      if stock > 0 {
        status := InStock;
      } else {
        status := OutOfStock;
      }
    }
  }

  /** The update object of a `findOneAndUpdate` call: each field is present or
      absent. `PreFindOneAndUpdate` is the `pre('findOneAndUpdate')` hook. */
  class UpdateDocument {
    var name: Option<string>
    var unit: Option<string>
    var category: Option<string>
    var brand: Option<string>
    var stock: Option<int>
    var status: Option<Status>
    var image: Option<string>

    constructor (name: Option<string>, unit: Option<string>, category: Option<string>,
                 brand: Option<string>, stock: Option<int>, status: Option<Status>,
                 image: Option<string>)
      ensures this.name == name && this.unit == unit && this.category == category
      ensures this.brand == brand && this.stock == stock && this.status == status
      ensures this.image == image
    {
      this.name, this.unit, this.category, this.brand := name, unit, category, brand;
      this.stock, this.status, this.image := stock, status, image;
    }

    /** An update that sets `stock` gets its `status` overwritten from the new
        stock; an update without `stock` passes through unchanged. */
    method PreFindOneAndUpdate()
      modifies this
      ensures old(stock).Some? ==> status == Some(DeriveStatus(old(stock).value))
      ensures old(stock).None? ==> status == old(status)
      ensures name == old(name) && unit == old(unit) && category == old(category)
      ensures brand == old(brand) && stock == old(stock) && image == old(image)
    {
      if stock.Some? {
        status := Some(if stock.value > 0 then InStock else OutOfStock);
      }
    }
  }

  /** The `$set` of an update's present fields on a stored product. Mongoose
      casts the values of an update through the schema's setters, so present
      text fields are stored trimmed, as on a save. */
  function ApplyUpdate(p: Product, name: Option<string>, unit: Option<string>, category: Option<string>,
                       brand: Option<string>, stock: Option<int>, status: Option<Status>,
                       image: Option<string>, now: nat): (q: Product)
    ensures q.id == p.id && q.createdAt == p.createdAt && q.updatedAt == now
    ensures q.name == (if name.Some? then Trim(name.value) else p.name)
    ensures q.unit == (if unit.Some? then Trim(unit.value) else p.unit)
    ensures q.category == (if category.Some? then Trim(category.value) else p.category)
    ensures q.brand == (if brand.Some? then Trim(brand.value) else p.brand)
    ensures q.stock == (if stock.Some? then stock.value else p.stock)
    ensures q.status == (if status.Some? then status.value else p.status)
    ensures q.image == (if image.Some? then image.value else p.image)
  {
    p.(name := if name.Some? then Trim(name.value) else p.name,
       unit := if unit.Some? then Trim(unit.value) else p.unit,
       category := if category.Some? then Trim(category.value) else p.category,
       brand := if brand.Some? then Trim(brand.value) else p.brand,
       stock := if stock.Some? then stock.value else p.stock,
       status := if status.Some? then status.value else p.status,
       image := if image.Some? then image.value else p.image,
       updatedAt := now)
  }

  /** An update keeps the four required text fields of a well-formed product
      free of surrounding whitespace, whichever of them it sets, and an update
      that sets nothing changes only the update time. */
  lemma UpdateKeepsTextTrimmed(p: Product, name: Option<string>, unit: Option<string>, category: Option<string>,
                               brand: Option<string>, now: nat)
    requires WellFormed(p)
    ensures var q := ApplyUpdate(p, name, unit, category, brand, None, None, None, now);
      IsTrimmed(q.name) && IsTrimmed(q.unit) && IsTrimmed(q.category) && IsTrimmed(q.brand) &&
      q.stock == p.stock && q.status == DeriveStatus(q.stock)
    ensures ApplyUpdate(p, None, None, None, None, None, None, None, now) == p.(updatedAt := now)
  {
  }

  /** After the hook, an update keeps `status` consistent with `stock` exactly
      when it does not set a status without also setting a stock: the hook
      rewrites the status of every update that carries a stock. */
  lemma {:induction false} HookedUpdateKeepsStatus(p: Product, stock: Option<int>, status: Option<Status>, now: nat)
    requires p.status == DeriveStatus(p.stock)
    requires stock.Some? ==> status == Some(DeriveStatus(stock.value))
    ensures var q := ApplyUpdate(p, None, None, None, None, stock, status, None, now);
      q.status == DeriveStatus(q.stock) <==> (stock.Some? || status.None? || status == Some(p.status))
  {
    var q := ApplyUpdate(p, None, None, None, None, stock, status, None, now);
    if stock.None? && status.Some? && status.value != p.status {
      assert q.stock == p.stock && q.status == status.value;
      assert q.status != DeriveStatus(q.stock);
    }
  }
}
