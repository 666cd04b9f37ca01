/** The in-memory stand-in for the document store: the product collection, the
    inventory-history collection and the user collection, a write counter that
    plays the role of the clock, and the identifier supply. Each write method is
    one `save()` of a document. */
module Database {
  import opened Common
  import opened Strings
  import opened ProductModel
  import opened InventoryHistoryModel

  /** A stored account; `password` holds what the sign-up route stored there. */
  datatype User = User(id: nat, email: string, password: string, name: string, role: string)

  /** Why a product save was refused: a schema validator, or the unique index on `name`. */
  datatype SaveError = Invalid(issues: seq<ValidationIssue>) | DuplicateKey

  /** `findOne({ name })` finds a document: an exact, case-sensitive match. */
  predicate NameTaken(products: seq<Product>, name: string)
  {
    exists i :: 0 <= i < |products| && products[i].name == name
  }

  predicate UniqueNames(products: seq<Product>)
  {
    forall i, j :: 0 <= i < j < |products| ==> products[i].name != products[j].name
  }

  predicate UniqueEmails(users: seq<User>)
  {
    forall i, j :: 0 <= i < j < |users| ==> users[i].email != users[j].email
  }

  /** `User.findOne({ email })`: the first account with exactly that email. */
  function FindUser(users: seq<User>, email: string): (r: Option<User>)
    ensures r.Some? ==> r.value in users && r.value.email == email
    ensures r.None? ==> forall i :: 0 <= i < |users| ==> users[i].email != email
    decreases |users|
  {
    if users == [] then None
    else if users[0].email == email then Some(users[0])
    else FindUser(users[1..], email)
  }

  class Store {
    var products: seq<Product>
    var ledger: seq<HistoryEntry>
    var users: seq<User>
    /** The time of the next write; every write advances it. */
    var clock: nat
    var nextId: nat
    /** The role the user schema gives a new account. */
    const defaultRole: string

    /** Every stored product is well formed (status derived from stock, stock
        non-negative, required text present and trimmed), names are unique,
        emails are unique, identifiers and timestamps lie in the past. */
    ghost predicate Valid()
      reads this
    {
      (forall i :: 0 <= i < |products| ==>
         WellFormed(products[i]) && products[i].id < nextId && products[i].createdAt < clock) &&
      UniqueNames(products) &&
      (forall i :: 0 <= i < |ledger| ==> ledger[i].id < nextId && ledger[i].changeDate <= clock) &&
      (forall i :: 0 <= i < |users| ==> users[i].id < nextId) &&
      UniqueEmails(users)
    }

    constructor (defaultRole: string)
      ensures Valid()
      ensures products == [] && ledger == [] && users == []
      ensures this.defaultRole == defaultRole
    {
      products, ledger, users := [], [], [];
      clock, nextId := 0, 0;
      this.defaultRole := defaultRole;
    }

    /** `product.save()`: the validators run first, then the `pre('save')`
        hook, then the unique index on `name` is checked on insertion. A
        refused save writes nothing. */
    method SaveProduct(doc: ProductDocument) returns (r: Result<Product, SaveError>)
      requires Valid() && doc.Valid()
      modifies this, doc
      ensures Valid()
      ensures r.Ok? <==> old(doc.Issues()) == [] && !NameTaken(old(products), old(doc.name))
      ensures r.Err? && old(doc.Issues()) != [] ==> r.error == Invalid(old(doc.Issues()))
      ensures r.Ok? ==> r.value == Product(old(nextId), old(doc.name), old(doc.unit), old(doc.category),
                                           old(doc.brand), old(doc.stock), DeriveStatus(old(doc.stock)),
                                           old(doc.image), old(clock), old(clock))
      ensures r.Ok? ==> products == old(products) + [r.value]
      ensures r.Ok? ==> nextId == old(nextId) + 1 && clock == old(clock) + 1
      ensures r.Err? ==> products == old(products) && nextId == old(nextId) && clock == old(clock)
      ensures ledger == old(ledger) && users == old(users)
    {
      var issues := doc.Issues();
      if issues != [] {
        return Err(Invalid(issues));
      }
      doc.PreSave();
      if NameTaken(products, doc.name) {
        return Err(DuplicateKey);
      }
      var p := Product(nextId, doc.name, doc.unit, doc.category, doc.brand, doc.stock,
                       doc.status, doc.image, clock, clock);
      products := products + [p];
      nextId := nextId + 1;
      clock := clock + 1;
      r := Ok(p);
    }

    /** `historyEntry.save()`: the schema's defaults and required fields. */
    method SaveHistory(fields: HistoryFields) returns (r: Result<HistoryEntry, MissingField>)
      requires Valid()
      requires fields.changeDate.Some? ==> fields.changeDate.value <= clock
      modifies this
      ensures Valid()
      ensures r == BuildEntry(old(nextId), fields, old(clock))
      ensures r.Ok? ==> ledger == old(ledger) + [r.value] && nextId == old(nextId) + 1 && clock == old(clock) + 1
      ensures r.Err? ==> ledger == old(ledger) && nextId == old(nextId) && clock == old(clock)
      ensures products == old(products) && users == old(users)
    {
      r := BuildEntry(nextId, fields, clock);
      if r.Ok? {
        ledger := ledger + [r.value];
        nextId := nextId + 1;
        clock := clock + 1;
      }
    }

    /** `user.save()` for an email no account has yet. */
    method SaveUser(email: string, password: string, name: string) returns (u: User)
      requires Valid() && FindUser(users, email).None?
      modifies this
      ensures Valid()
      ensures u == User(old(nextId), email, password, name, defaultRole)
      ensures users == old(users) + [u]
      ensures nextId == old(nextId) + 1 && clock == old(clock) + 1
      ensures products == old(products) && ledger == old(ledger)
    {
      u := User(nextId, email, password, name, defaultRole);
      users := users + [u];
      nextId := nextId + 1;
      clock := clock + 1;
    }
  }
}
