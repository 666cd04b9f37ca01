/** The inventory-history (ledger) entry schema: three required fields and
    defaults for the date of the change and for the actor. Quantities carry no
    range constraint, so they are unbounded integers. */
module InventoryHistoryModel {
  import opened Common

  /** One stored ledger entry; `changeDate` is a reading of the store's write counter. */
  datatype HistoryEntry = HistoryEntry(
    id: nat,
    productId: nat,
    oldQuantity: int,
    newQuantity: int,
    changeDate: nat,
    userId: string,
    userName: string)

  /** The fields handed to `new InventoryHistory({...})`; any may be left out. */
  datatype HistoryFields = HistoryFields(
    productId: Option<nat>,
    oldQuantity: Option<int>,
    newQuantity: Option<int>,
    changeDate: Option<nat>,
    userId: Option<string>,
    userName: Option<string>)

  /** A required ledger field that was left out. */
  datatype MissingField = ProductIdRequired | OldQuantityRequired | NewQuantityRequired

  const SystemUserId := "system"
  const SystemUserName := "System"

  /** Validation and defaults of the schema for an entry written at time `now`
      with identifier `id`. */
  function BuildEntry(id: nat, f: HistoryFields, now: nat): (r: Result<HistoryEntry, MissingField>)
    ensures r.Ok? <==> f.productId.Some? && f.oldQuantity.Some? && f.newQuantity.Some?
    ensures r.Err? ==> (r.error == ProductIdRequired <==> f.productId.None?)
    ensures r.Ok? ==> r.value.id == id && r.value.productId == f.productId.value
    ensures r.Ok? ==> r.value.oldQuantity == f.oldQuantity.value && r.value.newQuantity == f.newQuantity.value
    ensures r.Ok? ==> r.value.changeDate == (if f.changeDate.Some? then f.changeDate.value else now)
    ensures r.Ok? ==> r.value.userId == (if f.userId.Some? then f.userId.value else SystemUserId)
    ensures r.Ok? ==> r.value.userName == (if f.userName.Some? then f.userName.value else SystemUserName)
  {
    if f.productId.None? then Err(ProductIdRequired)
    else if f.oldQuantity.None? then Err(OldQuantityRequired)
    else if f.newQuantity.None? then Err(NewQuantityRequired)
    else Ok(HistoryEntry(
      id, f.productId.value, f.oldQuantity.value, f.newQuantity.value,
      if f.changeDate.Some? then f.changeDate.value else now,
      if f.userId.Some? then f.userId.value else SystemUserId,
      if f.userName.Some? then f.userName.value else SystemUserName))
  }
}
