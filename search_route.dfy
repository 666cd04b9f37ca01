/** The product search route: at least one of `name` and `category` must be
    given; both are case-insensitive patterns ('all' as category means no
    condition); at most 100 results, newest first. */
module SearchRoute {
  import opened Common
  import opened Strings
  import opened ProductModel
  import opened Database
  import opened ProductQuery

  const ResultCap := 100

  const MissingParameterMessage := "Please provide a search term or select a category"

  /** 200 with the products, the parameters echoed back and the result count,
      or 400 with a message. */
  datatype SearchResponse =
    | Found(products: seq<Product>, name: Option<string>, category: Option<string>, totalResults: nat)
    | BadRequest(error: string)

  /** Which products a search selects. */
  predicate SearchSelects(name: Option<string>, category: Option<string>, p: Product)
  {
    (Truthy(name) ==> MatchesCaseInsensitive(p.name, name.value)) &&
    (Truthy(category) && category.value != "all" ==> MatchesCaseInsensitive(p.category, category.value))
  }

  /** `GET`: without a truthy `name` or `category` the answer is 400 and no
      query runs. Otherwise the answer holds only selected stored products,
      newest first, at most 100 of them, all of them when fewer than 100 come
      back, none older than a selected product left out, and `totalResults`
      counts them. */
  method Search(db: Store, name: Option<string>, category: Option<string>) returns (resp: SearchResponse)
    ensures resp.BadRequest? <==> !Truthy(name) && !Truthy(category)
    ensures resp.BadRequest? ==> resp.error == MissingParameterMessage
    ensures resp.Found? ==>
      var r := resp.products;
      resp.totalResults == |r| && |r| <= ResultCap && NewestFirst(r) &&
      resp.name == name && resp.category == category &&
      multiset(r) <= multiset(db.products) &&
      (forall p :: p in r ==> p in db.products && SearchSelects(name, category, p)) &&
      (|r| < ResultCap ==> forall p :: p in db.products && SearchSelects(name, category, p) ==> p in r) &&
      (forall p, q :: p in db.products && SearchSelects(name, category, p) && p !in r && q in r ==>
         p.createdAt <= q.createdAt)
  {
    if !Truthy(name) && !Truthy(category) {
      return BadRequest(MissingParameterMessage);
    }
    var query := EmptyQuery;
    if Truthy(name) {
      query := query.(name := Some(name.value));
    }
    if Truthy(category) && category.value != "all" {
      query := query.(category := Some(Pattern(category.value)));
    }
    assert forall p :: Matches(query, p) <==> SearchSelects(name, category, p);
    var found := Find(db.products, query, Some(ResultCap));
    FindLimitedSelects(db.products, query, ResultCap);
    resp := Found(found, name, category, |found|);
  }
}
