/** The arithmetic and state of the products page: the slice of the filtered
    list shown on the current page, the page count, the previous/next clamps,
    the two page-number windows, the "Showing a to b" range, the search URL and
    the effect that decides between a search request and the full list. */
module ProductsPage {
  import opened Common
  import opened Strings
  import opened ProductModel

  const ProductsPerPage := 10

  function Min(a: int, b: int): int { if a <= b then a else b }
  function Max(a: int, b: int): int { if a >= b then a else b }

  // ---------------------------------------------------------------- the current page

  /** `Array.prototype.slice(start, end)`: a negative bound counts from the
      end, every bound is clamped to the length, and an empty range gives []. */
  function JsSlice<T>(s: seq<T>, start: int, end: int): (r: seq<T>)
    ensures var from := if start < 0 then Max(|s| + start, 0) else Min(start, |s|);
      var to := if end < 0 then Max(|s| + end, 0) else Min(end, |s|);
      |r| == Max(to - from, 0) && forall j :: 0 <= j < |r| ==> r[j] == s[from + j]
  {
    var from := if start < 0 then Max(|s| + start, 0) else Min(start, |s|);
    var to := if end < 0 then Max(|s| + end, 0) else Min(end, |s|);
    if from < to then s[from..to] else []
  }

  /** `currentProducts`: the slice from `indexOfFirstProduct` to `indexOfLastProduct`. */
  function CurrentProducts<T>(filtered: seq<T>, page: int): (r: seq<T>)
    ensures |r| <= ProductsPerPage
    ensures page >= 1 ==> forall j :: 0 <= j < |r| ==>
      (page - 1) * ProductsPerPage + j < |filtered| && r[j] == filtered[(page - 1) * ProductsPerPage + j]
  {
    JsSlice(filtered, page * ProductsPerPage - ProductsPerPage, page * ProductsPerPage)
  }

  /** `Math.ceil(length / productsPerPage)`. */
  function TotalPages(length: nat): (total: nat)
    ensures length == 0 ==> total == 0
    ensures length > 0 ==> (total - 1) * ProductsPerPage < length <= total * ProductsPerPage
  {
    (length + ProductsPerPage - 1) / ProductsPerPage
  }

  /** A page shows at most ten products: on page p >= 1 the products at
      positions (p - 1) * 10 up to, not including, min(p * 10, length). */
  lemma PageContents<T>(filtered: seq<T>, page: int)
    requires page >= 1
    ensures var r := CurrentProducts(filtered, page);
      var first := (page - 1) * ProductsPerPage;
      |r| <= ProductsPerPage &&
      |r| == Max(Min(page * ProductsPerPage, |filtered|) - first, 0) &&
      forall j :: 0 <= j < |r| ==> r[j] == filtered[first + j]
  {
  }

  /** Every product is on exactly one page: the one numbered k / 10 + 1, which
      is within the page count, at position k % 10. */
  lemma EveryProductOnItsPage<T>(filtered: seq<T>, k: nat)
    requires k < |filtered|
    ensures var page := k / ProductsPerPage + 1;
      1 <= page <= TotalPages(|filtered|) &&
      k % ProductsPerPage < |CurrentProducts(filtered, page)| &&
      CurrentProducts(filtered, page)[k % ProductsPerPage] == filtered[k]
  {
    var page := k / ProductsPerPage + 1;
    PageContents(filtered, page);
    assert (page - 1) * ProductsPerPage + k % ProductsPerPage == k;
  }

  /** A page within the page count is never empty. */
  lemma PagesWithinCountAreFull<T>(filtered: seq<T>, page: int)
    requires 1 <= page <= TotalPages(|filtered|)
    ensures |CurrentProducts(filtered, page)| >= 1
    ensures page < TotalPages(|filtered|) ==> |CurrentProducts(filtered, page)| == ProductsPerPage
  {
    PageContents(filtered, page);
  }

  /** "Showing a to b of n": a is `indexOfFirstProduct + 1`, b is
      `Math.min(indexOfLastProduct, length)`. */
  function ShowingFrom(page: int): int
  {
    page * ProductsPerPage - ProductsPerPage + 1
  }

  function ShowingTo(page: int, length: nat): int
  {
    Min(page * ProductsPerPage, length)
  }

  /** On a page within the page count the range is the positions, counted
      from 1, of exactly the products the page shows. */
  lemma ShowingMatchesPage<T>(filtered: seq<T>, page: int)
    requires 1 <= page <= TotalPages(|filtered|)
    ensures 1 <= ShowingFrom(page) <= ShowingTo(page, |filtered|) <= |filtered|
    ensures ShowingTo(page, |filtered|) - ShowingFrom(page) + 1 == |CurrentProducts(filtered, page)|
  {
    PageContents(filtered, page);
  }

  // ---------------------------------------------------------------- page-number windows

  /** The page number the desktop controls show at position i. */
  function DesktopPageNumber(current: int, total: int, i: int): int
  {
    if total <= 5 then i + 1
    else if current <= 3 then i + 1
    else if current >= total - 2 then total - 4 + i
    else current - 2 + i
  }

  /** The desktop controls: `Math.min(5, totalPages)` numbers. */
  function DesktopWindow(current: int, total: nat): (w: seq<int>)
    ensures |w| == Min(5, total)
    ensures forall i :: 0 <= i < |w| ==> w[i] == DesktopPageNumber(current, total, i)
  {
    seq(Min(5, total), i requires 0 <= i < Min(5, total) => DesktopPageNumber(current, total, i))
  }

  /** For a current page within the count, the desktop window is min(5, total)
      consecutive page numbers, all within 1..total, one of them the current page. */
  lemma DesktopWindowInRange(current: int, total: nat)
    requires 1 <= current <= total
    ensures var w := DesktopWindow(current, total);
      |w| == Min(5, total) &&
      (forall i :: 0 <= i < |w| ==> 1 <= w[i] <= total) &&
      (forall i :: 0 <= i < |w| - 1 ==> w[i + 1] == w[i] + 1) &&
      current in w
  {
    var w := DesktopWindow(current, total);
    var i := current - DesktopPageNumber(current, total, 0);
    assert 0 <= i < |w| && w[i] == current;
  }

  /** The page number the mobile controls consider at position i. */
  function MobilePageNumber(current: int, total: int, i: int): int
  {
    if current <= 2 then i + 1
    else if current >= total - 1 then total - 2 + i
    else current - 1 + i
  }

  /** The numbers among the first n candidates that the mobile controls render:
      those between 1 and the page count. */
  function MobileRendered(current: int, total: nat, n: nat): (w: seq<int>)
    ensures |w| <= n
    ensures forall k :: 0 <= k < |w| ==> 1 <= w[k] <= total
    ensures forall i :: 0 <= i < n && 1 <= MobilePageNumber(current, total, i) <= total ==>
      MobilePageNumber(current, total, i) in w
    ensures forall x :: x in w ==> exists i :: 0 <= i < n && x == MobilePageNumber(current, total, i)
    decreases n
  {
    if n == 0 then []
    else
      var p := MobilePageNumber(current, total, n - 1);
      var rest := MobileRendered(current, total, n - 1);
      if 1 <= p <= total then rest + [p] else rest
  }

  /** The mobile controls: of `Math.min(3, totalPages)` candidates, those in range. */
  function MobileWindow(current: int, total: nat): (w: seq<int>)
    ensures |w| <= 3
    ensures forall k :: 0 <= k < |w| ==> 1 <= w[k] <= total
  {
    MobileRendered(current, total, Min(3, total))
  }

  /** The mobile window renders at most three numbers, all within 1..total,
      and for a current page within the count one of them is the current page. */
  lemma MobileWindowInRange(current: int, total: nat)
    ensures var w := MobileWindow(current, total);
      |w| <= 3 && (forall k :: 0 <= k < |w| ==> 1 <= w[k] <= total) &&
      (1 <= current <= total ==> current in w)
  {
    if 1 <= current <= total {
      var i := current - MobilePageNumber(current, total, 0);
      assert 0 <= i < Min(3, total) && MobilePageNumber(current, total, i) == current;
    }
  }

  // ---------------------------------------------------------------- the search URL

  /** The characters `encodeURIComponent` leaves as they are. */
  predicate Unreserved(c: char)
  {
    'A' <= c <= 'Z' || 'a' <= c <= 'z' || '0' <= c <= '9' ||
    c == '-' || c == '_' || c == '.' || c == '!' || c == '~' || c == '*' || c == '\'' || c == '(' || c == ')'
  }

  predicate UpperHexDigit(c: char)
  {
    '0' <= c <= '9' || 'A' <= c <= 'F'
  }

  /** The value an upper-case hexadecimal digit denotes. */
  function HexValue(c: char): nat
  {
    if '0' <= c <= '9' then c as int - '0' as int
    else if 'A' <= c <= 'F' then c as int - 'A' as int + 10
    else 0
  }

  function HexDigit(d: nat): (c: char)
    requires d < 16
    ensures UpperHexDigit(c) && HexValue(c) == d
  {
    if d < 10 then ('0' as int + d) as char else ('A' as int + d - 10) as char
  }

  /** `%XX` for one byte: the two upper-case hex digits denote the byte. */
  function PercentByte(b: nat): (s: string)
    requires b < 256
    ensures |s| == 3 && s[0] == '%' && UpperHexDigit(s[1]) && UpperHexDigit(s[2])
    ensures 16 * HexValue(s[1]) + HexValue(s[2]) == b
  {
    ['%', HexDigit(b / 16), HexDigit(b % 16)]
  }

  /** `s` is the `%XX` escapes of `bytes`, one after the other. */
  predicate Escapes(s: string, bytes: seq<nat>)
  {
    |s| == 3 * |bytes| &&
    forall k :: 0 <= k < |bytes| ==>
      s[3 * k] == '%' && UpperHexDigit(s[3 * k + 1]) && UpperHexDigit(s[3 * k + 2]) &&
      16 * HexValue(s[3 * k + 1]) + HexValue(s[3 * k + 2]) == bytes[k]
  }

  /** The UTF-8 bytes of a code point; an ASCII character is its own byte. */
  function Utf8(c: char): (bytes: seq<nat>)
    ensures 1 <= |bytes| <= 4
    ensures forall k :: 0 <= k < |bytes| ==> bytes[k] < 256
    ensures c as int < 0x80 ==> bytes == [c as int]
  {
    var n := c as int;
    if n < 0x80 then [n]
    else if n < 0x800 then [0xC0 + n / 0x40, 0x80 + n % 0x40]
    else if n < 0x1_0000 then [0xE0 + n / 0x1000, 0x80 + n / 0x40 % 0x40, 0x80 + n % 0x40]
    else [0xF0 + n / 0x4_0000, 0x80 + n / 0x1000 % 0x40, 0x80 + n / 0x40 % 0x40, 0x80 + n % 0x40]
  }

  /** A character of an encoded component: unreserved, '%' or a hex digit. */
  predicate Encoded(c: char)
  {
    Unreserved(c) || c == '%'
  }

  /** Every character of a string is one an encoded component may hold. */
  predicate AllEncoded(s: string)
  {
    forall c :: c in s ==> Encoded(c)
  }

  function PercentBytes(bytes: seq<nat>): (s: string)
    requires forall k :: 0 <= k < |bytes| ==> bytes[k] < 256
    ensures |s| == 3 * |bytes|
    ensures AllEncoded(s)
    decreases |bytes|
  {
    if bytes == [] then [] else PercentByte(bytes[0]) + PercentBytes(bytes[1..])
  }

  /** The escapes `PercentBytes` writes denote the bytes it is given. */
  lemma {:induction false} PercentBytesEscape(bytes: seq<nat>)
    requires forall k :: 0 <= k < |bytes| ==> bytes[k] < 256
    ensures Escapes(PercentBytes(bytes), bytes)
    decreases |bytes|
  {
    if bytes != [] {
      var s := PercentBytes(bytes);
      var head := PercentByte(bytes[0]);
      var rest := bytes[1..];
      PercentBytesEscape(rest);
      assert s == head + PercentBytes(rest);
      forall k | 0 <= k < |bytes|
        ensures s[3 * k] == '%' && UpperHexDigit(s[3 * k + 1]) && UpperHexDigit(s[3 * k + 2]) &&
          16 * HexValue(s[3 * k + 1]) + HexValue(s[3 * k + 2]) == bytes[k]
      {
        if k > 0 {
          assert rest[k - 1] == bytes[k];
          assert s[3 * k] == PercentBytes(rest)[3 * (k - 1)];
          assert s[3 * k + 1] == PercentBytes(rest)[3 * (k - 1) + 1];
          assert s[3 * k + 2] == PercentBytes(rest)[3 * (k - 1) + 2];
        }
      }
    }
  }

  /** One character of `encodeURIComponent`: an unreserved character stays as
      it is; any other becomes '%' escapes and hex digits. */
  function EncodeChar(c: char): (s: string)
    ensures |s| >= 1
    ensures AllEncoded(s)
    ensures Unreserved(c) <==> s == [c]
  {
    if Unreserved(c) then [c] else PercentBytes(Utf8(c))
  }

  /** A character that is not unreserved is encoded as the `%XX` escapes of
      its UTF-8 bytes, one escape per byte. */
  lemma EncodeCharEscapes(c: char)
    requires !Unreserved(c)
    ensures Escapes(EncodeChar(c), Utf8(c))
  {
    PercentBytesEscape(Utf8(c));
  }

  /** `encodeURIComponent`: unreserved characters stay, every other character
      becomes the `%XX` escapes of its UTF-8 bytes. The result is empty exactly
      when the input is, and holds neither '&' nor '='. */
  function EncodeUriComponent(s: string): (r: string)
    ensures r == [] <==> s == []
    ensures AllEncoded(r)
    ensures '&' !in r && '=' !in r
    decreases |s|
  {
    if s == [] then [] else EncodeChar(s[0]) + EncodeUriComponent(s[1..])
  }

  const SearchPath := "/api/products/search?"

  /** The category filters a search when it is truthy and not 'all'. */
  predicate FiltersCategory(category: string)
  {
    category != "" && category != "all"
  }

  /** The `name=` parameter when the term is not empty. */
  function NameParam(term: string): string
  {
    if term != "" then "name=" + EncodeUriComponent(term) else ""
  }

  /** The `category=` parameter, behind a '&' when a name parameter precedes it. */
  function CategoryParam(term: string, category: string): string
  {
    if !FiltersCategory(category) then ""
    else if term != "" then "&category=" + EncodeUriComponent(category)
    else "category=" + EncodeUriComponent(category)
  }

  /** The search URL: the search path followed by the parameters, and the bare
      path exactly when there is neither a term nor a category filter. */
  function SearchUrl(term: string, category: string): (url: string)
    ensures |SearchPath| <= |url| && url[..|SearchPath|] == SearchPath
    ensures url == SearchPath <==> term == "" && !FiltersCategory(category)
  {
    SearchPath + NameParam(term) + CategoryParam(term, category)
  }

  /** `searchProducts` building its URL by `+=`. */
  method BuildSearchUrl(searchTerm: string, category: string) returns (url: string)
    ensures url == SearchUrl(searchTerm, category)
  {
    url := SearchPath;
    if searchTerm != "" {
      url := url + ("name=" + EncodeUriComponent(searchTerm));
    }
    assert url == SearchPath + NameParam(searchTerm);
    if category != "" && category != "all" {
      url := url + (if searchTerm != "" then "&category=" + EncodeUriComponent(category)
                    else "category=" + EncodeUriComponent(category));
    }
  }

  /** The string split at every occurrence of a separator, as `split(sep)`. */
  function Split(s: string, sep: char): (parts: seq<string>)
    ensures |parts| >= 1
    decreases |s|
  {
    if s == [] then [""]
    else if s[0] == sep then [""] + Split(s[1..], sep)
    else
      var rest := Split(s[1..], sep);
      [[s[0]] + rest[0]] + rest[1..]
  }

  lemma {:induction false} SplitWithout(s: string, sep: char)
    requires sep !in s
    ensures Split(s, sep) == [s]
    decreases |s|
  {
    if s != [] {
      SplitWithout(s[1..], sep);
      assert [s[0]] + s[1..] == s;
    }
  }

  lemma {:induction false} SplitAt(a: string, sep: char, b: string)
    requires sep !in a
    ensures Split(a + [sep] + b, sep) == [a] + Split(b, sep)
    decreases |a|
  {
    var s := a + [sep] + b;
    if a == [] {
      assert s[1..] == b;
    } else {
      assert s[1..] == a[1..] + [sep] + b;
      SplitAt(a[1..], sep, b);
      assert [a[0]] + a[1..] == a;
    }
  }

  /** The query string of the search URL: what follows the '?'. */
  function SearchQuery(term: string, category: string): (q: string)
    ensures SearchUrl(term, category) == SearchPath + q
  {
    NameParam(term) + CategoryParam(term, category)
  }

  /** The parameters a search is meant to send, in order. */
  function ExpectedParams(term: string, category: string): seq<string>
  {
    (if term != "" then ["name=" + EncodeUriComponent(term)] else []) +
    (if FiltersCategory(category) then ["category=" + EncodeUriComponent(category)] else [])
  }

  lemma ParamsHaveNoSeparator(term: string, category: string)
    ensures '&' !in "name=" + EncodeUriComponent(term)
    ensures '&' !in "category=" + EncodeUriComponent(category)
  {
    assert '&' !in "name=";
    assert '&' !in "category=";
  }

  /** Two pieces without the separator, joined by it, split back into the two. */
  lemma SplitTwo(a: string, sep: char, b: string)
    requires sep !in a && sep !in b
    ensures Split(a + [sep] + b, sep) == [a, b]
  {
    SplitAt(a, sep, b);
    SplitWithout(b, sep);
  }

  lemma BothQuery(term: string, category: string)
    requires term != "" && FiltersCategory(category)
    ensures SearchQuery(term, category) ==
      ("name=" + EncodeUriComponent(term)) + ['&'] + ("category=" + EncodeUriComponent(category))
  {
    var key: string := "category=";
    assert "&category=" == ['&'] + key;
    Associative(['&'], key, EncodeUriComponent(category));
    Associative("name=" + EncodeUriComponent(term), ['&'], key + EncodeUriComponent(category));
  }

  lemma Associative(a: string, b: string, c: string)
    ensures a + b + c == a + (b + c)
  {
  }

  lemma BothParameters(term: string, category: string)
    requires term != "" && FiltersCategory(category)
    ensures Split(SearchQuery(term, category), '&') == ExpectedParams(term, category)
    ensures '&' in SearchQuery(term, category)
  {
    ParamsHaveNoSeparator(term, category);
    BothQuery(term, category);
    SplitTwo("name=" + EncodeUriComponent(term), '&', "category=" + EncodeUriComponent(category));
  }

  lemma NameParameterOnly(term: string, category: string)
    requires term != "" && !FiltersCategory(category)
    ensures Split(SearchQuery(term, category), '&') == ExpectedParams(term, category)
    ensures '&' !in SearchQuery(term, category)
  {
    ParamsHaveNoSeparator(term, category);
    assert SearchQuery(term, category) == "name=" + EncodeUriComponent(term);
    SplitWithout("name=" + EncodeUriComponent(term), '&');
  }

  lemma CategoryParameterOnly(term: string, category: string)
    requires term == "" && FiltersCategory(category)
    ensures Split(SearchQuery(term, category), '&') == ExpectedParams(term, category)
    ensures '&' !in SearchQuery(term, category)
  {
    ParamsHaveNoSeparator(term, category);
    assert SearchQuery(term, category) == "category=" + EncodeUriComponent(category);
    SplitWithout("category=" + EncodeUriComponent(category), '&');
  }

  /** The query of the search URL read back as parameters: nothing at all when
      neither the term nor the category filters; otherwise `name=` exactly when
      the term is not empty and `category=` exactly when the category is
      neither empty nor 'all', in that order; and a '&' exactly when both are
      there. */
  lemma SearchUrlParameters(term: string, category: string)
    ensures SearchUrl(term, category)[..|SearchPath|] == SearchPath
    ensures term == "" && !FiltersCategory(category) ==> SearchQuery(term, category) == ""
    ensures term != "" || FiltersCategory(category) ==>
      Split(SearchQuery(term, category), '&') == ExpectedParams(term, category)
    ensures '&' in SearchQuery(term, category) <==> term != "" && FiltersCategory(category)
  {
    if term != "" && FiltersCategory(category) {
      BothParameters(term, category);
    } else if term != "" {
      NameParameterOnly(term, category);
    } else if FiltersCategory(category) {
      CategoryParameterOnly(term, category);
    }
  }

  // ---------------------------------------------------------------- page state

  /** The state the page keeps about the product list. */
  class PageState {
    var products: seq<Product>
    var filteredProducts: seq<Product>
    var searchTerm: string
    var selectedCategory: string
    var currentPage: int

    /** The current page is one of the pages of the filtered list (page 1
        while the list is empty). */
    predicate Valid()
      reads this
    {
      1 <= currentPage <= Max(1, TotalPages(|filteredProducts|))
    }

    /** The initial state: no products, no search, page 1. */
    constructor ()
      ensures Valid()
      ensures products == [] && filteredProducts == [] && searchTerm == "" && selectedCategory == "all"
      ensures currentPage == 1
    {
      products, filteredProducts := [], [];
      searchTerm, selectedCategory := "", "all";
      currentPage := 1;
    }

    function PageCount(): nat
      reads this
    {
      TotalPages(|filteredProducts|)
    }

    /** `goToPage`: jumps to the page given; a page of the list keeps the state valid. */
    method GoToPage(pageNumber: int)
      modifies this
      ensures currentPage == pageNumber
      ensures products == old(products) && filteredProducts == old(filteredProducts)
      ensures searchTerm == old(searchTerm) && selectedCategory == old(selectedCategory)
      ensures Valid() <==> 1 <= pageNumber <= Max(1, PageCount())
    {
      currentPage := pageNumber;
    }

    /** `goToNextPage`: one page on, unless already on the last page. */
    method GoToNextPage()
      requires Valid()
      modifies this
      ensures Valid()
      ensures currentPage == if old(currentPage) < PageCount() then old(currentPage) + 1 else old(currentPage)
      ensures products == old(products) && filteredProducts == old(filteredProducts)
      ensures searchTerm == old(searchTerm) && selectedCategory == old(selectedCategory)
    {
      if currentPage < PageCount() {
        currentPage := currentPage + 1;
      }
    }

    /** `goToPreviousPage`: one page back, unless already on page 1. */
    method GoToPreviousPage()
      requires Valid()
      modifies this
      ensures Valid()
      ensures currentPage == if old(currentPage) > 1 then old(currentPage) - 1 else old(currentPage)
      ensures products == old(products) && filteredProducts == old(filteredProducts)
      ensures searchTerm == old(searchTerm) && selectedCategory == old(selectedCategory)
    {
      if currentPage > 1 {
        currentPage := currentPage - 1;
      }
    }

    /** The filter effect: with a search term or a category other than 'all'
        it issues the search request (its URL returned) and changes nothing
        yet; otherwise the full list is shown from page 1. */
    method FilterEffect() returns (request: Option<string>)
      requires Valid()
      modifies this
      ensures Valid()
      ensures searchTerm != "" || selectedCategory != "all" ==>
        request == Some(SearchUrl(searchTerm, selectedCategory)) &&
        filteredProducts == old(filteredProducts) && currentPage == old(currentPage)
      ensures searchTerm == "" && selectedCategory == "all" ==>
        request == None && filteredProducts == products && currentPage == 1
      ensures products == old(products) && searchTerm == old(searchTerm) && selectedCategory == old(selectedCategory)
    {
      if searchTerm != "" || selectedCategory != "all" {
        var url := BuildSearchUrl(searchTerm, selectedCategory);
        request := Some(url);
      } else {
        filteredProducts := products;
        currentPage := 1;
        request := None;
      }
    }

    /** A successful search response: its products become the filtered list, from page 1. */
    method SearchSucceeded(found: seq<Product>)
      modifies this
      ensures Valid()
      ensures filteredProducts == found && currentPage == 1
      ensures products == old(products) && searchTerm == old(searchTerm) && selectedCategory == old(selectedCategory)
    {
      filteredProducts := found;
      currentPage := 1;
    }

    /** `clearSearch`: no term, category 'all', the full list from page 1. */
    method ClearSearch()
      modifies this
      ensures Valid()
      ensures searchTerm == "" && selectedCategory == "all"
      ensures filteredProducts == products && currentPage == 1
      ensures products == old(products)
    {
      searchTerm := "";
      selectedCategory := "all";
      filteredProducts := products;
      currentPage := 1;
    }

    /** A successful `fetchProducts`: the full list is replaced and nothing
        else; the filter effect, which depends on it, runs next. */
    method ProductsFetched(fetched: seq<Product>)
      requires Valid()
      modifies this
      ensures Valid()
      ensures products == fetched
      ensures filteredProducts == old(filteredProducts) && currentPage == old(currentPage)
      ensures searchTerm == old(searchTerm) && selectedCategory == old(selectedCategory)
    {
      products := fetched;
    }

    /** Typing in the search box: only the term changes; the filter effect
        runs next. */
    method SetSearchTerm(term: string)
      requires Valid()
      modifies this
      ensures Valid()
      ensures searchTerm == term
      ensures products == old(products) && filteredProducts == old(filteredProducts)
      ensures selectedCategory == old(selectedCategory) && currentPage == old(currentPage)
    {
      searchTerm := term;
    }

    /** Picking a category: only the category changes; the filter effect
        runs next. */
    method SetSelectedCategory(category: string)
      requires Valid()
      modifies this
      ensures Valid()
      ensures selectedCategory == category
      ensures products == old(products) && filteredProducts == old(filteredProducts)
      ensures searchTerm == old(searchTerm) && currentPage == old(currentPage)
    {
      selectedCategory := category;
    }
  }

  /** Every button of either window, and the first and last page buttons of
      the mobile controls, go to a page of the list. */
  lemma WindowTargetsAreValid(current: int, total: nat, target: int)
    requires target in DesktopWindow(current, total) || target in MobileWindow(current, total) ||
             (total >= 1 && (target == 1 || target == total))
    requires 1 <= current <= total
    ensures 1 <= target <= Max(1, total)
  {
    DesktopWindowInRange(current, total);
    MobileWindowInRange(current, total);
  }
}
