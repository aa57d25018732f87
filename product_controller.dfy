/**
 * The product REST handlers: list all, create, search. The products table
 * is an in-memory sequence of rows with a serial id counter; whether the
 * database call fails, and the clock that stamps `created_at`, are inputs.
 */
module ProductController {
  import opened Wrappers
  import opened Text
  import opened Sorting
  import opened SqlLike

  /**
   * A value of the JSON request body, as the handler sees it; numbers are in
   * hundredths, and `Compound` is an array or an object, whatever it holds.
   */
  datatype Value = Missing | Null | Str(s: string) | Num(hundredths: int) | Bool(b: bool) | Compound

  /** JavaScript falsiness, for the values a JSON body can carry. */
  predicate Falsy(v: Value) {
    v == Missing || v == Null || v == Str("") || v == Num(0) || v == Bool(false)
  }

  /** A row of the products table: the values as inserted, the serial id and the insert time. */
  datatype Row = Row(
    id: nat,
    name: Value,
    price: Value,
    description: Value,
    imageUrl: Value,
    createdAt: int)

  datatype Body = Products(rows: seq<Row>) | Created(row: Row) | Failure(error: string)

  datatype Response = Response(status: int, body: Body)

  const RequiredFieldsMessage := "Name, price, and description are required"
  const SearchTermMessage := "Search term is required"
  const ServerErrorMessage := "Internal server error"

  /** What every handler answers when the database call throws, whatever the error says. */
  function ServerError(): Response {
    Response(500, Failure(ServerErrorMessage))
  }

  /** The value a column receives: the driver sends a missing value as NULL. */
  function Stored(v: Value): (r: Value)
    ensures r != Missing
    ensures v != Missing ==> r == v
  {
    if v == Missing then Null else v
  }

  /** `!name || !price || !description`. */
  predicate MissingRequiredField(name: Value, price: Value, description: Value) {
    Falsy(name) || Falsy(price) || Falsy(description)
  }

  /** `ORDER BY created_at DESC`: `a` may come before `b`. */
  function NewerOrSame(a: Row, b: Row): bool {
    a.createdAt >= b.createdAt
  }

  /** The rows in `ORDER BY created_at DESC` order. */
  function NewestFirst(rows: seq<Row>): (r: seq<Row>)
    ensures multiset(r) == multiset(rows) && |r| == |rows|
    ensures forall i, j :: 0 <= i < j < |r| ==> r[i].createdAt >= r[j].createdAt
  {
    SortBySortsPermutation(NewerOrSame, rows);
    SortBy(NewerOrSame, rows)
  }

  /** The text PostgreSQL compares for a column; only string values are matched here. */
  function ColumnText(v: Value): Option<string> {
    if v.Str? then Some(v.s) else None
  }

  /** `name ILIKE pattern OR description ILIKE pattern`. */
  predicate RowMatches(row: Row, pattern: string) {
    (ColumnText(row.name).Some? && ILike(ColumnText(row.name).value, pattern))
    || (ColumnText(row.description).Some? && ILike(ColumnText(row.description).value, pattern))
  }

  /** The rows satisfying the WHERE clause, in table order. */
  function Where(rows: seq<Row>, pattern: string): (r: seq<Row>)
    ensures forall x :: multiset(r)[x] == if RowMatches(x, pattern) then multiset(rows)[x] else 0
    ensures forall x :: x in r <==> x in rows && RowMatches(x, pattern)
    ensures |r| <= |rows|
  {
    if rows == [] then []
    else
      assert rows == [rows[0]] + rows[1..];
      (if RowMatches(rows[0], pattern) then [rows[0]] else []) + Where(rows[1..], pattern)
  }

  /** The products table together with the three handlers that use it. */
  class ProductStore {
    var rows: seq<Row>
    var nextId: nat

    /** Serial ids: every stored id is below the next one, and ids grow in insertion order. */
    ghost predicate Valid()
      reads this
    {
      && (forall i :: 0 <= i < |rows| ==> rows[i].id < nextId)
      && (forall i, j :: 0 <= i < j < |rows| ==> rows[i].id < rows[j].id)
    }

    /** An empty table whose serial sequence starts at 1. */
    constructor ()
      ensures Valid() && rows == [] && nextId == 1
    {
      rows, nextId := [], 1;
    }

    /** `SELECT * FROM products ORDER BY created_at DESC`. */
    function SelectAll(): (r: seq<Row>)
      reads this
      ensures multiset(r) == multiset(rows) && |r| == |rows|
      ensures forall i, j :: 0 <= i < j < |r| ==> r[i].createdAt >= r[j].createdAt
    {
      NewestFirst(rows)
    }

    /** `SELECT * FROM products WHERE name ILIKE p OR description ILIKE p ORDER BY created_at DESC`. */
    function SelectMatching(pattern: string): (r: seq<Row>)
      reads this
      ensures forall x :: multiset(r)[x] == if RowMatches(x, pattern) then multiset(rows)[x] else 0
      ensures forall x :: x in r <==> x in rows && RowMatches(x, pattern)
      ensures forall i, j :: 0 <= i < j < |r| ==> r[i].createdAt >= r[j].createdAt
    {
      var matching := Where(rows, pattern);
      assert forall x :: x in NewestFirst(matching) <==> x in multiset(matching);
      NewestFirst(matching)
    }

    /** `INSERT ... RETURNING *`: one new row with the next serial id, stamped `now`; a missing value is stored as NULL. */
    method Insert(name: Value, price: Value, description: Value, imageUrl: Value, now: int) returns (row: Row)
      requires Valid()
      modifies this
      ensures Valid()
      ensures row == Row(old(nextId), Stored(name), Stored(price), Stored(description), Stored(imageUrl), now)
      ensures rows == old(rows) + [row] && nextId == old(nextId) + 1
      ensures forall r :: r in old(rows) ==> r.id != row.id
    {
      row := Row(nextId, Stored(name), Stored(price), Stored(description), Stored(imageUrl), now);
      rows := rows + [row];
      nextId := nextId + 1;
    }

    /** `getAllProducts`: every product, newest first; `failure` is the database error, if any. */
    method GetAllProducts(failure: Option<string>) returns (res: Response)
      ensures failure.Some? ==> res == ServerError()
      ensures failure.None? ==> res.status == 200 && res.body.Products?
      ensures failure.None? ==> multiset(res.body.rows) == multiset(rows)
      ensures failure.None? ==> forall i, j :: 0 <= i < j < |res.body.rows| ==> res.body.rows[i].createdAt >= res.body.rows[j].createdAt
    {
      if failure.Some? {
        return ServerError();
      }
      var result := SelectAll();
      return Response(200, Products(result));
    }

    /**
     * `createProduct`: 400 before touching the table when a required field
     * is falsy; otherwise one insert, answered 201 with the stored row, or
     * 500 with nothing stored when the database call fails.
     */
    method CreateProduct(name: Value, price: Value, description: Value, imageUrl: Value,
                         failure: Option<string>, now: int) returns (res: Response)
      requires Valid()
      modifies this
      ensures Valid()
      ensures MissingRequiredField(name, price, description) ==>
        res == Response(400, Failure(RequiredFieldsMessage)) && rows == old(rows) && nextId == old(nextId)
      ensures !MissingRequiredField(name, price, description) && failure.Some? ==>
        res == ServerError() && rows == old(rows) && nextId == old(nextId)
      ensures !MissingRequiredField(name, price, description) && failure.None? ==>
        var row := Row(old(nextId), name, price, description, Stored(imageUrl), now);
        && res == Response(201, Created(row))
        && rows == old(rows) + [row] && nextId == old(nextId) + 1
        && (forall r :: r in old(rows) ==> r.id != row.id)
    {
      if MissingRequiredField(name, price, description) {
        return Response(400, Failure(RequiredFieldsMessage));
      }
      if failure.Some? {
        return ServerError();
      }
      var row := Insert(name, price, description, imageUrl, now);
      return Response(201, Created(row));
    }

    /**
     * `searchProducts`: 400 for a missing or empty term before any query;
     * otherwise the rows whose name or description is `ILIKE '%term%'`,
     * newest first, with the term's own `%`, `_` and `\` left active.
     */
    method SearchProducts(term: Option<string>, failure: Option<string>) returns (res: Response)
      ensures term == None || term == Some("") ==> res == Response(400, Failure(SearchTermMessage))
      ensures term.Some? && term.value != "" && failure.Some? ==> res == ServerError()
      ensures term.Some? && term.value != "" && failure.None? ==>
        && res.status == 200 && res.body.Products?
        && (forall x :: multiset(res.body.rows)[x] ==
              if RowMatches(x, SearchPattern(term.value)) then multiset(rows)[x] else 0)
        && (forall x :: x in res.body.rows <==> x in rows && RowMatches(x, SearchPattern(term.value)))
        && (forall i, j :: 0 <= i < j < |res.body.rows| ==> res.body.rows[i].createdAt >= res.body.rows[j].createdAt)
    {
      if term == None || term == Some("") {
        return Response(400, Failure(SearchTermMessage));
      }
      if failure.Some? {
        return ServerError();
      }
      var result := SelectMatching(SearchPattern(term.value));
      return Response(200, Products(result));
    }
  }

  /** For a term without wildcards, a row is found exactly when its name or description contains the term, ignoring case. */
  lemma SearchIsCaseInsensitiveSubstring(row: Row, term: string)
    requires Plain(term)
    ensures RowMatches(row, SearchPattern(term)) <==>
      (row.name.Str? && Contains(Lower(row.name.s), Lower(term)))
      || (row.description.Str? && Contains(Lower(row.description.s), Lower(term)))
  {
    if row.name.Str? {
      SearchPatternIsSubstring(row.name.s, term);
    }
    if row.description.Str? {
      SearchPatternIsSubstring(row.description.s, term);
    }
  }

  /**
   * A product created with every required field and then listed comes back
   * with the submitted name, price and description, the image URL (NULL when
   * it was left out) and a new id.
   */
  method CreateThenList(name: Value, price: Value, description: Value, imageUrl: Value, now: int)
    returns (created: Response, listed: Response)
    requires !MissingRequiredField(name, price, description)
    ensures created.status == 201 && created.body.Created?
    ensures created.body.row.name == name && created.body.row.price == price
    ensures created.body.row.description == description
    ensures created.body.row.imageUrl == if imageUrl == Missing then Null else imageUrl
    ensures listed.status == 200 && listed.body.Products? && listed.body.rows == [created.body.row]
  {
    var store := new ProductStore();
    created := store.CreateProduct(name, price, description, imageUrl, None, now);
    listed := store.GetAllProducts(None);
    assert multiset(listed.body.rows) == multiset{created.body.row};
    assert |listed.body.rows| == 1;
    assert listed.body.rows[0] in multiset(listed.body.rows);
  }
}
