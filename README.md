# Mini e-commerce catalogue, modelled in Dafny

This project models the two pieces of the catalogue application that carry
logic:

- **The catalogue page** (`ProductsList.jsx`). It holds the products fetched
  from the backend and filters them with a contextual keyword search. The query
  is lower-cased and split on whitespace into keywords. A product stays when a
  keyword occurs in its lower-cased name or description, or when a keyword is
  one of 19 intent words ("sit", "cook", "cheap", ...) and one of that word's
  related terms occurs there. The page sorts what it shows by one of five keys.
  Its handlers (fetch, search, Enter key, input change, the two clear buttons,
  the sort selector) update the component state.
- **The REST handlers** (`productController.js`). `getAllProducts` lists every
  product, newest first. `createProduct` answers 400 when `name`, `price` or
  `description` is falsy, and otherwise inserts one row and answers 201 with it.
  `searchProducts` answers 400 for a missing or empty `term`, and otherwise
  returns the rows whose name or description is `ILIKE '%term%'`, newest first.
  Any database error becomes a 500 with the fixed body
  `{error: 'Internal server error'}`.

Modules:

| file | module | what it holds |
|---|---|---|
| `wrappers.dfy` | `Wrappers` | `Option` |
| `text.dfy` | `Text` | ASCII `toLowerCase`, `trim()`-blankness, `includes`, `split(/\s+/)`, character-code order |
| `sorting.dfy` | `Sorting` | a stable insertion sort of a copy, by a comparison, with its permutation and order lemmas |
| `sql_like.dfy` | `SqlLike` | PostgreSQL `ILIKE` with `%`, `_` and the default backslash escape |
| `products_list.dfy` | `ProductsList` | the page: intent-word table, search, sort, and the state class `ProductsListState` |
| `product_controller.dfy` | `ProductController` | request values and falsiness, the table rows, and the class `ProductStore` with the three handlers |

Two things the handlers' own comments and the table schema do not say:

- The comment on the search query in
  `backend/src/controllers/productController.js` (line 46) calls it a
  case-insensitive search. The code puts the term into `'%term%'` without
  escaping it, so `%`, `_` and `\` in the term keep their `ILIKE` meaning.
  `SqlLike.SearchPatternIsSubstring` proves the substring reading only for
  terms without those characters. `SqlLike.UnderscoreIsAWildcard` and
  `SqlLike.PercentTermMatchesEverything` show where the two readings differ.
- The table declares `name`, `price` and `description` `NOT NULL`
  (`backend/src/db.js`, lines 49-51). The handler's own check is the falsy
  test: it also rejects `''`, `0` and `false`, which the schema would accept,
  and it accepts a name made of one space.

Inputs from outside the model are parameters:

- the fetch response is `Option<seq<Product>>`, with `None` for a failed request;
- a database error is `failure: Option<string>`, where `Some(detail)` means the call threw;
- the insert time is `now`.

The driver sends a missing value as NULL, so a product created without
`imageUrl` is stored and answered with `image_url` NULL.

## Model

| member | source | states |
|---|---|---|
| `ProductsList.CheckContextMatch` | frontend/src/components/ProductsList.jsx:67-128 | returns true exactly when some keyword is a key of the 19-entry table and one of its related terms occurs in the lower-cased name or description |
| `ProductsList.NonIntentWordAddsNoContext` | frontend/src/components/ProductsList.jsx:109-125 | a keyword that is not a key of the table changes nothing about the contextual match |
| `ProductsList.Filter` | frontend/src/components/ProductsList.jsx:47-61 | a product is kept exactly when some keyword is in its lower-cased name or description, or it has a contextual match; each kept product appears as often as in the input |
| `ProductsList.SearchIsSubsequence` | frontend/src/components/ProductsList.jsx:37-63 | the search result is the original list with some products left out, in the original order, and no longer; a blank query gives exactly the original list |
| `ProductsList.SearchMembership` | frontend/src/components/ProductsList.jsx:44-61 | for a non-blank query, a product is in the result exactly when it is an original product matching one of the query's keywords by name, by description or by context |
| `ProductsList.FilterMonotone` | frontend/src/components/ProductsList.jsx:48-58 | with a superset of keywords the filter keeps every product it kept before, in the same order |
| `ProductsList.ExtendingQueryKeepsResults` | frontend/src/components/ProductsList.jsx:38-61 | appending a space and more words to a query (with no whitespace at the seam) loses no product and keeps the order |
| `ProductsList.EdgeWhitespaceShowsEverything` | frontend/src/components/ProductsList.jsx:38-50 | a query that starts or ends with whitespace has an empty keyword, and every product is shown |
| `ProductsList.NeedToSitFindsTheSofa` | frontend/src/components/ProductsList.jsx:44-71 | "need to sit" over a sofa and a desk lamp finds exactly the sofa, through the intent word "sit" |
| `ProductsList.SortProducts` | frontend/src/components/ProductsList.jsx:147-162 | the result is a permutation of the input. It is ordered by non-increasing `created_at` for `newest`, non-decreasing for `oldest`, non-increasing price for `price-high`, non-decreasing for `price-low`, and by name for `name`. Any other option returns the input itself |
| `ProductsList.ProductsListState.constructor` | frontend/src/components/ProductsList.jsx:8-14 | starts with no products, an empty search term and error, and the `newest` sort |
| `ProductsList.ProductsListState.FetchProducts` | frontend/src/components/ProductsList.jsx:16-30 | on success both `products` and `originalProducts` become the data and the error is cleared; on failure only the error message is set |
| `ProductsList.ProductsListState.PerformContextualSearch` | frontend/src/components/ProductsList.jsx:37-64 | `products` becomes the search result over `originalProducts`; a blank query sets it to exactly `originalProducts`; what is shown stays a subsequence of what was fetched |
| `ProductsList.ProductsListState.HandleSearch` | frontend/src/components/ProductsList.jsx:130-132 | searches for the current search term |
| `ProductsList.ProductsListState.HandleKeyPress` | frontend/src/components/ProductsList.jsx:141-145 | Enter searches for the current term; any other key changes nothing |
| `ProductsList.ProductsListState.HandleSearchChange` | frontend/src/components/ProductsList.jsx:134-139 | records the input; an empty input resets `products` to `originalProducts`, a non-empty one leaves `products` alone |
| `ProductsList.ProductsListState.ClearSearch` | frontend/src/components/ProductsList.jsx:261-264 | both clear buttons (also lines 299-302) empty the search term and show `originalProducts` |
| `ProductsList.ProductsListState.SetSortOption` | frontend/src/components/ProductsList.jsx:218 | the selector sets the sort option |
| `ProductsList.ProductsListState.SortedProducts` | frontend/src/components/ProductsList.jsx:164 | what is rendered is a permutation of `products`, ordered by the selected key for each of the five options and unchanged for any other; the state is not reordered |
| `Text.SplitKeepsEveryOtherCharacter` | frontend/src/components/ProductsList.jsx:44 | the keywords, joined back, are the query without its whitespace |
| `Text.SplitPiecesHaveNoSpace` | frontend/src/components/ProductsList.jsx:44 | no keyword holds whitespace |
| `Text.SplitFirstEmpty` | frontend/src/components/ProductsList.jsx:44 | the first keyword is empty exactly when the query is empty or starts with whitespace |
| `Text.SplitLastEmpty` | frontend/src/components/ProductsList.jsx:44 | the last keyword is empty exactly when the query is empty or ends with whitespace |
| `Text.SplitInnerPiecesNonEmpty` | frontend/src/components/ProductsList.jsx:44 | every keyword between the first and the last is non-empty |
| `Text.SplitJoin` | frontend/src/components/ProductsList.jsx:44 | two texts joined by one space split into the keywords of the first followed by those of the second, when no whitespace meets the seam |
| `Sorting.SortBySortsPermutation` | frontend/src/components/ProductsList.jsx:150-158 | sorting a copy by a total, transitive comparison gives an ordered permutation of the same length |
| `Sorting.SortByKeepsSorted` | frontend/src/components/ProductsList.jsx:150-158 | a list already in order comes back unchanged |
| `SqlLike.SearchPatternIsSubstring` | backend/src/controllers/productController.js:47-51 | for a term without `%`, `_` or `\`, `ILIKE '%term%'` holds exactly when the lower-cased text contains the lower-cased term |
| `SqlLike.UnderscoreIsAWildcard` | backend/src/controllers/productController.js:51 | the unescaped term "c_air" finds "Office Chair", which does not contain "c_air" |
| `SqlLike.PercentTermMatchesEverything` | backend/src/controllers/productController.js:51 | the term "%" matches every text |
| `ProductController.NewestFirst` | backend/src/controllers/productController.js:7 | `ORDER BY created_at DESC` gives a permutation of the rows with non-increasing `created_at` |
| `ProductController.Where` | backend/src/controllers/productController.js:48-49 | a row is selected exactly when it is stored and its name or description is `ILIKE` the pattern, and it appears exactly as often as it is stored |
| `ProductController.ProductStore.constructor` | backend/src/db.js:47-54 | the table starts empty, with the serial id counter at 1 |
| `ProductController.ProductStore.SelectAll` | backend/src/controllers/productController.js:6-8 | every stored row, each as often as stored, newest first |
| `ProductController.ProductStore.SelectMatching` | backend/src/controllers/productController.js:47-52 | exactly the stored rows whose name or description matches, each as often as stored, newest first |
| `ProductController.ProductStore.Insert` | backend/src/controllers/productController.js:25-28 | appends one row holding the four values as passed (a missing one as NULL), with the next serial id (unused by any stored row) and the insert time |
| `ProductController.ProductStore.GetAllProducts` | backend/src/controllers/productController.js:4-14 | 200 with every stored row, newest first; a database error gives 500 with the fixed body, whatever the error says |
| `ProductController.ProductStore.CreateProduct` | backend/src/controllers/productController.js:17-35 | a falsy name, price or description gives 400 with the fixed message and stores nothing. Otherwise a database error gives 500 and stores nothing, and success stores exactly one new row and answers 201 with it. The image URL is passed through unchecked, a missing one as NULL |
| `ProductController.ProductStore.SearchProducts` | backend/src/controllers/productController.js:38-59 | a missing or empty term gives 400 whatever the database would do; a database error gives 500; otherwise 200 with exactly the rows matching `'%term%'`, each as often as stored, newest first |
| `ProductController.SearchIsCaseInsensitiveSubstring` | backend/src/controllers/productController.js:46-51 | for a term without wildcards a row is found exactly when its name or description contains the term, ignoring case |
| `ProductController.CreateThenList` | backend/src/controllers/productController.js:4-35 | a product created with all required fields in an empty table is answered 201 with the submitted values (a missing image URL as NULL), and the list then holds exactly that row |

## Left out

- Presentation: the JSX markup, skeleton loaders, the grid/list `viewMode` toggle, the fallback image and the results-summary text.
- The `loading` flag and the `axios` calls. `FetchProducts` takes the response as a parameter. Two overlapping fetches can finish in either order, and that race is not modelled.
- The choice of API URL by build mode, `ProductForm.jsx` and `Tabs.jsx`: configuration, and a form around a plain POST.
- Unicode: lower-casing and whitespace are ASCII only, where JavaScript's `toLowerCase`, `trim` and `\s` cover all of Unicode.
- `contextualMap[keyword]` in JavaScript also finds inherited keys such as `"constructor"`, and then throws. The model's table has exactly the 19 listed keys.
- `parseFloat` prices and `new Date(...)` timestamps: the page's products carry integer cents and integer timestamps.
- ProductsList.SortProducts: `localeCompare` is replaced by plain character-code order, so the `name` order differs from a locale's collation (for example in how capitals sort).
- ProductsList.SortProducts: does not state that products with equal keys keep their relative order, although the model's sort, like JavaScript's, is stable.
- ProductsList.ProductsListState.SortedProducts: orders names by character code in place of `localeCompare`, as `SortProducts` does.
- ProductsList.ProductsListState.SortedProducts: does not state that products with equal keys keep their relative order.
- Logging with `console.error`.
- The `pg` connection pool, `initDb` and the column types. PostgreSQL's coercion of the inserted values (such as a price that is not a number, or more than two decimals) is not modelled. A rejection counts as a database error through the `failure` parameter.
- ProductController.RowMatches: a name or description sent as a JSON number, boolean, array or object is stored by PostgreSQL as text, but the model's search matches only string values.
- Arrays and objects in a JSON body are one truthy value, `Compound`, with no contents. How the driver and PostgreSQL turn them into column text, or reject them, is not modelled; a rejection counts as a database error.
- ProductController.ProductStore.CreateProduct: a failed insert leaves the serial counter unchanged, where PostgreSQL's `SERIAL` has already used up a sequence value (for example on a name longer than 255 characters), so real ids can skip. Ids stay unique and increasing either way.
- JSON numbers are whole hundredths. `NaN` and other fractions are not modelled.
- A query string that repeats `term` (Express then passes an array) is not modelled.
- `created_at` comes from the `now` parameter. Nothing ties successive inserts to a clock that never goes back.
- SQL does not fix the order of rows with equal `created_at`. The model keeps table order for them, and its contracts state only the non-increasing order.
- `server.js` and `productRoutes.js`: Express start-up, middleware, health endpoints and route wiring.
