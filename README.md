# restaurant-management: business rules of the handlers

This project models the request handlers of a Gin/GORM restaurant backend and
the rules inside them:

- pagination of the user and food lists;
- the sign-up, with its duplicate-email check and password hashing, and the password check;
- batch creation of order items, and the order-items-by-order query;
- invoice creation with defaults and enum validation;
- the invoice view;
- the partial-field merges of the food, order item, invoice, menu and table updates;
- the admin gate;
- the menu time-span guard.

The database is a class `Database.Db` with one map per table, from primary key
to row, and one shared counter that hands out primary keys. Each handler is a
method over that object. It states the handler's outcome as a coarse
`Common.Outcome`:

- `Ok`, `BadRequest`, `NotFound`, `Conflict` and `ServerError` for the status codes;
- `Aborted` for a handler that panics. The engine is built without the
  recovery middleware, so the connection is dropped without a response.

It also states the new contents of every table it may change. The merges, the
invoice preparation, the query results and the integer conversions are pure
functions. The lemmas relate them: round trips of the parsers, idempotence of
the merges, validity kept by the updates, and listing of created items.

Modelling conventions:

- Times are integers, and 0 is Go's zero time. A request reads the clock once,
  as `now`.
- Prices are reals. Rounding to cents (`toFixed(x, 2)`) is a parameter `toFixed2`.
- bcrypt is a pair of parameters: `hash` for GenerateFromPassword and
  `matches(hash, password)` for CompareHashAndPassword succeeding.
- The validator's `email` rule is a parameter `isEmail`.
- Go's `int` is 64 bits. `Numbers.Wrap64` gives the wrapped result where the
  source's arithmetic can overflow.
- Queries without ORDER BY read rows in ascending key order.

Where the source and its usual reading disagree, the model follows the code:

- `OrderItem.Quantity` is a string enum, and UpdateOrderItem compares it with
  0. The model reads this as "non-empty".
- `Order` declares no `UserId`, yet CreateOrderItem sets one. The model gives
  `Order` a `userId`.
- GetInvoice and ItemsByOrder reach the order and the table through
  associations that the record types do not declare. The model resolves them
  through the stores.
- GetInvoice writes a 500 on a failed lookup but does not return. GORM leaves
  it a zero invoice, whose order id 0 names no order, so the list of items is
  empty and taking its first item panics. The model's outcome there is `Aborted`.
- The validation of Food and Table has no tags and accepts everything. It is
  not modelled.

## Model

| member | source | states |
|---|---|---|
| Common.AdminRejects | controllers/invoiceController.go:70-74 | the admin gate rejects exactly when an isAdmin value is present and false; a missing value passes |
| Common.PickNeverClears | controllers/menuController.go:85-96 | a partial merge never turns a set field back to its zero value |
| Numbers.Wrap64 | helpers/utils.go:9 | the result of 64-bit int arithmetic lies in the int64 range, is congruent to the exact result modulo 2^64, and equals it when that fits |
| Numbers.Atoi | controllers/userController.go:23 | strconv.Atoi succeeds exactly on an optional sign followed by at least one decimal digit and nothing else, with a value in the int64 range, and returns that value |
| Numbers.AtoiFormatInt | controllers/userController.go:23-31 | every int64 written in decimal is read back by Atoi as itself |
| Numbers.ParseUint32 | controllers/orderItemsController.go:37 | strconv.ParseUint(s, 10, 32) accepts only non-empty digit strings whose value is at most 2^32 - 1 |
| Numbers.ParseUint32Decimal | controllers/orderItemsController.go:37-41 | every uint32 in decimal parses to itself and every larger decimal number is rejected |
| Numbers.DecimalRoundTrip | controllers/orderItemsController.go:37 | reading back the decimal text of a number gives the number |
| Models.ParsePaymentMethod | models/invoiceModel.go:10-13 | exactly "card" and "cash" name a payment method, and each names the method whose text it is |
| Models.ParsePaymentStatus | models/invoiceModel.go:17-20 | exactly "pending" and "paid" name a payment status, and each names the status whose text it is |
| Models.PaymentMethodRoundTrip | models/invoiceModel.go:10-13 | parsing inverts the text of a payment method, and the two methods have different texts |
| Models.PaymentStatusRoundTrip | models/invoiceModel.go:17-20 | parsing inverts the text of a payment status, and the two statuses have different texts |
| Models.ValidInvoiceNamesEnums | models/invoiceModel.go:25-26 | an invoice passes validation exactly when its method and its status both name enum values |
| Database.Db.CreateOrderItems | controllers/orderItemsController.go:152 | the batch insert adds exactly the numbered batch, advances the key counter by its length and keeps every table keyed |
| Database.Numbered | controllers/orderItemsController.go:152 | the rows of a batch insert are filed under consecutive fresh keys, in batch order, each carrying its key as id |
| Database.SortedIds | controllers/orderItemsController.go:57 | the keys listed in strictly ascending order, each exactly once |
| Database.RowsById | controllers/userController.go:39 | a full scan lists every row of the table and nothing else |
| Database.Window | controllers/userController.go:39 | OFFSET/LIMIT returns at most `limit` rows, the rows from position `offset` on |
| Database.OverFetch | controllers/foodController.go:26-31 | a window of limit + 1 rows is full exactly when rows remain past the page, and dropping its last row gives the page |
| Helpers.GetLimitOffsetWrapping | helpers/utils.go:4-14 | as written: the offset is never negative, a zero limit becomes 20 and any other limit is kept, and the offset is limit * (page - 1) whenever that product fits in 64 bits |
| Helpers.GetLimitOffset | helpers/utils.go:4-14 | the offset is never negative, a zero limit becomes 20 and any other limit is kept, the offset is limit * (page - 1) when that is non-negative, and it is 0 for page <= 1 with a non-negative limit |
| Helpers.GetLimitOffsetWrapsAround | helpers/utils.go:9 | as written, page 2^62 + 2 of 20 rows starts at row 20, where page 2 starts, instead of row 20 * (2^62 + 1) |
| Helpers.ConsecutivePagesAdjoin | helpers/utils.go:9 | page p + 1 starts exactly where page p ends |
| Helpers.QueryPositive | controllers/userController.go:23-31 | a normalised query number is always at least 1: the parsed value when it is at least 1, the fallback otherwise |
| Helpers.QueryPositiveReadsDecimal | controllers/userController.go:23-31 | a positive number in decimal is taken as is; zero, a negative number and a missing parameter give the fallback |
| Helpers.WholePages | controllers/userController.go:33 | k whole pages of n rows are k * n rows, a multiple of n whose quotient is k |
| Users.StartIndexWrapping | controllers/userController.go:33 | as written: the 64-bit start index equals (page - 1) * recordPerPage whenever that product fits |
| Users.StartIndexWrapsNegative | controllers/userController.go:23-33 | page 3 of 2^62 records per page, both accepted by the normalisation, gives a negative start index as written |
| Users.StartIndex | controllers/userController.go:33 | the start index is a non-negative whole number of pages, page - 1 of them |
| Users.RowOnItsPage | controllers/userController.go:33-39 | user p is item p % n of page p / n + 1 |
| Users.GetUsers | controllers/userController.go:18-48 | the total count is the number of users, and the items are the page of users chosen by the normalised page and recordPerPage, at most recordPerPage of them |
| Users.VerifyPassword | controllers/userController.go:170-180 | (true, "") when the hash matches the password, (false, "login or password is incorrect") otherwise |
| Users.SignedUpPasswordVerifies | controllers/userController.go:93-94 | with the password read from the request, as SignUp intends, the password a user signed up with verifies against the stored hash |
| Users.BindUser | models/userModel.go:13 | binding a request into a User leaves the password empty, whatever the request carries, and takes every other field from it |
| Users.SignUpIgnoresPassword | controllers/userController.go:80-94 | as written, two sign-ups that differ only in the password sent store the same row, holding the hash of the empty password |
| Users.AnyPasswordLogsIn | controllers/userController.go:132-145 | as written, login binds the password away too, so any typed password verifies against any account sign-up created |
| Users.SignUpAsWritten | controllers/userController.go:75-124 | as written: the password is dropped by the binding; a taken email is a conflict with nothing stored; otherwise the user is stored with the hash of the empty password and timestamps before the email is validated, so a malformed email is a server error with the user kept; emails stay unique |
| Users.SignUp | controllers/userController.go:86-116 | as intended, with the password read from the request: a taken email is a conflict and a malformed email a server error, both with nothing stored; otherwise the user is stored under a fresh key with the hash of the password sent; emails stay unique |
| OrderItems.ItemsByOrder | controllers/orderItemsController.go:51-64 | exactly the items of the given order, each once, in ascending id order; none when the order row is missing |
| OrderItems.GetOrderItemsByOrder | controllers/orderItemsController.go:33-49 | an order id that is not a decimal uint32 is a bad request with no items; otherwise the items of that order |
| OrderItems.MergeOrderItem | controllers/orderItemsController.go:100-111 | quantity, unit price and food are overwritten only by non-empty values; id, order and creation time never change |
| OrderItems.MergeOrderItemIdempotent | controllers/orderItemsController.go:100-110 | repeating an update changes nothing more, and an all-zero update only stamps the time |
| OrderItems.UpdateOrderItem | controllers/orderItemsController.go:81-122 | a missing item is a server error with nothing saved; otherwise the merged item replaces it and no other item changes |
| OrderItems.Stamped | controllers/orderItemsController.go:145-151 | every item of the batch carries the chosen order id and the request time, with its id, food and quantity unchanged and its price rounded |
| OrderItems.StampBatch | controllers/orderItemsController.go:145-151 | the loop leaves the batch array stamped in place |
| OrderItems.ChosenOrderId | controllers/orderItemsController.go:141-144 | the first item's order id when non-zero, otherwise the key of the new order |
| OrderItems.CreateOrderItem | controllers/orderItemsController.go:124-156 | an empty batch crashes the handler with nothing written; otherwise a new order is opened only when the first item names none, every item is stamped with the chosen order and the batch is inserted |
| OrderItems.CreatedItemsListed | controllers/orderItemsController.go:145-152 | after creation every item of the batch is listed under the chosen order |
| Invoices.PreparedInvoice | controllers/invoiceController.go:89-96 | an empty status becomes "pending" and a supplied one is kept; the due date is one day after the request whatever the client sent |
| Invoices.PreparedInvoiceValid | controllers/invoiceController.go:89-102 | a prepared invoice validates exactly when its method names an enum value and its status is empty or names one |
| Invoices.CreateInvoice | controllers/invoiceController.go:68-112 | the admin gate, a missing order and a failed validation each store nothing; otherwise the prepared invoice is stored under a fresh key; stored invoices stay valid |
| Invoices.MergeInvoice | controllers/invoiceController.go:134-142 | method and status are overwritten only by non-empty values; order, due date and creation time never change |
| Invoices.MergeInvoiceValid | controllers/invoiceController.go:134-148 | from a valid invoice the merge is valid exactly when each supplied payment field names an enum value |
| Invoices.UpdateInvoice | controllers/invoiceController.go:114-159 | a missing invoice is not found and an invalid merge a server error, both with nothing saved; otherwise the merge replaces it; stored invoices stay valid |
| Invoices.OrderTableNumber | controllers/invoiceController.go:62 | the number of the table the order was placed at, 0 when the table row is missing |
| Invoices.GetInvoice | controllers/invoiceController.go:41-66 | a missing invoice or an order without items crashes the handler; otherwise the view copies the invoice, lists the order's items and shows the table of the invoice's order |
| Foods.GetFoods | controllers/foodController.go:18-43 | at most 20 foods, the page chosen by the normalised page; nextPage exactly when foods remain after it |
| Foods.FetchPage | controllers/foodController.go:26-31 | over-fetching one row and trimming it gives the page, and reports a next page exactly when rows remain |
| Foods.FoodOnItsPage | controllers/foodController.go:25-26 | food p is item p % 20 of page p / 20 + 1 |
| Foods.CreateFood | controllers/foodController.go:59-103 | the admin gate and a missing menu store nothing; otherwise the food is stored with its price rounded; every food keeps an existing menu |
| Foods.MenuWhere | controllers/foodController.go:145 | a lookup on a column the menus table lacks fails as a query error; on the key column, it finds the menu or reports it not found |
| Foods.LookupFailure | controllers/foodController.go:145-151 | a missing menu is answered with not found and a failed query with a server error |
| Foods.FoodMenuLookupAsWritten | controllers/foodController.go:145 | as written, the menu lookup always fails as a query error |
| Foods.FoodMenuLookup | controllers/foodController.go:145 | looked up by id, an existing menu is found and a missing one is reported not found |
| Foods.MenuLookupByMissingColumn | controllers/foodController.go:143-154 | for an existing menu, the lookup as written gives a server error while the lookup by id finds it |
| Foods.MergeFood | controllers/foodController.go:132-156 | name, price, image and menu are overwritten only by non-zero values; id, food id and creation time never change |
| Foods.MergeFoodIdempotent | controllers/foodController.go:132-154 | repeating a food update changes nothing more |
| Foods.UpdateFoodWith | controllers/foodController.go:114-174 | with the menu lookup as a parameter: a missing food is not found, and a menu the lookup does not find is answered as LookupFailure says, both with nothing saved; otherwise the merged food replaces it |
| Foods.UpdateFoodAsWritten | controllers/foodController.go:114-174 | as written: a missing food is not found, and any request naming a menu is a server error with nothing saved, even for an existing menu; a request leaving the menu alone is applied |
| Foods.UpdateFood | controllers/foodController.go:114-174 | with the menu looked up by id: a missing food or menu is not found with nothing saved; otherwise the merged food replaces it; every food keeps an existing menu |
| Menus.InTimeSpan | controllers/menuController.go:112-114 | the check time lies strictly after the start and strictly before the end |
| Menus.InTimeSpanStrict | controllers/menuController.go:112-114 | neither bound lies in a span, and a span shorter than two time units holds nothing |
| Menus.SpanAccepted | controllers/menuController.go:76-82 | with both dates supplied the request time must lie strictly inside them; with either date missing no check is made |
| Menus.MergeMenu | controllers/menuController.go:85-98 | dates, name and category are overwritten only by non-zero values; id and creation time never change |
| Menus.AcceptedSpanContainsNow | controllers/menuController.go:76-90 | an accepted update with both dates stores a span containing the request time |
| Menus.OneDateSkipsSpanCheck | controllers/menuController.go:76-90 | supplying one date alone can store a span that ends before it starts |
| Menus.UpdateMenu | controllers/menuController.go:57-109 | a missing menu is not found and a rejected span a server error, both with nothing saved; otherwise the merged menu replaces it |
| Tables.CreateTable | controllers/tableController.go:40-72 | the admin gate stores nothing; otherwise the table is stored under a fresh key with both timestamps |
| Tables.UpdateMap | controllers/tableController.go:85-93 | each of the two keys is present exactly when its field is non-zero and maps to that field's value; there are no other keys |
| Tables.BuildUpdateMap | controllers/tableController.go:85-93 | inserting the entries one by one builds that map |
| Tables.ApplyUpdates | controllers/tableController.go:105 | a key that names no column fails the statement; otherwise only the named columns and the update time change |
| Tables.UpdateMapKeysAreNotColumns | controllers/tableController.go:85-105 | as written, any request that changes a field is rejected by the database; keyed by column names it is applied |
| Tables.ApplyColumnUpdates | controllers/tableController.go:85-105 | keyed by column names, the row takes the non-zero fields and keeps the others |
| Tables.UpdateRow | controllers/tableController.go:105-111 | only the row with the given id changes, and a missing row is no error |
| Tables.UpdateTableAsWritten | controllers/tableController.go:74-113 | as written, a request that changes a field is a server error with nothing saved; one that changes nothing only stamps the row |
| Tables.UpdateTable | controllers/tableController.go:74-113 | the row with the given id takes the non-zero fields and the update time; no other row or field changes |

## Left out

- helpers/tokenHelper.go and middleware/authMiddleware.go are left out: JWT signing, parsing and token storage are library crypto and I/O. Their effect on the handlers is the `isAdmin` and `uid` values passed in.
- Login, GetUser, GetFood, GetOrderItems, GetInvoices and the menu and table list handlers are left out. They are plain reads with no rule of their own.
- GetOrderItem is left out: its error test compares a query object with nil, so it always answers with an error.
- CreateMenu and controllers/orderController.go are not part of this model.
- OrderItemOrderCreator, which CreateOrderItem calls at controllers/orderItemsController.go:143, is defined nowhere in the repository. The model assumes it inserts the order and returns the new order's key, drawn from the shared key counter.
- bcrypt, the `email` validation rule and `toFixed(x, 2)` are parameters. Floating-point rounding is not modelled.
- Users.SignUp: the contract does not state that the stored hash differs from the plaintext, because `hash` is an uninterpreted parameter.
- The SQL total `SUM(quantity * unit_price)` of GetInvoice is left out. It multiplies a string enum by a float inside the database.
- JSON binding errors are not modelled; every handler receives a well-formed request.
- Path parameters are modelled as numbers. A non-numeric id, which the database rejects, is not modelled.
- Failures of the database itself (lost connection, constraint violation, failed insert) are not modelled.
- Primary keys supplied by the client are ignored. Every insert takes the next key of one counter shared by all tables, where the database has one sequence per table.
- A GORM map update also resolves a Go field name such as `NumberOfGuests`. Tables.ApplyUpdates accepts only column names.
- The handlers read the clock several times per request; the model uses one `now`. `AddDate(0, 0, 1)` is 86400 seconds, so calendar days across a daylight-saving change are not modelled.
- The unused `context.WithTimeout` contexts, HTTP status codes and response texts are modelled only through the coarse outcome.
- Foods.GetFoods and Users.GetUsers do not model what the database does with a negative offset, because the corrected offsets they use are never negative.

## Findings

| source | as written | input that shows it | evidently intended | confidence | as-written member | corrected member |
|---|---|---|---|---|---|---|
| helpers/utils.go:9 | `limit * (page - 1)` is 64-bit and wraps around | limit 20, page 2^62 + 2: offset 20, so the rows of page 2 are served | offset 20 * (2^62 + 1), past every row, so an empty page | high, not executed | Helpers.GetLimitOffsetWrapping | Helpers.GetLimitOffset |
| controllers/userController.go:33 | `(page - 1) * recordPerPage` is 64-bit and wraps around | page=3&recordPerPage=4611686018427387904: start index -2^63 | a non-negative start, page - 1 whole pages | high, not executed | Users.StartIndexWrapping | Users.StartIndex |
| controllers/foodController.go:145 | the menu is looked up by column `menu_id`, which the menus table lacks | any update naming an existing menu: server error, nothing saved | look up the menu by `id` | high, not executed | Foods.FoodMenuLookupAsWritten | Foods.FoodMenuLookup |
| controllers/userController.go:101-116 | the user is inserted before the email is validated | sign-up with email "x": server error, yet the user is stored | validate before storing, as the comment there says | high, not executed | Users.SignUpAsWritten | Users.SignUp |
| models/userModel.go:13 | the password field is tagged `json:"-"`, so BindJSON never sets it and sign-up stores the hash of the empty password (controllers/userController.go:93) | sign up with password "secret", then log in with password "wrong": the login succeeds | read the password from the request and only keep it out of responses | high, not executed | Users.SignUpIgnoresPassword | Users.SignUp |
| controllers/tableController.go:87-93 | update map keyed by the JSON names `numberOfGuests` and `tableNumber`, which name no column | any update with a non-zero field: the statement fails, nothing saved | keys naming the columns `number_of_guests` and `table_number` | medium, not executed | Tables.UpdateTableAsWritten | Tables.UpdateTable |
