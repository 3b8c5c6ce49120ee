# Choufli 9ach order intake, modelled in Dafny

Choufli 9ach is a small shop site. A static front end (`index.html`,
`script.js`) lets a visitor put products into a cart, choose a size per
item and send the cart with their name, phone and address. A Python
server (`server.py`) does four things:

- it stores each order in an SQLite table `orders`;
- it lists the newest orders as JSON;
- it shows an HTML admin table behind HTTP Basic authentication, with a
  delete button per order;
- it serves the static files of its own directory.

This project models the two cores of that system and proves what they promise:

- **server.py.** This covers:
  - the admin credential check;
  - the validation and coercion of an order payload;
  - the order table as a class, with a row sequence and the
    AUTOINCREMENT counter, and the insert, list and delete statements;
  - the router, the five handlers and static-path resolution;
  - the escaping and placeholder row of the admin table.
- **script.js.** This covers the `cartItems` array as a class, with add,
  size change, remove and clear; the total and count shown by
  `renderCart`; and the checkout payload and submit logic.

Modules, one per file:

| file | module | what it holds |
|---|---|---|
| `wrappers.dfy` | `Wrappers` | `Option` |
| `text.dfy` | `Text` | prefix tests, `str.strip` / `String.prototype.trim` over Python's and JavaScript's whitespace sets, `str.partition`, splitting and joining |
| `pyjson.dfy` | `PyJson` | decoded JSON values, Python truthiness, `dict.get`, `str()` |
| `auth.dfy` | `Auth` | `is_authorized` |
| `validation.dfy` | `Validation` | the checks and coercions of `handle_create_order` |
| `store.dfy` | `OrderStore` | the `orders` table (`OrderTable` class) |
| `staticpath.dfy` | `StaticPath` | static-path resolution over segment lists and both containment checks |
| `adminview.dfy` | `AdminView` | `html.escape`, the table rows, the placeholder row |
| `server.dfy` | `Server` | the routes, the handlers, the `Handle` method |
| `cart.dfy` | `Cart` | the `ShoppingCart` class and the payload |
| `checkout.dfy` | `Checkout` | the cart's payload as the server validates it |

Library routines are parameters of the model (`Server.Lib`): base64
and UTF-8 decoding and `json.loads`, which return `None` on failure; the
pair splitting of `parse_qs`, `unquote` and `str()` of a non-string value,
which cannot fail; and `int()` of a string, which returns `None` for
`ValueError`. An
exception that nothing catches is the response `Aborted`. The clock
reading, whether SQLite executes a statement, and the files under the
root are fields of `Server.Env`.

## Model

| member | source | states |
|---|---|---|
| Auth.IsAuthorized | server.py:20-29 | A missing header, or one not starting with "Basic ", is refused. A token that fails base64 or UTF-8 decoding is refused, never an error. Otherwise the decoded text decides. |
| Auth.CredentialsMatchIff | server.py:28-29 | Decoded credentials match iff they are "admin:" followed by the password, colons included. With an empty password, a bare "admin" with no colon also matches. |
| Auth.BasicHeaderAccepted | server.py:21-29 | For a header "Basic " + token whose token decodes to t, the check passes iff t matches the credentials. |
| Text.Strip | server.py:318-320 | The stripped text is the slice of the input from its first non-whitespace character up to the trailing whitespace. It is empty iff the input is all whitespace. Otherwise it starts and ends with non-whitespace. |
| Text.StripTrimmed | server.py:318-320 | Text with no whitespace at either end is unchanged by stripping. |
| Text.StripIdempotent | server.py:318-320 | Stripping twice is stripping once. |
| Text.Partition | server.py:28 | The part before the first separator contains no separator. The three parts rebuild the input. With no separator, the whole input is the first part. |
| Text.Split | server.py:275 | Splitting at '/' gives at least one part. No part holds the separator. Joining the parts gives back the input. |
| Validation.CoerceTotal | server.py:329-333 | An int total is kept and a bool becomes 1 or 0. A finite float is truncated toward zero, and NaN becomes 0. A string goes through int(), with failure as 0. null, a list and a dict become 0. Only an infinite float fails, because its OverflowError is uncaught. |
| Validation.Validate | server.py:317-333 | The payload is refused with an uncaught exception iff it is not a dict, or its truthy customer is not a dict, or its total is an infinite float. It is refused with "Missing fields" iff a stripped field is empty or items is not a list. An accepted order carries the stripped non-empty fields, the items list and the coerced total. |
| Validation.MissingFieldsIff | server.py:317-327 | "Missing fields" holds iff str() of a customer field is all whitespace (an absent field counts as "") or items is a truthy non-list. A falsy items becomes []. |
| Validation.TotalNeverRejects | server.py:329-333 | Changing the total never changes the "Missing fields" verdict. An accepted order stays accepted under any total that is not an infinite float. |
| Validation.NonStringFieldIsNeverBlank | server.py:318-320 | A customer field that is not a string is never blank, because str() of it is plain text. |
| OrderStore.Newest | server.py:358-365 | The listing has min(limit, row count) rows: the last rows of the table, the newest first. |
| OrderStore.InsertKeepsConsistent | server.py:338-346 | Appending a row with id lastId+1 keeps ids increasing and within 1..lastId+1. The new id exceeds every existing id. |
| OrderStore.Without | server.py:435 | DELETE never adds rows. What it keeps is stated by WithoutMembers, WithoutKeepsIncreasing and WithoutPresent below. |
| OrderStore.WithoutMembers | server.py:435 | DELETE keeps exactly the rows whose id differs from the given one. |
| OrderStore.WithoutKeepsIncreasing | server.py:435 | DELETE keeps the remaining rows in increasing id order. |
| OrderStore.WithoutKeepsConsistent | server.py:433-435 | DELETE keeps the table invariant. |
| OrderStore.WithoutIdempotent | server.py:433-443 | Deleting an id twice is deleting it once. |
| OrderStore.WithoutAbsent | server.py:433-443 | Deleting an id that no row has changes nothing. |
| OrderStore.WithoutPresent | server.py:435 | Deleting the id of row k removes exactly row k. |
| OrderStore.NewestDescending | server.py:358-365 | Listed ids are strictly descending. |
| OrderStore.NewestAreLargest | server.py:391-398 | Every row left out of a listing has a smaller id than every row listed. |
| OrderStore.InsertThenListFirst | server.py:338-346 | Right after an insert, the first listed row is the new row, with the server's timestamp. |
| OrderStore.OrderTable.constructor | server.py:220-235 | A new table is empty and consistent, with counter 0. |
| OrderStore.OrderTable.Insert | server.py:338-350 | It succeeds iff SQLite works and the counter is below 2^63-1. On success it appends exactly one row with id old counter+1, above every existing id, with created_at from the clock argument. On failure nothing changes. |
| OrderStore.OrderTable.ListRecent | server.py:355-383 | With SQLite working, the loop returns exactly Newest(rows, limit). Otherwise it returns a database error. |
| OrderStore.OrderTable.Delete | server.py:433-439 | With SQLite working, rows become the rows without that id. Otherwise rows are unchanged. The counter never changes. |
| StaticPath.BeforeQuery | server.py:272 | The result is the prefix of the target before its first '?'. |
| StaticPath.LStripSlashes | server.py:275 | The input minus its leading run of slashes. |
| StaticPath.Walk | server.py:275 | Normalising from a clean path gives a clean path, with no empty, "." or ".." segment. |
| StaticPath.Resolve | server.py:272-275 | Resolution under a clean root is clean. |
| StaticPath.WithinIsBelow | server.py:275-276 | A resolved path that passes the segment check is the root followed by named segments only. |
| StaticPath.WalkWithoutParent | server.py:275 | Segments without ".." never leave the start path. |
| StaticPath.WithinAsWritten | server.py:276 | The string-prefix check as written admits every path the segment check admits. |
| StaticPath.RenderKeepsPrefix | server.py:276 | A path within the root, rendered as a string, begins with the rendered root. |
| StaticPath.ResolveFromParent | server.py:272-275 | "/../" + tail is walked from the root's parent. |
| StaticPath.ParentSegmentRefused | server.py:275-276 | "/../name", for a name other than the root's own, resolves to a sibling of the root, which the segment check refuses. |
| StaticPath.ResolveTopLevel | server.py:272-276 | "/name" resolves to root + [name], which is admitted. |
| StaticPath.ResolveSibling | server.py:275 | "/../name/file" under parent/dir resolves to parent/name/file. |
| StaticPath.RenderSibling | server.py:276 | The string of parent/dir+suffix/file extends the string of parent/dir. |
| StaticPath.SiblingWithRootPrefixPasses | server.py:276 | A sibling directory whose name extends the root's passes the string check, yet lies outside the root. |
| AdminView.Escape | server.py:39 | The escaped text contains none of < > " '. |
| AdminView.UnescapeEscape | server.py:44-46 | Decoding the five entities recovers the original text exactly. |
| AdminView.ItemLabel | server.py:36 | A label exists iff the item is a dict. |
| AdminView.ItemsText | server.py:35-38 | The items text exists iff every item is a dict. |
| AdminView.RowOf | server.py:34-57 | Name, phone, address and items are escaped, free of markup, and decode back to the stored text. Id, total and created_at are copied. The row fails iff an item is not a dict. |
| AdminView.TableOf | server.py:174 | The table renders iff every order renders. The placeholder appears iff the list is empty. Otherwise row i is the row of order i. |
| AdminView.EscapeVia | server.py:39-46 | `html.escape` succeeds iff the name `html` denotes the html module, and then it is the escape function. An unbound local or a string fails. |
| AdminView.RenderRows | server.py:33-57 | With `html` naming the module, the loop produces exactly TableOf. With `html` unbound or a string, only an empty list renders, because the first order already fails. |
| AdminView.RenderAsWritten | server.py:32-59 | With `html` a local that stays unbound until after the loop, the page renders iff the order list is empty. For every non-empty list whose items are dicts, it fails where TableOf gives rows. |
| AdminView.TableIsSafe | server.py:44-47 | Every cell of the intended table is markup-free and decodes to the stored text. |
| Server.RouteOf | server.py:255-305 | OPTIONS is the preflight and any other method without a handler is unsupported. GET routes only to the listing, the admin page or a static file; POST routes only to create, delete or 404. The two order routes are exactly the paths starting with "/api/orders". A static file is never under "/api/orders" or "/admin". |
| Server.GatedIff | server.py:258-302 | A request meets the credential check iff it is a GET whose path starts with "/admin" or a POST whose path starts with "/admin/delete". |
| Server.IntakeOf | server.py:308-311 | A body that is not UTF-8 is an uncaught decode error. Text that is not JSON is "Invalid JSON". Otherwise the payload goes to Validate. |
| Server.DeleteIntakeOf | server.py:422-431 | A body that is not UTF-8 is an uncaught decode error. Otherwise the id value is the form value for "id": "Invalid order id" iff int() refuses it, else that integer is the target. |
| Server.FormValue | server.py:424-425 | The id is "" iff no pair gives the key a non-empty value. Otherwise it is the value of the first such pair: every earlier pair has another key or an empty value. |
| Server.StaticResponse | server.py:272-289 | Under the segment check, not the string check at line 276 (see Findings): a path outside the root gets 404 "Not found". Within the root, a readable file gets 200 with its bytes, a missing one 404 "Not found", an unreadable one 500 "Failed to read file". 200 comes only with file content. |
| Server.TraversalNotFound | server.py:272-279 | Under the segment check, "/../name" is answered 404 "Not found". As written, line 276 serves such a path when name extends the root's last segment (see Findings). |
| Server.TopLevelFileServed | server.py:272-289 | Any readable entry directly under the root is served, with 200, to anyone. |
| Server.ListReply | server.py:355-386 | With SQLite working, 200 with the 50 newest orders, newest first; otherwise 500 "Database error". |
| Server.AdminReply | server.py:388-419 | Without SQLite, 500 "Database error". With SQLite, under the intended rendering: 200 with the table of the 100 newest orders when every item is a dict, else a failure after the 200 headers. As written, line 419 fails on every non-empty listing (see Findings). |
| Server.CreateReply | server.py:307-353 | A body that is not UTF-8 and a payload that raises are uncaught. Non-JSON gets 400 "Invalid JSON". Missing fields get 400 "Missing fields". 201 comes iff the order is accepted, its total fits int64, SQLite works and ids remain. An accepted order that SQLite refuses, or for which ids have run out, gets 500 "Database error". A total beyond int64 with SQLite working is uncaught. |
| Server.DeleteReply | server.py:421-443 | A body that is not UTF-8 is uncaught. A non-integer id gets 400 "Invalid order id". The response is 303 to /admin iff the id fits int64 and SQLite works. Without SQLite, 500 "Database error". |
| Server.HandleList | server.py:355-386 | The reply is ListReply of the table. |
| Server.HandleAdmin | server.py:388-419 | The reply is AdminReply of the table, computed by the loop with `html` naming the module (the intended rendering, not the code as written; see Findings). |
| Server.HandleCreate | server.py:307-353 | The reply is CreateReply. On 201, exactly one row is appended, with id old counter+1 and the request's time, and the counter moves on. Otherwise the table is unchanged. |
| Server.HandleDelete | server.py:421-443 | The reply is DeleteReply. On 303, exactly the rows with that id go, even when none has it. Otherwise the table is unchanged. The counter never changes. |
| Server.DoGet | server.py:258-289 | /api/orders gets ListReply. An /admin path gets 401 when the credentials fail and AdminReply (intended rendering) when they pass. Any other path gets StaticResponse, so a file is served only from within the root under the segment check. The table is never touched. |
| Server.DoPost | server.py:291-305 | /api/orders gets CreateReply, and on 201 the new row is appended. An unauthorised /admin/delete gets 401 with the table unchanged; an authorised one gets DeleteReply, and on 303 the rows with that id go. Other paths get 404 "Not found" with the table unchanged. The table changes only with 201 on /api/orders or an authorised 303 delete. |
| Server.Handle | server.py:255-305 | Each route gets its handler's reply: ListReply, AdminReply (intended rendering), StaticResponse (segment check), CreateReply with the appended row, DeleteReply with the deleted rows. An unauthorised admin request gets 401 and leaves the table alone. The table changes only through 201 on POST /api/orders or an authorised 303 delete. Files come only from within the root, under the segment check. OPTIONS gets 204, other POST paths get 404, and other methods get 501. |
| Cart.SpliceStart | script.js:77-78 | NaN and -Infinity give 0 and +Infinity gives the length. An integral index and the truncation of a fractional one are resolved by Clamp. |
| Cart.Clamp | script.js:78 | A relative start below -length gives 0, a negative one counts back from the end, one in range is itself, and one past the end is the length. |
| Cart.RemoveAt | script.js:78 | `splice(k, 1)` past the end changes nothing. Otherwise one fewer item remains: those before k stay, those after shift down by one. |
| Cart.RemoveIndex | script.js:77-78 | Removing index i deletes exactly item i. The items before it stay, the ones after shift down by one, the multiset loses only that item, and the total drops by its price. |
| Cart.RemoveSplits | script.js:78 | The same facts for any existing splice start. |
| Cart.RemoveFromEnd | script.js:77-78 | Index -d removes the d-th item from the end. |
| Cart.RemovePastEnd | script.js:77-78 | An index at or past the end, or +Infinity, removes nothing. |
| Cart.RemoveNaN | script.js:77-78 | A non-numeric index removes the first item. |
| Cart.ResizeKeepsTotal | script.js:69 | A size change keeps the count and the total. |
| Cart.Reduce | script.js:99 | The reduce from acc equals acc plus the sum that renderCart accumulates. |
| Cart.FormField | script.js:94-96 | The field is the JavaScript-trimmed text of the form value, and "" for an absent one. So it has no JavaScript whitespace at its ends and is no longer than the input. |
| Cart.PayloadOf | script.js:92-100 | The payload carries the cart's items, the sum of their prices and the three trimmed fields. |
| Cart.ShoppingCart.constructor | script.js:8 | The cart starts empty. |
| Cart.ShoppingCart.Add | script.js:55-57 | Exactly one item {name, price or 0, "S"} is appended. The total grows by that price. |
| Cart.ShoppingCart.ChangeSize | script.js:66-70 | Only item index's size changes, and only when the index is an integer naming an item. Otherwise nothing changes. Count and total are kept. |
| Cart.ShoppingCart.Remove | script.js:77-78 | The items become the splice of the old items at the computed start. |
| Cart.ShoppingCart.Clear | script.js:116 | The cart is empty. |
| Cart.ShoppingCart.Render | script.js:15-51 | The shown total is the sum of prices and the count is the length. Checkout is enabled and the empty message hidden iff the cart is non-empty. |
| Cart.ShoppingCart.Submit | script.js:84-122 | An empty cart sends nothing. Otherwise the payload is sent; the cart is emptied on success and left unchanged on failure. |
| Checkout.ItemJson | script.js:98 | Each cart item is sent as an object with its price and size. It has a "name" key exactly when the item has a name, with that name; an undefined name is left out. |
| Checkout.AcceptedWhen | server.py:317-333 | A payload with string customer fields that are not blank, an items list and an int total is accepted with exactly those values, stripped. |
| Checkout.CheckoutAccepted | script.js:92-107 | A cart's payload whose fields are not blank to Python is accepted. Its items arrive as sent, its total is the sum of prices, and its fields are stripped once more by Python. |
| Checkout.FieldStoredAsSent | script.js:94-96 | A trimmed field with no Python whitespace at its ends is stored as sent. |

## Left out

- HTTP plumbing is not modelled. This covers `BaseHTTPRequestHandler`, reading Content-Length and the body, the header lines themselves, the server loop and `main`. A response is a status with a tagged body. The three CORS header values are constants.
- Reading the `Content-Length` header with `int()` is left out; the body arrives as bytes.
- SQLite connections, `init_db`'s `mkdir` and the SQL text are not modelled. Whether a statement succeeds is the `dbAvailable` parameter.
- Commit and rollback of the `with` block are not modelled. Each handler runs one statement.
- Concurrent requests are left out. Requests are handled one at a time.
- The filesystem side of static serving is the `files` parameter: existence, reading, directories and permissions.
- Symbolic-link resolution in `Path.resolve()` is not modelled; paths are normalised lexically.
- `mimetypes.guess_type` is left out; the content type is a single tag, `GuessedType`.
- Configuration from the environment (`DATA_DIR`, `DB_PATH`, `ADMIN_PASSWORD`, `PORT`) is the fixed `Config` parameter.
- The HTML, CSS and inline script of the admin page are not modelled. Only the table rows and the placeholder row are.
- The JSON text of list responses and the JSON text of stored items are not modelled. `json.dumps` is taken to round-trip with `json.loads`.
- Server.Lib: base64, UTF-8, `json.loads`, `parse_qs` pair splitting, `unquote`, `int()` of a string and `str()` of non-strings are unconstrained function parameters. Their results are not specified beyond their types; their `Option` results stand for the exceptions the handlers react to.
- PyJson.Float: a JSON float keeps only what `int()` and truthiness see, namely its truncation, zero, infinity or NaN.
- `int()` of an integral float too large for a float's precision is taken as its exact value.
- The DOM work of script.js is not modelled: `innerHTML`, the item markup, `querySelector`, event wiring, `scrollIntoView`, `alert`, `checkoutForm.reset()`, and disabling the button while the request is in flight.
- The `fetch` call is the `delivered` parameter of `Cart.ShoppingCart.Submit`. It is true when the server answered with a 2xx status, and false for a non-2xx status or a network failure.
- Cart.ShoppingCart.Add: prices are integers. A fractional or infinite `data-price` is not modelled; NaN, and therefore `|| 0`, is the `None` case.
- The early return of `renderCart` when the container or total element is missing is a DOM condition and is left out.
- Cart.ShoppingCart.Render: what the view models is the total, the count, the button state and the empty message. The item markup, which interpolates `item.name` unescaped, is not modelled.

## Findings

| source | as written | input that shows it | evidently intended | confidence | as-written member | corrected member |
|---|---|---|---|---|---|---|
| server.py:276 | containment is tested as a string prefix of the resolved path | root `/srv/app`, request `GET /../app-data/secret.txt` resolves to `/srv/app-data/secret.txt`, whose string starts with `/srv/app` | only paths whose segments begin with the root's segments are served | not executed | StaticPath.SiblingWithRootPrefixPasses | Server.StaticResponse |
| server.py:39 | the assignment `html = f"""...` at line 59 makes `html` local to `render_admin_page`, so `html.escape` raises `UnboundLocalError` | any non-empty order list, e.g. one order with items `[]` | one escaped row per order, the placeholder row only for an empty list | not executed | AdminView.RenderAsWritten | AdminView.RenderRows |

Both findings shape the model:

- **Static serving.** The router uses the segment check, `StaticPath.Within`. The contract of `StaticPath.WithinAsWritten` shows that this check only refuses more than the string check. The contracts of `Server.StaticResponse`, `Server.TraversalNotFound`, `Server.DoGet` and `Server.Handle` describe this corrected check.
- **Admin page.** The admin page handler runs `AdminView.RenderRows` with `html` naming the module, which is the intended rendering. The contracts of `Server.AdminReply`, `Server.HandleAdmin`, `Server.DoGet` and `Server.Handle` describe that rendering. Under the code as written (`AdminView.RenderAsWritten`), every non-empty admin listing ends in an exception after the 200 headers are sent.

Other observations:

- **Unauthenticated file access.** `Server.TopLevelFileServed` shows that every readable file directly under the root is served to anyone. With the default `DATA_DIR`, that includes `orders.db` and `server.py`.
- **Missing CORS headers.** The 401 and 303 responses bypass `_set_headers` (server.py:265-267, 297-299, 441-443), so they carry no CORS headers.
