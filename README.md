# Shop orders page and token helpers, modelled in Dafny

This project models two pieces of a small PHP storefront.

The first is the shopper's "My Orders" page (`ecommerce/api/order.php`). For one request by an authenticated user it does four things, in order:

1. An optional status update. It is accepted only for the five statuses pending, processing, shipped, delivered and cancelled.
2. An optional cancel. This is a conditional write that touches only a pending order of the caller's.
3. The caller's order list, newest first.
4. An optional detail view of one of the caller's orders, with its line items.

The page also has two display helpers: the badge class of a status, and its human-readable form.

The second is the token module (`ecommerce/include/jwt_utils.php`):

- issuing an HS256 token with a one-hour expiry;
- validating and decoding such a token through the JWT library, with any library exception turned into a value;
- two legacy helpers that trust an unsigned base64-encoded JSON blob.

Files:

- `wrappers.dfy`: `Option`.
- `orders.dfy`: the `orders` and `order_items` rows, and what each SQL statement of the page does to the tables or reads from them.
  - An UPDATE is a filtered map over the table.
  - A SELECT is a filter, a projection onto the selected columns, and for the list a stable sort by `created_at` descending.
- `status_display.dfy`: `getStatusBadgeClass` and `formatStatus`.
- `order_page.dfy`: the request script.
  - `OrderStore` holds the two tables and runs the UPDATE statements.
  - `PageScript` holds the script variables (`$statusMessage`, `$orders`, `$selectedOrder`, `$orderItems`). Its methods are the four steps.
  - `ServeOrders` runs a whole request.
  - Pure functions (`TableAfterStatusUpdate`, `TableAfterCancel`, `SelectedOrder`, ...) specify what each step leaves behind. The lemmas are stated about them.
- `jwt_utils.dfy`: the token helpers.

Inputs are parameters:

- the caller's id;
- the request method, `$_POST` and `$_GET`;
- PHP's `is_numeric` and `(int)` cast;
- for each UPDATE, whether `execute` succeeded and the value of `NOW()`;
- `time()`;
- the JWT library's encoder and decoder;
- `base64_decode` and `json_decode`.

A statement that fails to execute writes nothing.

The page reports that an order was cancelled whenever the cancel statement *executed*, even when no row matched. The case is a wrong id, someone else's order, or an order that is no longer pending. It says "Unable to cancel order" only when the statement itself failed. The same holds for the status update. The model follows the code (`CancelReportsExecutionNotRows`).

## Model

| member | source | states |
|---|---|---|
| `Orders.UpdateRows` | ecommerce/api/order.php:19-34 | an UPDATE keeps the table's length and order; every row the WHERE clause selects gets the new status and `updated_at = NOW()`, every other row is unchanged |
| `Orders.SetStatusTable` | ecommerce/api/order.php:19 | the status update changes exactly the rows with the posted id owned by the caller, whatever their status; every other row, including a same-id row of another user, is unchanged |
| `Orders.CancelTable` | ecommerce/api/order.php:33-34 | the cancel changes exactly the caller's rows with that id that are pending, to cancelled with a new `updated_at`; every other row, the caller's non-pending orders included, is unchanged |
| `Orders.CancelIdempotent` | ecommerce/api/order.php:33-34 | cancelling twice gives the same table as cancelling once, whatever `NOW()` is the second time |
| `Orders.CancelLeavesNothingPending` | ecommerce/api/order.php:33-34 | after a cancel no row of the caller's with that id is pending |
| `Orders.OwnedBy` | ecommerce/api/order.php:46 | `WHERE user_id = ?` keeps a row iff the table holds it and it belongs to the caller |
| `Orders.OwnedByCount` | ecommerce/api/order.php:46 | the filter keeps each of the caller's rows as many times as the table holds it, and no row of anyone else |
| `Orders.InsertNewestFirst` | ecommerce/api/order.php:47 | inserting into a newest-first list keeps it newest first and adds exactly the one row |
| `Orders.SortNewestFirst` | ecommerce/api/order.php:47 | `ORDER BY created_at DESC` yields a permutation of its input with `created_at` non-increasing |
| `Orders.SummariesMembership` | ecommerce/api/order.php:43-44 | a projected row is in the result iff some input row projects to it |
| `Orders.ListQuery` | ecommerce/api/order.php:43-49 | the order list is non-increasing in `created_at`, is a permutation of the caller's rows projected to the selected columns, and holds a row iff the caller owns a table row projecting to it |
| `Orders.FindOwned` | ecommerce/api/order.php:56-58 | the detail lookup returns a table row with the requested id that the caller owns, and returns nothing iff the caller owns no such row |
| `Orders.FindOwnedUnique` | ecommerce/api/order.php:56-58 | with unique ids, the lookup by an order's own id and owner finds that order |
| `Orders.ItemsOf` | ecommerce/api/order.php:62-64 | the item query holds a line iff it is the projection of an item whose `order_id` is the requested id, and has no more lines than the table has items |
| `Orders.ItemsOfCount` | ecommerce/api/order.php:62-64 | the item query drops no row: each item of the requested order appears as a line exactly as often as the item table holds it |
| `StatusDisplay.StatusBadgeClass` | ecommerce/api/order.php:69-78 | the badge class is one of six; it is the default class iff the status is not one of the five accepted |
| `StatusDisplay.BadgeClassesDistinct` | ecommerce/api/order.php:70-75 | two different accepted statuses get different classes |
| `StatusDisplay.AsciiUpper` | ecommerce/api/order.php:82 | `ucfirst` upper-cases an ASCII lower-case letter and leaves every other character alone |
| `StatusDisplay.ReplaceUnderscores` | ecommerce/api/order.php:82 | `str_replace('_', ' ', ...)` keeps the length and turns each `_`, and only that, into a space |
| `StatusDisplay.FormatStatus` | ecommerce/api/order.php:81-83 | the output has the input's length and no `_`; its first character is the upper-cased first input character with `_` made a space; every later character is the input's with `_` made a space |
| `StatusDisplay.FormatStatusIdempotent` | ecommerce/api/order.php:81-83 | formatting a formatted string changes nothing |
| `StatusDisplay.FormatWithoutUnderscores` | ecommerce/api/order.php:82 | a string without `_` only has its first character upper-cased |
| `StatusDisplay.FormattedStatus` | ecommerce/api/order.php:17-82 | each accepted status is shown as itself with an upper-case first letter |
| `OrderPage.TableAfterStatusUpdate` | ecommerce/api/order.php:12-26 | the status-update step keeps the table's length; for a POST with `update_status`, an accepted status and an executed statement, every row of the caller's with the posted id gets the posted status and `NOW()` and no other column changes; every other row, and every row otherwise, is unchanged |
| `OrderPage.TableAfterCancel` | ecommerce/api/order.php:29-40 | the cancel step keeps the table's length; for a set, numeric `cancel` and an executed statement, every pending row of the caller's with that id becomes cancelled with `NOW()` and no other column changes; every other row, and every row otherwise, is unchanged |
| `OrderPage.MessageAfterStatusUpdate` | ecommerce/api/order.php:18-24 | the message changes only for an accepted status, and is then the success message iff `execute` succeeded and the failure message otherwise |
| `OrderPage.MessageAfterCancel` | ecommerce/api/order.php:29-39 | the message changes only for a numeric `cancel`, and is then the success message iff `execute` succeeded and the failure message otherwise; the rows the statement changed play no part |
| `OrderPage.TableAfterRequest` | ecommerce/api/order.php:12-40 | after both writes the table has the same rows in the same places; only the status and `updated_at` of a row may differ, and only on the caller's rows |
| `OrderPage.SelectedOrder` | ecommerce/api/order.php:52-58 | an order is selected only for a numeric `view`, only from the table, only with that id and only if the caller owns it; with a numeric `view` nothing is selected iff the caller owns no such row |
| `OrderPage.SelectedItems` | ecommerce/api/order.php:60-65 | items are loaded only when an order was selected; every loaded line comes from an item of that order, and every item of the selected order is loaded as often as the item table holds it |
| `OrderPage.RequestTouchesOnlyCallersRows` | ecommerce/api/order.php:12-40 | every row a request changes is the caller's, keeps its id and owner, ends in an accepted status, and carries the `NOW()` of one of the two statements |
| `OrderPage.InvalidStatusIsIgnored` | ecommerce/api/order.php:16-25 | a status update whose new status is missing or not accepted leaves the table and the message as they were |
| `OrderPage.CancelReportsExecutionNotRows` | ecommerce/api/order.php:33-39 | a cancel that matches no pending order of the caller's still reports "Order cancelled successfully." when the statement executed, and leaves the table unchanged |
| `OrderPage.ListShowsOwnCancel` | ecommerce/api/order.php:33-49 | an order this request cancels appears in the same page's list as cancelled, with the cancel's `NOW()` |
| `OrderPage.OrderStore.UpdateStatus` | ecommerce/api/order.php:19-20 | the statement reports what `execute` reported; an executed statement leaves the status-update table, a failed one the old table; items are untouched |
| `OrderPage.OrderStore.CancelPending` | ecommerce/api/order.php:33-35 | the same for the cancel statement |
| `OrderPage.PageScript.constructor` | ecommerce/api/order.php:5-9 | the script starts with an empty message, an empty list, no selected order and no items |
| `OrderPage.PageScript.HandleStatusUpdate` | ecommerce/api/order.php:12-26 | the step leaves the status-update table and sets the success or failure message by `execute` only for an accepted status; the other script variables are unchanged |
| `OrderPage.PageScript.HandleCancel` | ecommerce/api/order.php:28-40 | the step leaves the cancel table and sets the message by `execute` only for a numeric `cancel`; the other script variables are unchanged |
| `OrderPage.PageScript.FetchOrders` | ecommerce/api/order.php:42-49 | `$orders` becomes the list query on the current table; nothing else changes |
| `OrderPage.PageScript.FetchDetail` | ecommerce/api/order.php:51-66 | with a numeric `view`, `$selectedOrder` becomes the owned lookup, and `$orderItems` is loaded only if an order was found; otherwise both stay as they were |
| `OrderPage.ServeOrders` | ecommerce/api/order.php:5-66 | one request leaves the table after both writes, leaves the items untouched, and shows the messages, list, selection and items of that table in this order |
| `JwtUtils.Payload` | ecommerce/include/jwt_utils.php:12-22 | the payload has exactly the keys iat, exp, sub, email, role and name; `iat` is the supplied time and `exp = iat + 3600`; `sub`, `email`, `role` and `name` are the user's `id`, `email`, `role` and `name` |
| `JwtUtils.IssuedClaimsUnique` | ecommerce/include/jwt_utils.php:15-22 | a user and a time determine the claims completely |
| `JwtUtils.GenerateJwt` | ecommerce/include/jwt_utils.php:9-25 | the token is the library's encoding, under the shared secret and HS256, of the claims issued to the user at that time |
| `JwtUtils.ValidateJwt` | ecommerce/include/jwt_utils.php:27-36 | the result is `false` iff the library decoder throws, and otherwise is the claims it returned; the decoder is called with the shared secret and HS256 |
| `JwtUtils.DecodeJwt` | ecommerce/include/jwt_utils.php:49-56 | the result is null iff the library decoder throws, and otherwise is the claims it returned |
| `JwtUtils.ValidateAgreesWithDecode` | ecommerce/include/jwt_utils.php:27-56 | `validateJWT` fails exactly when `decodeJWT` does, and otherwise both give the same claims |
| `JwtUtils.IsValidToken` | ecommerce/include/jwt_utils.php:38-41 | true iff the blob decodes to an object whose `user_id` is set, not null and numeric; false when decoding fails |
| `JwtUtils.GetUserIdFromToken` | ecommerce/include/jwt_utils.php:43-46 | the decoded `user_id` when it is present and not null, and null otherwise, including when decoding fails |
| `JwtUtils.ValidTokenYieldsUserId` | ecommerce/include/jwt_utils.php:38-46 | a token is valid iff `getUserIdFromToken` gives a non-null value that is numeric, so a valid token yields the checked id |
| `JwtUtils.AnyNumericUserIdPasses` | ecommerce/include/jwt_utils.php:38-46 | any blob decoding to an object with a numeric `user_id` is accepted and yields that id; no signature is involved |

## Left out

- HTML rendering (ecommerce/api/order.php:84-407) is presentation only. This includes `htmlspecialchars`, the date formatting, `number_format` and the item-count query inside the template.
- Money columns (`total_amount`, `price`, `total`) are opaque text, as the database driver returns DECIMAL values. No arithmetic is modelled on them.
- Timestamps are integers. Only their order matters.
- SQL string comparison is modelled as exact equality. The database compares `order_status` under the column's collation, which may ignore case. The model assumes stored statuses are the five lower-case values, so a stored `'Pending'` is not treated as pending.
- The database connection, the authentication guard and the database setup are not part of this model. The caller's id is an input.
- Whether the three SELECT statements (ecommerce/api/order.php:43-48, 56-58 and 62-64) execute is not modelled; they are taken to succeed.
- Concurrency between requests is not modelled. One request runs sequentially, and each UPDATE is a single atomic step.
- `Orders.SortNewestFirst`: SQL leaves the order of rows with equal `created_at` open. The model fixes one order (storage order among ties). Its contracts state only what SQL promises.
- `Orders.FindOwned`: `fetch` returns the first row of an unordered result. The model takes the first in storage order. With unique ids (`Orders.FindOwnedUnique`) the choice does not matter.
- `is_numeric` and the `(int)` cast are left abstract. So is PHP's loose `in_array` comparison, which for the five non-numeric status strings agrees with string equality. Request values are strings; array-valued parameters are not modelled.
- `StatusDisplay.AsciiUpper`: `ucfirst` is modelled as ASCII upper-casing, as in current PHP. Locale-dependent behaviour of older PHP versions is not modelled. Characters are Dafny `char`s, not bytes.
- `JWT::encode` and `JWT::decode` (HMAC-SHA256 signing, RFC 7515; claims, RFC 7519) are uninterpreted parameters. So no claim is made about signatures or expiry checks, and none about an issued token decoding back to its claims.
- `validateJWT` and `decodeJWT` catch `Exception`. The model treats every failure of the library decoder as such an exception. PHP `Error`s escaping the library are not modelled.
- `time()`, `base64_decode` and `json_decode` are parameters. JSON floats are not part of the `Json` value type.
- The payload is a map, so the order of its keys (iat, exp, sub, email, role, name) is not kept. The encoded token's bytes depend on that order; since the encoder is uninterpreted, no claim about those bytes is made.
- `JWT::decode` also reads the clock to check expiry. The model folds that into one decoder value per call. `JwtUtils.ValidateAgreesWithDecode` therefore compares two calls made at the same moment.
- The decoded claims are a string-keyed map. The difference between PHP's object and array results is not modelled.
