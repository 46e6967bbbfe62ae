# Restaurant server: carts, orders, archive, tables, feedback and access guards

A Dafny model of the request handlers of a restaurant back end (an Express
application over a MongoDB document store), and proofs about it. The model
covers:

- the single shopping cart and its four handlers (`cartController.js`);
- the order collection, placing an order from the cart, status and payment
  updates, deletion, and the `orderUpdated` / `orderDeleted` events pushed to
  connected clients (`orderController.js`, schema in `models/orderModel.js`);
- the order archive, which moves a user's current orders into an archive and
  lists it newest first (`oldOrderController.js`);
- the table registry with its status enum and unique `qrCode`
  (`tableController.js`, schema in `models/tableModel.js`);
- the feedback store, one feedback per user as long as only `giveFeedback`
  adds them (`feedbackController.js`);
- the image public id derived by `deleteImage` (`cloudinaryMiddleware.js`);
- the verdicts of the access guards `requireAdmin`, `requireAuth`,
  `requireStaff` and `checkTokenExpiration` (`adminMiddleware.js`).

Each handler is one sequential step that answers with the HTTP status code the
source sends. State that the source updates in place is a class:
`Orders.Store` (cart, orders in storage order, event log, next order id),
`OldOrders.Archive`, `Tables.TableRegistry` and `Feedbacks.FeedbackStore`.
Their methods state the whole new state in terms of the old one. The
collections are sequences in storage order, because several handlers answer
with "the first match" (`order[0]`, `findOne`) or reverse the listing. The
pure parts are functions with lemmas: the schema enums and defaults, the
cart-to-order snapshot, the public-id derivation and the guards.

Inputs the handlers do not compute are parameters:

- the caller's id;
- whether the per-user cart lookup of `placeOrder` finds the cart;
- whether the store rejects the second write of `placeOrder` (emptying the
  cart) or of `addOrder` (purging the user's orders);
- the outcome of an image upload;
- the token verifier and the admin and staff lookups, as functions;
- the clock reading, in milliseconds.

Cross-cutting facts the model makes visible:

- `placeOrder` saves the order before it empties the cart. If the cart write
  then fails, the order exists and the cart is still full.
- `addOrder` saves the archive entry before purging. Only the user's first
  current order is archived; all of them are purged.
- No order handler reads or writes tables. The `Orders` module does not
  import `Tables`.
- `changeTableStatus` updates without validators, so a status outside the
  enum can be stored (`Tables.OffEnumStatusScenario`). For that reason a
  table's status is kept as a string.
- `updateFeedback` applies the request body, which may name another `user`.
  So "at most one feedback per user" is kept by `giveFeedback`,
  `deleteFeedback` and updates that do not name another user, but not by
  every update (`Feedbacks.UserOverrideCanDuplicate`).

The code has no quantity merging or lower bound on quantities in the cart, no
order-status state machine, no table that turns occupied when an order is
placed or free when it is delivered, no totals computed from catalogue prices,
no per-table locking and no unique table number. Items are appended as given,
any status in the enum can follow any other, no handler touches tables, the
total is copied from the request, and table numbers may repeat
(`Tables.SharedNumberScenario`).

## Model

| member | source | states |
|---|---|---|
| `Cart.WithoutItem` | controllers/cartController.js:53 | every surviving item comes from the cart and has an id different from `itemId`, and every such item survives |
| `Cart.RemoveAbsentIsIdentity` | controllers/cartController.js:53-59 | removing an id no item carries leaves the items exactly as they were |
| `Cart.RemoveTwiceIsRemoveOnce` | controllers/cartController.js:53 | removing the same id twice equals removing it once |
| `Cart.RemoveKeepsOrder` | controllers/cartController.js:53 | removal keeps relative order: it distributes over concatenation |
| `OrderModel.ParseStatus` | models/orderModel.js:23-27 | a status string is accepted exactly when it names one of Pending, Started, Ready, Delivered, Cancelled |
| `OrderModel.ParsePayment` | models/orderModel.js:28-32 | a payment string is accepted exactly when it is "Paid" or "Not Paid" |
| `OrderModel.StatusNamesRoundTrip` | models/orderModel.js:25 | each status's name parses back to that status |
| `OrderModel.PaymentNamesRoundTrip` | models/orderModel.js:30 | each payment status's name parses back to it |
| `OrderModel.Snapshot` | controllers/orderController.js:31-34 | the order lines are the cart items in order, each reduced to its product and quantity |
| `OrderModel.CastItems` | models/orderModel.js:3-14 | the lines are accepted exactly when every line has a product; a missing quantity becomes 1; any quantity is kept, with no lower bound |
| `OrderModel.NewOrder` | controllers/orderController.js:30-41 | the save succeeds exactly when every cart item has a product; the order then has status Pending, payment "Not Paid", the caller as user, the request total or the default 0, and one line per cart item |
| `OrderModel.TotalIgnoresPrices` | controllers/orderController.js:30-38 | the total is copied from the request: carts differing only in prices give the same order |
| `Orders.PurgeSparesOthers` | controllers/oldOrderController.js:26 | deleting one user's orders leaves every other user's orders, in order |
| `Orders.PurgeLeavesNoneOf` | controllers/oldOrderController.js:26 | after the purge, the user has no current order left |
| `Orders.Store.GetAllCartItems` | controllers/cartController.js:6-21 | answers 200 with the cart's items unchanged, or 500 when no cart exists; changes nothing |
| `Orders.Store.AddItemToCart` | controllers/cartController.js:26-44 | appends the item unchecked: one item longer, earlier items unchanged, no merge; 400 and no change without a cart; only the cart changes |
| `Orders.Store.RemoveItemFromCart` | controllers/cartController.js:49-67 | the cart becomes the items whose id differs from `itemId`, with 200; 500 and no change without a cart |
| `Orders.Store.ClearCart` | controllers/cartController.js:72-89 | the cart becomes empty, with 200; 500 and no change without a cart |
| `Orders.Store.PlaceOrder` | controllers/orderController.js:8-61 | 404 with no cart and 400 with an empty cart, nothing changed; 500 with nothing changed when an item lacks a product; otherwise the new order, with a fresh id, is saved first; then either the cart is emptied and one `orderUpdated` event appended (201), or the cart write fails (500), the order stays and the cart is untouched |
| `Orders.Store.GetOrders` | controllers/orderController.js:66-92 | exactly the stored orders placed by the caller, in storage order, always 200 |
| `Orders.Store.GetAllOrders` | controllers/orderController.js:97-114 | every stored order, in storage order, with 200 |
| `Orders.Store.UpdateOrderStatus` | controllers/orderController.js:119-153 | 404 for an unknown id and 500 for a value outside the enum, both with no change; otherwise only that order's status changes, to any enum value from any status, and one `orderUpdated` event carries it |
| `Orders.Store.UpdatePaymentStatus` | controllers/orderController.js:158-194 | as above for `paymentStatus`, leaving the status alone |
| `Orders.Store.DeleteOrder` | controllers/orderController.js:199-227 | 404 and no change for an unknown id; otherwise that order is removed and one `orderDeleted` event carries its id |
| `Orders.Store.DeleteOrdersOf` | controllers/oldOrderController.js:26 | the orders left are exactly those not placed by the user, in order; ids stay fresh |
| `OldOrders.UserListingIsNarrowedReverse` | controllers/oldOrderController.js:80-84 | reversing the user's archived orders equals narrowing the reversed archive to the user |
| `OldOrders.Archive.AddOrder` | controllers/oldOrderController.js:7-40 | with no current order, 500 and nothing changes; otherwise exactly one entry is archived, holding the first current order's products and total and the user; then all the user's current orders are purged (201), unless the purge fails (500, entry kept, orders kept) |
| `OldOrders.Archive.GetOrders` | controllers/oldOrderController.js:45-71 | exactly the caller's archived orders, in storage order |
| `OldOrders.Archive.GetAllOrders` | controllers/oldOrderController.js:76-97 | the caller's archived orders, newest first |
| `OldOrders.Archive.GetAllOrdersOfAllUser` | controllers/oldOrderController.js:102-120 | the whole archive, newest first |
| `Tables.ParseTableStatus` | models/tableModel.js:8-12 | a status string is accepted exactly when it names one of free, occupied, reserved |
| `Tables.TableStatusNamesRoundTrip` | models/tableModel.js:11 | each table status's name parses back to that status |
| `Tables.FilterKeepsQrCodesUnique` | models/tableModel.js:19-23 | removing tables keeps qrCodes pairwise distinct |
| `Tables.DeleteTableIdempotent` | controllers/tableController.js:106-112 | deleting a table twice equals deleting it once |
| `Tables.DeleteAbsentTableIsIdentity` | controllers/tableController.js:106-112 | deleting an id that is not stored changes nothing |
| `Tables.TableRegistry.GetAllTables` | controllers/tableController.js:6-22 | every table, with count equal to their number |
| `Tables.TableRegistry.CreateTable` | controllers/tableController.js:27-43 | on a valid body (number, enum status, non-empty qrCode not already stored), exactly one table with those fields and a fresh id is added (201); otherwise 409 and nothing added; qrCodes stay unique |
| `Tables.TableRegistry.GetTablesStatus` | controllers/tableController.js:48-71 | exactly the tables whose status equals the parameter, with their count; an empty answer is still 200 |
| `Tables.TableRegistry.ChangeTableStatus` | controllers/tableController.js:76-101 | 404 and no change for an unknown id; otherwise only that table's status changes, to any string, and the updated table is returned |
| `Tables.TableRegistry.DeleteTable` | controllers/tableController.js:106-120 | the table is removed if stored; 200 either way |
| `Tables.SharedNumberScenario` | models/tableModel.js:4-7 | two tables with the same number are both created |
| `Tables.OffEnumStatusScenario` | controllers/tableController.js:78-82 | a status outside the enum is stored by the update |
| `ImageIds.LastSegment` | middlewares/cloudinaryMiddleware.js:40-42 | the result is the longest suffix of the URL with no "/": the whole URL, or the text after its last "/" |
| `ImageIds.StripExtension` | middlewares/cloudinaryMiddleware.js:43 | the result is a prefix of the segment |
| `ImageIds.ExtensionIsUnique` | middlewares/cloudinaryMiddleware.js:43 | the pattern `\.\w+$` can match at one position at most |
| `ImageIds.StripExtensionIsTheReplacement` | middlewares/cloudinaryMiddleware.js:43 | where the pattern matches, the text from its dot on is removed; where it does not, the segment is kept |
| `ImageIds.PublicId` | middlewares/cloudinaryMiddleware.js:40-43 | starts with "images/", the rest has no "/" and is a prefix of the last segment; a URL ending in "/" gives exactly "images/" |
| `ImageIds.ExamplePhoto` | middlewares/cloudinaryMiddleware.js:40-43 | a URL ending in "photo.jpg" gives "images/photo" |
| `ImageIds.ExampleDoubleExtension` | middlewares/cloudinaryMiddleware.js:43 | "a.tar.gz" loses only ".gz" |
| `ImageIds.ExamplesKept` | middlewares/cloudinaryMiddleware.js:43 | "photo.", "a.b-c" and "photo" are kept |
| `Guards.ReplaceFirst` | middlewares/adminMiddleware.js:13 | only the first occurrence of the pattern, wherever it stands, is replaced; a header with no "Bearer " is kept as it is |
| `Guards.StripsLeadingBearer` | middlewares/adminMiddleware.js:13 | a header starting with "Bearer " loses exactly that prefix |
| `Guards.ChooseToken` | middlewares/adminMiddleware.js:10-13 | the header is needed, and missing, exactly when neither the cookie nor the body token is truthy |
| `Guards.TokenPrecedence` | middlewares/adminMiddleware.js:10-13 | the cookie if truthy, else the body token if truthy, else the header with its first "Bearer " removed; only the header can yield an empty token |
| `Guards.RequireAdmin` | middlewares/adminMiddleware.js:8-44 | passes, attaching the looked-up record, exactly when a non-empty token verifies and its account is found with role "admin"; 403 exactly when the token verifies and the account is absent or not an admin; 401 exactly when the token is empty, fails verification or the lookup fails; the exception escapes exactly when no token source is present |
| `Guards.RequireAuth` | middlewares/adminMiddleware.js:46-73 | passes exactly when a non-empty token verifies, attaching its payload; every refusal is 401, never an escape |
| `Guards.RequireStaff` | middlewares/adminMiddleware.js:75-107 | passes, attaching the staff record, exactly when the token verifies and the record is found with access level chef, waiter or accountant; 403 exactly when the token verifies and the record is absent or has another level; 401 exactly when the header is missing, the token fails verification or the lookup fails; never escapes |
| `Guards.ExpiredAtInMilliseconds` | middlewares/adminMiddleware.js:124 | `exp < now / 1000` holds exactly when `exp * 1000 < now` |
| `Guards.CheckTokenExpiration` | middlewares/adminMiddleware.js:110-143 | not expired (200) exactly when a non-empty token verifies and its expiry is not before now; otherwise expired with 401 |
| `Guards.NoTokenAnywhere` | middlewares/adminMiddleware.js:10-80 | with no cookie, body token or header, requireAdmin escapes while requireAuth, requireStaff and checkTokenExpiration answer 401 |
| `Feedbacks.Patched` | controllers/feedbackController.js:132-138 | each field the body carries replaces the stored one; the image is the one chosen before the update |
| `Feedbacks.UserOverrideCanDuplicate` | controllers/feedbackController.js:132-138 | an update body naming another user can leave that user with two feedbacks |
| `Feedbacks.FeedbackStore.GiveFeedback` | controllers/feedbackController.js:10-48 | 400 and no change when the caller already has feedback; otherwise one feedback with the uploaded URL is appended (200), or the upload's 400/500 stands with no change; at most one per user is preserved |
| `Feedbacks.FeedbackStore.GetAllFeedbacks` | controllers/feedbackController.js:53-76 | every feedback, newest first |
| `Feedbacks.FeedbackStore.GetFeedback` | controllers/feedbackController.js:80-103 | the first feedback of the user in storage order, or 404 exactly when there is none |
| `Feedbacks.FeedbackStore.UpdateFeedback` | controllers/feedbackController.js:108-152 | 404 and no change without feedback; without a new file the image is kept; with one the old image's public id is destroyed first, then the new URL is stored (200) or, if the upload fails, nothing else changes (500); at most one per user is preserved unless the body names another user |
| `Feedbacks.FeedbackStore.DeleteFeedback` | controllers/feedbackController.js:157-181 | 404 and no change without feedback; otherwise the old image's public id is destroyed and only that feedback is removed; at most one per user is preserved |

## Left out

- Concurrency between the awaits of a handler (two `addItemToCart` calls losing an update, for one): each handler is one sequential step.
- Store failures are not modelled, except the second write of `placeOrder` and of `addOrder`, where the step order matters. Malformed ids (a cast error before any lookup) are not modelled either: ids are abstract naturals.
- The Socket.IO transport: `io.emit` is an append to `Orders.Store.events`. The `io` import from `app.js` has no matching export; the model treats it as present.
- Population of `products.product` is the identity. A product deleted from the catalogue would populate as null and make the archive save fail; that case is not modelled.
- Several carts: `Cart.findOne()` takes the first cart, and the model holds one optional cart. The schema's strict mode strips a `product` key from pushed items, so in the deployed code cart items lack a product and `placeOrder` fails with 500. The model keeps the product as an optional input so that both outcomes are covered.
- Orders.Store.PlaceOrder: whether the per-user cart lookup finds the cart is an input (`cartFound`). The cart schema has no `user` field, so the outcome depends on the store's strict-query setting.
- Orders.Store.UpdateOrderStatus: a missing `status` in the body (undefined assigned to the field) is not modelled; the status is always a string. The same holds for `UpdatePaymentStatus` and `ChangeTableStatus`.
- Numbers: prices, totals, quantities, ratings and table numbers are integers. JavaScript numbers are floating point, and `checkTokenExpiration` divides in floating point; the model divides exactly.
- Values of the wrong JSON type in request bodies (a number where a string is expected, an object token): every field has one type here.
- models/feedbackModel.js is not part of this model: a feedback holds the fields the handlers write, and saving one always succeeds.
- Image upload and destruction are network calls. An upload is an input outcome; a destruction is recorded as the public id sent. The failure path of `deleteImage`, whose handler refers to an undefined `res`, is not modelled.
- Feedbacks.FeedbackStore.GiveFeedback: after `uploadImage` has answered 400 or 500, the handler's own catch tries to answer a second time. Only the first answer is modelled.
- Guards.RequireStaff: an empty token is passed to `verify`, like any other. The real verifier rejects it; the model leaves that to the `verify` parameter.
- Token signing, bcrypt, payments, product CRUD, mail and the route wiring are not part of this model.
