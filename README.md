# Food-delivery back end and pages, modelled in Dafny

This project models the core of a food-delivery web application: a Next.js site whose
route handlers read and write a relational store through Prisma, take payments through
Stripe, and authenticate users with credential sign-in and one-time codes (OTPs). The model covers:

- **Store.** The application's tables (users, restaurants, menu items, orders with their
  item snapshots, OTP records) are maps inside one class, `Store.Db`. Its invariant
  `Valid()` holds the id counter bounds, unique email/username/phone columns, at most
  one restaurant per owner, and orders that reference existing rows.
- **Handlers.** Every state-changing route handler is a method on the store (`Post`).
  It `modifies` the store, returns a response datatype carrying the HTTP status, and is
  proved against a specification function of the old tables where the rules are intricate
  (`EmailVerify.Verify`, `OtpVerify.VerifyOtp`, `ResetPassword.Reset`, `Webhook.Reconcile`).
- **Read-only routes.** The search, listing, city and order-history routes are ghost
  functions. Their result is characterised by a predicate: the right rows, in the order
  the query asks for, projected to the selected fields.
- **Validators and gates.** The username rule, the password policy, the email patterns,
  the form schemas, credential sign-in with the token/session callbacks, and the
  middleware's public-path decision are pure functions.
- **Search page.** The client-side search page is a class holding the page's state. Its
  in-place sort is an insertion sort on an array, proved equal to a stable sort by key.
- **Owner page.** The owner's page (restaurant form and menu editor) is a small class over
  the menu list, plus pure functions for its validation and submission.

Modelling conventions:

- Money is integer pence.
- Ids are natural numbers from one counter.
- A JSON request body is `Json<T>`: the decoded value, or `NotJson` when `request.json()` throws.
- The clock, Stripe's answer and the mail server's answer are parameters.
- The bcrypt hash is an ideal injective `Hash` with `Matches(p, d) <==> d == Hash(p)`.
- `Math.random` OTPs are a nondeterministic choice in [100000, 999999].

Where the application's documented behaviour and its code disagree, the model follows the code:

- the stored order total is the client-supplied `totalAmount`, never recomputed;
- item quantities are not checked;
- no order-status transition graph exists: creation writes `pending_payment` and the
  payment webhook writes `paid` over any status.

## Model

| member | source | states |
|---|---|---|
| Store.ParseStatus | src/app/orders/page.tsx:63-100 | the six status strings are exactly the names of the six order states; any other string parses to nothing |
| Store.Db.InsertOrder | src/app/api/checkout/route.ts:60-96 | an order insert takes the next id, adds exactly that row, keeps the store invariant and leaves every other table unchanged |
| Store.Db.UpdateUser | src/app/api/checkout/route.ts:99-109 | replacing a user row that keeps its unique columns keeps the store invariant and changes no other table |
| Store.UserWithEmail | src/app/api/auth/verify/route.ts:27-29 | `findUnique` by email: when some user has the email, the chosen id is a user with it |
| Store.EmailOwner | src/app/api/auth/verify/route.ts:27-29 | with unique emails, the user found by email is the only user carrying it |
| Store.Projected | src/app/api/restaurants/route.ts:15-31 | a `select` over listed rows (used by the listing and the search): one projection per id, in the ids' order, of that id's row |
| Auth.Profile | src/lib/auth.ts:42-49 | the signed-in user object carries id, email, role and isVerified of the row, name is the username, isAdmin iff role is "admin", and it has no password field |
| Auth.Authorize | src/lib/auth.ts:14-50 | sign-in succeeds iff email and password are both non-empty, a user has that email and the password matches its hash; isVerified is not consulted; every failure is the same error |
| Auth.OwnPasswordSignsIn | src/lib/auth.ts:20-49 | a user who types their own password signs in, unverified or not, and receives their profile |
| Auth.WrongPasswordRefused | src/lib/auth.ts:35-37 | any other password for an existing email gets the same "Invalid credentials" error as an unknown email |
| Auth.Token.Jwt | src/lib/auth.ts:61-67 | with a signed-in user the token takes its id and role; without one the token is unchanged |
| Auth.Session.FromToken | src/lib/auth.ts:68-74 | when the session has a user, its id and role become the token's; otherwise the session is unchanged |
| Auth.SignIn | src/lib/auth.ts:14-74 | the sign-in result is `Authorize` of the stored users, and after a successful sign-in both the token and the session user carry that user's id and role; a refused sign-in leaves token and session unchanged, and the token's name and email and the session's expiry are always kept |
| Middleware.Gate | src/middleware.ts:13-37 | a redirect happens iff there is no token and the path is not exactly one of the public paths, and it always goes to the login page |
| Middleware.RedirectTargetIsPublic | src/middleware.ts:13-30 | the login page itself passes the gate, so a redirected request is never redirected again |
| Middleware.NoPrefixMatching | src/middleware.ts:13-15 | membership is exact: the login path with a trailing slash and a sub-path of a public page are both gated |
| Middleware.Handle | src/middleware.ts:41-45 | paths the matcher excludes always pass through; matched paths get the gate's decision |
| Middleware.ApiNotGated | src/middleware.ts:41-44 | every path under `/api` passes through whatever the token |
| Middleware.TokenPasses | src/middleware.ts:27-37 | a request with a token is never redirected |
| CheckUsername.BlacklistRedundant | src/app/api/auth/check-username/route.ts:37-40 | the username rule holds iff the pattern of 3 to 20 characters from `[A-Za-z0-9_-]` matches; the second, character-blacklist test never rejects anything the pattern accepted |
| CheckUsername.TrimKeepsValid | src/app/api/auth/check-username/route.ts:53 | trimming a valid username gives the same username |
| CheckUsername.NameTaken | src/app/api/auth/check-username/route.ts:56-59 | the lookup answers exactly whether some user has the username |
| CheckUsername.Respond | src/app/api/auth/check-username/route.ts:42-70 | the handler as written: a body that is not JSON gets 500, a missing or invalid username gets 400, and every valid one gets 500 because the `fill` call on a string throws |
| CheckUsername.RespondIntended | src/app/api/auth/check-username/route.ts:42-70 | the handler without the throwing call: 500 for a body that is not JSON, 400 for missing or invalid usernames, otherwise available iff no user has the name |
| CheckUsername.FillThrowsOnValidName | src/app/api/auth/check-username/route.ts:62 | for the valid name "alice" on an empty store, the intended answer is "available" while the handler as written answers 500 |
| Signup.StoredPhone | src/app/api/auth/signup/route.ts:49-57 | the stored phone is the sent string when one is sent, and null otherwise |
| Signup.NewUser | src/app/api/auth/signup/route.ts:60-78 | the new row is unverified, has role "user" and the issued OTP, copies email and username, and stores a hash that matches the password rather than the password itself |
| Signup.InsertUserKeepsValid | src/app/api/auth/signup/route.ts:33-78 | inserting a user whose email, username and phone are all free keeps the store invariant, with unique columns preserved |
| Signup.Insert | src/app/api/auth/signup/route.ts:66-78 | the insert takes the next id, adds exactly that user and changes no other table |
| Signup.Post | src/app/api/auth/signup/route.ts:17-106 | a body that is not JSON gets 500 with nothing written; invalid bodies get 400; then email, username and (when sent) phone conflicts get 409 in that order; an account is created iff all checks pass, holding a 6-digit OTP from [100000, 999999] and a password hash, with a summary that omits password and OTP; every failure leaves the store unchanged |
| EmailVerify.Confirmed | src/app/api/auth/verify/route.ts:46-52 | verification sets isVerified and clears the OTP, and changes no other field |
| EmailVerify.Verify | src/app/api/auth/verify/route.ts:16-59 | success iff the body is a valid email with a 6-character code, the user exists, is not yet verified and holds that code; only success changes the user table, and it changes only that user |
| EmailVerify.SecondVerifyFails | src/app/api/auth/verify/route.ts:36-52 | after a successful verification, any further valid request for the same email is refused as already verified |
| EmailVerify.Post | src/app/api/auth/verify/route.ts:11-60 | a body that is not JSON gets 500 with nothing written; otherwise the handler's response and new user table are those of `Verify`; no other table changes and the store invariant holds |
| OtpVerify.VerifyOtp | src/app/api/auth/verify-otp/route.ts:4-31 | a missing email is a 500; success iff the user exists and the sent value strictly equals the stored code (no format or already-verified check); success marks the user verified and clears the code; nothing else changes |
| OtpVerify.CodeSingleUse | src/app/api/auth/verify-otp/route.ts:16-24 | a code that verified once is refused when sent again |
| OtpVerify.NullMatchesClearedCode | src/app/api/auth/verify-otp/route.ts:16 | a request whose code is JSON null verifies any user whose code has been cleared |
| OtpVerify.Post | src/app/api/auth/verify-otp/route.ts:4-31 | a body that is not JSON gets 500 with nothing written; otherwise the handler's response and new user table are those of `VerifyOtp`; no other table changes |
| SendOtp.Issue | src/app/api/auth/send-otp/route.ts:33-41 | the upsert leaves one record per email: that email's record gets the new code and an expiry of now plus 15 minutes; every other record is kept |
| SendOtp.ReissueReplaces | src/app/api/auth/send-otp/route.ts:37-41 | issuing twice to the same email is the same as issuing only the second code |
| SendOtp.Post | src/app/api/auth/send-otp/route.ts:6-51 | a body that is not JSON gets 500 with nothing written; a missing email gets 400, a malformed one 400, a registered one 400 with nothing written; otherwise a 6-digit code from [100000, 999999] is upserted and the response depends only on the mail result; the other tables are unchanged |
| ResetPassword.HasAnyIff | src/app/api/auth/reset-password/route.ts:10-16 | the character-class scan finds a character of the class iff one occurs in the password |
| ResetPassword.PasswordPolicy | src/app/api/auth/reset-password/route.ts:10-16 | a password is accepted iff its length is 8 to 30 and it has an upper-case letter, a lower-case letter, a digit and one of `@$!%*?&` |
| ResetPassword.FirstIssue | src/app/api/auth/reset-password/route.ts:7-27 | the body passes the schema iff the email is valid and at most 40 characters, the code has 6 characters and the password passes the policy |
| ResetPassword.Reset | src/app/api/auth/reset-password/route.ts:19-69 | a failed schema check answers with its first message; success iff an OTP record exists, has not expired (now not past expiresAt), holds the sent code and the user exists; success replaces that user's password by the hash and deletes the record; every failure changes nothing |
| ResetPassword.CodeSingleUse | src/app/api/auth/reset-password/route.ts:54-60 | after a successful reset, the next reset for that email finds no OTP record |
| ResetPassword.NewPasswordMatches | src/app/api/auth/reset-password/route.ts:51-57 | after a successful reset, the new password matches the user's stored hash |
| ResetPassword.FreshCodeCannotReset | src/app/api/auth/reset-password/route.ts:54-57 | a code that the send-otp route can issue (only to unregistered emails), used while the user table is as it was at issuance, does not reset a password: the update finds no user and the response is 500 |
| ResetPassword.FreshCodeResets | src/app/api/auth/reset-password/route.ts:30-60 | with codes issued to registered addresses instead, a correct code used in time resets the password of the account with that address, the new password matches, and the record is consumed |
| ResetPassword.SetPasswordKeepsValid | src/app/api/auth/reset-password/route.ts:54-57 | changing only a user's password keeps the store invariant |
| ResetPassword.Post | src/app/api/auth/reset-password/route.ts:19-70 | a body that is not JSON gets 500 with nothing written; otherwise the handler's response and new user and OTP tables are those of `Reset`; no other table changes |
| Checkout.Snapshot | src/app/api/checkout/route.ts:67-85 | the item snapshot exists iff every menu item is in the catalog; it keeps length, order, menu id and quantity (unchecked), and takes each price from the catalog |
| Checkout.ProductLines | src/app/api/checkout/route.ts:112-124 | one payment line per order item, in order, with the item's quantity and its snapshot price as unit amount |
| Checkout.LineItems | src/app/api/checkout/route.ts:112-137 | the payment lines are the product lines followed by exactly one delivery line of quantity 1 |
| Checkout.ChargedAppend | src/app/api/checkout/route.ts:112-137 | the amount charged for two lists of lines is the sum of the two amounts |
| Checkout.ChargedProducts | src/app/api/checkout/route.ts:67-124 | the product lines charge the sum of quantity times catalog price over the cart |
| Checkout.ChargedAmount | src/app/api/checkout/route.ts:112-137 | the customer is charged the catalog cost of the cart plus the delivery price, over items + 1 lines |
| Checkout.Post | src/app/api/checkout/route.ts:23-159 | 401 without a session, then 500 with nothing written for a body that is not JSON, 400 for a malformed cart, 404 for an unknown restaurant, 500 with nothing written when a menu item is missing; otherwise one order is inserted with status `pending_payment`, the buyer, the restaurant, the client's total and the price snapshot; the buyer's address is overwritten only when an address line is given; the payment request carries the line items, success and cancel URLs and metadata naming the new order, and is charged the catalog cost plus delivery |
| Webhook.PaidTarget | src/app/api/webhook/route.ts:27-33 | an event names an order to pay iff it is a completed checkout session carrying an order id |
| Webhook.MarkPaid | src/app/api/webhook/route.ts:36-39 | the named order's status becomes paid whatever it was; no other order or field changes; an unknown id changes nothing (the failed update is swallowed) |
| Webhook.Reconcile | src/app/api/webhook/route.ts:25-45 | other event types and events without an order id change nothing; otherwise exactly the named order is marked paid |
| Webhook.ReconcileIdempotent | src/app/api/webhook/route.ts:36-39 | replaying the same event leaves the orders as after the first delivery |
| Webhook.ReconcileOnlyPays | src/app/api/webhook/route.ts:36-39 | an order either keeps its status or becomes paid, and its other fields never change |
| Webhook.ReconcileKeepsValid | src/app/api/webhook/route.ts:36-39 | reconciliation keeps the store invariant |
| Webhook.Post | src/app/api/webhook/route.ts:12-49 | a signature failure gets 400 with nothing changed; every verified event gets 200 and the orders table becomes `Reconcile` of the old one; other tables are unchanged |
| UserOrders.ItemViews | src/app/api/orders/user/route.ts:29-35 | each item view keeps the item's fields and adds only its menu item's name |
| UserOrders.View | src/app/api/orders/user/route.ts:21-37 | an order view keeps the order's own fields, includes only name and image path of the restaurant and the menu name of each item |
| UserOrders.OrdersOf | src/app/api/orders/user/route.ts:19 | the buyer's orders are exactly the orders whose user id is the buyer |
| UserOrders.CreatedAt | src/app/api/orders/user/route.ts:20 | the sort key of each order is its creation time |
| UserOrders.Views | src/app/api/orders/user/route.ts:18-38 | the listing is the view of each id, in the given order |
| UserOrders.ViewsOfOrdered | src/app/api/orders/user/route.ts:18-38 | the views of the buyer's orders, each once and newest first, form a correct buyer listing |
| UserOrders.Get | src/app/api/orders/user/route.ts:8-44 | 401 iff there is no session; a listing holds exactly the session user's orders, newest first, with the selected fields |
| RestaurantCreate.MenuRows | src/app/api/restaurant/route.ts:61-68 | built one entry at a time: one menu row per entry, with consecutive ids, the entry's name and price, a null description when empty, and category "Main" |
| RestaurantCreate.InsertRestaurantKeepsValid | src/app/api/restaurant/route.ts:35-73 | adding a restaurant for an owner without one, with its menu rows under fresh ids, keeps the store invariant, including one restaurant per owner |
| RestaurantCreate.Insert | src/app/api/restaurant/route.ts:51-73 | the nested create adds exactly the restaurant and its menu rows and leaves users, orders and OTPs unchanged |
| RestaurantCreate.Post | src/app/api/restaurant/route.ts:9-79 | 401 without a session, 400 for a missing field, 500 for malformed menu JSON, 400 when the user already owns a restaurant; otherwise the restaurant is created with the session user as owner plus one menu row per entry; every failure leaves the store unchanged |
| RestaurantList.PageCount | src/app/api/restaurants/route.ts:44 | the page count is the ceiling of total over limit: pages times limit covers the total and one page fewer does not |
| RestaurantList.PageRange | src/app/api/restaurants/route.ts:12-19 | a page starts at `(page - 1) * limit`, cut to the total, and holds at most `limit` rows |
| RestaurantList.PagesDisjoint | src/app/api/restaurants/route.ts:12-19 | two different pages never share a row |
| RestaurantList.RowOnPage | src/app/api/restaurants/route.ts:12-44 | every row lies on some page between 1 and the page count |
| RestaurantList.OpenIds | src/app/api/restaurants/route.ts:16 | the listed and counted restaurants are exactly the open ones |
| RestaurantList.OpenNewestFirst | src/app/api/restaurants/route.ts:15-17 | the open restaurants, each once, newest first |
| RestaurantList.Page | src/app/api/restaurants/route.ts:12-46 | for a positive limit and a page of at least 1, the listing holds the cards of rows `[skip, skip + limit)` of the open restaurants newest first, with the open count as total and the page count |
| RestaurantList.Get | src/app/api/restaurants/route.ts:8-50 | a parameter that is not a number gives 500; a limit of 0 or less gives `NonPositiveLimit`; a positive limit with a page below 1 gives 500 (negative skip); with a positive limit and a page of at least 1 the response is the page slice of the open restaurants newest first, with total, page, limit and the page count |
| RestaurantSearch.NoFilterSelectsAll | src/app/api/restaurants/search/route.ts:24-44 | with empty query and location every restaurant matches |
| RestaurantSearch.RatedMatches | src/app/api/restaurants/search/route.ts:24-44 | the matches are the restaurants whose name or cuisines contain the query and whose city or country contains the location (an empty value imposing nothing), split by whether they are rated |
| RestaurantSearch.RatingKey | src/app/api/restaurants/search/route.ts:61-63 | the order key of each restaurant is its rating |
| RestaurantSearch.Concatenated | src/app/api/restaurants/search/route.ts:47-64 | joining the rated and unrated groups lists every match exactly once |
| RestaurantSearch.CardsOfIds | src/app/api/restaurants/search/route.ts:47-64 | projecting a correct id listing gives a correct search result |
| RestaurantSearch.RatedFirst | src/app/api/restaurants/search/route.ts:61-63 | rated restaurants in descending rating followed by the unrated ones are in rating-descending order with nulls last |
| RestaurantSearch.UnratedFirst | src/app/api/restaurants/search/route.ts:61-63 | the unrated restaurants followed by the rated ones in descending rating are in rating-descending order with nulls first |
| RestaurantSearch.CardsOfGroups | src/app/api/restaurants/search/route.ts:47-64 | ordering the two groups for either null placement gives a correct search result |
| RestaurantSearch.Search | src/app/api/restaurants/search/route.ts:8-70 | 401 iff not signed in; otherwise exactly the matching restaurants, each once, in rating-descending order |
| FetchCities.CitySet | src/app/api/user/search/fetchcities/route.ts:6-10 | the distinct cities are exactly the cities of some restaurant |
| FetchCities.DropEmpty | src/app/api/user/search/fetchcities/route.ts:12 | dropping empty names keeps exactly the non-empty ones and keeps ascending order |
| FetchCities.Get | src/app/api/user/search/fetchcities/route.ts:4-18 | 500 iff the store fails; otherwise every non-empty restaurant city once, in strictly ascending order, and nothing else |
| SearchPage.FlatMap | src/app/search/page.tsx:108-110 | a value occurs in the flattened list iff it occurs in the list of some element |
| SearchPage.Dedupe | src/app/search/page.tsx:111 | the set conversion keeps each value once and loses none |
| SearchPage.AvailableCuisines | src/app/search/page.tsx:108-112 | the cuisine choices are exactly the trimmed comma-separated cuisines of the fetched restaurants, each once, in ascending order |
| SearchPage.SameMembers | src/app/search/page.tsx:111 | sorting the deduplicated list keeps exactly the original values |
| SearchPage.DisplayedCuisines | src/app/search/page.tsx:179 | expanded shows every choice; collapsed shows the first eight (all of them when fewer) |
| SearchPage.KeepMatching | src/app/search/page.tsx:135-137 | keeps exactly the restaurants whose cuisines contain some selected cuisine ignoring case, as a subsequence of the input, with every kept row as often as in the input |
| SearchPage.Filter | src/app/search/page.tsx:134-138 | no filter keeps every restaurant; otherwise exactly the matching ones, in their order |
| SearchPage.Toggle | src/app/search/page.tsx:170-172 | toggling a selected cuisine removes every copy of it; toggling an unselected one appends it |
| SearchPage.ToggleTwice | src/app/search/page.tsx:170-172 | toggling twice restores the set of filters, and the very list when the cuisine was not selected |
| SearchPage.InsertPermutes | src/app/search/page.tsx:141-158 | insertion adds exactly the new element and loses nothing |
| SearchPage.InsertBounded | src/app/search/page.tsx:141-158 | insertion keeps every key under a bound all inputs respect |
| SearchPage.InsertSorted | src/app/search/page.tsx:141-158 | insertion into a key-sorted list keeps it key-sorted |
| SearchPage.StableSortPermutes | src/app/search/page.tsx:141-158 | the sort is a permutation of its input |
| SearchPage.StableSortSorted | src/app/search/page.tsx:141-158 | the sort's output is in key order |
| SearchPage.SortedUnchanged | src/app/search/page.tsx:155-157 | a list already in key order (such as any list under best match) is left as it is |
| SearchPage.InsertAt | src/app/search/page.tsx:141-158 | insertion places the element after the last key not greater and before a run of greater keys |
| SearchPage.InsertInto | src/app/search/page.tsx:143-153 | one in-place step moves `a[i]` left past the greater keys before it, so the prefix becomes the old prefix with the element inserted at the returned position; the rest of the array is unchanged |
| SearchPage.SortStep | src/app/search/page.tsx:143-153 | after one in-place step, the prefix is the stable sort of one more element |
| SearchPage.SortRows | src/app/search/page.tsx:143-153 | `results.sort` on the copied array leaves the stable sort, by the option's key, of its old contents |
| SearchPage.FilterAndSort | src/app/search/page.tsx:129-163 | the effect's result is a permutation of the filtered restaurants in key order: price ascending, time by leading integer ascending, rating descending with null as 0 |
| SearchPage.BestMatchIsFilterOrder | src/app/search/page.tsx:155-157 | under best match the result is the filtered list in its fetched order |
| SearchPage.TotalPages | src/app/search/page.tsx:115 | the page count is the ceiling of the row count over 10 |
| SearchPage.PageSlice | src/app/search/page.tsx:182 | page p shows rows `(p - 1) * 10` to `p * 10`, cut to the list, at most 10 rows |
| SearchPage.PagesFromSuffix | src/app/search/page.tsx:182 | pages p to the last laid end to end give the list from page p's first row |
| SearchPage.PagesPartition | src/app/search/page.tsx:115-182 | pages 1 to the page count laid end to end give back exactly the results |
| SearchPage.SearchState.constructor | src/app/search/page.tsx:54-66 | the initial state: no rows or filters, best match, page 1, collapsed list |
| SearchPage.SearchState.Refresh | src/app/search/page.tsx:129-163 | the effect recomputes the displayed list and the page count and resets the page to 1, keeping rows, filters, option and cuisines |
| SearchPage.SearchState.Loaded | src/app/search/page.tsx:101-116 | a successful fetch stores the rows and their cuisine choices, then the effect recomputes the list and resets the page |
| SearchPage.SearchState.ToggleCuisineFilter | src/app/search/page.tsx:170-172 | the filters become their toggle, the list is recomputed and the page resets to 1 |
| SearchPage.SearchState.SetSortOption | src/app/search/page.tsx:334 | a new option re-sorts and resets the page; choosing the current option changes nothing |
| SearchPage.SearchState.ResetFilters | src/app/search/page.tsx:174-177 | no filters and best match: the displayed list is the fetched rows, page 1 |
| SearchPage.SearchState.Previous | src/app/search/page.tsx:426-431 | the page decreases by one only above page 1 and stays within bounds |
| SearchPage.SearchState.Next | src/app/search/page.tsx:452-457 | the page increases by one only below the page count and stays within bounds |
| SearchPage.SearchState.GoTo | src/app/search/page.tsx:434-443 | a page link sets the page to a number from 1 to the page count |
| SearchPage.SearchState.ToggleShowMore | src/app/search/page.tsx:304 | only the expanded flag flips |
| SearchPage.SearchState.CurrentRestaurants | src/app/search/page.tsx:182 | the shown rows are the slice of the displayed list for the current page: at most 10 rows, all from the displayed list |
| MyRestaurantPage.Rule | src/app/my-restaurant/page.tsx:23-30 | a schema rule reports its message for its field iff the rule fails |
| MyRestaurantPage.FormErrors | src/app/my-restaurant/page.tsx:23-30 | the form has no errors iff name, city and country have at least 2 characters, the delivery price is a number of at least 0, the time is non-empty and a cuisine is chosen; a short name and an empty cuisine list each report their message |
| MyRestaurantPage.NewItemBlocks | src/app/my-restaurant/page.tsx:33-38 | the added blank item fails the menu schema (its name is empty and its price 0), so a menu ending with it cannot be submitted |
| MyRestaurantPage.LoadedDraft | src/app/my-restaurant/page.tsx:119-121 | a stored row loads with its id, name and price, and a null description exactly when stored without one; it passes the item schema iff its name has 2 or more characters, its price is positive and it has a description |
| MyRestaurantPage.LoadedMenuValid | src/app/my-restaurant/page.tsx:33-38 | a loaded menu passes the menu schema iff every stored row has a name of 2 or more characters, a positive price and a description |
| MyRestaurantPage.Edited | src/app/my-restaurant/page.tsx:173-177 | an edit sets one field of the item and keeps the others; typing a description makes it text, never null |
| MyRestaurantPage.SpliceStart | src/app/my-restaurant/page.tsx:169 | `splice`'s start index: clamped to the length, counted from the end when negative |
| MyRestaurantPage.Spliced | src/app/my-restaurant/page.tsx:167-171 | removing at a valid index shortens the list by one and keeps the other items in order; an index past the end changes nothing |
| MyRestaurantPage.SpliceKeepsValid | src/app/my-restaurant/page.tsx:167-171 | removing an item from a valid menu leaves a valid menu |
| MyRestaurantPage.RemoveAddedRow | src/app/my-restaurant/page.tsx:163-171 | removing the item just added restores the menu |
| MyRestaurantPage.MenuEditor.constructor | src/app/my-restaurant/page.tsx:119-121 | the editor starts from the loaded restaurant's menu rows (none when nothing is loaded) |
| MyRestaurantPage.MenuEditor.Add | src/app/my-restaurant/page.tsx:163-165 | adding appends a blank item with price 0 |
| MyRestaurantPage.MenuEditor.Remove | src/app/my-restaurant/page.tsx:167-171 | the menu becomes its splice at the index |
| MyRestaurantPage.MenuEditor.Change | src/app/my-restaurant/page.tsx:173-177 | only the item at the index changes, by the edit; the length is kept |
| MyRestaurantPage.CheckboxChange | src/app/my-restaurant/page.tsx:395-398 | checking appends the cuisine; unchecking removes every copy of it and nothing else |
| MyRestaurantPage.CheckUncheck | src/app/my-restaurant/page.tsx:395-398 | checking then unchecking an unselected cuisine restores the list |
| MyRestaurantPage.LoadedCuisines | src/app/my-restaurant/page.tsx:115 | an empty stored string loads no cuisines; otherwise the comma-split parts |
| MyRestaurantPage.OfferedHaveNoComma | src/app/my-restaurant/page.tsx:46-67 | none of the offered cuisine names is empty or contains a comma |
| MyRestaurantPage.CuisinesRoundTrip | src/app/my-restaurant/page.tsx:46-204 | joining offered cuisines with commas and splitting them on load gives back the same list |
| MyRestaurantPage.Submit | src/app/my-restaurant/page.tsx:187-220 | an invalid form reports its errors; an invalid menu (short name, price under a penny or a null description) blocks the request; otherwise a POST to `/api/restaurant` when no restaurant is loaded, or a PATCH to the owner URL when one is, carrying the joined cuisines and the menu |
| MyRestaurantPage.SubmittedCuisinesReload | src/app/my-restaurant/page.tsx:115-204 | the cuisines a request sends load back as the cuisines the owner chose |
| MyRestaurantPage.LoadedNullBlocks | src/app/my-restaurant/page.tsx:119-194 | a loaded menu with a row stored without a description is refused with the menu error on every submit of a valid form |
| MyRestaurantPage.DescribingUnblocks | src/app/my-restaurant/page.tsx:173-194 | when the only invalid row is one with a null description, typing any description into it turns the refusal into a request |
| MyRestaurantPage.SubmitIntended | src/app/my-restaurant/page.tsx:33-220 | with a schema that also accepts a null description: refuses a menu exactly for a short name or a price under a penny, and agrees with `Submit` on every menu `Submit` accepts |
| MyRestaurantPage.LoadedMenuResubmits | src/app/my-restaurant/page.tsx:119-220 | under that schema a loaded menu whose rows have valid names and prices is sent unchanged, with or without descriptions |
| Ordering.OrderedDesc | src/app/api/orders/user/route.ts:20 | a store-side descending `orderBy`: the given ids, each once, with keys not increasing |
| Ordering.AscendingOf | src/app/api/user/search/fetchcities/route.ts:8-9 | a store-side `distinct` with ascending `orderBy`: the given strings, each once, strictly ascending |
| Ordering.SortAsc | src/app/search/page.tsx:111 | `sort()` on distinct strings: a permutation in strictly ascending character (code-point) order |
| Common.SplitJoin | src/app/my-restaurant/page.tsx:115-204 | splitting a join of parts without the separator gives back the parts |
| Common.SixDigits | src/app/api/auth/signup/route.ts:60 | every code in [100000, 999999] is written with exactly six digits |
| Common.Lower | src/app/search/page.tsx:136 | `toLowerCase` keeps the length and lowers each ASCII capital |

## Left out

- Stripe: creating the checkout session and verifying a webhook signature are foreign calls. The session id is a parameter, and a verified event is an `Option<Event>` (none when verification throws).
- Prisma: the client, connections and `$disconnect` are left out, along with failures of single queries except those the handlers branch on. Tables are maps. `contains` is a plain, case-sensitive substring test.
- Store collation: ordering follows the code-point order of characters, not the database's collation.
- String order: JavaScript's `sort()` compares UTF-16 code units, and the model compares characters (code points); the two differ only between a character above U+FFFF and one in U+E000–U+FFFF.
- Store-side ordering: this is stated as a choice of any order consistent with the key. Ties between equal keys are therefore not fixed.
- bcrypt: hashing and comparison are abstracted to an ideal `Hash`/`Matches`.
- OTP generation: `Math.random` becomes a nondeterministic choice in [100000, 999999].
- Clock: the clock is the parameter `now`, in milliseconds.
- Mail: sending is left out; its success is a parameter (send-otp) or it is omitted (signup's failure does not change the response). Mail sending, image upload, the Cloudinary helper and the JWT helper are not part of this model.
- Floating point: prices and amounts are integer pence, and `Math.round(x * 100)` is the identity. NaN prices are left out apart from the "delivery price is not a number" input case.
- Checkout lookups: the `Promise.all` lookups are sequential. Their results are independent.
- Checkout.Post: the stored total is the client's `totalAmount` as given, and quantities are not checked, as in the code. The model does not state that the total equals the charged amount, because the code does not ensure it.
- Order status: no status-transition graph is modelled, because none exists in the code. The admin and owner routes that change orders are not part of this model.
- Admin routes, the review routes, the per-restaurant and per-order routes, and the owner PATCH route are not part of this model.
- Pages: rendering, React effects, fetch wiring and toasts are left out. The search page's fetch URL is left out. Only the state transitions and the pure computations are modelled.
- SearchPage.Key: an estimated time whose first word does not start with a number makes `parseInt` return NaN, and the comparator then returns NaN. That row is given key 0 here. `parseInt`'s hexadecimal prefix handling is left out.
- SearchPage.SearchState.Loaded: a failed fetch keeps the old state and is not modelled as a separate method.
- Common.Lower: only ASCII letters are lowered. Unicode case mapping is left out.
- String lengths: lengths count characters, not UTF-16 code units.
- Validation messages: only the messages the model needs are given. The other zod messages are abbreviated to their field.
- RestaurantList.Get: a limit of 0 or less is answered by `NonPositiveLimit` rather than the store's behaviour for `take` ≤ 0 and the JSON encoding of an infinite page count.
- Ids: the store's string ids are natural numbers from one counter. A restaurant's default `isOpen` is a parameter.
- Middleware: the matcher's regular expression is modelled on paths without line terminators.
- Signup.Post: the phone number is stored as sent. When the body sends an empty string, the route skips the uniqueness lookup, and the insert then fails on the unique column if another user already stored "". The model states this as a 500.
- JSON bodies: a body that is JSON but not an object (such as `null`) is treated as an object without fields. In the routes that destructure the body (send-otp, verify-otp, check-username) `null` throws instead and gets 500.
- MyRestaurantPage.LoadedDraft: the owner route's other fields of a menu row (restaurant id, category) are dropped, as the schema drops unknown keys; the price is loaded as stored.
- SendOtp.Post, CheckUsername.Respond: the JSON value of `email` and `username` is a string or absent. Numbers, arrays and other JSON values, on which the regular expression test, `trim` or the store query behave differently, are left out.
- Checkout.LineItems: the payment lines are built in cart order. The route builds them from the created order's items as the store returns them, with no `orderBy`, so their order there is not fixed; the amount charged does not depend on it (Checkout.ChargedAmount).
- OtpVerify.VerifyOtp: the JSON value of the code is a string, null or absent. Numbers and other JSON values are left out.

## Findings

| source | as written | input that shows it | evidently intended | confidence | as-written member | corrected member |
|---|---|---|---|---|---|---|
| src/app/api/auth/check-username/route.ts:62 | `fill(0)` is called on the trimmed username, which is a string and has no `fill` method, so every valid username reaches the catch block and gets 500 | body `{"username":"alice"}` | answer 200 with `available` true iff no user has the username | high, not executed | CheckUsername.Respond | CheckUsername.RespondIntended |
| src/app/my-restaurant/page.tsx:37 | the item schema's description is an optional string, which rejects null, but the create route stores a missing description as null (src/app/api/restaurant/route.ts:64) and the page loads those rows as they are: an owner cannot save the restaurant again until they type a description into every such item | a restaurant created with a menu item without a description, reloaded and saved with a valid form | accept a null description, as the route stores it | high, not executed | MyRestaurantPage.LoadedNullBlocks | MyRestaurantPage.SubmitIntended |
| src/app/api/auth/send-otp/route.ts:20-27 | send-otp issues a reset code only to an address with no account, while reset-password updates the account with that address (src/app/api/auth/reset-password/route.ts:54-57), so a correct, unexpired code ends in the failed update and 500 unless an account with that address is created before the code is used; that send-otp is the issuer of reset codes is not confirmed by a caller, as the forgot-password page is not part of this model | send-otp for a new address, then reset-password with the issued code and a valid password, with no sign-up in between | issue codes to registered addresses, so that a correct code resets that account's password | medium, not executed | ResetPassword.FreshCodeCannotReset | ResetPassword.FreshCodeResets |
