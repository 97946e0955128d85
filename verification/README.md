# SafarMeal identity and access control, modelled in Dafny

SafarMeal is an Express/Mongoose food-ordering API. This project models its
identity and access-control core over an in-memory store. The store holds
three collections (users, shops, items) keyed by ObjectId, in the class
`Store.Db`. The model covers:

- the account handlers: signup, signin, updateuser, deleteUser;
- the password-reset flow: forgotpassword, then verifyOtp, then
  resetpassword, around a one-time passcode (OTP);
- the authentication gate `Auth` and `adminMiddleware`;
- the shop handlers and addItem;
- the user and item record schemas.

Modules follow the source files:

| module | file | source |
|---|---|---|
| `UserModel` | usermodel.dfy | Models/usermodel.js |
| `ItemModel` | itemmodel.dfy | Models/itemmodel.js |
| `ShopModel` | shopmodel.dfy | the shop record, inferred from the controllers |
| `Store` | store.dfy | the collections and their invariants |
| `UserController` | usercontroller.dfy | Controllers/usercontroller.js |
| `RequireAuth` | requireauth.dfy | Middleware/requireauth.js |
| `ShopController` | shopcontroller.dfy | Controllers/shopcontroller.js |
| `ItemController` | itemcontroller.dfy | Controllers/itemcontroller.js |
| `Sessions` | sessions.dfy | signup/signin tokens against the gate |
| `Platform`, `Text`, `Decimal`, `Wrappers` | | collaborators and JS string/number helpers |

Handlers that change the store are methods with `modifies db`. Their
`ensures` state the reply and the whole new state, and `Db.Valid()` is kept
as an invariant. The invariant has four parts:
- ids come from one counter;
- e-mails are unique;
- the two reset fields are set and cleared together;
- every id in a shop's `items` names an item of that shop. This part holds
  only for the update bodies the model admits; see "## Left out".

Handlers that only read are functions of the collections, except
getallshop. getallshop is the method `GetAllShops`, which reads the `Db`
object and changes nothing. Each handler returns the HTTP status and message
the source sends.

Collaborators are parameters, carried by `Platform.Env`:
- bcrypt hashing is `hash(password, salt)`;
- `jwt.sign` and `jwt.verify` are `sign` and `verify`, with the time passed
  explicitly;
- Joi's e-mail rule is `isEmail`;
- there are two secrets. `configSecret` is the configuration module's
  `JWT_SECRET`, used by signup and by `Auth`. `envSecret` is
  `process.env.JWT_SECRET`, used by signin, and may be unset. jsonwebtoken
  refuses an empty secret. Signing with one throws, and verifying with one
  fails as an invalid token.

The random draw, the bcrypt salt and the clock (`now`, in milliseconds) are
inputs. `ObjectId.isValid` and Mongoose's id cast are the `RawId` datatype.
`Platform.HonestCodec` states the assumed laws of jsonwebtoken; only the
lemmas in `Sessions` require them.

The code is modelled as written, including these behaviours:
- signin never compares the password;
- signin signs with `process.env.JWT_SECRET` and fails with 500 when it is
  unset or empty;
- signup with an empty configuration secret saves the user and then answers
  500, because signing throws after the save;
- adminMiddleware reads `usertype`, which no record has, so it refuses every
  user, admins included;
- signup without a role passes Joi but fails the schema's required role on
  save (500);
- updateuser and deleteUser check no identity: the routes run `Auth` only,
  so any authenticated caller can change or delete any account. The
  deleteUser route's comment promises "Admin or Same User";
- updateuser can change `role` and `email`. A malformed id or an e-mail held
  by another user gives 500. Its reply includes the password digest and any
  stored reset code and expiry;
- resetpassword accepts any non-empty new password;
- the phone is stored as a Number, so a leading zero is lost;
- updateshop has no ownership check and applies no schema, so `owner` can be
  reassigned;
- the shop routes mount no `Auth`, so addshop ends in 401 and deleteshop in
  500 once validation passes;
- addItem picks the requester's shop by owner and ignores the route's
  `shopId`;
- deleting a user or a shop cascades to nothing.

verifyOtp and resetpassword query `resetPasswordExpires: { $gt: Date.now() }`,
so a code is valid only while `now < expiry`.

## Model

| member | source | states |
|---|---|---|
| `UserModel.ParseRole` | Models/usermodel.js:9-13 | a string is accepted as a role exactly when it is "user", "shop" or "admin", and then it is that role's name |
| `UserModel.ParseRoleName` | Models/usermodel.js:9-13 | every role's name parses back to the same role |
| `UserModel.UserDocument` | Models/usermodel.js:3-19 | a stored user document has exactly `_id`, the five required fields, and each reset field only when it is set |
| `UserModel.StoredPhone` | Models/usermodel.js:6 | the Number stored for a validated 10-digit phone is below 10^10; `PhoneReadBack` and `StoredPhoneInjective` state what it keeps |
| `UserModel.PhoneReadBack` | Models/usermodel.js:6 | the Number stored for a validated 10-digit phone prints back as the submitted string exactly when it has no leading '0' |
| `UserModel.StoredPhoneInjective` | Models/usermodel.js:6 | two different valid phones are stored as different numbers, so only the leading zero is lost |
| `UserModel.WithoutPassword` | Middleware/requireauth.js:36 | `select("-password")` removes exactly the password key and keeps every other field's value |
| `ItemModel.CategoriesAreFourteen` | Models/itemmodel.js:13-32 | there are exactly fourteen distinct category names, and each category's name parses back to it |
| `ItemModel.ParseCategory` | Models/itemmodel.js:13-32 | a category string is accepted exactly when it is one of the fourteen names, and maps to the category of that name |
| `ItemModel.ParseFoodType` | Models/itemmodel.js:33-37 | a food type is accepted exactly when it is "veg" or "non-veg", and maps to the type of that name |
| `ItemModel.CategoryName` | Models/itemmodel.js:13-32 | every category's name is one of the schema's fourteen strings |
| `Decimal.Render` | Controllers/usercontroller.js:269 | `toString` of the integers the program prints (six-digit codes, ten-digit phones, all below 1e21, where JavaScript switches to exponent notation) gives digits that read back as that integer, with no leading zero and the minimal length |
| `Text.Split` | Middleware/requireauth.js:15 | `split(" ")` yields at least one field, at least two when the string has a space, and no field contains the separator |
| `Text.JoinSplit` | Middleware/requireauth.js:15 | joining the fields of a split gives back the original header |
| `Text.SplitJoin` | Middleware/requireauth.js:15 | splitting a join of space-free fields gives back the fields |
| `UserController.CheckSignup` | Controllers/usercontroller.js:8-16 | a signup body passes exactly when: there are no unknown keys; username is non-empty; phone is 10 ASCII digits; email passes the e-mail rule; password has at least 6 UTF-16 code units (JavaScript `length`, so a character outside the Basic Multilingual Plane counts twice); role, if given, is one of the three names. The form carries those values, with the phone as its Number |
| `UserController.CheckUpdate` | Controllers/usercontroller.js:23-31 | an update body passes exactly when every field it does supply satisfies the signup rule for that field, lengths counted in UTF-16 code units as for signup, and it has no unknown keys |
| `UserController.Signup` | Controllers/usercontroller.js:33-166 | it refuses an invalid body (400) or a registered e-mail (400 "User Already Exist"); in both cases the store is unchanged. A missing role gives 500 with nothing inserted. Otherwise it inserts exactly one record under a fresh id, whose password is `hash(password, salt)`. With an empty configuration secret the record stays and the reply is 500. Otherwise the reply is 201 with a summary without the password and a token `sign({id, role}, configSecret, now, 7 days)` |
| `UserController.Signin` | Controllers/usercontroller.js:168-192 | a body the signin schema refuses gives 400 with the schema error (the password needs at least 6 UTF-16 code units). Then 400 "Invalid email or password" exactly when no user has the validated e-mail. With an unset or empty `process.env.JWT_SECRET` it gives 500. Otherwise 200 with that user's id and role and a token `sign({id, email, role}, envSecret, now, 1 day)` |
| `UserController.SigninIgnoresPassword` | Controllers/usercontroller.js:173-181 | once the body passes validation, changing the password changes nothing in signin's outcome |
| `UserController.ApplyUpdate` | Controllers/usercontroller.js:202-211 | each supplied field overwrites the stored one. A supplied password is stored as its hash. Unsupplied fields and both reset fields keep their values |
| `UserController.UpdateUser` | Controllers/usercontroller.js:194-224 | invalid body 400; malformed id 500; unknown id 404; an e-mail held by another user 500. Each failure leaves the store unchanged. On 200 only that user's record changes, to `ApplyUpdate`, and the reply returns the whole document |
| `UserController.DeleteUser` | Controllers/usercontroller.js:252-266 | malformed id 500; unknown id 404. On 200 exactly that user is removed, and shops and items are untouched |
| `UserController.GenerateOtp` | Controllers/usercontroller.js:268-270 | for a draw in [0, 1) the code is six ASCII digits with no leading zero, denoting a number in 100000..999999 |
| `UserController.SixDigitsRender` | Controllers/usercontroller.js:269 | every number from 100000 to 999999 prints as exactly six digits |
| `UserController.IssueOtp` | Controllers/usercontroller.js:281-283 | issuing a code keeps the set of users |
| `UserController.ConsumeOtp` | Controllers/usercontroller.js:343-347 | consuming a code keeps the set of users |
| `UserController.OtpMatches` | Controllers/usercontroller.js:310-314 | the reset query `{ email, resetPasswordOTP, resetPasswordExpires > now }` only ever matches a registered e-mail |
| `UserController.OtpQueryReadsOneUser` | Controllers/usercontroller.js:332-336 | with unique e-mails, the query for a user's e-mail matches exactly when that user's stored code is the given one and its expiry is strictly after now |
| `UserController.IssuedOtpWindow` | Controllers/usercontroller.js:279-283 | after a code is issued at t0, the reset query for that user's e-mail matches exactly the new code, and only while now < t0 + 600000. An earlier code no longer matches |
| `UserController.IssueOtpLeavesOthers` | Controllers/usercontroller.js:276-283 | issuing a code for one user changes no query for any other e-mail |
| `UserController.ConsumedOtpNeverMatches` | Controllers/usercontroller.js:343-345 | after a reset, no code matches that user's e-mail at any time: the code is single-use |
| `UserController.OtpUpdatesKeepInvariants` | Controllers/usercontroller.js:281-283 | storing a code, or replacing the password and clearing the code, keeps every e-mail unique and the two reset fields set or cleared together |
| `UserController.ForgotPassword` | Controllers/usercontroller.js:272-301 | an unknown e-mail gives 404 and no change. Otherwise 200: the store becomes `IssueOtp` with the generated code and expiry now + 600000, overwriting any earlier code and touching nothing else |
| `UserController.VerifyOtp` | Controllers/usercontroller.js:303-324 | a missing or empty e-mail or code gives 400. Otherwise 200 exactly when some user has that e-mail and that code with an expiry strictly after now; it is read-only |
| `UserController.ResetPassword` | Controllers/usercontroller.js:325-364 | missing fields give 400; no match gives 400 "Invalid or expired OTP"; both leave the store unchanged. 200 happens exactly under verifyOtp's match. The store then becomes `ConsumeOtp` with the new password's hash, after which no code matches that e-mail |
| `Platform.Utf16Length` | Controllers/usercontroller.js:14 | the `length` that Joi's `min(n)` compares lies between the number of characters and twice it, and equals the number of characters exactly when every character lies in the Basic Multilingual Plane |
| `UserController.ThreeAstralCharactersArePassword` | Controllers/usercontroller.js:14 | a password of three emoji outside the Basic Multilingual Plane has six UTF-16 units, so the password rule accepts it |
| `Platform.ExpiresAt` | Controllers/usercontroller.js:56-58 | a token's `exp` is its issue time rounded down to whole seconds, plus the lifetime |
| `Store.Db.NewId` | Controllers/usercontroller.js:44-52 | a new document gets an id no collection holds yet, and the counter advances past it |
| `RequireAuth.ExtractToken` | Middleware/requireauth.js:14-16 | a header without the "Bearer " prefix is the token itself; after the prefix, the token contains no space |
| `RequireAuth.BearerTokenIsNextField` | Middleware/requireauth.js:14-16 | for a "Bearer " header, the token is the text after the prefix up to the next space |
| `RequireAuth.BearerRoundTrip` | Middleware/requireauth.js:14-20 | a space-free token sent as "Bearer <token>", alone or followed by more fields, is extracted unchanged |
| `RequireAuth.AttachedUser` | Middleware/requireauth.js:36-41 | the attached `req.user` has no password and carries the user's role |
| `RequireAuth.Authenticate` | Middleware/requireauth.js:5-47 | a missing header, an empty token, an expired token, an invalid token and an unknown user each give 401 with their own message. Otherwise it calls `next` once, with the live record minus the password |
| `RequireAuth.AdminGate` | Middleware/requireauth.js:50-60 | no user gives 401. It calls `next` exactly when `usertype` is "admin", and gives 403 otherwise |
| `RequireAuth.AdminGateRefusesEveryAttachedUser` | Middleware/requireauth.js:55 | every user `Auth` attaches, an admin included, is refused by the admin gate with 403 |
| `RequireAuth.GetAllUsersGate` | Routes/userroutes.js:28 | no request gets through Auth and then adminMiddleware to the user listing; an authenticated one gets 403 |
| `Sessions.SignupTokenAuthenticates` | Controllers/usercontroller.js:53-59 | with a non-empty configuration secret, a signup token sent before its expiry lets in the live record of its user, for as long as the user exists |
| `Sessions.SignupTokenExpires` | Middleware/requireauth.js:24-33 | from its `exp` on, the signup token is refused with 401 "Token expired. Please login again" |
| `Sessions.DeletedUserLockedOut` | Middleware/requireauth.js:36-39 | an unexpired token whose user was deleted gives 401 "User not found" |
| `Sessions.EmptyConfigSecretAdmitsNobody` | Middleware/requireauth.js:24-33 | with an empty configuration secret, the gate stops every request, and every request carrying a token gets 401 "Invalid token" |
| `Sessions.SigninTokenNeedsSharedSecret` | Controllers/usercontroller.js:177-181 | for a non-empty `process.env.JWT_SECRET`, a signin token always gives "Invalid token" when the two secrets differ. When they are equal it lets its user in until it expires |
| `ShopController.AddShop` | Controllers/shopcontroller.js:24-63 | it checks in order: body validation (400; the name needs at least 2 UTF-16 code units), then an image (400), then a user (401), and each failure changes nothing. On 201 it inserts one shop under a fresh id, owned by the requester, with the file path as image and no items |
| `ShopController.WithUpload` | Controllers/shopcontroller.js:74 | an uploaded file's path replaces `image` in the update body; no other field changes |
| `ShopController.ApplyPatch` | Controllers/shopcontroller.js:76-78 | each modelled body field that is present, `owner` included, overwrites the stored one. The item list is kept, because the modelled body has no `items` field (see "## Left out") |
| `ShopController.UpdateShop` | Controllers/shopcontroller.js:67-94 | a malformed id gives 400 before any store access. An `owner` that is not an ObjectId gives 500, and an unknown id gives 404; neither changes anything. On 200 only that shop changes, to `ApplyPatch`. There is no ownership check |
| `ShopController.ViewOf` | Controllers/shopcontroller.js:105-108 | the populated owner is present exactly when the owner still exists, and then carries the owner's id and e-mail |
| `ShopController.GetShopById` | Controllers/shopcontroller.js:98-120 | a malformed id gives 400 and an unknown id gives 404. Otherwise 200 with the shop and its populated owner |
| `ShopController.KeysBelow` | Controllers/shopcontroller.js:126 | lists exactly the stored ids below the bound, strictly increasing; listing by id is the model's choice of order |
| `ShopController.ViewsOf` | Controllers/shopcontroller.js:126-129 | one populated view per listed id, in the same order |
| `ShopController.GetAllShops` | Controllers/shopcontroller.js:124-140 | `total` equals the number of shops returned, which equals the number stored. Every shop appears exactly once, listed by id (an order the source does not fix) |
| `ShopController.ListingCoversShops` | Controllers/shopcontroller.js:126-134 | the listing has one entry per stored shop and covers them all |
| `ShopController.DeleteShop` | Controllers/shopcontroller.js:144-170 | a malformed id gives 400 and a missing user gives 500. A shop is removed exactly when both its id and its owner match the requester; otherwise 404 "Shop not found or not owned by you", and the store is unchanged. With an id and a requester, the new table is `AfterDelete` of the old one |
| `ShopController.DeleteRemovesAtMostOneOwnedShop` | Controllers/shopcontroller.js:151-154 | an owner-scoped delete removes at most one shop, only one the requester owns, and leaves every other shop as it was |
| `ItemController.CheckItem` | Controllers/itemcontroller.js:7-28 | an item body passes exactly when: the name is non-empty; a price is given; the category is one of the fourteen names; foodtype is "veg" or "non-veg"; there are no unknown keys |
| `ItemController.AppendKeepsItemsInShops` | Controllers/itemcontroller.js:73-74 | appending a fresh item's id to its shop keeps every listed id pointing at an item of that shop, and earlier entries are unchanged |
| `ItemController.AddItem` | Controllers/itemcontroller.js:39-88 | an invalid body gives 400 and a missing image or path gives 400, both before the store is read. A requester with no shop gives 404. Each failure changes nothing. On 201: the new item's shop is owned by the requester, whatever the route's shopId; its fields come from the body and the file path; that shop's `items` grows by exactly the new id, at the end |

## Left out

- Sending e-mail: the helper catches its own errors, so signup, forgotpassword and resetpassword behave as if every send succeeds.
- bcrypt, jsonwebtoken and Joi's e-mail rule are parameters. Their internals (salting and cost, HMAC and base64, time claims other than `exp`, address syntax) are not modelled.
- The clock, `Math.random` and floating point: time is an integer input, and the random draw is a real in [0, 1).
- Concurrency: the model is sequential. Two resets racing on one code are not modelled.
- getuserById, getallusers and authverify are not modelled; they only read and echo records. `GetAllUsersGate` shows the listing is unreachable behind its gates.
- Routes: the only modelled route facts are that the shop routes carry no `Auth` (`requester` is then `None`) and that the item routes do (`AddItem` takes a requester). The server mounts only the user router; that is not modelled.
- Exceptions other than those named above reach each handler's catch (500). Store failures, a token whose `id` is not an ObjectId, and a `req.body` that is not an object are not modelled.
- Body values are strings (or a number for `price`). Joi type errors and Mongo query operators sent as body values are not modelled.
- forgotpassword is modelled with a present e-mail. An absent e-mail is left to Mongoose's handling of an `undefined` filter value, which is not modelled.
- The shop schema file is not part of this model. The shop's fields are the ones the controllers use.
- `ShopController.UpdateShop`: the modelled update body has no `items` field. In the source, updateshop passes the raw body to `findByIdAndUpdate` with no `Auth` and no schema. A body carrying `items` replaces that list, so `Store.ItemsBelongToShops` (part of `Db.Valid()`) is a property of the model, not a guarantee of the program.
- `ShopController.GetAllShops`: `Shop.find()` without a sort promises no order. The model lists shops by increasing id; that order is its own choice, and only the set of shops and `total` are claims about the source.
- `Platform.HonestCodec`: an assumption about jsonwebtoken, not proved. For a non-empty key, a token decodes until its `exp`, is expired from then on, is invalid under any other key, and is non-empty with no space. Verifying with an empty key is invalid. Only the lemmas in `Sessions` require it.
- `createdAt`, `updatedAt`, `__v` and `populate` beyond the shop owner's id, username, e-mail and phone are not modelled.
- `UserController.IssueOtp` and `UserController.ConsumeOtp`: their own contracts state only that the set of users is kept. What they do to the reset fields is stated by `IssuedOtpWindow`, `IssueOtpLeavesOthers` and `ConsumedOtpNeverMatches`, and by the method contracts that use them.
