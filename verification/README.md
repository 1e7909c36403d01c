# Project-Management authentication and item core, modelled in Dafny

This project models the parts of the Project-Management board/item tracker
that carry real rules, each against an abstract in-memory store:

- **Auth service** (module `Auth`, `auth.dfy`): a user table keyed by id in
  which emails are unique; registration, local login (the password is compared
  only for `LOCAL` accounts), the token check that decodes a bearer token and
  re-confirms that its id still exists, and GitHub login ("create a `GITHUB`
  user for an unseen email, then log in"). The JWT library is a value
  `TokenCodec` of two uninterpreted functions, and the GitHub OAuth handshake
  is a parameter `profile: Option<GitUser>`. The table lives in the class
  `AuthService`, whose creating methods keep the table invariant `WellFormed`
  (records sit under their own id, emails are unique). The read-only lookups
  are functions over the table.
- **Request gatekeeper** (module `TokenFilter`, `token_filter.dfy`): the
  `doFilter` decision as a pure function from the URL, the HTTP method, the
  `Authorization` header, the user table, the codec and the uninterpreted
  `checkTokenIsReal` to an outcome. The outcome either passes the request on,
  with or without an attached user, or rejects it with a status and a body.
- **Board entity** (module `Boards`, `board.dfy`): a class whose role and
  status sets are grown and shrunk in place, with field-level frames.
- **Item service** (module `Items`, `items.dfy`): a class over the item table
  that creates, deletes and re-types items.
- **Item controller** (module `ItemController`, `item_controller.dfy`): the
  ordered null and existence checks of each endpoint as pure validators. Each
  endpoint is also a method that validates, calls the item service and maps
  success to 200 and failure to 400.

Two behaviours of the code worth knowing:

- On a first GitHub login without a usable display name, the fallback stores
  the GitHub login handle as the password, not as the name, and leaves the
  name empty (`GithubAccount`).
- When `checkTokenIsReal` refuses a token that resolves, the filter answers
  400 "Invalid Token", while a token that does not resolve gets 404
  (`DoFilter`).

Assumptions the model makes explicit:

- That the codec decodes what it generates is the hypothesis
  `DecodeInvertsGenerate(codec)` on the lemmas that need it. The service does
  not establish it.
- The store assigns ids from a counter `nextId`. This stands in for the
  database's id generator.

## Model

| member | source | states |
|---|---|---|
| `Auth.GenerateToken` | src/main/java/projectManagement/service/AuthService.java:214-222 | given a codec that decodes what it signs, the token issued for a user decodes back to that user's id, and differs from every token issued for any other user at any time |
| `Auth.GeneratedTokensDistinct` | src/main/java/projectManagement/service/AuthService.java:215-222 | given a codec that decodes what it generates, tokens generated for two different users never coincide, whatever their issue times |
| `Auth.InsertPreservesWellFormed` | src/main/java/projectManagement/service/AuthService.java:204-211 | saving a record under a fresh id with an unseen email keeps emails unique and keys equal to ids, and makes the email taken |
| `Auth.GetUser` | src/main/java/projectManagement/service/AuthService.java:114-116 | the lookup by id finds a record exactly when the id is in the table, and then it is that record |
| `Auth.GetUserByEmail` | src/main/java/projectManagement/service/AuthService.java:118-120 | the lookup by email finds a record exactly when some record has the email; the record found has that email and is the only one with it |
| `Auth.Login` | src/main/java/projectManagement/service/AuthService.java:68-82 | fails "user with this email do not exist…" exactly when no record has the email; fails "password do not match" exactly when the record is LOCAL and its password differs; succeeds exactly when the record is found and is not a LOCAL one with a wrong password; on success returns that record's own id with the token generated from that id |
| `Auth.CheckTokenToUserInDB` | src/main/java/projectManagement/service/AuthService.java:92-106 | "Wrong token input" exactly when the token does not decode; "no id in DB" exactly when it decodes to an id absent from the table; otherwise returns exactly the decoded id, which is in the table |
| `Auth.GithubAccount` | src/main/java/projectManagement/service/AuthService.java:138-142 | a first GitHub login stores the profile name with the access token as password when the name is present and non-empty, and otherwise an empty name with the GitHub login as password |
| `Auth.AuthService.constructor` | src/main/java/projectManagement/service/AuthService.java:25-33 | the service wraps a repository already holding a well-formed user table, and starts from exactly that table |
| `Auth.AuthService.CreateUser` | src/main/java/projectManagement/service/AuthService.java:204-212 | a taken email fails with "Email … already exists!" and leaves the table unchanged; otherwise exactly one record with the request's email, name, password and the given provider is added under a fresh id, every other record is unchanged, and email uniqueness is preserved |
| `Auth.AuthService.Register` | src/main/java/projectManagement/service/AuthService.java:43-55 | a taken email fails with "user already exist" and leaves the table unchanged; otherwise exactly one LOCAL record with the request's email, name and password is added under a fresh id and nothing else changes |
| `Auth.AuthService.LoginGithub` | src/main/java/projectManagement/service/AuthService.java:130-153 | a missing profile or email fails "Invalid code" and creates nothing; a known email creates nothing and answers as local login with the access token; an unseen email adds exactly one GITHUB record and logs it in, returning its id and the token generated from it; uniqueness is preserved |
| `Auth.GithubAccountLogsIn` | src/main/java/projectManagement/service/AuthService.java:75-81 | a GITHUB account logs in with any password, returning its id and a token for it |
| `Auth.RegisterLoginResolve` | src/main/java/projectManagement/service/AuthService.java:45-50 | after adding a fresh LOCAL record, login with the same credentials returns its id and token, and that token resolves back to the id (given a codec that inverts itself) |
| `Auth.TokenResolvesOnlyToItsUser` | src/main/java/projectManagement/service/AuthService.java:92-106 | a token generated for user a resolves exactly while a is in the table, and never to any other id |
| `Auth.RemovedAccountTokenFails` | src/main/java/projectManagement/service/AuthService.java:99-104 | once a user's record is gone, every token generated for it fails with "no id in DB" |
| `Auth.LoginScenario` | src/main/java/projectManagement/service/AuthService.java:70-81 | with one LOCAL user a@x.com/p1: the right password logs in as id 1, a wrong one gives "password do not match", an unknown email gives the not-found message |
| `TokenFilter.Contains` | src/main/java/projectManagement/filter/TokenFilter.java:43 | the substring test holds exactly when the pattern occurs at some index of the URL |
| `TokenFilter.IsPublic` | src/main/java/projectManagement/filter/TokenFilter.java:43 | a request bypasses authentication exactly when "auth", "ws" or "error" occurs somewhere in its URL, or its method is OPTIONS |
| `TokenFilter.DoFilter` | src/main/java/projectManagement/filter/TokenFilter.java:39-79 | passes with no user exactly on public routes (auth, ws, error, OPTIONS), whatever the header; 400 with the "wasn't properly written" body exactly when the header is missing; 404 exactly when the token does not decode or names an absent id, with the thrown message as body; 400 "Invalid Token" exactly when checkTokenIsReal refuses a resolving token; otherwise passes with the user the token names; every outcome is either a pass or a 400/404 rejection |
| `TokenFilter.TokenIsNullNeverReported` | src/main/java/projectManagement/filter/TokenFilter.java:44-51 | documents that the "token is null" rejection is never produced on any input, since the token is only read once the header is known present |
| `TokenFilter.LoginTokenPassesFilter` | src/main/java/projectManagement/filter/TokenFilter.java:53-56 | on a protected route, a token just returned by login passes with the logged-in user attached (given a self-inverting codec and checkTokenIsReal accepting it) |
| `Boards.Board.constructor` | src/main/java/projectManagement/entities/Board.java:36-52 | a new board has the given title and admin and empty role, item, status and type sets |
| `Boards.Board.AddUserRole` | src/main/java/projectManagement/entities/Board.java:54-57 | the role set becomes old ∪ {r} and is returned; adding a present role changes nothing; no other field changes |
| `Boards.Board.RemoveUserRole` | src/main/java/projectManagement/entities/Board.java:59-62 | the role set becomes old − {r} and is returned; removing an absent role changes nothing; no other field changes |
| `Boards.Board.AddStatus` | src/main/java/projectManagement/entities/Board.java:64-67 | the status set becomes old ∪ {s} and is returned; no other field changes |
| `Boards.Board.RemoveStatus` | src/main/java/projectManagement/entities/Board.java:69-72 | the status set becomes old − {s} and is returned; no other field changes |
| `Boards.GrantAndRevoke` | src/main/java/projectManagement/entities/Board.java:54-62 | on a new board, a granted role is present, a revoked one is absent, and revoking it again is a no-op |
| `Items.WithType` | src/main/java/projectManagement/service/ItemService.java:55-57 | setting one item's type keeps the same ids, changes that item's type only and leaves every other item unchanged |
| `Items.WithTypeIdempotent` | src/main/java/projectManagement/service/ItemService.java:55-71 | setting the same type twice gives the same table as setting it once |
| `Items.ItemService.constructor` | src/main/java/projectManagement/service/ItemService.java:20-23 | the service wraps a repository already holding items under their own ids, and starts from exactly that table |
| `Items.ItemService.CreateItem` | src/main/java/projectManagement/service/ItemService.java:25-35 | always succeeds; adds exactly one item under a fresh id carrying the request's fields and the ids of board, creator, assignee and parent |
| `Items.ItemService.DeleteItem` | src/main/java/projectManagement/service/ItemService.java:37-46 | an absent id fails and changes nothing; a present id is removed, with every other entry kept, and returned |
| `Items.ItemService.RemoveType` | src/main/java/projectManagement/service/ItemService.java:48-61 | an absent id fails and changes nothing; a present item's type becomes "" with nothing else changed, and the updated item is returned |
| `Items.ItemService.AddType` | src/main/java/projectManagement/service/ItemService.java:63-75 | an absent id fails and changes nothing; a present item's type becomes the given one with nothing else changed, and the updated item is returned |
| `Items.ItemService.GetItem` | src/main/java/projectManagement/service/ItemService.java:77-79 | a read-only lookup that finds an item exactly when its id is in the table |
| `ItemController.ToReply` | src/main/java/projectManagement/controller/ItemController.java:81-85 | a service success becomes status 200 and a failure 400, with the envelope unchanged |
| `ItemController.ValidateCreateItem` | src/main/java/projectManagement/controller/ItemController.java:35-76 | each failure message is given exactly when its check fails and every earlier one passed, in the order: null body, null board id, unknown board, null creator id, unknown creator, unknown assignee, unknown parent; success exactly when all pass, with the creator, board, optional assignee and optional parent looked up |
| `ItemController.ValidateItemId` | src/main/java/projectManagement/controller/ItemController.java:93-95 | fails "parameter could not be null" exactly when the body or its itemId is null; otherwise returns that itemId |
| `ItemController.ValidateAddItemType` | src/main/java/projectManagement/controller/ItemController.java:130-132 | fails "parameter could not be null" exactly when the body, its itemId or its type is null; otherwise returns both |
| `ItemController.CreateItem` | src/main/java/projectManagement/controller/ItemController.java:34-88 | a failed check answers 400 with its message and leaves the item table unchanged; otherwise 200 is returned and exactly one item is added under a fresh id, carrying the request's title, status, importance, type, parent id, board id, creator id and assignee id |
| `ItemController.DeleteItem` | src/main/java/projectManagement/controller/ItemController.java:91-106 | a null body or id answers 400 without touching the service; otherwise 200 and the key removed, or 400 with the table unchanged when absent |
| `ItemController.RemoveItemType` | src/main/java/projectManagement/controller/ItemController.java:110-125 | a null body or id answers 400 without touching the service; otherwise the item's type is cleared with 200, or 400 when absent |
| `ItemController.AddItemType` | src/main/java/projectManagement/controller/ItemController.java:128-143 | a null body, id or type answers 400 without touching the service; otherwise the item's type is set with 200, or 400 when absent |

## Left out

- The GitHub OAuth handshake (`getGithubToken`, `getGithubUser`) is network I/O and reads configuration. Its combined result is the parameter `profile`, and a failed handshake is `None`.
- Signing and decoding JWTs (`Token.createJWT`, `Token.decodeJWT`) and `Instant.now()` are library and clock calls. They are the uninterpreted `TokenCodec` and the parameter `now`. The `Long.parseLong` of the id claim is folded into `decodeId`. A NumberFormatException it could throw, which would escape the filter, is therefore not modelled.
- `checkTokenIsReal` is not part of this model: it is not defined in the service. It is the uninterpreted parameter `isReal`.
- `Auth.GithubAccount`: the source compares the GitHub name to `""` by reference. The model compares values, so an empty name that is a distinct string object counts as absent here, though the source would accept it.
- `Auth.AuthService.LoginGithub`: the "Email already exists!" answer happens only when another request creates the same email between the lookup and the save. Concurrency is not modelled, so this branch is unreachable here.
- `Auth.AuthService.Register`: the "Failed during creation" answer comes from an exception inside `save`. The store here never throws, so only its mapping is modelled.
- GitHub access tokens and login handles are modelled as present strings. A null access token is not modelled.
- `Auth.AuthService.Register`: the email, password and name of a request are always-present strings. A null field is not modelled. So the NullPointerException that a later login on a LOCAL record with a null password would raise is lost. So is the "password do not match" answer to a login request with a null password.
- `TokenFilter.DoFilter`: the Authorization header is an `Option`, so the source's dead "token is null" branch has no counterpart in the function. `TokenFilter.TokenIsNullNeverReported` records that the rejection never occurs.
- `Items.ItemService.CreateItem`: the store here never returns null from `save`. So the failure the source builds and then discards for that case is not represented, and the result is always a success.
- Items refer to their board, creator, assignee and parent by id, not by object reference.
- `Boards.Board.AddUserRole`, `Boards.Board.RemoveUserRole`, `Boards.Board.AddStatus` and `Boards.Board.RemoveStatus`: each returns the value of the set, not an alias to the field. Later changes through the returned reference are not captured.
- The role, status, type and item entities are not part of this model. Their hash-set identity is taken as value equality on the fields shown here.
- The board's `id` (database-generated), the JPA cascade and orphan-removal settings, and the JSON views are persistence concerns.
- Board lookups in the item controller are the set of existing board ids. User lookups are the user table. The board service and user service are not part of this model.
- Logging, dependency injection, servlet stream writes and the Response/ResponseEntity envelopes are plumbing; only status codes and messages are kept.
- BoardController and BoardRepo delegate to services and interfaces that are not part of this model.
- Password hashing, token expiry and role hierarchies do not exist in the code and are not added.
