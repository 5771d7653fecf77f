# Request admission and validation of a collaborative drawing backend

This project models, in Dafny, the request-admission and validation layer
of a collaborative canvas application's backend and proves properties of
it:

- the three Zod request-body schemas shared by the servers
  (`CreateUserSchema`, `LoginUserSchema`, `CreateRoomSchema`), as parse
  functions from a JSON body to an optional record (`schemas.dfy`);
- the HTTP bearer-token middleware `authMiddleware`: the `"Bearer "`
  prefix test, the token after it, and the three outcomes (401 "No token
  provided", 401 "Invalid or expired token", or `req.user` set and `next`
  called once) (`middleware.dfy`);
- the WebSocket server's `connection` handler: the `token` query
  parameter of the request URL, the two refusals (one JSON error message,
  then close code 1008 with reason "No token provided" or "Invalid
  token"), the attached `userId`/`username`, and the `"pong"` reply to
  every message of an admitted connection (`wsserver.dfy`);
- the HTTP route handlers `/signup`, `/signin`, `/create-room`,
  `GET /rooms/:slug`, `GET /rooms/:slug/chats`, `GET /rooms/:slug/shapes`
  and `DELETE /rooms/:slug/shapes` as methods of a `Store` class that holds
  the user, room, shape and chat tables (`httpserver.dfy`), with the
  result ordering `orderBy: { created_at: "asc" }` modelled by a sort on
  the creation time (`ordering.dfy`).

Foreign calls are parameters, so every result holds for any behaviour of
them: `jwt.verify(token, secret)` is a `Verifier`, a function from secret
and token to an optional `Claims(id, username)`; `jwt.sign` is a function
of the claims and the lifetime (24 hours); `bcrypt.hash` is a function of
the password and the cost factor 10; `bcrypt.compare` is a predicate on a
password and a stored hash; Zod's `z.url()` check is a predicate on
strings. The WebSocket server's secret is `process.env.JWT_SECRET` or, when
that is unset or empty, `"secret_key_draw_app"` (`WsServer.ServerSecret`);
the connection handler takes the variable's value as a parameter.

Zod's `min` and `max` compare a JavaScript string's `length`, which counts
UTF-16 code units; the model counts them the same way (`Utf16Length`: two
units for a character outside the Basic Multilingual Plane).

The servers have no room membership or broadcast of shape edits: the
WebSocket server answers every message with `"pong"`. The canvas client's
reconnect with exponential backoff
(apps/excalidraw-frontend/app/canvas/[slug]/hooks/useSocket.ts) and its
undo/redo over the user's own actions (hooks/useHistory.ts in the same
directory) are browser state and are not modelled.

The middleware imports its secret from `./index.js`
(apps/http/src/middleware.ts:4), a module that does not export one; the
model takes the middleware's secret as a parameter.

## Model

| member | source | states |
|---|---|---|
| `Schemas.Utf16LengthBounds` | packages/common/src/types.ts:4-6 | a string's UTF-16 length lies between its character count and twice that |
| `Schemas.ParseCreateUser` | packages/common/src/types.ts:3-8 | a create-user body is accepted exactly when it is an object whose username (3 to 20 code units), password (6 to 100) and name (1 to 50) are strings in bounds and whose photo is absent or a URL; the result carries those strings |
| `Schemas.ParseLogin` | packages/common/src/types.ts:10-13 | a login body is accepted exactly when username and password are strings with the same bounds as for sign-up; the result carries them |
| `Schemas.ParseCreateRoom` | packages/common/src/types.ts:15-17 | a room body is accepted exactly when its slug is a string of 1 to 50 code units |
| `Schemas.CreateUserBodyIsLoginBody` | packages/common/src/types.ts:3-13 | every body the create-user schema accepts is accepted by the login schema with the same username and password |
| `Schemas.SignupBodyRoundTrip` | packages/common/src/types.ts:3-8 | the JSON object built from a sign-up record parses back to that record exactly when the record is valid |
| `Schemas.RoomBodyBounds` | packages/common/src/types.ts:15-17 | `{ slug }` is accepted iff the slug is 1 to 50 code units long; an empty slug is rejected |
| `Schemas.CreateUserRequiresFields` | packages/common/src/types.ts:4-7 | a missing or non-string username, password or name, or a non-string photo, rejects the body |
| `Middleware.BearerToken` | apps/http/src/middleware.ts:18-24 | a token is found exactly when the header starts with the case-sensitive `"Bearer "`, and the header is that prefix followed by the token |
| `Middleware.Authorize` | apps/http/src/middleware.ts:17-34 | every rejection is 401; it says "No token provided" exactly when no bearer token is found; the request passes exactly when the bearer token verifies |
| `Middleware.BearerTokenIsSuffix` | apps/http/src/middleware.ts:24 | for the header `"Bearer " + t` the token handed to verification is exactly `t` |
| `Middleware.LowerCaseSchemeRejected` | apps/http/src/middleware.ts:20 | a header starting with `"bearer "` carries no token |
| `Middleware.AuthorizeBearer` | apps/http/src/middleware.ts:24-33 | for `"Bearer " + t`: 401 "Invalid or expired token" when `t` fails verification, otherwise pass with the decoded identity |
| `Middleware.Exchange.AuthMiddleware` | apps/http/src/middleware.ts:12-35 | each request either gets one 401 response and keeps its user unset, or gets `user` set to the decoded identity and `next` called once; never both |
| `WsServer.ServerSecret` | apps/ws/src/index.ts:4 | the secret is never empty: a set, non-empty `JWT_SECRET` is used as is, an unset or empty one falls back to `"secret_key_draw_app"` |
| `WsServer.Split` | apps/ws/src/index.ts:17 | `split` gives at least one piece, no piece holds the separator, and the first piece is the longest separator-free prefix |
| `WsServer.SplitKeepsOut` | apps/ws/src/index.ts:17 | a character absent from the string is absent from every piece |
| `WsServer.IndexOf` | apps/ws/src/index.ts:17 | the result is the position of the first occurrence, or the length when there is none |
| `WsServer.JoinSplit` | apps/ws/src/index.ts:17 | `split` loses nothing: joining its pieces with the separator gives the string back |
| `WsServer.ParseParamCutsAtFirstEquals` | apps/ws/src/index.ts:17 | a pair is cut at the first `=` of its piece, so the name holds no `=`; a piece without `=` is a name with an empty value |
| `WsServer.ParsePieces` | apps/ws/src/index.ts:17 | there are never more pairs than pieces |
| `WsServer.ParsePiecesOrigin` | apps/ws/src/index.ts:17 | every pair is parsed from a non-empty piece; with no empty piece there is one pair per piece, in order |
| `WsServer.ParsePiecesOne` | apps/ws/src/index.ts:17 | an empty piece gives no pair and a non-empty one gives exactly its own pair |
| `WsServer.ParsePiecesAppend` | apps/ws/src/index.ts:17 | the pairs of two runs of pieces are the pairs of the first followed by those of the second, so empty pieces are skipped wherever they stand and every non-empty piece gives its pair in order |
| `WsServer.ParseQuery` | apps/ws/src/index.ts:17 | the empty query string holds no pair |
| `WsServer.ParseQueryCutsAtAmpersands` | apps/ws/src/index.ts:17 | no name or value holds the `&` separating the pairs |
| `WsServer.ParseQueryKeepsOut` | apps/ws/src/index.ts:17 | a character absent from the query string is absent from every name and value |
| `WsServer.QueryOf` | apps/ws/src/index.ts:16-17 | the query string of a URL holds no `?` |
| `WsServer.QueryOfAfterFirstMark` | apps/ws/src/index.ts:17 | with a `?` in the URL, the query string is the text after the first `?` up to the next `?` or the end |
| `WsServer.QueryToken` | apps/ws/src/index.ts:16-18 | a token holds neither `?` nor `&`, and an undefined URL has none |
| `WsServer.Get` | apps/ws/src/index.ts:18 | `get` yields a value only of a pair with that name, and nothing exactly when no pair has the name |
| `WsServer.GetFindsFirst` | apps/ws/src/index.ts:18 | with a repeated name, `get` yields the value of its first occurrence |
| `WsServer.NoQueryNoToken` | apps/ws/src/index.ts:16-18 | an undefined URL or one without `?` yields no token |
| `WsServer.QueryTokenRoundTrip` | apps/ws/src/index.ts:16-18 | the URL `path?token=t` yields the token `t` when the path has no `?` and `t` no `?` or `&` |
| `WsServer.Admit` | apps/ws/src/index.ts:20-48 | a connection is admitted exactly when its query token is non-empty and verifies, and then as the verified identity; a refusal is either (no-token notice, "No token provided") or (invalid-token notice, "Invalid token"), the first exactly when the token is absent or empty |
| `WsServer.AdmitWithoutQuery` | apps/ws/src/index.ts:16-24 | without a query string the connection is refused as carrying no token, whatever the verifier says |
| `WsServer.AdmitByToken` | apps/ws/src/index.ts:16-48 | for `path?token=t`: refused as no token when `t` is empty, refused as invalid when it fails verification, admitted with its identity otherwise |
| `WsServer.Connection.OnConnection` | apps/ws/src/index.ts:4-48 | with the secret taken from `JWT_SECRET` or its fallback, a refused connection is closed with 1008 and the refusal's reason after exactly one error message, with no user attached and no listener; an admitted one is authenticated with the identity's id and username, a listener installed and nothing sent |
| `WsServer.Connection.OnMessage` | apps/ws/src/index.ts:38-40 | an authenticated connection answers each message, whatever its payload, with exactly one `"pong"`; any other connection sends nothing |
| `WsServer.Connection.OnClose` | apps/ws/src/index.ts:42-44 | the transport closing changes only the phase, to closed |
| `Ordering.SortBy` | apps/http/src/index.ts:235 | the result is a permutation of the input in non-decreasing key order |
| `Ordering.SortByKeepsMembers` | apps/http/src/index.ts:235 | sorting neither drops nor adds an element |
| `HttpServer.FindUser` | apps/http/src/index.ts:32-34 | a user is found only with the requested username, and none exactly when no user has it |
| `HttpServer.FindRoom` | apps/http/src/index.ts:195-197 | a room is found only with the requested slug, and none exactly when no room has it |
| `HttpServer.ShapesIn` | apps/http/src/index.ts:233-235 | the selected shapes are exactly the table's shapes with that room id |
| `HttpServer.ShapesOutside` | apps/http/src/index.ts:270-272 | the remaining shapes are exactly the table's shapes with some other room id |
| `HttpServer.ChatsIn` | apps/http/src/index.ts:157-162 | the selected messages are exactly the table's messages with that room id |
| `HttpServer.FindUserUnique` | apps/http/src/index.ts:84 | with unique usernames the lookup finds the one user of that name |
| `HttpServer.FindRoomUnique` | apps/http/src/index.ts:195-197 | with unique slugs the lookup finds the one room with that slug |
| `HttpServer.AddUserKeepsUsernamesUnique` | apps/http/src/index.ts:32-50 | adding a user whose name no stored user has keeps usernames unique |
| `HttpServer.ChatsCounted` | apps/http/src/index.ts:157-162 | each message of the room is selected exactly as often as it occurs in the table, and a message of another room never |
| `HttpServer.ShapesPartition` | apps/http/src/index.ts:270-272 | the shape table is the multiset union of one room's shapes and the shapes a clear of that room keeps |
| `HttpServer.ClearEmptiesRoom` | apps/http/src/index.ts:270-272 | after a clear the room has no shapes |
| `HttpServer.ClearKeepsOtherRooms` | apps/http/src/index.ts:270-272 | a clear leaves every other room's shapes as they were, in order |
| `HttpServer.ClearIdempotent` | apps/http/src/index.ts:270-272 | clearing a room twice is the same as clearing it once |
| `HttpServer.Store.Signup` | apps/http/src/index.ts:19-69 | an invalid body gives 400 and a taken username 400 "User already exists", both leaving the table unchanged; otherwise exactly one user is appended with a fresh id and the bcrypt hash (cost 10) of the password, and 201 returns a token signed for that id and username with both echoed; usernames stay unique |
| `HttpServer.Store.Signin` | apps/http/src/index.ts:71-112 | an invalid body gives 400; a valid one gives 200 or 401; 401 "Invalid credentials" exactly when no stored user has the username and a matching password, so an unknown user and a wrong password look the same; a valid body with such a user gives 200, returning "Login successful", a 24-hour token for that user, and the user's id and username |
| `HttpServer.Store.CreateRoom` | apps/http/src/index.ts:114-143 | an invalid body gives 400 and a taken slug 500, both creating nothing; otherwise exactly one room is appended with a fresh id, the slug and the caller's id as admin, and 201 returns it |
| `HttpServer.Store.GetRoom` | apps/http/src/index.ts:183-209 | an empty slug gives 400, an unknown one 404, a known one 200 with that room |
| `HttpServer.Store.ListShapes` | apps/http/src/index.ts:212-251 | an empty slug gives 400, an unknown one 404; otherwise 200 with exactly the room's shapes, each as often as in the table, in non-decreasing creation time |
| `HttpServer.Store.ListChats` | apps/http/src/index.ts:146-180 | an empty slug gives 400; an unknown slug gives 200 with `chats: null`; a known one 200 with a permutation of the room's selected messages, in non-decreasing creation time; with `ChatsCounted`, each of the room's messages appears exactly as often as in the table |
| `HttpServer.Store.ClearShapes` | apps/http/src/index.ts:254-279 | an unknown slug gives 404 and deletes nothing; otherwise every shape of the room is removed, all others are kept in order, and 200 says "All shapes deleted" |

## Left out

- Identifiers: user and room ids are natural numbers drawn from two counters kept by the store, and the token's `id` is the user's number; chat and shape rows, with their ids and creation times, come with the store's tables as given, since no handler modelled here creates one. The store's own id format is not part of this model.
- `jwt.sign`, `bcrypt.hash` and `bcrypt.compare` parameters each stand for the result of one call: the signing secret and the clock (`iat`, `exp`) that `jwt.sign` reads, and the fresh random salt `bcrypt.hash` draws, are folded into them; the model makes them deterministic, but no contract relies on two calls agreeing.
- Percent-decoding and the `+`-to-space rule of `URLSearchParams`: query names and values are compared and returned as written in the URL.
- JWT signing and verification, bcrypt hashing and comparison, and Zod's URL check are foreign library calls, taken as parameters; a verified token whose payload lacks `id` or `username` is not modelled.
- A shape's type, geometry and style are one opaque `drawing` string; the HTTP handlers never look inside it.
- The `user` fields the shape and chat queries join in (`include: { user: ... }`) are left out of the listed rows; only the rows themselves and their order are modelled.
- Among the "Internal server error" (500) paths only the one the store's unique slug constraint causes in `/create-room` is modelled; database and network failures in the other handlers are I/O.
- Concurrency: the handlers run one at a time, so two simultaneous sign-ups with one username are not modelled.
- Logging (`console.log`), Express routing, CORS, JSON body parsing, `app.listen` and the `WebSocketServer` start-up are I/O plumbing.
- The database client singleton (packages/db/src/index.ts) is replaced by the `Store` class.
- The web and canvas front ends, their socket hooks (including the client's reconnect with backoff, up to 5 attempts from a 1-second delay doubling each time, after any close other than 1000), their undo/redo history and the UI package are rendering and browser state; packages/ui/src/avatar.tsx and the other UI files are not part of this model.
- Ties in creation time: when two rows have the same creation time the store may return them in either order; the model commits to one (the sort is stable), and its contract states only what the store guarantees.
