# Engineering studio: session, codec and client-state model in Dafny

This project models the logic core of a small "engineering studio" web
application: a Cloudflare Worker backend with cookie sessions over a D1
database, an encrypted API-key store, and a Next.js front end with a streaming
chat page, an admin dashboard and an authentication context.

What is modelled:

- **Session lifecycle** (`sessions.dfy`, `server.dfy`).
  - `sessions` is a map from token to `(userId, expiresAt)`; time is an integer number of milliseconds.
  - `users` is a sequence of rows in table order.
  - `/auth/login`, `/auth/logout`, `authMiddleware`, `/auth/session` and the middleware in front of the admin routes are methods of a `Backend` class.
  - `/auth/login` and `/auth/logout` reassign its `sessions` field; the middleware and the routes behind it only read it.
  - They write the cookie operations onto a per-request `Context` object.
  - The middleware's `await next()` is the `Next` outcome.
  - A ghost counter of SQL statements records which paths query the database.
- **Cookie domain** (`cookie_domain.dfy`): the `split('.')`, `slice(-2)` and `join('.')` rule, with `localhost` and a missing Origin giving no domain.
- **Hex codec and key encryption** (`crypto.dfy`).
  - `buf2hex` and the regular-expression scan of `hex2buf`, including its failure on input without a hex pair.
  - `encrypt` and `decrypt` as codec wrappers around an abstract authenticated cipher.
- **Request schemas** (`schemas.dfy`): the four zod schemas as parsers from a JSON body (`json.dfy`) to the validated value.
- **CORS origin selector** (`cors.dfy`).
- **Chat page** (`chat_page.dfy`): the transcript state (`messages`, `input`, `isStreaming`) and `handleSendMessage`.
  - The read loop appends each chunk to the reply.
  - It is proved against a fold over the chunks.
- **Admin dashboard** (`admin_page.dfy`): the `keysPresent` and `apiKeys` bookkeeping of `handleApiKeySave`, `handleSettingChange`, the auto-dev switch and the repository field.
- **Auth context** (`auth_context.dfy`): the provider's `user` and `isLoading` state, `login`, `logout`, and the `useAuth` guard.
- **Shared helpers**: `wrappers.dfy` (option and result types) and `slices.dfy` (the JavaScript `slice(-n)` used by the cookie domain, `buf2hex` and the chat window).

Two behaviours of the code worth noting:

- For `app.example.pages.dev` the cookie domain is `pages.dev`: the rule keeps two labels even under a multi-label public suffix (CookieDomain.CookieDomainOfFourLabels).
- The middleware clears the cookie on every rejection: an unknown token, an expired one, or one whose user row is gone. It does so with path `/` and no domain attribute.

## Model

| member | source | states |
|---|---|---|
| Crypto.ToHexString | backend/src/crypto.ts:1 | `x.toString(16)` writes lower-case hex digits, without a leading zero, that denote x |
| Crypto.ByteToHex | backend/src/crypto.ts:1 | each byte is written as exactly two characters |
| Crypto.ByteToHexIsTwoDigits | backend/src/crypto.ts:1 | `('00' + x.toString(16)).slice(-2)` is exactly two lower-case hex digits: the high nibble, then the low nibble, zero-padded |
| Crypto.Buf2Hex | backend/src/crypto.ts:1 | `buf2hex` writes two characters per byte |
| Crypto.Buf2HexLayout | backend/src/crypto.ts:1 | `buf2hex` output has length 2n; characters 2i and 2i+1 are the high and low nibble of byte i; every character is in `[0-9a-f]` |
| Crypto.MatchHexPairs | backend/src/crypto.ts:2 | the `/[\da-f]{2}/gi` scan yields at most one byte per two input characters |
| Crypto.Hex2Buf | backend/src/crypto.ts:2 | a successful `hex2buf` yields a non-empty buffer |
| Crypto.MatchHexPairsEmptyIff | backend/src/crypto.ts:2 | the `/[\da-f]{2}/gi` scan finds nothing exactly when no two adjacent hex digits occur |
| Crypto.Hex2BufFailsIff | backend/src/crypto.ts:2 | `hex2buf` throws exactly when the input has no hex pair, the empty string included |
| Crypto.MatchHexPairsOfBuf2Hex | backend/src/crypto.ts:1-2 | scanning what `buf2hex` wrote gives back the bytes, in order |
| Crypto.Hex2BufOfBuf2Hex | backend/src/crypto.ts:1-2 | `hex2buf(buf2hex(b)) == b` for every non-empty b; the empty buffer does not round-trip |
| Crypto.MatchHexPairsIgnoresCase | backend/src/crypto.ts:2 | under the `i` flag, lower-casing the input changes neither the pairs found nor their values |
| Crypto.Hex2BufIgnoresCase | backend/src/crypto.ts:2 | upper- and lower-case spellings decode to the same bytes |
| Crypto.Hex2BufScanExamples | backend/src/crypto.ts:2 | pairs are taken left to right without overlap, characters that cannot start a pair are skipped, a trailing odd digit is dropped, and `"zz"` fails |
| Crypto.Encrypt | backend/src/crypto.ts:8-12 | the stored `iv_hex` is exactly 24 lower-case hex characters, because the IV has 12 bytes |
| Crypto.Decrypt | backend/src/crypto.ts:13-17 | `decrypt` fails on a hex string without a pair, fails when the cipher rejects the data, and otherwise returns what the cipher opens under the decoded IV and ciphertext |
| Crypto.DecryptEncrypt | backend/src/crypto.ts:8-17 | for a cipher whose opening inverts sealing, decrypting with the same secret returns the plaintext; the codec restores the IV and the ciphertext, which is never empty because of the tag |
| CookieDomain.Split | backend/src/auth.ts:45 | `split('.')` yields at least one label, and no label contains a dot |
| CookieDomain.Join | backend/src/auth.ts:45 | `join('.')` starts with the first label; SplitJoin and JoinSplit make it the inverse of `split('.')` |
| Slices.SliceLast | backend/src/auth.ts:45 | `slice(-n)` is the last n elements of the input, in order, or all of them when there are fewer |
| CookieDomain.ParentDomain | backend/src/auth.ts:45 | `split('.').slice(-2).join('.')` is a suffix of the hostname with at most one dot |
| CookieDomain.CookieDomainFor | backend/src/auth.ts:39-47 | no domain exactly when the Origin is absent or its hostname is `localhost`; otherwise the domain is a suffix of the hostname with at most one dot |
| CookieDomain.JoinSplit | backend/src/auth.ts:45 | `split('.')` then `join('.')` gives the string back |
| CookieDomain.SplitJoin | backend/src/auth.ts:45 | joining dot-free labels and splitting again gives the labels back |
| CookieDomain.ParentDomainIsSuffix | backend/src/auth.ts:45 | the derived domain is a suffix of the hostname |
| CookieDomain.ParentDomainDots | backend/src/auth.ts:45 | the derived domain contains at most one dot |
| CookieDomain.ParentDomainLabels | backend/src/auth.ts:45 | the derived domain consists of exactly the last two labels of the hostname |
| CookieDomain.ParentDomainOfShortHost | backend/src/auth.ts:45 | a hostname with at most two labels is used unchanged |
| CookieDomain.ParentDomainOfLabels | backend/src/auth.ts:45 | for a hostname written as dot-free labels, the domain is the join of its last two labels |
| CookieDomain.CookieDomainOfThreeLabels | backend/src/auth.ts:39-47 | a host `a.b.c` of dot-free labels gets the domain `b.c`, so `app.example.com` gives `example.com` |
| CookieDomain.CookieDomainOfFourLabels | backend/src/auth.ts:39-47 | a host `a.b.c.d` of dot-free labels gets the domain `c.d`, so `app.example.pages.dev` gives `pages.dev` |
| Sessions.FindUser | backend/src/auth.ts:18-20 | a found row belongs to `users`, has the submitted username, and has a `password_hash` equal to the submitted password |
| Sessions.FindUserFirstMatch | backend/src/auth.ts:18-22 | the lookup fails exactly when no row matches; otherwise it returns the first matching row in table order |
| Sessions.UserById | backend/src/middleware.ts:6 | the join pairs a session with a row of `users` carrying its `user_id` |
| Sessions.UserByIdFound | backend/src/middleware.ts:6 | the join finds a row exactly when some user row carries the id |
| Sessions.UserByIdUnique | backend/src/middleware.ts:6 | with `users.id` a primary key, the join finds that one row |
| Sessions.IssueSession | backend/src/auth.ts:26-35 | the INSERT adds the row `(id, userId, now + 604800000)` and leaves every other row as it was |
| Sessions.RevokeSession | backend/src/auth.ts:62-65 | the DELETE removes only the row with that id, and is a no-op for an unknown id |
| Sessions.Authenticate | backend/src/middleware.ts:6-8 | an accepted token has a row with `expires_at > now`, and its identity is `{ id: user_id, username }` of an existing user row |
| Sessions.AuthenticateAcceptsIff | backend/src/middleware.ts:6 | a token is accepted exactly when its row exists, has not expired (strictly), and its user row exists |
| Sessions.IssuedSessionLifetime | backend/src/auth.ts:26-35 | a session issued at t is accepted, as its user, for every now < t + 7 days, and rejected from t + 7 days on |
| Sessions.RevokedSessionRejected | backend/src/auth.ts:61-65 | after logout deletes a token's row, the middleware rejects that token at every time |
| Sessions.RevokeKeepsOtherSessions | backend/src/auth.ts:64 | deleting one session does not change the answer for any other token |
| Sessions.IssueKeepsOtherSessions | backend/src/auth.ts:33-35 | inserting a session does not change the answer for any other token |
| Sessions.AcceptanceOnlyEnds | backend/src/middleware.ts:6 | a token accepted at some time was accepted, as the same user, at every earlier time |
| Schemas.AsString | backend/src/types.ts:5-6 | `z.string()` accepts exactly a member that is present and a string, and yields that string |
| Schemas.AsNonEmptyString | backend/src/types.ts:3 | `z.string().min(1)` accepts exactly the strings of length at least 1 |
| Schemas.AsRole | backend/src/types.ts:10 | an accepted role is one of the three role names |
| Schemas.ParseLogin | backend/src/types.ts:3 | an accepted login body has a non-empty `username` and `password`, taken from the body's members |
| Schemas.ParseLoginAccepts | backend/src/types.ts:3 | a `{ username, password }` body is accepted exactly when both are non-empty, and then yields those values |
| Schemas.ParseLoginRejectsNonString | backend/src/types.ts:3 | a missing or non-string credential is rejected |
| Schemas.ParseSettingsUpdate | backend/src/types.ts:5 | accepted exactly when `key` and `value` are strings, and then yields them |
| Schemas.ParseKeyUpdate | backend/src/types.ts:6 | accepted exactly when `provider_id` and `api_key` are strings, and then yields them |
| Schemas.UpdateSchemasAcceptAnyStrings | backend/src/types.ts:5-6 | both update schemas accept every pair of strings, empty ones included |
| Schemas.ParseTurn | backend/src/types.ts:9-12 | an accepted message has the given role name and string content |
| Schemas.ParseTurns | backend/src/types.ts:9-12 | the array is accepted exactly when every element is, and the order and length are kept |
| Schemas.ParsePostMessage | backend/src/types.ts:8-13 | a body with a `messages` array parses to the element-wise parse of that array, whatever other keys it has; any other body is rejected |
| Schemas.PostMessageJson | backend/src/types.ts:8-13 | the validated value has `messages` as its only key |
| Schemas.ParseTurnsOfJson | backend/src/types.ts:8-13 | every list of messages, the empty list and empty contents included, is accepted and comes back unchanged |
| Schemas.PostMessageRoundTrip | backend/src/types.ts:8-13 | a `{ messages }` body parses back to its messages |
| Schemas.PostMessageRejectsUnknownRole | backend/src/types.ts:10 | a role outside `system`, `user` and `assistant` anywhere in `messages` rejects the whole body |
| Schemas.PostMessageIgnoresExtraKeys | backend/src/types.ts:8-13 | keys beside `messages` do not change the parse |
| Schemas.PostMessageWithoutContent | backend/src/types.ts:8-13 | `{ messages: [] }` is accepted with or without a top-level `content`, and no validated value carries one |
| Cors.AllowedOrigin | backend/src/index.ts:14-21 | the answer is the origin or the fixed fallback; the origin is echoed when it ends in `.pages.dev` or is `http://localhost:3000`, and otherwise the fallback is returned |
| Cors.AllowedOriginExamples | backend/src/index.ts:17-20 | `https://app.pages.dev` is echoed; `https://pages.dev`, `https://evilpages.dev` and `http://localhost:3001` get the fallback |
| Server.LoginSessionLifetime | backend/src/auth.ts:26-35 | the session a successful login issues at now lets the middleware through, as that user, before now + 7 days and never from then on |
| Server.Context.constructor | backend/src/middleware.ts:4-5 | a request starts with its cookie, Origin and body as sent, no user and no cookie written |
| Server.Backend.constructor | backend/src/index.ts:8 | the worker starts from the given `users` and `sessions` tables and `SESSION_SECRET`, with no statement run |
| Server.Backend.Login | backend/src/auth.ts:15-59 | invalid body: 400, nothing written, no query. No matching user: 401, no session, no cookie. Missing secret: 500, no session. Otherwise: exactly one new session `(freshId, user.id, now + 7 days)`, a cookie with that id and expiry and the derived domain, and `{ id, username }` in the answer |
| Server.Backend.Logout | backend/src/auth.ts:61-77 | deletes the cookie's session only when a cookie is present; clears the cookie with the domain login derives for the same Origin; always answers `Logged out` |
| Server.Backend.AuthMiddleware | backend/src/middleware.ts:4-9 | no cookie: 401 without a query and without `next`. Rejected token: 401 and the cookie cleared with path `/` and no domain. Accepted: `user` set to the joined identity and `next` once. `sessions` is never written |
| Server.Backend.GetSession | backend/src/auth.ts:80-83 | answers `{ user }` exactly when the middleware accepts, with the middleware's 401 answers otherwise |
| Server.Backend.ServeAdmin | backend/src/index.ts:30-32 | the admin app is reached exactly when the middleware accepts the request; otherwise the answer is a 401 |
| ChatPage.Trim | frontend/app/page.tsx:30 | `trim()` is no longer than its input and neither begins nor ends with white space |
| ChatPage.TrimEmptyIffBlank | frontend/app/page.tsx:30 | `input.trim()` is empty exactly when every character is white space or a line terminator |
| ChatPage.RequestWindow | frontend/app/page.tsx:45 | the request window holds the last min(n + 1, 10) messages in order and ends with the new user message |
| ChatPage.ToTurns | frontend/app/page.tsx:45 | each message is reduced to `{ role, content }`, position by position |
| ChatPage.AppendChunk | frontend/app/page.tsx:57-63 | a chunk is appended to the content of the message with the reply's id; the length and every other message stay the same |
| ChatPage.ReplaceContent | frontend/app/page.tsx:67-73 | on an error the reply's content becomes the apology; the length and every other message stay the same |
| ChatPage.AppendChunks | frontend/app/page.tsx:53-64 | after the chunks, every message with the reply's id has gained all of them, concatenated in arrival order; the length and every other message stay the same |
| ChatPage.AfterStream | frontend/app/page.tsx:53-73 | when the stream ends, the reply holds every chunk, or the apology if the exchange failed; every other message stays the same |
| ChatPage.AppendChunksToLast | frontend/app/page.tsx:53-64 | when the reply's id is fresh, the chunks grow that reply alone, by their concatenation in arrival order |
| ChatPage.SendTranscript | frontend/app/page.tsx:29-77 | with fresh ids, a send ends with the history, the user's message, and a reply holding all chunks in order, or the apology on any failure |
| ChatPage.ChatInterface.constructor | frontend/app/page.tsx:17-21 | the transcript starts with the greeting alone, an empty input and no stream |
| ChatPage.ChatInterface.SetInput | frontend/app/page.tsx:101 | typing replaces the input |
| ChatPage.ChatInterface.ReadStream | frontend/app/page.tsx:53-64 | after the read loop the transcript is the fold of the per-chunk update over the chunks |
| ChatPage.ChatInterface.HandleSendMessage | frontend/app/page.tsx:29-77 | blank input or a running stream: nothing changes. Otherwise: the request carries the last 10 messages, including the new user message, as `{ role, content }`; the input is cleared; the transcript ends as the stream dictates; `isStreaming` is false afterwards |
| AdminPage.StringOf | frontend/app/admin/page.tsx:54 | `String(value)`: a string is kept, a boolean becomes `"true"` or `"false"` |
| AdminPage.Lookup | frontend/app/admin/page.tsx:44 | reading a provider's typed key gives the entry, or the empty string when there is none |
| AdminPage.AutoDevOn | frontend/app/admin/page.tsx:93 | the switch is on exactly when `auto_dev_mode` reads `"true"`; a missing entry reads as off |
| AdminPage.ToggleFlipsSwitch | frontend/app/admin/page.tsx:93 | storing `String(!checked)` under `auto_dev_mode` flips `settings.auto_dev_mode === 'true'` |
| AdminPage.Dedupe | frontend/app/admin/page.tsx:48 | `[...new Set(xs)]` has no duplicates and the same elements as xs |
| AdminPage.DedupeOfNoDup | frontend/app/admin/page.tsx:48 | a list without duplicates is left unchanged |
| AdminPage.AddProviderOnce | frontend/app/admin/page.tsx:48 | saving a key keeps a listed provider where it is, or appends a new one once at the end |
| AdminPage.Without | frontend/app/admin/page.tsx:49 | `filter(k => k !== p)` removes p and keeps every other provider |
| AdminPage.RemoveProvider | frontend/app/admin/page.tsx:49 | removing a provider listed once leaves the others exactly as they were, in order |
| AdminPage.WithoutKeepsNoDup | frontend/app/admin/page.tsx:49 | filtering keeps the list free of duplicates |
| AdminPage.KeyFields | frontend/app/admin/page.tsx:73-77 | one field per provider in display order, showing the typed key (or `''`) and the saved placeholder exactly when the provider is in `keysPresent` |
| AdminPage.SavedKeyField | frontend/app/admin/page.tsx:77 | after a key is saved its field is empty and marked saved; the other fields are unchanged |
| AdminPage.DeletedKeyField | frontend/app/admin/page.tsx:77 | after a key is deleted its field is no longer marked saved; the other fields are unchanged |
| AdminPage.Admin.constructor | frontend/app/admin/page.tsx:22-25 | empty settings, no typed keys, no known keys, loading |
| AdminPage.Admin.LoadInitialData | frontend/app/admin/page.tsx:28-41 | one run of the loading effect: on success both answers are stored; on failure neither is; loading ends either way |
| AdminPage.Admin.EditApiKey | frontend/app/admin/page.tsx:77 | typing replaces that provider's input only |
| AdminPage.Admin.HandleApiKeySave | frontend/app/admin/page.tsx:43-51 | sends the typed key, or `''`. When the PUT throws, nothing changes. A non-empty key adds the provider once and clears its field. An empty key removes the provider. No duplicates are introduced |
| AdminPage.Admin.HandleSettingChange | frontend/app/admin/page.tsx:53-58 | sends `String(value)`; on success stores it under that key only; on failure the error reaches the caller and `settings` is unchanged |
| AdminPage.Admin.ToggleAutoDev | frontend/app/admin/page.tsx:93 | a click flips the switch, leaves every other setting alone, and changes nothing when the PUT throws |
| AdminPage.Admin.EditRepoUrl | frontend/app/admin/page.tsx:97 | typing updates `github_repo_url` locally |
| AdminPage.Admin.CommitRepoUrl | frontend/app/admin/page.tsx:97 | leaving the field saves what it shows, as `handleSettingChange` does |
| AuthContext.AuthProvider.constructor | frontend/lib/AuthContext.tsx:18-19 | `user` starts null and `isLoading` starts true |
| AuthContext.AuthProvider.Mount | frontend/lib/AuthContext.tsx:23-28 | after mount `isLoading` is false, with no server call and `user` untouched |
| AuthContext.AuthProvider.Login | frontend/lib/AuthContext.tsx:30-34 | posts `{ username, password }`; `user` becomes the returned record on success; a failure reaches the caller and leaves `user` as it was |
| AuthContext.AuthProvider.Logout | frontend/lib/AuthContext.tsx:36-47 | `user` is null afterwards whether or not the request succeeded, and the page goes to `/login` |
| AuthContext.UseAuth | frontend/lib/AuthContext.tsx:56-62 | outside a provider the hook throws `useAuth must be used within an AuthProvider`; inside it, it returns that provider |

## Left out

- AdminPage.Admin.LoadInitialData: the model runs the load once. In the source the effect depends on `api` (frontend/app/admin/page.tsx:41), and `useApi()` builds a new client on every render (frontend/lib/api.ts:25). So the effect runs again after every render and the two GETs repeat; each answer overwrites `settings` and `keysPresent`, including an unsaved repository-URL edit and a list just updated by a key save.
- PBKDF2 and AES-GCM are WebCrypto calls. `getKey`, `crypto.subtle.encrypt` and `crypto.subtle.decrypt` are an abstract cipher passed in as a value, whose round trip and 16-byte tag are an assumption (`Authenticated`). The salt, the iteration count and the key length are not modelled.
- `TextEncoder` and `TextDecoder` are not modelled: plaintexts are bytes, and stream chunks arrive already decoded as strings.
- Random values are parameters: the IV of `encrypt`, `crypto.randomUUID()` for session and message ids, and `Date.now()` and `new Date()`. Server.Backend.Login requires its session id to be new to the table. ChatPage.SendTranscript requires the reply id to be fresh.
- `new URL(origin).hostname` is an input. URL parsing, and the exception a malformed Origin raises, are not modelled.
- ISO timestamp strings are integer milliseconds. The string comparison `expires_at > ?` is taken to agree with the order of the instants.
- The D1 database is two values: `users` as a sequence and `sessions` as a map. `.first()` without `ORDER BY` is taken to return rows in table order. Database errors are not modelled.
- Hono routing, the logger, cookie serialization, and the 400 body of the JSON validator beyond `success: false` are not modelled. The request body is already parsed JSON, so a body that is not JSON is not a separate case.
- The admin API (`./admin`) is not part of this model. Server.Backend.ServeAdmin takes the admin app's answer as a parameter.
- backend/src/chat.ts is not part of this model. It is a single call into a foreign AI service, and it is never mounted. Schemas.PostMessageWithoutContent records that a valid chat body carries no top-level `content`.
- The chat page is given the outcome of the stream, not the stream. The server side of `/chat/stream`, the event-stream decoder and `fetch` are not part of this model.
- frontend/lib/api.ts is network I/O. Each request's outcome is a parameter: a success flag, or a result with an error message. The message it derives from a failed response is not modelled.
- Rendering is left out apart from the key fields (AdminPage.KeyFields), and so are toasts, router navigation other than the logout target, scrolling, text-area sizing, markdown and the login page.
- React state updates are applied in order, one handler at a time. Interleaving of a second handler with a running send or save is not modelled, and `Promise.all` is treated as two sequential requests.
- ChatPage.ChatInterface.HandleSendMessage builds the history from the state when the handler starts. This matches the source, whose closure reads the `messages` of the render in which the send began.
