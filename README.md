# Community blog backend: the dataset state machine

The backend keeps one JSON document, `{users, posts, pending}`. Each API route loads it, checks the request, changes it in place and saves it. A request that is refused returns before the save, so the document stays as it was.

This model covers the seven state-changing or identity routes of `server.js`: register, verify, login, create post, edit post, delete post and add comment. They are methods of the class `Server.Store`. Its fields `users`, `posts` and `pending` are the three arrays of the document. A record that the source changes in place (`user.verified = true`, `post.title = …`, `post.comments.push(…)`) becomes a sequence update of the field that holds it. Every request rebuilds its objects from the JSON file, so no two requests share a record, and value semantics loses nothing here.

Modules:

- `ArrayOps`: the JavaScript `find` (first match, left to right) and `filter` (keeps order) built-ins, with lemmas about them.
- `Text`: `toLowerCase` on ASCII, `String(n)` for a natural number with its parser and round trip, and the hex rendering of random bytes.
- `Dataset`: the records, the `publicUser` projection, the result type, id and code generation, and the `find`/`filter` callbacks.
- `Invariants`: the conditions every dataset grown from the empty one keeps, and the lemmas that register and verify preserve them.
- `Policy`: looking up the actor by `authorId`, and the two authorization gates.
- `Server`: the `Store` class with one method per route handler.
- `Scenarios`: client methods that chain requests. One is the end-to-end run of register, verify, post and comment.

These inputs are parameters instead of being computed:

- `hashPassword` is the store's constant `hash: string -> string`. It is deterministic; nothing else is assumed about it.
- `Date.now()` is `now: nat`.
- `crypto.randomBytes(4)` is `nonce: seq<bv8>` of length 4.
- `Math.random()` is `random: real` in [0, 1).
- `new Date().toISOString()` is the string `createdAt`.

A request field that is absent and one that is empty are both the empty string. For strings, that is JavaScript's `!field` test.

`Store.Valid()` is the invariant. It holds for the empty dataset (the constructor) and every handler keeps it (`old(Valid()) ==> Valid()`). It says:

- at most one pending record per email;
- every pending email belongs to a user with exactly that email;
- emails are distinct ignoring case;
- user 0 is the admin and every later user is an ordinary user;
- user ids start with `u_`;
- every post's author role is admin.

The handlers do not require `Valid()`, because the source accepts whatever document it loads. Where the result depends on it, the contract says so: under `Valid()`, verify never answers NotFound, and edit and delete answer Forbidden for an empty `authorId`.

Points of the source the model keeps as they are:

- Verify answers 404 (NotFound) when a code matches but no user has exactly that email (server.js:81-82).
- Verify tests only the first pending record for the email, and compares emails case-sensitively (server.js:77-78). Under the invariant this is the same as "the pair (email, code) is pending".
- Create post appends the new post to `posts` (server.js:125).
- Create post rejects a missing `authorId` with 400 (server.js:108). Edit and delete have no missing-field check, so they answer a missing `authorId` with 403 (server.js:134-136, 150-152).

## Model

| member | source | states |
|---|---|---|
| `ArrayOps.Find` | server.js:77 | returns the index of the first element satisfying the callback, or None when no element does |
| `ArrayOps.Filter` | server.js:66 | keeps exactly the elements satisfying the callback; a result as long as the input is the input |
| `ArrayOps.FilterAppend` | server.js:66-67 | filtering `s + [x]` is filtering `s`, then `x` if it passes |
| `ArrayOps.FilterIdempotent` | server.js:84 | a second filter with the same callback changes nothing |
| `ArrayOps.FilterKeepsAll` | server.js:155-156 | when every element passes, the filter returns its input |
| `ArrayOps.FilterDistinct` | server.js:66 | filtering keeps keys distinct |
| `ArrayOps.DistinctAppend` | server.js:63 | appending an element with a new key keeps keys distinct |
| `Text.Lower` | server.js:52 | same length; no upper-case ASCII letter is left; A–Z are shifted to a–z and every other character is kept |
| `Text.Decimal` | server.js:65 | `String(n)`: at least one character, every one a decimal digit; `ParseDecimal` reads it back (`Text.DecimalRoundTrip`) |
| `Text.DecimalRoundTrip` | server.js:65 | parsing `String(n)` gives back n |
| `Text.DecimalInjective` | server.js:56 | different numbers have different numerals |
| `Text.DecimalLeadingDigit` | server.js:65 | the numeral of a positive number has no leading zero |
| `Text.DecimalSixDigits` | server.js:65 | a number from 100000 to 999999 has a six-character numeral |
| `Text.Hex` | server.js:56 | each byte, in order, becomes two lower-case hex digits, the high nibble first |
| `Text.HexInjective` | server.js:56 | equal hex renderings come from equal bytes, so the rendering loses nothing |
| `Dataset.Status` | server.js:49-53 | BadRequest is 400, Unauthorized 401, Forbidden 403, NotFound 404 and Conflict 409, each in both directions |
| `Dataset.Public` | server.js:36-44 | the public view copies id, nickname, email, role and verified, and has no hash field |
| `Dataset.PublicForgetsOnlyHash` | server.js:36-44 | two users have the same public view iff they differ at most in the password hash |
| `Dataset.MakeId` | server.js:56 | an id starts with its prefix and is longer than prefix, timestamp and hex together |
| `Dataset.MakeIdDistinct` | server.js:56 | ids differ when their timestamps differ or, at the same millisecond, their random bytes differ |
| `Dataset.CodeFromRandom` | server.js:65 | `floor(100000 + r * 900000)` lies in 100000..999999 when 0 <= r < 1 |
| `Dataset.CodeIsSixDigits` | server.js:65 | the issued code string has six digits, does not start with 0, and parses back to the number |
| `Invariants.FirstPendingIsOnly` | server.js:77 | with one pending record per email, the first record for an email is the only one |
| `Invariants.FirstUserIsOnly` | server.js:93 | with emails distinct ignoring case, the first case-insensitive match is the only one |
| `Invariants.ReissueKeepsOthers` | server.js:66-67 | after reissuing, exactly the last pending record has the email, and the other emails' records are unchanged and in order |
| `Invariants.RegisterKeepsConsistent` | server.js:52-67 | appending a user with a new email (role by position, `u_` id) and reissuing its code keeps the dataset consistent |
| `Invariants.VerifyKeepsConsistent` | server.js:81-84 | marking a user verified and dropping that email's pending records keeps the dataset consistent |
| `Invariants.PendingMatchIsMembership` | server.js:77-82 | in a consistent dataset, "the first pending record for the email holds the code" iff (email, code) is pending, and then the email has a user |
| `Invariants.LoginMatchIsExistence` | server.js:93-96 | in a consistent dataset, login's test on the first case-insensitive match is the test on some matching user |
| `Policy.ResolveActor` | server.js:112 | finds a user iff some user has the id, and then it is the first such user |
| `Policy.MayManagePosts` | server.js:113 | the gate of create, edit and delete post passes iff the comment gate passes and the actor is an admin |
| `Policy.MayComment` | server.js:167 | an absent actor never passes; a present one passes iff verified |
| `Policy.CommentGateIgnoresRole` | server.js:167 | whoever may manage posts may comment; changing the role alone never changes who may comment |
| `Policy.PostGateWithDistinctIds` | server.js:113 | with distinct user ids, the post gate holds iff some user with the id is a verified admin |
| `Server.Store.constructor` | server.js:14-17 | the initial dataset is empty and satisfies the invariant |
| `Server.Store.Register` | server.js:46-71 | 400 iff a field is missing; 409 iff some user's email equals the given one ignoring case; a failure changes nothing; on success, one unverified user is appended, admin iff there were no users; exactly one pending record for the email, the last, holding the six-digit code; other emails' records unchanged and in order; the invariant is kept |
| `Server.Store.Verify` | server.js:73-87 | 400 iff a field is missing or the first pending record for exactly this email does not hold this code; 404 iff it does but no user has exactly this email; failures change nothing; on success, the first user with the email is marked verified, nothing else changes, and no pending record for the email remains; under the invariant it succeeds iff (email, code) is pending |
| `Server.Store.Login` | server.js:89-99 | changes nothing; 400 iff a field is missing; one answer, 401, for "no user with this email" and for "wrong password"; on success returns the public view of the first case-insensitive match, whose hash equals that of the password |
| `Server.Store.CreatePost` | server.js:106-128 | 400 iff title, content or authorId is missing, checked before the gate; 403 iff the actor is not a verified admin; failures change nothing; on success, one post is appended with no comments and the actor's nickname and role copied |
| `Server.Store.EditPost` | server.js:130-144 | 403 iff the actor is not a verified admin; 404 iff no post has the id; failures change nothing; on success, only the first post with the id changes; title and content are replaced only by non-empty values, and every other field is kept |
| `Server.Store.DeletePost` | server.js:146-159 | 403 iff the actor is not a verified admin; 404 iff no post has the id, and then nothing changes; on success, every post with the id is removed, with its comments, and every other post is kept in order |
| `Server.Store.AddComment` | server.js:161-180 | 400 iff authorId or content is missing; 403 iff the actor is absent or unverified, whatever the role; 404 iff no post has the id; failures change nothing; on success, one comment with the author snapshot is appended to the first post with the id, and nothing else changes |
| `Scenarios.VerifyTwice` | server.js:77-84 | after a successful verify, repeating it with the same code answers 400 |
| `Scenarios.RegisterTwice` | server.js:52-54 | after a successful register, registering the same email in any letter case answers 409 and adds no second user |
| `Scenarios.EndToEnd` | server.js:46-180 | on a fresh dataset: the first registrant is an unverified admin; a wrong code is refused and the issued one accepted; the admin's post is published; a second, unverified user is refused a comment with 403; once verified, their comment is the post's only comment |

## Left out

- Express wiring (`app.use`, `express.static`, `app.listen`) and HTTP plumbing: errors are the `Error` datatype, mapped to status codes by `Dataset.Status`. Response bodies are the `Ok` payloads.
- `GET /api/posts` (server.js:101-104) only returns `posts` unchanged, so it has no method.
- `loadData`/`saveData` file I/O: JSON parsing, merging missing top-level keys, and the fallback to an empty dataset when parsing fails. The store's fields are the persisted state. Only the empty initial dataset is modelled, as the constructor.
- SHA-256: `hash` is an arbitrary deterministic function. One-wayness is not modelled.
- Unicode `toLowerCase`: `Text.Lower` lowers only ASCII A–Z.
- Floating point in `Math.random() * 900000`: the bound is proved over the reals.
- ISO timestamps are opaque strings supplied by the caller.
- Id uniqueness: the source does not check it. `Dataset.MakeIdDistinct` only shows that ids made from different timestamps or different random bytes differ.
- Request fields that are not strings (a numeric `code`, or an `email` for which `toLowerCase` throws): the model's request fields are strings.
- Concurrency: the last-writer-wins race between requests.
- `assets/app.js`: DOM rendering, client-side checks that duplicate the server rules, and display sorting.
