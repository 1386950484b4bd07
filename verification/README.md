# Social Insecurity request handlers in Dafny

This project models the request-handling layer of the Social Insecurity web
application (`social_insecurity/routes.py`). Without Flask, the form library,
the templates and SQLite, each handler is a pure transition:

    (store, session, request) -> (store', session', notices, saved file, response)

- **Store** (`tables.dfy`, module `Tables`): the Users, Posts and Comments
  tables and the directed Friends edges, each a sequence of rows in insertion
  order. New rows take SQLite's rowid rule (largest id plus one, or 1).
  `WellFormed` is the store invariant: ids are unique per table, and no
  friend edge is a self-edge or a duplicate.
- **Writes** (`writes.dfy`): the INSERT and UPDATE statements as functions on
  the store.
- **Queries** (`queries.dfy`): the SELECTs as comprehensions over the tables.
  These are the stream feed, the comment thread, the post detail and the
  friend list. Inner joins with Users drop rows whose user row is missing.
  `ORDER BY ... DESC` is a descending permutation (`seqs.dfy`).
- **Upload names** (`text.dfy`, `uploads.dfy`): the last-dot extension of a
  file name, the stored name `<token>_<sanitised name>`, and the guard for
  serving uploads.
- **Handlers** (`routes.dfy`, module `Routes`):
  - index (login and registration), logout, stream, comments, friends and
    profile;
  - the uploads route;
  - the `login_required` gate, and `Handle`, which dispatches a `Route`.
  - Flash messages are returned as `Notice`s.
  - A template render is a `View` holding the data the template is given.
  - `saved` names the file written to the uploads folder, if any.
- **Properties** (`properties.dfy`): lemmas that relate several calls or cover
  every route.

Things that come from outside are parameters in `Env`:

- the clock (`CURRENT_TIMESTAMP`), as `now`;
- the random upload token (`secrets.token_hex(8)`), as `token`;
- the file-name sanitiser (`werkzeug.secure_filename`), as an uninterpreted
  function `sanitize`;
- the configured extension allow-list, as `allowed`.

A request is `Get`, or `Submitted(Some(form))` for a POST whose form passed
validation, or `Submitted(None)` for a POST whose form failed it. The form
library's validation is not modelled.

The session is `Anonymous` or `SignedIn(userId, username)`. The only code that
writes the session is login and logout. Login clears the session and then sets
both keys. Logout clears it. So "user id present but username absent" cannot
happen, and the model leaves it out.

Where the source subscripts the session user's row and the row is missing, it
raises an exception. That case is the `ServerError` response, and the store is
left as it was. It happens with a session whose user id has no Users row.

## Model

| member | source | states |
|---|---|---|
| `Seqs.FirstIndex` | social_insecurity/routes.py:43-47 | a `one=True` query returns the first row in table order that matches, and None exactly when no row matches |
| `Seqs.Filter` | social_insecurity/routes.py:216-219 | a WHERE filter keeps exactly the rows satisfying the condition, each as often as it occurs in the table |
| `Seqs.FilterAppend` | social_insecurity/routes.py:128 | filtering keeps table order: the filter of a concatenation is the concatenation of the filters |
| `Seqs.Join` | social_insecurity/routes.py:129 | an inner join from a driving table yields, for each driving row that has a partner, its joined row as often as the driving row occurs, and nothing else |
| `Seqs.Insert` | social_insecurity/routes.py:133 | inserting into a newest-first sequence keeps it newest-first and adds exactly that one element |
| `Seqs.SortDesc` | social_insecurity/routes.py:133 | `ORDER BY creation_time DESC` gives a permutation of the rows in non-increasing key order |
| `Seqs.SortDescMembers` | social_insecurity/routes.py:179 | sorting neither adds nor loses rows |
| `Seqs.LargerKeyFirst` | social_insecurity/routes.py:133 | in a list ordered by descending key, an element with a strictly larger key stands before one with a smaller key |
| `Seqs.DistinctAtMostOnce` | social_insecurity/routes.py:129 | a table without repeated rows holds each row at most once |
| `Seqs.OnceIsDistinct` | social_insecurity/routes.py:129 | a result holding each row at most once has no two equal rows |
| `Text.AfterLast` | social_insecurity/routes.py:106 | `rsplit(".", 1)[-1]` is a dot-free suffix that follows a dot, or is the whole string when it has no dot |
| `Text.AfterLastUnique` | social_insecurity/routes.py:106 | that suffix is the only one with this property |
| `Text.Lower` | social_insecurity/routes.py:291 | `str.lower` (ASCII letters): same length, no upper-case letter left, every other character unchanged |
| `Text.LowerIdempotent` | social_insecurity/routes.py:291 | lower-casing twice is lower-casing once |
| `Text.LowerAfterLastDot` | social_insecurity/routes.py:299 | lower-casing first and splitting after gives the same text as splitting first and lower-casing after |
| `Text.EndsWithDotted` | social_insecurity/routes.py:294 | a name that `endswith` `"." + e` (the `EndsWith` predicate), with `e` dot-free, has `e` after its last dot |
| `Text.DottedEndsWith` | social_insecurity/routes.py:294 | a name with a dot ends in a dot followed by the text after its last dot |
| `Tables.NextId` | social_insecurity/routes.py:118-123 | a new row's id is larger than every existing id, is 1 in an empty table, and is otherwise one more than an existing id |
| `Tables.UserById` | social_insecurity/routes.py:94-98 | the user lookup by session id finds a row with that id, and finds none only when no row has it |
| `Tables.UserByName` | social_insecurity/routes.py:43-47 | the lookup by username returns the earliest row with that name, and None only when no row has it |
| `Tables.FirstRowStaysFirst` | social_insecurity/routes.py:43-47 | registering another row with a taken name does not change which row the name lookup finds |
| `Tables.FreshIdKeepsUnique` | social_insecurity/routes.py:60-66 | a row with the next id keeps the table's ids unique |
| `Writes.AddUser` | social_insecurity/routes.py:60-66 | registration appends one row with a fresh id, the submitted fields as given and an empty profile, and touches no other table |
| `Writes.AddPost` | social_insecurity/routes.py:118-123 | a post insert appends one row with a fresh id, the author, content, image and clock reading, and touches no other table |
| `Writes.AddComment` | social_insecurity/routes.py:162-167 | a comment insert appends one row with a fresh id on the given post id, which is not checked against Posts |
| `Writes.UpdateProfile` | social_insecurity/routes.py:269-282 | the UPDATE sets the six profile fields of the rows with that id and leaves every other row and column unchanged |
| `Queries.FeedRows` | social_insecurity/routes.py:128-129 | the join keeps a post exactly when its author row exists, annotated with that row and the post's comment count, and as often as the post occurs |
| `Queries.OnStreamSymmetric` | social_insecurity/routes.py:130-132 | the stream's WHERE clause (`OnStream`) is symmetric: a friend edge in either direction makes each user's posts visible to the other |
| `Queries.CommentCount` | social_insecurity/routes.py:128 | the comment count is at most the number of comments, and is zero exactly when no comment is on the post |
| `Queries.CommentCountAppend` | social_insecurity/routes.py:128 | one more comment row raises its own post's count by one and leaves every other count |
| `Queries.Feed` | social_insecurity/routes.py:127-135 | the stream holds exactly the posts by the user or by someone linked by an edge in either direction, each once per Posts row, with author and comment count, newest first |
| `Queries.CommentRows` | social_insecurity/routes.py:177 | the comment join keeps a comment exactly when its author row exists, as often as the comment occurs |
| `Queries.Thread` | social_insecurity/routes.py:174-182 | the comment thread holds exactly the post's comments that have an author row, each once per Comments row, newest first |
| `Queries.PostDetail` | social_insecurity/routes.py:168-172 | the detail is a post with that id joined with its author, and is absent only when no such post has an author row |
| `Queries.FriendRows` | social_insecurity/routes.py:238 | the friend join keeps an edge exactly when the befriended user's row exists, as often as the edge occurs |
| `Queries.FriendList` | social_insecurity/routes.py:235-243 | the friend list holds exactly the outgoing edges of the user, never a self-edge, each once per Friends row, with the friend's row |
| `Uploads.Extension` | social_insecurity/routes.py:106 | the extension is dot-free and lower-case, and is empty for a name without a dot |
| `Uploads.ExtensionAfterLastDot` | social_insecurity/routes.py:106 | for a name with a dot, the extension is the lower-cased text after a dot that has no dot after it |
| `Uploads.MayServe` | social_insecurity/routes.py:291-301 | names ending in `.html`, `.htm` or `.js` in any letter case are refused; otherwise a name is served exactly when its extension is allow-listed and not active content |
| `Uploads.ServeSideExtension` | social_insecurity/routes.py:299 | the extension used on serving is the extension used on upload |
| `Uploads.DottedSuffix` | social_insecurity/routes.py:294 | for dot-free `e`, ending in `"." + e` means the last-dot extension is `e` |
| `Uploads.SuffixIsExtension` | social_insecurity/routes.py:294 | the lower-cased name ends in `"." + e` exactly when its extension is `e` |
| `Uploads.ServeCheckMatchesExtension` | social_insecurity/routes.py:294-300 | the block-list test fires exactly when the extension is `html`, `htm` or `js` |
| `Uploads.StoredNameKeepsExtension` | social_insecurity/routes.py:112 | the stored name `StoredName` (token, `_`, sanitised name) keeps the sanitised name's extension when the token has no dot |
| `Uploads.UploadThenServe` | social_insecurity/routes.py:291-301 | an accepted upload is served under its stored name (`StoredName`) exactly when its extension is not active content |
| `Routes.Authenticate` | social_insecurity/routes.py:43-57 | login is unknown-user exactly when no row has the name, wrong-password exactly when the first row with the name has another password, and otherwise signs in as exactly that first row |
| `Routes.Index` | social_insecurity/routes.py:30-70 | only a successful login changes the session, only a registration changes the store, and posts, comments and friends are never touched |
| `Routes.Attach` | social_insecurity/routes.py:104-116 | with no file name there is no file; a file is refused exactly when its sanitised extension is not allow-listed; otherwise it is stored as token + `_` + sanitised name |
| `Routes.Publish` | social_insecurity/routes.py:118-124 | a post is inserted by the session user with the clock reading; when the session user's row is missing the request fails with the store unchanged but the uploaded file already written |
| `Routes.Stream` | social_insecurity/routes.py:79-137 | the stream page keeps the session and every table but Posts; a GET or a failed submission writes nothing, and a valid one adds at most one post, by the session user, whose image is the saved file |
| `Routes.Comments` | social_insecurity/routes.py:140-186 | the comments page keeps the session and every table but Comments; a GET or a failed submission writes nothing, a valid one adds at most one comment, by the session user on the URL's post, and the page renders the post and thread (`ShowThread`) read after that insert |
| `Routes.AddFriend` | social_insecurity/routes.py:210-233 | friend-add is unknown user, self, already-friends or added, each exactly in its case, judged on the first row with the name; only "added" changes the store, by appending exactly the edge from the user to that row |
| `Routes.FriendNotice` | social_insecurity/routes.py:221-233 | each friend-add refusal flashes a warning, and only an added friend flashes success |
| `Routes.Friends` | social_insecurity/routes.py:189-244 | the friends page keeps the session and every table but Friends; a GET or a failed submission writes nothing, and a valid one from an existing session user applies the friend-add decision (`AddFriend`) to the store and flashes exactly that outcome's notice |
| `Routes.Profile` | social_insecurity/routes.py:247-285 | the profile page keeps the session, posts, comments and edges; a GET or a failed submission writes nothing, and a valid one changes user rows only in their profile fields |
| `Routes.ServeUpload` | social_insecurity/routes.py:288-306 | the uploads route sends the file exactly when the extension is allow-listed and not active content, and otherwise answers 403 |
| `Routes.Handle` | social_insecurity/routes.py:19-306 | the route table: the four user pages answer an anonymous request with the sign-in gate's reply; only the index and logout change the session; only a signed-in stream post writes a file |
| `RouteProperties.AnonymousIsTurnedAway` | social_insecurity/routes.py:19-26 | every gated route answers an anonymous request with the gate's reply (`SignInRequired`): the warning and the index redirect, changing nothing |
| `RouteProperties.LogoutThenTurnedAway` | social_insecurity/routes.py:72-76 | after logging out (`Logout` clears the session), every gated route answers with the sign-in warning and the index redirect, leaving the store as it was |
| `RouteProperties.SignedInPassesGate` | social_insecurity/routes.py:19-26 | a signed-in request is never turned away by the gate |
| `RouteProperties.GatedRoutesKeepSession` | social_insecurity/routes.py:79-91 | no gated route changes the session |
| `RouteProperties.LoginSucceedsIff` | social_insecurity/routes.py:42-57 | login succeeds exactly when the first row with the name has that password; the session then holds exactly that row's id and the name, and otherwise is unchanged |
| `RouteProperties.LoginFailureKeepsSession` | social_insecurity/routes.py:49-52 | a missing user or a wrong password for the first row with the name gives exactly the matching warning and the index page, with session and store unchanged |
| `RouteProperties.UnknownUserLogin` | social_insecurity/routes.py:49-50 | a name nobody registered gets the "user does not exist" warning and creates no session |
| `RouteProperties.RegisterThenLogin` | social_insecurity/routes.py:59-68 | after registering a fresh name, logging in with the same name and password signs in as the new row, whose id is fresh |
| `RouteProperties.ReregisteredNameKeepsFirstRow` | social_insecurity/routes.py:43-66 | registering a taken name appends a second row, but logging in with the new password is refused as a wrong password |
| `RouteProperties.MisaddressedGetRedirects` | social_insecurity/routes.py:88-90 | a GET for another user's page redirects to the session user's page and changes nothing |
| `RouteProperties.MisaddressedPostActsAsSessionUser` | social_insecurity/routes.py:149-152 | a POST to another user's page acts exactly as one to the session user's own page |
| `RouteProperties.RefusedUploadDropsPost` | social_insecurity/routes.py:108-110 | a refused file drops the whole post: no row, no file, a warning, a redirect to the session user's stream |
| `RouteProperties.AcceptedUploadAppendsPost` | social_insecurity/routes.py:112-124 | an accepted file appends exactly one post by the session user, with the stored name as image, and writes that file |
| `RouteProperties.PostWithoutFile` | social_insecurity/routes.py:101-104 | a post without a file is stored with no image and writes no file |
| `RouteProperties.FeedNewestFirst` | social_insecurity/routes.py:133 | of two visible posts, the one with the larger creation time comes first in the stream |
| `RouteProperties.SequentialPostsNewestFirst` | social_insecurity/routes.py:118-135 | two posts made one after the other show newest first on the poster's stream |
| `RouteProperties.SameSecondPostsTie` | social_insecurity/routes.py:118-133 | for example, two posts by one user within one clock reading tie on `creation_time`, and the stream then lists the earlier one first |
| `RouteProperties.FeedListsPostOnce` | social_insecurity/routes.py:127-135 | with unique post ids, no post appears twice on the stream |
| `RouteProperties.FeedItemsOnce` | social_insecurity/routes.py:127-135 | with unique post ids, each stream entry occurs at most once |
| `RouteProperties.StreamRendersFeed` | social_insecurity/routes.py:135-137 | the stream page renders the session user's feed |
| `RouteProperties.AddFriendKeepsSimpleEdges` | social_insecurity/routes.py:221-232 | friend-add never creates a self-edge or a duplicate edge, and leaves existing edges in place |
| `RouteProperties.FriendingSelfWarns` | social_insecurity/routes.py:223-224 | on the friends page, naming oneself gives the "cannot be friends with yourself" warning and adds no edge |
| `RouteProperties.FriendingTwiceWarns` | social_insecurity/routes.py:225-226 | on the friends page, naming a user already added gives the "already friends" warning and adds no second edge |
| `RouteProperties.DirectedFriendship` | social_insecurity/routes.py:235-243 | after A adds B, B is on A's list, A is on B's list only if B added A, and each of A's posts is on B's stream |
| `RouteProperties.CommentAppearsInThread` | social_insecurity/routes.py:161-182 | a new comment shows in its post's thread alongside the earlier ones, newest first |
| `RouteProperties.CommentRaisesCount` | social_insecurity/routes.py:128 | a new comment raises its post's comment count by one and no other post's count |
| `RouteProperties.ProfileUpdateOnlyOwnFields` | social_insecurity/routes.py:268-283 | a profile submission changes only the six profile fields, and only in the session user's row |
| `RouteProperties.ProfileUpdateThenView` | social_insecurity/routes.py:262-285 | after a profile submission, viewing one's own profile shows the same row with exactly the submitted six fields |
| `RouteProperties.ActiveContentForbidden` | social_insecurity/routes.py:294-295 | a name ending in `.html`, `.htm` or `.js` gets 403 whatever the allow-list |
| `RouteProperties.ServedStoredName` | social_insecurity/routes.py:297-303 | the uploads route serves a stored name exactly when its extension is not active content |
| `RouteProperties.UploadedImageIsServed` | social_insecurity/routes.py:112-116 | an image accepted with a post is served back under its stored name unless its extension is active content |
| `RouteProperties.AddUserKeepsWellFormed` | social_insecurity/routes.py:60-66 | registration keeps the store invariant |
| `RouteProperties.AddPostKeepsWellFormed` | social_insecurity/routes.py:118-123 | a post insert keeps the store invariant |
| `RouteProperties.AddCommentKeepsWellFormed` | social_insecurity/routes.py:162-167 | a comment insert keeps the store invariant |
| `RouteProperties.UpdateProfileKeepsWellFormed` | social_insecurity/routes.py:269-282 | a profile update keeps the store invariant |
| `RouteProperties.HandleKeepsWellFormed` | social_insecurity/routes.py:28-306 | every request keeps ids unique and friend edges free of self-edges and duplicates |
| `RouteProperties.HandleIsAppendOnly` | social_insecurity/routes.py:28-306 | posts, comments and edges are only appended to, and existing users change only in profile fields |

## Left out

- HTTP plumbing: `render_template`, `url_for` and `send_from_directory` are framework I/O. Their results are a `View`, a `Page` or `SendFile`.
- Flash delivery: notices are returned in the reply instead.
- Form validation (`validate_on_submit`, the WTForms classes) belongs to an external library. The model only sees whether a submitted form validated, and what it holds.
- The SQL engine and the `sqlite.query` gateway are not modelled. Their tables are sequences of rows.
- The database schema is not part of this model. If it declares `username` UNIQUE, a duplicate registration would fail in SQLite. Here it is appended, and logins match the earliest row with that name.
- `werkzeug.secure_filename` is a parameter, as is `secrets.token_hex`. `CURRENT_TIMESTAMP` is an integer clock reading passed in.
- Writing the upload folder, `mkdir` and saving the file are left out. Only the name of the written file is reported, in `saved`.
- Other session keys, such as the form library's CSRF token, are not modelled. `session.clear()` wipes them too.
- The check-then-insert race in friend-add is left out, because it needs concurrent requests.
- Rendering a comment page for a nonexistent post depends on the template. The model hands the template an absent post (`PostDetail` is None).
- `Text.Lower`: `str.lower` is modelled on ASCII letters only. Non-ASCII characters are left as they are. The suffixes that matter (`.html`, `.htm`, `.js`) are ASCII.
- `Seqs.SortDesc`: SQLite leaves the order of rows with equal `creation_time` unspecified. The contract says only that the result is ordered newest first and is a permutation. The definition keeps table order among ties, as `RouteProperties.SameSecondPostsTie` shows.
- `RouteProperties.SequentialPostsNewestFirst`: holds only when the clock moved between the two posts. `CURRENT_TIMESTAMP` has one-second resolution, so two posts in one second tie, and their order is then not newest first (`RouteProperties.SameSecondPostsTie`).
- `RouteProperties.RegisterThenLogin`: holds only for a name nobody has registered. A taken name is registered again as a second row, but login keeps checking the first row (`RouteProperties.ReregisteredNameKeepsFirstRow`).
- `Tables.NextId`: SQLite picks a random rowid once the largest id reaches the 64-bit maximum. Ids here are unbounded, so this never happens.
- `SELECT DISTINCT` in the comment query is not modelled. Comment ids are unique, so joined rows are already distinct.
- Users are joined by the first row with the id. Under `WellFormed`, ids are unique, so that row is the only one.
