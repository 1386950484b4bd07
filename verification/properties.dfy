/**
  Properties of the handlers that relate several calls or hold across all routes:
  the sign-in gate, login and registration, username canonicalisation, post
  and upload creation, friend edges, stream order, profile updates, serving
  uploads, and the store invariant.
 */
module RouteProperties {
  import opened Optional
  import opened Seqs
  import opened Text
  import opened Tables
  import opened Queries
  import opened Writes
  import opened Uploads
  import opened Routes

  // ---------------------------------------------------------------------------
  // Session guard

  /** Every gated route answers an anonymous request with a warning and a redirect to the index, changing nothing. */
  lemma AnonymousIsTurnedAway(db: Db, route: Route, env: Env)
    requires route.Gated()
    ensures var r := Handle(db, Anonymous, route, env);
      && r.response == Redirect(ToIndex)
      && r.notices == [PleaseSignIn]
      && r.db == db && r.session == Anonymous && r.saved == None
  {
  }

  /** A signed-in request passes the gate: no gated route then sends it to the index. */
  lemma SignedInPassesGate(db: Db, session: Session, route: Route, env: Env)
    requires route.Gated() && session.SignedIn?
    ensures Handle(db, session, route, env).response != Redirect(ToIndex)
    ensures PleaseSignIn !in Handle(db, session, route, env).notices
  {
    match route
    case StreamRoute(_, _) =>
    case CommentsRoute(_, _, _) =>
    case FriendsRoute(_, _) =>
    case ProfileRoute(_, _) =>
  }

  /** After logging out, every gated route turns the request away again. */
  lemma LogoutThenTurnedAway(db: Db, session: Session, route: Route, env: Env)
    requires route.Gated()
    ensures var out := Logout(db, session);
      Handle(out.db, out.session, route, env) == Reply(db, Anonymous, [PleaseSignIn], None, Redirect(ToIndex))
  {
  }

  /** Gated routes never change the session. */
  lemma GatedRoutesKeepSession(db: Db, session: Session, route: Route, env: Env)
    requires route.Gated()
    ensures Handle(db, session, route, env).session == session
  {
  }

  // ---------------------------------------------------------------------------
  // Login and registration

  /**
    Login succeeds exactly when the first Users row with the submitted name has the
    submitted password; the session then holds exactly that row's id and name.
   */
  lemma LoginSucceedsIff(db: Db, session: Session, username: string, password: string)
    ensures var r := Index(db, session, Submitted(Some(LoginForm(username, password))));
      && r.db == db
      && (r.response == Redirect(ToStream(username)) <==>
            UserByName(db.users, username).Some? && UserByName(db.users, username).value.password == password)
      && (r.response == Redirect(ToStream(username)) ==>
            r.session == SignedIn(UserByName(db.users, username).value.id, username))
      && (r.response != Redirect(ToStream(username)) ==> r.session == session)
  {
  }

  /**
    A failed login leaves the session and store as they were and shows the index page
    with one warning: no such user, or a wrong password for the first row with the name.
   */
  lemma LoginFailureKeepsSession(db: Db, session: Session, username: string, password: string)
    requires UserByName(db.users, username).None? || UserByName(db.users, username).value.password != password
    ensures var r := Index(db, session, Submitted(Some(LoginForm(username, password))));
      && r.session == session && r.db == db
      && r.response == Render(IndexView)
      && r.notices == [if UserByName(db.users, username).None?
                       then UnknownUserNotice
                       else WrongPasswordNotice]
  {
  }

  /** Logging in with a name nobody registered reports that the user does not exist. */
  lemma UnknownUserLogin(db: Db, session: Session, username: string, password: string)
    requires forall u :: u in db.users ==> u.username != username
    ensures Index(db, session, Submitted(Some(LoginForm(username, password))))
            == Reply(db, session, [UnknownUserNotice], None, Render(IndexView))
  {
  }

  /**
    Registering a fresh name and then logging in with the same name and password
    signs in as the new row, whose id no earlier row has.
   */
  lemma RegisterThenLogin(db: Db, s1: Session, s2: Session, username: string, firstName: string, lastName: string, password: string)
    requires forall u :: u in db.users ==> u.username != username
    ensures var r1 := Index(db, s1, Submitted(Some(RegisterForm(username, firstName, lastName, password))));
            var r2 := Index(r1.db, s2, Submitted(Some(LoginForm(username, password))));
      && r1.response == Redirect(ToIndex) && r1.notices == [UserCreatedNotice]
      && |r1.db.users| == |db.users| + 1
      && r2.response == Redirect(ToStream(username))
      && r2.session == SignedIn(r1.db.users[|db.users|].id, username)
      && forall u :: u in db.users ==> u.id != r1.db.users[|db.users|].id
  {
    var r1 := Index(db, s1, Submitted(Some(RegisterForm(username, firstName, lastName, password))));
    var users := r1.db.users;
    var n := |db.users|;
    assert forall j :: 0 <= j < n ==> users[j] == db.users[j];
    assert users[n].username == username && users[n].password == password;
    assert UserByName(users, username) == Some(users[n]) by {
      assert forall j :: 0 <= j < n ==> users[j] in db.users;
    }
  }

  /**
    Registering a name that is already taken appends a second row with that name,
    but login keeps checking the earlier row: the new password is refused.
   */
  lemma ReregisteredNameKeepsFirstRow(db: Db, s1: Session, s2: Session, username: string, firstName: string, lastName: string, password: string)
    requires UserByName(db.users, username).Some? && UserByName(db.users, username).value.password != password
    ensures var r1 := Index(db, s1, Submitted(Some(RegisterForm(username, firstName, lastName, password))));
            var r2 := Index(r1.db, s2, Submitted(Some(LoginForm(username, password))));
      && r1.response == Redirect(ToIndex) && |r1.db.users| == |db.users| + 1
      && r1.db.users[|db.users|].username == username && r1.db.users[|db.users|].password == password
      && r2.session == s2 && r2.response == Render(IndexView)
      && r2.notices == [WrongPasswordNotice]
  {
    var r1 := Index(db, s1, Submitted(Some(RegisterForm(username, firstName, lastName, password))));
    assert r1.db.users == db.users + [r1.db.users[|db.users|]];
    FirstRowStaysFirst(db.users, r1.db.users[|db.users|], username);
  }

  // ---------------------------------------------------------------------------
  // Username canonicalisation

  /** A GET for another user's page is redirected to the session user's page and changes nothing. */
  lemma MisaddressedGetRedirects(db: Db, session: Session, route: Route, env: Env)
    requires route.Gated() && session.SignedIn? && route.IsGet() && route.url != session.username
    ensures Handle(db, session, route, env)
            == Reply(db, session, [], None, Redirect(PageFor(route, session.username)))
  {
  }

  /** A POST to another user's page acts exactly as a POST to the session user's own page. */
  lemma MisaddressedPostActsAsSessionUser(db: Db, session: Session, route: Route, env: Env)
    requires route.Gated() && session.SignedIn? && !route.IsGet()
    ensures Handle(db, session, route, env) == Handle(db, session, route.(url := session.username), env)
  {
  }

  // ---------------------------------------------------------------------------
  // Posts and uploads

  /** A post whose file has a refused extension is dropped whole: no row, no file. */
  lemma RefusedUploadDropsPost(db: Db, session: Session, url: string, content: string, filename: string, env: Env)
    requires session.SignedIn? && filename != ""
    requires Extension(env.sanitize(filename)) !in env.allowed
    ensures var r := Stream(db, session, url, Submitted(Some(PostForm(content, Some(filename)))), env);
      && r.db == db && r.saved == None
      && r.notices == [FileTypeNotice]
      && r.response == Redirect(ToStream(session.username))
  {
  }

  /**
    A post with an accepted file appends exactly one row, by the session user,
    whose image is the token, an underscore and the sanitised name; that file is written.
   */
  lemma AcceptedUploadAppendsPost(db: Db, session: Session, url: string, content: string, filename: string, env: Env)
    requires session.SignedIn? && UserById(db.users, session.userId).Some?
    requires filename != "" && Extension(env.sanitize(filename)) in env.allowed
    ensures var r := Stream(db, session, url, Submitted(Some(PostForm(content, Some(filename)))), env);
            var name := env.token + "_" + env.sanitize(filename);
      && r.saved == Some(name)
      && |r.db.posts| == |db.posts| + 1 && r.db.posts[..|db.posts|] == db.posts
      && r.db.posts[|db.posts|].userId == session.userId
      && r.db.posts[|db.posts|].content == content
      && r.db.posts[|db.posts|].image == Some(name)
      && r.db.posts[|db.posts|].created == env.now
      && r.db.users == db.users && r.db.comments == db.comments && r.db.friends == db.friends
      && r.response == Redirect(ToStream(session.username))
  {
  }

  /** A post without a file (or with an empty file name) is stored with no image and writes no file. */
  lemma PostWithoutFile(db: Db, session: Session, url: string, content: string, image: Option<string>, env: Env)
    requires session.SignedIn? && UserById(db.users, session.userId).Some?
    requires image.None? || image.value == ""
    ensures var r := Stream(db, session, url, Submitted(Some(PostForm(content, image))), env);
      && r.saved == None
      && |r.db.posts| == |db.posts| + 1 && r.db.posts[..|db.posts|] == db.posts
      && r.db.posts[|db.posts|].image == None
      && r.db.posts[|db.posts|].userId == session.userId
  {
  }

  // ---------------------------------------------------------------------------
  // Stream

  /** The feed item of post `p` when its author exists. */
  function ItemOf(db: Db, p: Post): FeedItem
    requires UserById(db.users, p.userId).Some?
  {
    FeedItem(p, UserById(db.users, p.userId).value, CommentCount(db.comments, p.id))
  }

  /** A post with the larger creation time comes first in the feed. */
  lemma {:induction false} FeedNewestFirst(db: Db, me: int, p: Post, q: Post)
    requires p in db.posts && q in db.posts
    requires OnStream(db.friends, me, p.userId) && OnStream(db.friends, me, q.userId)
    requires UserById(db.users, p.userId).Some? && UserById(db.users, q.userId).Some?
    requires p.created > q.created
    ensures exists i, j :: 0 <= i < j < |Feed(db, me)| && Feed(db, me)[i].post == p && Feed(db, me)[j].post == q
  {
    var feed := Feed(db, me);
    var a := ItemOf(db, p);
    var b := ItemOf(db, q);
    assert a in feed && b in feed;
    LargerKeyFirst(feed, FeedKey, a, b);
  }

  /** Two posts made one after the other by the session user show newest first on their stream. */
  lemma SequentialPostsNewestFirst(db: Db, session: Session, c1: string, c2: string, env1: Env, env2: Env)
    requires session.SignedIn? && UserById(db.users, session.userId).Some?
    requires env1.now < env2.now
    ensures var r1 := Stream(db, session, session.username, Submitted(Some(PostForm(c1, None))), env1);
            var r2 := Stream(r1.db, session, session.username, Submitted(Some(PostForm(c2, None))), env2);
            var feed := Feed(r2.db, session.userId);
      && |r2.db.posts| == |db.posts| + 2
      && exists i, j :: 0 <= i < j < |feed|
                        && feed[i].post == r2.db.posts[|db.posts| + 1]
                        && feed[j].post == r2.db.posts[|db.posts|]
  {
    var r1 := Stream(db, session, session.username, Submitted(Some(PostForm(c1, None))), env1);
    var r2 := Stream(r1.db, session, session.username, Submitted(Some(PostForm(c2, None))), env2);
    var posts := r2.db.posts;
    var n := |db.posts|;
    assert posts[..n + 1] == r1.db.posts;
    assert posts[n] == r1.db.posts[n];
    FeedNewestFirst(r2.db, session.userId, posts[n + 1], posts[n]);
  }

  /**
    An example: two posts made within one clock reading tie on `creation_time`, and
    the stream then lists the earlier post first, so newest-first order needs a
    clock that moved.
   */
  lemma SameSecondPostsTie()
    ensures var db := Db([Ada], [], [], []);
            var session := SignedIn(1, "ada");
            var env := Env({}, (s: string) => s, "", 7);
            var r1 := Stream(db, session, "ada", Submitted(Some(PostForm("first", None))), env);
            var r2 := Stream(r1.db, session, "ada", Submitted(Some(PostForm("second", None))), env);
            var feed := Feed(r2.db, 1);
      && |feed| == 2
      && feed[0].post.content == "first" && feed[1].post.content == "second"
      && feed[0].post.created == feed[1].post.created
  {
    FirstPostAt7();
    SecondPostAt7();
    TiedFeed();
  }

  /** The first of the two example posts, stamped 7, lands in the example store. */
  lemma FirstPostAt7()
    ensures Stream(Db([Ada], [], [], []), SignedIn(1, "ada"), "ada", Submitted(Some(PostForm("first", None))),
                   Env({}, (s: string) => s, "", 7)).db
            == TiedStore.(posts := TiedStore.posts[..1])
  {
  }

  /** The second example post, also stamped 7, completes the example store. */
  lemma SecondPostAt7()
    ensures Stream(TiedStore.(posts := TiedStore.posts[..1]), SignedIn(1, "ada"), "ada", Submitted(Some(PostForm("second", None))),
                   Env({}, (s: string) => s, "", 7)).db
            == TiedStore
  {
    assert NextId([1]) == 2;
  }

  const Ada := User(1, "ada", "Ada", "Lovelace", "pw", BlankProfile)

  /** Ada's two posts, both stamped 7. */
  const TiedStore := Db([Ada], [Post(1, 1, "first", None, 7), Post(2, 1, "second", None, 7)], [], [])

  /** On the tied store the stream keeps table order. */
  lemma TiedFeed()
    ensures Feed(TiedStore, 1) == [FeedItem(TiedStore.posts[0], Ada, 0), FeedItem(TiedStore.posts[1], Ada, 0)]
  {
    var db := TiedStore;
    var p1 := db.posts[0];
    var p2 := db.posts[1];
    assert UserById(db.users, 1) == Some(Ada);
    assert db.posts[1..] == [p2];
    assert Filter([p2], Visible(db.friends, 1)) == [p2];
    assert Filter(db.posts, Visible(db.friends, 1)) == db.posts;
    var i1 := FeedItem(p1, Ada, 0);
    var i2 := FeedItem(p2, Ada, 0);
    assert FeedRows(db, [p2]) == [i2];
    assert FeedRows(db, db.posts) == [i1, i2];
    assert SortDesc([i2], FeedKey) == [i2];
    assert SortDesc([i1, i2], FeedKey) == Insert(i1, [i2], FeedKey) == [i1, i2];
  }

  /** With unique post ids, the stream lists each post once. */
  lemma FeedListsPostOnce(db: Db, me: int)
    requires UniqueIds(PostIds(db.posts))
    ensures forall i, j :: 0 <= i < j < |Feed(db, me)| ==> Feed(db, me)[i].post != Feed(db, me)[j].post
  {
    var feed := Feed(db, me);
    FeedItemsOnce(db, me);
    OnceIsDistinct(feed);
    forall i, j | 0 <= i < j < |feed| ensures feed[i].post == feed[j].post ==> feed[i] == feed[j] {
      assert feed[i] in feed && feed[j] in feed;
    }
  }

  /** With unique post ids, each stream entry occurs at most once. */
  lemma FeedItemsOnce(db: Db, me: int)
    requires UniqueIds(PostIds(db.posts))
    ensures forall item :: multiset(Feed(db, me))[item] <= 1
  {
    assert forall i, j :: 0 <= i < j < |db.posts| ==> PostIds(db.posts)[i] != PostIds(db.posts)[j];
    DistinctAtMostOnce(db.posts);
  }

  /** The stream handler renders exactly the feed of the session user. */
  lemma StreamRendersFeed(db: Db, session: Session, env: Env)
    requires session.SignedIn?
    requires UserById(db.users, session.userId).Some?
    ensures Stream(db, session, session.username, Get, env).response
            == Render(StreamView(session.username, Feed(db, session.userId)))
  {
  }

  // ---------------------------------------------------------------------------
  // Friends

  /** Friend-add keeps edges free of self-edges and duplicates, and leaves existing edges in place. */
  lemma AddFriendKeepsSimpleEdges(db: Db, me: int, name: string)
    requires SimpleEdges(db.friends)
    ensures SimpleEdges(AddFriend(db, me, name).0.friends)
    ensures AddFriend(db, me, name).0.friends[..|db.friends|] == db.friends
  {
  }

  /** On the friends page, naming oneself gives the warning and adds no edge. */
  lemma FriendingSelfWarns(db: Db, session: Session, url: string, name: string)
    requires session.SignedIn? && UserById(db.users, session.userId).Some?
    requires UserByName(db.users, name).Some? && UserByName(db.users, name).value.id == session.userId
    ensures var r := Friends(db, session, url, Submitted(Some(name)));
      r.db == db && r.notices == [SelfFriendNotice]
  {
  }

  /** On the friends page, naming a user already added gives the warning and adds no second edge. */
  lemma FriendingTwiceWarns(db: Db, session: Session, url: string, name: string)
    requires session.SignedIn? && UserById(db.users, session.userId).Some?
    requires UserByName(db.users, name).Some? && UserByName(db.users, name).value.id != session.userId
    requires Edge(session.userId, UserByName(db.users, name).value.id) in db.friends
    ensures var r := Friends(db, session, url, Submitted(Some(name)));
      r.db == db && r.notices == [AlreadyFriendsNotice]
  {
  }

  /**
    Edges are directed: after A adds B, B is on A's friend list, while A is on B's
    friend list only if B had added A; yet A's posts are on B's stream either way.
   */
  lemma DirectedFriendship(db: Db, a: User, name: string, p: Post)
    requires UserById(db.users, a.id) == Some(a)
    requires AddFriend(db, a.id, name).1.Added?
    requires p in db.posts && p.userId == a.id
    ensures var db' := AddFriend(db, a.id, name).0;
            var b := UserByName(db.users, name).value;
      && (exists row :: row in FriendList(db', a.id) && row.friend.id == b.id)
      && ((exists row :: row in FriendList(db', b.id) && row.friend.id == a.id) <==> Edge(b.id, a.id) in db.friends)
      && (exists item :: item in Feed(db', b.id) && item.post == p)
  {
    var db' := AddFriend(db, a.id, name).0;
    var b := UserByName(db.users, name).value;
    assert db'.friends == db.friends + [Edge(a.id, b.id)];
    assert UserById(db.users, b.id).Some?;
    var row := FriendRow(Edge(a.id, b.id), UserById(db.users, b.id).value);
    assert row in FriendList(db', a.id);
    if Edge(b.id, a.id) in db.friends {
      assert FriendRow(Edge(b.id, a.id), a) in FriendList(db', b.id);
    }
    assert OnStream(db'.friends, b.id, p.userId);
    assert ItemOf(db', p) in Feed(db', b.id);
  }

  // ---------------------------------------------------------------------------
  // Comments

  /**
    A comment posted on post `postId` shows on that post's page next to the
    comments already there, newest first.
   */
  lemma CommentAppearsInThread(db: Db, session: Session, postId: int, text: string, now: int)
    requires session.SignedIn? && UserById(db.users, session.userId).Some?
    ensures var r := Comments(db, session, session.username, postId, Submitted(Some(text)), now);
            var user := UserById(db.users, session.userId).value;
      && r.response.Render? && r.response.view.CommentsView?
      && SortedDesc(r.response.view.thread, ThreadKey)
      && CommentRow(r.db.comments[|db.comments|], user) in r.response.view.thread
      && r.db.comments[|db.comments|].text == text && r.db.comments[|db.comments|].postId == postId
      && forall row :: row in Thread(db, postId) ==> row in r.response.view.thread
  {
    var r := Comments(db, session, session.username, postId, Submitted(Some(text)), now);
    var user := UserById(db.users, session.userId).value;
    assert r.db.users == db.users;
    assert r.db.comments[|db.comments|] in r.db.comments;
    forall row | row in Thread(db, postId) ensures row in r.response.view.thread {
      assert row.comment in r.db.comments[..|db.comments|];
    }
  }

  /** A new comment raises the comment count of its own post by one and no other post's count. */
  lemma CommentRaisesCount(db: Db, postId: int, userId: int, text: string, now: int, q: int)
    ensures CommentCount(AddComment(db, postId, userId, text, now).comments, q)
            == CommentCount(db.comments, q) + (if q == postId then 1 else 0)
  {
    var r := AddComment(db, postId, userId, text, now);
    var c := r.comments[|db.comments|];
    assert r.comments == db.comments + [c];
    CommentCountAppend(db.comments, c, q);
  }

  // ---------------------------------------------------------------------------
  // Profile

  /**
    A profile submission replaces the six profile fields of the session user's
    row and nothing else: other rows, other columns and other tables stay as they were.
   */
  lemma ProfileUpdateOnlyOwnFields(db: Db, session: Session, url: string, fields: ProfileFields)
    requires session.SignedIn?
    ensures var r := Profile(db, session, url, Submitted(Some(fields)));
      && r.response == Redirect(ToProfile(session.username))
      && |r.db.users| == |db.users|
      && (forall i :: 0 <= i < |db.users| && db.users[i].id == session.userId ==> r.db.users[i] == db.users[i].(profile := fields))
      && (forall i :: 0 <= i < |db.users| && db.users[i].id != session.userId ==> r.db.users[i] == db.users[i])
      && r.db.posts == db.posts && r.db.comments == db.comments && r.db.friends == db.friends
  {
  }

  /** In a store with unique user ids, the profile page after an update shows the submitted fields. */
  lemma ProfileUpdateThenView(db: Db, session: Session, url: string, fields: ProfileFields)
    requires WellFormed(db)
    requires session.SignedIn? && UserById(db.users, session.userId).Some?
    ensures var r := Profile(db, session, url, Submitted(Some(fields)));
            var old_row := UserById(db.users, session.userId).value;
      Profile(r.db, session, session.username, Get).response
        == Render(ProfileView(session.username, Some(old_row.(profile := fields))))
  {
    var r := Profile(db, session, url, Submitted(Some(fields)));
    var id := session.userId;
    var before := UserById(db.users, id).value;
    var after := UserById(r.db.users, id);
    var j :| 0 <= j < |db.users| && db.users[j] == before;
    assert r.db.users[j] == before.(profile := fields);
    assert after.Some?;
    var k :| 0 <= k < |r.db.users| && r.db.users[k] == after.value;
    assert db.users[k].id == id;
    if j != k {
      assert false;
    }
  }

  // ---------------------------------------------------------------------------
  // Serving uploads

  /** Names ending in `.html`, `.htm` or `.js`, in any letter case, are never served. */
  lemma ActiveContentForbidden(db: Db, session: Session, filename: string, env: Env)
    requires EndsWith(Lower(filename), ".html") || EndsWith(Lower(filename), ".htm") || EndsWith(Lower(filename), ".js")
    ensures Handle(db, session, UploadsRoute(filename), env).response == Forbidden
  {
  }

  /** An image accepted with a post is served back under its stored name unless its extension is active content. */
  lemma UploadedImageIsServed(db: Db, session: Session, url: string, content: string, filename: string, env: Env)
    requires session.SignedIn? && UserById(db.users, session.userId).Some?
    requires filename != "" && Extension(env.sanitize(filename)) in env.allowed
    requires IsHexToken(env.token)
    ensures var r := Stream(db, session, url, Submitted(Some(PostForm(content, Some(filename)))), env);
      && r.saved.Some?
      && (ServeUpload(r.db, session, r.saved.value, env.allowed).response == SendFile(r.saved.value)
          <==> !IsActiveContent(Extension(env.sanitize(filename))))
  {
    var sanitized := env.sanitize(filename);
    var name := StoredName(env.token, sanitized);
    var r := Stream(db, session, url, Submitted(Some(PostForm(content, Some(filename)))), env);
    AcceptedUploadAppendsPost(db, session, url, content, filename, env);
    assert r.saved == Some(name);
    ServedStoredName(r.db, session, env, sanitized);
  }

  /** The uploads route on a stored name answers as the serving guard does on the sanitised name. */
  lemma ServedStoredName(db: Db, session: Session, env: Env, sanitized: string)
    requires IsHexToken(env.token) && AcceptedUpload(sanitized, env.allowed)
    ensures ServeUpload(db, session, StoredName(env.token, sanitized), env.allowed).response
              == SendFile(StoredName(env.token, sanitized))
            <==> !IsActiveContent(Extension(sanitized))
  {
    var name := StoredName(env.token, sanitized);
    UploadThenServe(env.token, sanitized, env.allowed);
  }

  // ---------------------------------------------------------------------------
  // Store invariant and append-only tables

  lemma AddUserKeepsWellFormed(db: Db, username: string, firstName: string, lastName: string, password: string)
    requires WellFormed(db)
    ensures WellFormed(AddUser(db, username, firstName, lastName, password))
  {
    var r := AddUser(db, username, firstName, lastName, password);
    assert UserIds(r.users) == UserIds(db.users) + [NextId(UserIds(db.users))];
    FreshIdKeepsUnique(UserIds(db.users));
  }

  lemma AddPostKeepsWellFormed(db: Db, userId: int, content: string, image: Option<string>, now: int)
    requires WellFormed(db)
    ensures WellFormed(AddPost(db, userId, content, image, now))
  {
    var r := AddPost(db, userId, content, image, now);
    assert PostIds(r.posts) == PostIds(db.posts) + [NextId(PostIds(db.posts))];
    FreshIdKeepsUnique(PostIds(db.posts));
  }

  lemma AddCommentKeepsWellFormed(db: Db, postId: int, userId: int, text: string, now: int)
    requires WellFormed(db)
    ensures WellFormed(AddComment(db, postId, userId, text, now))
  {
    var r := AddComment(db, postId, userId, text, now);
    assert CommentIds(r.comments) == CommentIds(db.comments) + [NextId(CommentIds(db.comments))];
    FreshIdKeepsUnique(CommentIds(db.comments));
  }

  lemma UpdateProfileKeepsWellFormed(db: Db, id: int, fields: ProfileFields)
    requires WellFormed(db)
    ensures WellFormed(UpdateProfile(db, id, fields))
  {
    assert UserIds(UpdateProfile(db, id, fields).users) == UserIds(db.users);
  }

  /** Every request keeps unique ids and simple friend edges. */
  lemma HandleKeepsWellFormed(db: Db, session: Session, route: Route, env: Env)
    requires WellFormed(db)
    ensures WellFormed(Handle(db, session, route, env).db)
  {
    match route
    case IndexRoute(Submitted(Some(RegisterForm(username, firstName, lastName, password)))) =>
      AddUserKeepsWellFormed(db, username, firstName, lastName, password);
    case StreamRoute(url, Submitted(Some(form))) =>
      if session.SignedIn? && UserById(db.users, session.userId).Some? {
        var user := UserById(db.users, session.userId).value;
        AddPostKeepsWellFormed(db, user.id, form.content, None, env.now);
        match Attach(form.image, env)
        case Saved(name) => AddPostKeepsWellFormed(db, user.id, form.content, Some(name), env.now);
        case _ =>
      }
    case CommentsRoute(url, postId, Submitted(Some(text))) =>
      if session.SignedIn? && UserById(db.users, session.userId).Some? {
        AddCommentKeepsWellFormed(db, postId, UserById(db.users, session.userId).value.id, text, env.now);
      }
    case FriendsRoute(url, Submitted(Some(name))) =>
      if session.SignedIn? && UserById(db.users, session.userId).Some? {
        AddFriendKeepsSimpleEdges(db, UserById(db.users, session.userId).value.id, name);
      }
    case ProfileRoute(url, Submitted(Some(fields))) =>
      if session.SignedIn? {
        UpdateProfileKeepsWellFormed(db, session.userId, fields);
      }
    case _ =>
  }

  /**
    Tables only grow: every existing post, comment and edge stays in place, and an
    existing user row can change only in its profile fields.
   */
  lemma HandleIsAppendOnly(db: Db, session: Session, route: Route, env: Env)
    ensures var r := Handle(db, session, route, env).db;
      && |db.posts| <= |r.posts| && r.posts[..|db.posts|] == db.posts
      && |db.comments| <= |r.comments| && r.comments[..|db.comments|] == db.comments
      && |db.friends| <= |r.friends| && r.friends[..|db.friends|] == db.friends
      && |db.users| <= |r.users|
      && forall i :: 0 <= i < |db.users| ==> r.users[i] == db.users[i].(profile := r.users[i].profile)
  {
  }
}
