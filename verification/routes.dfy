/**
  The request handlers of the application as pure transitions
  `(store, session, request) -> (store', session', notices, saved file, response)`.

  Flash notices are returned in the reply instead of going to a side channel,
  templates are reduced to the data they are given, and the clock, the random
  upload token and the file-name sanitiser come in through `Env`.
 */
module Routes {
  import opened Optional
  import opened Tables
  import opened Queries
  import opened Writes
  import opened Uploads

  /** The signed-in identity the session cookie carries, if any. */
  datatype Session = Anonymous | SignedIn(userId: int, username: string)

  /**
    A GET, or a POST whose form passed validation (`Some`) or did not (`None`).
    Validation itself belongs to the form library and is not modelled.
   */
  datatype Request<+F> = Get | Submitted(form: Option<F>)

  datatype Category = Info | Success | Warning

  /** A flash message with its category. */
  datatype Notice = Notice(category: Category, message: string)

  const PleaseSignIn := Notice(Warning, "Please sign in.")
  const UnknownUserNotice := Notice(Warning, "Sorry, this user does not exist!")
  const WrongPasswordNotice := Notice(Warning, "Sorry, wrong password!")
  const UserCreatedNotice := Notice(Success, "User successfully created!")
  const LoggedOutNotice := Notice(Info, "Logged out.")
  const FileTypeNotice := Notice(Warning, "File type not allowed")
  const NoSuchFriendNotice := Notice(Warning, "User does not exist!")
  const SelfFriendNotice := Notice(Warning, "You cannot be friends with yourself!")
  const AlreadyFriendsNotice := Notice(Warning, "You are already friends with this user!")
  const FriendAddedNotice := Notice(Success, "Friend successfully added!")

  /** Redirect targets, one per page, addressed by user name as the URLs are. */
  datatype Page =
    | ToIndex
    | ToStream(username: string)
    | ToComments(username: string, postId: int)
    | ToFriends(username: string)
    | ToProfile(username: string)

  /** What a rendered template is given. */
  datatype View =
    | IndexView
    | StreamView(username: string, feed: seq<FeedItem>)
    | CommentsView(username: string, post: Option<PostRow>, thread: seq<CommentRow>)
    | FriendsView(username: string, friendRows: seq<FriendRow>)
    | ProfileView(username: string, user: Option<User>)

  /**
    The HTTP answer. `ServerError` stands for the exception a handler raises when
    it subscripts the session user's row and the row is missing.
   */
  datatype Response =
    | Redirect(to: Page)
    | Render(view: View)
    | Forbidden
    | SendFile(filename: string)
    | ServerError

  /** A handler's result: the store and session after, notices, the upload file written if any, and the answer. */
  datatype Reply = Reply(db: Db, session: Session, notices: seq<Notice>, saved: Option<string>, response: Response)

  /**
    What the handlers take from outside: the configured extension allow-list,
    the file-name sanitiser, the random upload token and the clock reading.
   */
  datatype Env = Env(allowed: set<string>, sanitize: string -> string, token: string, now: int)

  /** The composite index form: whichever sub-form was submitted and validated. */
  datatype IndexForm =
    | LoginForm(username: string, password: string)
    | RegisterForm(username: string, firstName: string, lastName: string, password: string)

  /** The post form; `image` is the client-side name of the attached file, if a file came with it. */
  datatype PostForm = PostForm(content: string, image: Option<string>)

  // ---------------------------------------------------------------------------
  // Session guard

  /** The reply of the sign-in gate to an anonymous request. */
  function SignInRequired(db: Db, session: Session): (r: Reply)
    ensures r.db == db && r.session == session && r.saved == None
    ensures r.notices == [PleaseSignIn] && r.response == Redirect(ToIndex)
  {
    Reply(db, session, [PleaseSignIn], None, Redirect(ToIndex))
  }

  // ---------------------------------------------------------------------------
  // Index: login and registration

  datatype LoginResult = UnknownUser | WrongPassword | Authenticated(user: User)

  /** The login decision on the first Users row with the submitted name. */
  function Authenticate(users: seq<User>, username: string, password: string): (r: LoginResult)
    ensures r.UnknownUser? <==> forall i :: 0 <= i < |users| ==> users[i].username != username
    ensures r.Authenticated? <==>
      exists k :: 0 <= k < |users| && users[k].username == username && users[k].password == password
                  && forall j :: 0 <= j < k ==> users[j].username != username
    ensures r.WrongPassword? <==> UserByName(users, username).Some? && UserByName(users, username).value.password != password
    ensures r.Authenticated? ==> UserByName(users, username) == Some(r.user) && r.user.password == password
  {
    match UserByName(users, username)
    case None => UnknownUser
    case Some(u) =>
      if u.password != password then WrongPassword
      else Authenticated(u)
  }

  /** `/` and `/index`. */
  function Index(db: Db, session: Session, req: Request<IndexForm>): (r: Reply)
    ensures r.db.posts == db.posts && r.db.comments == db.comments && r.db.friends == db.friends
    ensures r.session != session ==> req.Submitted? && req.form.Some? && req.form.value.LoginForm? && r.session.SignedIn?
    ensures r.db != db ==> req.Submitted? && req.form.Some? && req.form.value.RegisterForm?
  {
    match req
    case Submitted(Some(LoginForm(username, password))) =>
      (match Authenticate(db.users, username, password)
       case UnknownUser => Reply(db, session, [UnknownUserNotice], None, Render(IndexView))
       case WrongPassword => Reply(db, session, [WrongPasswordNotice], None, Render(IndexView))
       case Authenticated(u) => Reply(db, SignedIn(u.id, u.username), [], None, Redirect(ToStream(u.username))))
    case Submitted(Some(RegisterForm(username, firstName, lastName, password))) =>
      Reply(AddUser(db, username, firstName, lastName, password), session, [UserCreatedNotice], None, Redirect(ToIndex))
    case _ =>
      Reply(db, session, [], None, Render(IndexView))
  }

  /** `/logout`: clears the session whether or not anyone was signed in. */
  function Logout(db: Db, session: Session): (r: Reply)
    ensures r.session == Anonymous && r.db == db
    ensures r.response == Redirect(ToIndex) && r.notices == [LoggedOutNotice]
  {
    Reply(db, Anonymous, [LoggedOutNotice], None, Redirect(ToIndex))
  }

  // ---------------------------------------------------------------------------
  // Stream: post creation and the feed

  /** What becomes of the file attached to a post. */
  datatype Attachment = NoFile | Refused | Saved(name: string)

  /**
    A file with a non-empty name is sanitised; its extension must be allow-listed,
    and it is then stored under the random token, an underscore and the sanitised name.
   */
  function Attach(image: Option<string>, env: Env): (a: Attachment)
    ensures a.NoFile? <==> image.None? || image.value == ""
    ensures a.Refused? <==> image.Some? && image.value != "" && Extension(env.sanitize(image.value)) !in env.allowed
    ensures a.Saved? ==> image.Some? && Extension(env.sanitize(image.value)) in env.allowed
                         && a.name == env.token + "_" + env.sanitize(image.value)
  {
    match image
    case None => NoFile
    case Some(filename) =>
      if filename == "" then NoFile
      else
        var sanitized := env.sanitize(filename);
        if !AcceptedUpload(sanitized, env.allowed) then Refused
        else Saved(StoredName(env.token, sanitized))
  }

  /** Inserts the post as the session user; a missing user row makes the insert fail after the file is written. */
  function Publish(db: Db, session: Session, content: string, image: Option<string>, now: int): (r: Reply)
    requires session.SignedIn?
    ensures r.session == session && r.saved == image && r.notices == []
    ensures UserById(db.users, session.userId).None? ==> r.db == db && r.response == ServerError
    ensures UserById(db.users, session.userId).Some? ==>
              && r.response == Redirect(ToStream(session.username))
              && r.db == db.(posts := db.posts + [Post(NextId(PostIds(db.posts)), session.userId, content, image, now)])
  {
    match UserById(db.users, session.userId)
    case None => Reply(db, session, [], image, ServerError)
    case Some(user) =>
      Reply(AddPost(db, user.id, content, image, now), session, [], image, Redirect(ToStream(session.username)))
  }

  /**
    `/stream/<url>`. After the username check the page always belongs to the
    session user: a GET for someone else is redirected, a POST is taken as the
    session user's.
   */
  function Stream(db: Db, session: Session, url: string, req: Request<PostForm>, env: Env): (r: Reply)
    ensures r.session == session
    ensures !(req.Submitted? && req.form.Some?) ==> r.db == db && r.saved == None
    ensures r.db.users == db.users && r.db.comments == db.comments && r.db.friends == db.friends
    ensures r.db.posts == db.posts
            || (&& session.SignedIn?
                && |r.db.posts| == |db.posts| + 1 && r.db.posts[..|db.posts|] == db.posts
                && r.db.posts[|db.posts|].userId == session.userId
                && r.db.posts[|db.posts|].image == r.saved)
  {
    if session.Anonymous? then SignInRequired(db, session)
    else if url != session.username && req.Get? then
      Reply(db, session, [], None, Redirect(ToStream(session.username)))
    else
      match req
      case Submitted(Some(form)) =>
        (match Attach(form.image, env)
         case Refused => Reply(db, session, [FileTypeNotice], None, Redirect(ToStream(session.username)))
         case NoFile => Publish(db, session, form.content, None, env.now)
         case Saved(name) => Publish(db, session, form.content, Some(name), env.now))
      case _ =>
        match UserById(db.users, session.userId)
        case None => Reply(db, session, [], None, ServerError)
        case Some(user) => Reply(db, session, [], None, Render(StreamView(session.username, Feed(db, user.id))))
  }

  // ---------------------------------------------------------------------------
  // Comments

  /** The comment page of post `postId`, read from `db`. */
  function ShowThread(db: Db, session: Session, username: string, postId: int): Reply
  {
    Reply(db, session, [], None, Render(CommentsView(username, PostDetail(db, postId), Thread(db, postId))))
  }

  /** `/comments/<url>/<postId>`: an optional new comment, then the post and its thread. */
  function Comments(db: Db, session: Session, url: string, postId: int, req: Request<string>, now: int): (r: Reply)
    ensures r.session == session && r.saved == None
    ensures !(req.Submitted? && req.form.Some?) ==> r.db == db
    ensures r.db.users == db.users && r.db.posts == db.posts && r.db.friends == db.friends
    ensures r.db.comments == db.comments
            || (&& session.SignedIn?
                && |r.db.comments| == |db.comments| + 1 && r.db.comments[..|db.comments|] == db.comments
                && r.db.comments[|db.comments|].userId == session.userId
                && r.db.comments[|db.comments|].postId == postId)
    ensures r.response.Render? ==>
              session.SignedIn? && r.response == Render(CommentsView(session.username, PostDetail(r.db, postId), Thread(r.db, postId)))
  {
    if session.Anonymous? then SignInRequired(db, session)
    else if url != session.username && req.Get? then
      Reply(db, session, [], None, Redirect(ToComments(session.username, postId)))
    else
      match req
      case Submitted(Some(text)) =>
        (match UserById(db.users, session.userId)
         case None => Reply(db, session, [], None, ServerError)
         case Some(user) => ShowThread(AddComment(db, postId, user.id, text, now), session, session.username, postId))
      case _ => ShowThread(db, session, session.username, postId)
  }

  // ---------------------------------------------------------------------------
  // Friends

  datatype FriendOutcome = NoSuchFriend | Yourself | AlreadyFriends | Added

  /**
    The friend-add decision of user `me` for the user named `name`: the named
    user must exist, must not be `me`, and must not already have an edge from `me`.
   */
  function AddFriend(db: Db, me: int, name: string): (r: (Db, FriendOutcome))
    ensures r.1.NoSuchFriend? <==> forall i :: 0 <= i < |db.users| ==> db.users[i].username != name
    ensures r.1.Yourself? <==> UserByName(db.users, name).Some? && UserByName(db.users, name).value.id == me
    ensures r.1.AlreadyFriends? <==>
      UserByName(db.users, name).Some? && UserByName(db.users, name).value.id != me
      && Edge(me, UserByName(db.users, name).value.id) in db.friends
    ensures !r.1.Added? ==> r.0 == db
    ensures r.1.Added? ==>
              && UserByName(db.users, name).Some?
              && r.0 == db.(friends := db.friends + [Edge(me, UserByName(db.users, name).value.id)])
  {
    match UserByName(db.users, name)
    case None => (db, NoSuchFriend)
    case Some(friend) =>
      if friend.id == me then (db, Yourself)
      else if Edge(me, friend.id) in db.friends then (db, AlreadyFriends)
      else (db.(friends := db.friends + [Edge(me, friend.id)]), Added)
  }

  /** The flash of each friend-add outcome: a warning for every refusal, success only for an added friend. */
  function FriendNotice(outcome: FriendOutcome): (n: Notice)
    ensures n.category == Warning <==> !outcome.Added?
    ensures n.category == Success <==> outcome.Added?
  {
    match outcome
    case NoSuchFriend => NoSuchFriendNotice
    case Yourself => SelfFriendNotice
    case AlreadyFriends => AlreadyFriendsNotice
    case Added => FriendAddedNotice
  }

  /** `/friends/<url>`: an optional friend-add, then the outgoing friend list. */
  function Friends(db: Db, session: Session, url: string, req: Request<string>): (r: Reply)
    ensures r.session == session && r.saved == None
    ensures !(req.Submitted? && req.form.Some?) ==> r.db == db
    ensures session.SignedIn? && UserById(db.users, session.userId).Some? && req.Submitted? && req.form.Some? ==>
              && r.db == AddFriend(db, session.userId, req.form.value).0
              && r.notices == [FriendNotice(AddFriend(db, session.userId, req.form.value).1)]
    ensures r.db.users == db.users && r.db.posts == db.posts && r.db.comments == db.comments
    ensures r.db.friends == db.friends
            || (&& session.SignedIn?
                && |r.db.friends| == |db.friends| + 1 && r.db.friends[..|db.friends|] == db.friends
                && r.db.friends[|db.friends|].userId == session.userId
                && r.db.friends[|db.friends|].friendId != session.userId)
  {
    if session.Anonymous? then SignInRequired(db, session)
    else if url != session.username && req.Get? then
      Reply(db, session, [], None, Redirect(ToFriends(session.username)))
    else
      match UserById(db.users, session.userId)
      case None => Reply(db, session, [], None, ServerError)
      case Some(user) =>
        match req
        case Submitted(Some(name)) =>
          var (db', outcome) := AddFriend(db, user.id, name);
          Reply(db', session, [FriendNotice(outcome)], None, Render(FriendsView(session.username, FriendList(db', user.id))))
        case _ =>
          Reply(db, session, [], None, Render(FriendsView(session.username, FriendList(db, user.id))))
  }

  // ---------------------------------------------------------------------------
  // Profile

  /** `/profile/<url>`: the update writes the session user's row, whatever the URL said. */
  function Profile(db: Db, session: Session, url: string, req: Request<ProfileFields>): (r: Reply)
    ensures r.session == session && r.saved == None
    ensures !(req.Submitted? && req.form.Some?) ==> r.db == db
    ensures r.db.posts == db.posts && r.db.comments == db.comments && r.db.friends == db.friends
    ensures |r.db.users| == |db.users|
    ensures forall i :: 0 <= i < |db.users| ==> r.db.users[i] == db.users[i].(profile := r.db.users[i].profile)
  {
    if session.Anonymous? then SignInRequired(db, session)
    else if url != session.username && req.Get? then
      Reply(db, session, [], None, Redirect(ToProfile(session.username)))
    else
      match req
      case Submitted(Some(fields)) =>
        Reply(UpdateProfile(db, session.userId, fields), session, [], None, Redirect(ToProfile(session.username)))
      case _ =>
        Reply(db, session, [], None, Render(ProfileView(session.username, UserById(db.users, session.userId))))
  }

  // ---------------------------------------------------------------------------
  // Serving uploads

  /** `/uploads/<filename>`: public, guarded only by the file name. */
  function ServeUpload(db: Db, session: Session, filename: string, allowed: set<string>): (r: Reply)
    ensures r.db == db && r.session == session && r.notices == []
    ensures r.response == SendFile(filename) || r.response == Forbidden
    ensures r.response == SendFile(filename) <==>
      Extension(filename) in allowed && !IsActiveContent(Extension(filename))
  {
    Reply(db, session, [], None, if MayServe(filename, allowed) then SendFile(filename) else Forbidden)
  }

  // ---------------------------------------------------------------------------
  // Dispatch

  datatype Route =
    | IndexRoute(index: Request<IndexForm>)
    | LogoutRoute
    | StreamRoute(url: string, post: Request<PostForm>)
    | CommentsRoute(url: string, postId: int, comment: Request<string>)
    | FriendsRoute(url: string, friend: Request<string>)
    | ProfileRoute(url: string, fields: Request<ProfileFields>)
    | UploadsRoute(filename: string)
  {
    /** The routes behind the sign-in gate. */
    predicate Gated()
    {
      StreamRoute? || CommentsRoute? || FriendsRoute? || ProfileRoute?
    }

    /** Whether the request is a GET, the method the username check looks at. */
    predicate IsGet()
    {
      match this
      case IndexRoute(r) => r.Get?
      case StreamRoute(_, r) => r.Get?
      case CommentsRoute(_, _, r) => r.Get?
      case FriendsRoute(_, r) => r.Get?
      case ProfileRoute(_, r) => r.Get?
      case _ => true
    }
  }

  /** The page a gated route is redirected to for user `username`. */
  function PageFor(route: Route, username: string): Page
    requires route.Gated()
  {
    match route
    case StreamRoute(_, _) => ToStream(username)
    case CommentsRoute(_, postId, _) => ToComments(username, postId)
    case FriendsRoute(_, _) => ToFriends(username)
    case ProfileRoute(_, _) => ToProfile(username)
  }

  /**
    The application: one request against the store and session. The four user
    pages sit behind the sign-in gate; only the index and logout touch the session,
    and only the stream writes a file.
   */
  function Handle(db: Db, session: Session, route: Route, env: Env): (r: Reply)
    ensures route.Gated() && session.Anonymous? ==>
              r == Reply(db, Anonymous, [PleaseSignIn], None, Redirect(ToIndex))
    ensures r.session != session ==> route.IndexRoute? || route.LogoutRoute?
    ensures r.saved.Some? ==> route.StreamRoute? && session.SignedIn?
  {
    match route
    case IndexRoute(req) => Index(db, session, req)
    case LogoutRoute => Logout(db, session)
    case StreamRoute(url, req) => Stream(db, session, url, req, env)
    case CommentsRoute(url, postId, req) => Comments(db, session, url, postId, req, env.now)
    case FriendsRoute(url, req) => Friends(db, session, url, req)
    case ProfileRoute(url, req) => Profile(db, session, url, req)
    case UploadsRoute(filename) => ServeUpload(db, session, filename, env.allowed)
  }
}
