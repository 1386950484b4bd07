/**
  The read queries of the handlers, as comprehensions over the tables.
  Inner joins with Users drop rows whose user id has no Users row.
 */
module Queries {
  import opened Optional
  import opened Seqs
  import opened Tables

  /** A stream row: the post, its author's row, and its number of comments. */
  datatype FeedItem = FeedItem(post: Post, author: User, commentCount: nat)

  /** A post joined with its author's row. */
  datatype PostRow = PostRow(post: Post, author: User)

  /** A comment joined with its author's row. */
  datatype CommentRow = CommentRow(comment: Comment, author: User)

  /** A Friends edge joined with the row of the user it points to. */
  datatype FriendRow = FriendRow(edge: Edge, friend: User)

  /**
    The stream's WHERE clause: the author is `me`, or a Friends edge links the
    author and `me` in either direction.
   */
  predicate OnStream(friends: seq<Edge>, me: int, author: int)
  {
    author == me || Edge(author, me) in friends || Edge(me, author) in friends
  }

  /** The stream's WHERE clause as a filter on Posts rows. */
  function Visible(friends: seq<Edge>, me: int): Post -> bool
  {
    (p: Post) => OnStream(friends, me, p.userId)
  }

  /** Visibility is mutual: `author`'s posts reach `me` exactly when `me`'s posts reach `author`. */
  lemma OnStreamSymmetric(friends: seq<Edge>, me: int, author: int)
    ensures OnStream(friends, me, author) <==> OnStream(friends, author, me)
  {
  }

  /** The WHERE clause `p_id = postId` of the comment queries. */
  function OnPost(postId: int): Comment -> bool
  {
    (c: Comment) => c.postId == postId
  }

  /** `SELECT COUNT(*) FROM Comments WHERE p_id = ?`. */
  function CommentCount(comments: seq<Comment>, postId: int): (n: nat)
    ensures n <= |comments|
    ensures n == 0 <==> forall c :: c in comments ==> c.postId != postId
  {
    var matching := Filter(comments, OnPost(postId));
    assert matching != [] ==> matching[0] in matching;
    |matching|
  }

  /** One more comment row raises the count of its own post by one and no other count. */
  lemma CommentCountAppend(comments: seq<Comment>, c: Comment, postId: int)
    ensures CommentCount(comments + [c], postId) == CommentCount(comments, postId) + (if c.postId == postId then 1 else 0)
  {
    FilterAppend(comments, [c], OnPost(postId));
    assert [c][1..] == [];
  }

  function FeedKey(item: FeedItem): int
  {
    item.post.created
  }

  function ThreadKey(row: CommentRow): int
  {
    row.comment.created
  }

  /** The stream row of post `p`, or None when its author has no Users row. */
  function FeedItemOf(db: Db, p: Post): Option<FeedItem>
  {
    match UserById(db.users, p.userId)
    case None => None
    case Some(u) => Some(FeedItem(p, u, CommentCount(db.comments, p.id)))
  }

  /** Joins posts with their authors and annotates each with its comment count. */
  function FeedRows(db: Db, posts: seq<Post>): (r: seq<FeedItem>)
    ensures forall item :: item in r <==>
      && item.post in posts
      && UserById(db.users, item.post.userId) == Some(item.author)
      && item.commentCount == CommentCount(db.comments, item.post.id)
    ensures forall item {:trigger multiset(r)[item]} :: multiset(r)[item] ==
              if UserById(db.users, item.post.userId) == Some(item.author)
                 && item.commentCount == CommentCount(db.comments, item.post.id)
              then multiset(posts)[item.post] else 0
  {
    Join(posts, (p: Post) => FeedItemOf(db, p), (item: FeedItem) => item.post)
  }

  /**
    The stream read: every post of `me` or of a user linked to `me` by an
    edge in either direction, newest first.
   */
  function Feed(db: Db, me: int): (r: seq<FeedItem>)
    ensures SortedDesc(r, FeedKey)
    ensures forall item :: item in r <==>
      && item.post in db.posts
      && OnStream(db.friends, me, item.post.userId)
      && UserById(db.users, item.post.userId) == Some(item.author)
      && item.commentCount == CommentCount(db.comments, item.post.id)
    ensures forall item {:trigger multiset(r)[item]} :: multiset(r)[item] ==
              if && OnStream(db.friends, me, item.post.userId)
                 && UserById(db.users, item.post.userId) == Some(item.author)
                 && item.commentCount == CommentCount(db.comments, item.post.id)
              then multiset(db.posts)[item.post] else 0
  {
    var rows := FeedRows(db, Filter(db.posts, Visible(db.friends, me)));
    SortDescMembers(rows, FeedKey);
    SortDesc(rows, FeedKey)
  }

  /** The thread row of comment `c`, or None when its author has no Users row. */
  function CommentRowOf(db: Db, c: Comment): Option<CommentRow>
  {
    match UserById(db.users, c.userId)
    case None => None
    case Some(u) => Some(CommentRow(c, u))
  }

  /** Joins comments with their authors. */
  function CommentRows(db: Db, comments: seq<Comment>): (r: seq<CommentRow>)
    ensures forall row :: row in r <==>
      row.comment in comments && UserById(db.users, row.comment.userId) == Some(row.author)
    ensures forall row {:trigger multiset(r)[row]} :: multiset(r)[row] ==
              if UserById(db.users, row.comment.userId) == Some(row.author) then multiset(comments)[row.comment] else 0
  {
    Join(comments, (c: Comment) => CommentRowOf(db, c), (row: CommentRow) => row.comment)
  }

  /** The comment thread of post `postId` with authors, newest first. */
  function Thread(db: Db, postId: int): (r: seq<CommentRow>)
    ensures SortedDesc(r, ThreadKey)
    ensures forall row :: row in r <==>
      && row.comment in db.comments
      && row.comment.postId == postId
      && UserById(db.users, row.comment.userId) == Some(row.author)
    ensures forall row {:trigger multiset(r)[row]} :: multiset(r)[row] ==
              if row.comment.postId == postId && UserById(db.users, row.comment.userId) == Some(row.author)
              then multiset(db.comments)[row.comment] else 0
  {
    var rows := CommentRows(db, Filter(db.comments, OnPost(postId)));
    SortDescMembers(rows, ThreadKey);
    SortDesc(rows, ThreadKey)
  }

  /** The post with id `postId` joined with its author, if there is such a pair. */
  function PostDetail(db: Db, postId: int): (r: Option<PostRow>)
    ensures r.Some? ==> r.value.post in db.posts && r.value.post.id == postId
                         && UserById(db.users, r.value.post.userId) == Some(r.value.author)
    ensures r.None? <==> forall p :: p in db.posts && p.id == postId ==> UserById(db.users, p.userId).None?
  {
    match FirstIndex(db.posts, (p: Post) => p.id == postId && UserById(db.users, p.userId).Some?)
    case None => None
    case Some(k) => Some(PostRow(db.posts[k], UserById(db.users, db.posts[k].userId).value))
  }

  /** The friend-list row of edge `e`, or None when the befriended user has no Users row. */
  function FriendRowOf(db: Db, e: Edge): Option<FriendRow>
  {
    match UserById(db.users, e.friendId)
    case None => None
    case Some(u) => Some(FriendRow(e, u))
  }

  /** Joins edges with the row of the user they point to. */
  function FriendRows(db: Db, edges: seq<Edge>): (r: seq<FriendRow>)
    ensures forall row :: row in r <==>
      row.edge in edges && UserById(db.users, row.edge.friendId) == Some(row.friend)
    ensures forall row {:trigger multiset(r)[row]} :: multiset(r)[row] ==
              if UserById(db.users, row.edge.friendId) == Some(row.friend) then multiset(edges)[row.edge] else 0
  {
    Join(edges, (e: Edge) => FriendRowOf(db, e), (row: FriendRow) => row.edge)
  }

  /** The friends page list: only edges going out of `me`, never a self-edge. */
  function FriendList(db: Db, me: int): (r: seq<FriendRow>)
    ensures forall row :: row in r <==>
      && row.edge in db.friends
      && row.edge.userId == me
      && row.edge.friendId != me
      && UserById(db.users, row.edge.friendId) == Some(row.friend)
    ensures forall row {:trigger multiset(r)[row]} :: multiset(r)[row] ==
              if row.edge.userId == me && row.edge.friendId != me && UserById(db.users, row.edge.friendId) == Some(row.friend)
              then multiset(db.friends)[row.edge] else 0
  {
    FriendRows(db, Filter(db.friends, (e: Edge) => e.userId == me && e.friendId != me))
  }
}
