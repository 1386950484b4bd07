/**
  The application's relational store as immutable tables: Users, Posts,
  Comments and the directed Friends edges. Rows are kept in insertion order,
  which is the order SQLite scans a table in.
 */
module Tables {
  import opened Optional
  import opened Seqs

  /** The six columns only the profile page writes; NULL until then. */
  datatype ProfileFields = ProfileFields(
    education: Option<string>,
    employment: Option<string>,
    music: Option<string>,
    movie: Option<string>,
    nationality: Option<string>,
    birthday: Option<string>)

  const BlankProfile := ProfileFields(None, None, None, None, None, None)

  /** A Users row; the password is stored as submitted. */
  datatype User = User(
    id: int,
    username: string,
    firstName: string,
    lastName: string,
    password: string,
    profile: ProfileFields)

  /** A Posts row; `image` is the stored upload name, NULL when none was attached. */
  datatype Post = Post(id: int, userId: int, content: string, image: Option<string>, created: int)

  /** A Comments row on post `postId` by user `userId`. */
  datatype Comment = Comment(id: int, postId: int, userId: int, text: string, created: int)

  /** A Friends row: `userId` added `friendId`. The reverse edge is a separate row. */
  datatype Edge = Edge(userId: int, friendId: int)

  datatype Db = Db(users: seq<User>, posts: seq<Post>, comments: seq<Comment>, friends: seq<Edge>)

  /**
    The rowid SQLite gives a new row of an INTEGER PRIMARY KEY table:
    one more than the largest id present, or 1 for an empty table.
   */
  function NextId(ids: seq<int>): (r: int)
    ensures forall i :: 0 <= i < |ids| ==> ids[i] < r
    ensures |ids| == 0 ==> r == 1
    ensures |ids| > 0 ==> r - 1 in ids
  {
    if |ids| == 0 then 1
    else if |ids| == 1 then ids[0] + 1
    else
      var m := NextId(ids[1..]);
      assert m - 1 in ids;
      if ids[0] + 1 > m then ids[0] + 1 else m
  }

  /** The id column of a table, in row order. */
  function Ids<R>(rows: seq<R>, id: R -> int): (ids: seq<int>)
    ensures |ids| == |rows| && forall i :: 0 <= i < |rows| ==> ids[i] == id(rows[i])
  {
    seq(|rows|, i requires 0 <= i < |rows| => id(rows[i]))
  }

  function UserIds(users: seq<User>): seq<int>
  {
    Ids(users, (u: User) => u.id)
  }

  function PostIds(posts: seq<Post>): seq<int>
  {
    Ids(posts, (p: Post) => p.id)
  }

  function CommentIds(comments: seq<Comment>): seq<int>
  {
    Ids(comments, (c: Comment) => c.id)
  }

  /** `SELECT * FROM Users WHERE id = ?` with `one=True`. */
  function UserById(users: seq<User>, id: int): (r: Option<User>)
    ensures r.Some? ==> r.value in users && r.value.id == id
    ensures r.None? <==> forall i :: 0 <= i < |users| ==> users[i].id != id
  {
    match FirstIndex(users, (u: User) => u.id == id)
    case None => None
    case Some(k) => Some(users[k])
  }

  /** `SELECT * FROM Users WHERE username = ?` with `one=True`: the earliest such row. */
  function UserByName(users: seq<User>, name: string): (r: Option<User>)
    ensures r.None? <==> forall i :: 0 <= i < |users| ==> users[i].username != name
    ensures r.Some? ==> exists k :: 0 <= k < |users| && users[k] == r.value && r.value.username == name
                          && forall j :: 0 <= j < k ==> users[j].username != name
  {
    match FirstIndex(users, (u: User) => u.username == name)
    case None => None
    case Some(k) => Some(users[k])
  }

  /** Appending a row does not change which row a name lookup finds, once some row has the name. */
  lemma FirstRowStaysFirst(users: seq<User>, extra: User, name: string)
    requires UserByName(users, name).Some?
    ensures UserByName(users + [extra], name) == UserByName(users, name)
  {
    var all := users + [extra];
    var k :| 0 <= k < |users| && users[k] == UserByName(users, name).value
             && forall j :: 0 <= j < k ==> users[j].username != name;
    assert all[k] == users[k];
    var k' :| 0 <= k' < |all| && all[k'] == UserByName(all, name).value
              && forall j :: 0 <= j < k' ==> all[j].username != name;
    if k' < k {
      assert all[k'] == users[k'];
    }
  }

  /** Ids are primary keys: no two rows of a table share one. */
  predicate UniqueIds(ids: seq<int>)
  {
    forall i, j :: 0 <= i < j < |ids| ==> ids[i] != ids[j]
  }

  /** The friend-add rules: nobody is their own friend and no edge is stored twice. */
  predicate SimpleEdges(friends: seq<Edge>)
  {
    && (forall i :: 0 <= i < |friends| ==> friends[i].userId != friends[i].friendId)
    && (forall i, j :: 0 <= i < j < |friends| ==> friends[i] != friends[j])
  }

  /** The store invariant every handler keeps. */
  predicate WellFormed(db: Db)
  {
    && UniqueIds(UserIds(db.users))
    && UniqueIds(PostIds(db.posts))
    && UniqueIds(CommentIds(db.comments))
    && SimpleEdges(db.friends)
  }

  /** Appending a row whose id is NextId of the existing ids keeps the ids unique. */
  lemma FreshIdKeepsUnique(ids: seq<int>)
    requires UniqueIds(ids)
    ensures UniqueIds(ids + [NextId(ids)])
  {
  }
}
