/**
  The INSERT and UPDATE statements the handlers issue, each a function from
  the store before to the store after. Nothing is ever deleted.
 */
module Writes {
  import opened Optional
  import opened Tables

  /** Registration: a Users row with the submitted fields as given and no profile. */
  function AddUser(db: Db, username: string, firstName: string, lastName: string, password: string): (r: Db)
    ensures |r.users| == |db.users| + 1
    ensures r.users[..|db.users|] == db.users
    ensures forall i :: 0 <= i < |db.users| ==> db.users[i].id != r.users[|db.users|].id
    ensures r.users[|db.users|].username == username && r.users[|db.users|].password == password
    ensures r.users[|db.users|].firstName == firstName && r.users[|db.users|].lastName == lastName
    ensures r.users[|db.users|].profile == BlankProfile
    ensures r.posts == db.posts && r.comments == db.comments && r.friends == db.friends
  {
    var id := NextId(UserIds(db.users));
    db.(users := db.users + [User(id, username, firstName, lastName, password, BlankProfile)])
  }

  /** A Posts row by `userId`, stamped with the clock reading `now`. */
  function AddPost(db: Db, userId: int, content: string, image: Option<string>, now: int): (r: Db)
    ensures |r.posts| == |db.posts| + 1 && r.posts[..|db.posts|] == db.posts
    ensures forall i :: 0 <= i < |db.posts| ==> db.posts[i].id != r.posts[|db.posts|].id
    ensures var p := r.posts[|db.posts|]; p.userId == userId && p.content == content && p.image == image && p.created == now
    ensures r.users == db.users && r.comments == db.comments && r.friends == db.friends
  {
    var id := NextId(PostIds(db.posts));
    db.(posts := db.posts + [Post(id, userId, content, image, now)])
  }

  /** A Comments row on `postId`; the post id is not checked against Posts. */
  function AddComment(db: Db, postId: int, userId: int, text: string, now: int): (r: Db)
    ensures |r.comments| == |db.comments| + 1 && r.comments[..|db.comments|] == db.comments
    ensures forall i :: 0 <= i < |db.comments| ==> db.comments[i].id != r.comments[|db.comments|].id
    ensures var c := r.comments[|db.comments|];
              c.postId == postId && c.userId == userId && c.text == text && c.created == now
    ensures r.users == db.users && r.posts == db.posts && r.friends == db.friends
  {
    var id := NextId(CommentIds(db.comments));
    db.(comments := db.comments + [Comment(id, postId, userId, text, now)])
  }

  /** `UPDATE Users SET <six profile columns> WHERE id = ?`. */
  function UpdateProfile(db: Db, id: int, profile: ProfileFields): (r: Db)
    ensures |r.users| == |db.users|
    ensures forall i :: 0 <= i < |db.users| && db.users[i].id == id ==> r.users[i].profile == profile
    ensures forall i :: 0 <= i < |db.users| && db.users[i].id != id ==> r.users[i] == db.users[i]
    ensures forall i :: 0 <= i < |db.users| ==> r.users[i] == db.users[i].(profile := r.users[i].profile)
    ensures r.posts == db.posts && r.comments == db.comments && r.friends == db.friends
  {
    var users := seq(|db.users|, i requires 0 <= i < |db.users| =>
      if db.users[i].id == id then db.users[i].(profile := profile) else db.users[i]);
    db.(users := users)
  }
}
