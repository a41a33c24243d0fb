/** The authorization policy: the actor named by `authorId` is looked up
    afresh in the current users on every request, and the gates are
    evaluated on that record, never on the author snapshot stored in a
    post or comment. */
module Policy {
  import opened ArrayOps
  import opened Dataset

  /** `data.users.find((u) => u.id === authorId)`. */
  function ResolveActor(users: seq<User>, id: string): (actor: Option<User>)
    ensures actor.Some? <==> exists k :: 0 <= k < |users| && users[k].id == id
    ensures actor.Some? ==> exists k :: IsFirst(users, k, HasUserId(id)) && users[k] == actor.value
  {
    match Find(users, HasUserId(id))
    case None => None
    case Some(k) => Some(users[k])
  }

  /** Creating, editing and deleting posts: the actor exists, is an admin and is verified. */
  predicate MayManagePosts(actor: Option<User>): (ok: bool)
    ensures ok <==> MayComment(actor) && actor.value.role == Admin
  {
    actor.Some? && actor.value.role == Admin && actor.value.verified
  }

  /** Commenting: the actor exists and is verified; the role plays no part. */
  predicate MayComment(actor: Option<User>): (ok: bool)
    ensures ok ==> actor.Some?
    ensures actor.Some? ==> (ok <==> actor.value.verified)
  {
    actor.Some? && actor.value.verified
  }

  /** Whoever may manage posts may also comment, and a change of role alone
      never changes who may comment. */
  lemma CommentGateIgnoresRole(actor: Option<User>, role: Role)
    ensures MayManagePosts(actor) ==> MayComment(actor)
    ensures actor.Some? ==> MayComment(Some(actor.value.(role := role))) == MayComment(actor)
  {
  }

  /** When user ids are distinct, the post gate holds exactly when some user
      with that id is a verified admin. */
  lemma {:induction false} PostGateWithDistinctIds(users: seq<User>, id: string)
    requires forall i, j :: 0 <= i < j < |users| ==> users[i].id != users[j].id
    ensures MayManagePosts(ResolveActor(users, id)) <==>
      exists k :: 0 <= k < |users| && users[k].id == id && users[k].role == Admin && users[k].verified
  {
    if MayManagePosts(ResolveActor(users, id)) {
      var k :| IsFirst(users, k, HasUserId(id)) && users[k] == ResolveActor(users, id).value;
      assert users[k].id == id && users[k].role == Admin && users[k].verified;
    }
  }
}
