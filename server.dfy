/** The route handlers of the blog backend as transitions of one in-memory
    dataset. Every handler validates its request, consults the current
    dataset, and either answers with an error before touching anything (so
    nothing is saved) or updates the dataset and answers Ok. */
module Server {
  import opened ArrayOps
  import opened Text
  import opened Dataset
  import opened Invariants
  import opened Policy

  class Store {
    var users: seq<User>
    var posts: seq<Post>
    var pending: seq<Pending>
    /** `hashPassword`: a deterministic digest of the password, taken as given. */
    const hash: string -> string

    ghost predicate Valid()
      reads this
    {
      Consistent(users, posts, pending)
    }

    /** The dataset `loadData` creates when no data file exists. */
    constructor (hash: string -> string)
      ensures users == [] && posts == [] && pending == [] && this.hash == hash
      ensures Valid()
    {
      users, posts, pending := [], [], [];
      this.hash := hash;
    }

    /** POST /api/register. `now`, `nonce` and `random` stand for `Date.now()`,
        `crypto.randomBytes(4)` and `Math.random()`. */
    method Register(nickname: string, email: string, password: string,
                    now: nat, nonce: seq<bv8>, random: real) returns (res: Result<string>)
      requires |nonce| == 4 && 0.0 <= random < 1.0
      modifies this`users, this`pending
      ensures res == Err(BadRequest) <==> nickname == "" || email == "" || password == ""
      ensures res == Err(Conflict) <==>
        && nickname != "" && email != "" && password != ""
        && exists i :: 0 <= i < |old(users)| && Lower(old(users)[i].email) == Lower(email)
      ensures res.Err? ==> res.error in {BadRequest, Conflict} && users == old(users) && pending == old(pending)
      ensures res.Ok? ==>
        && res.value == Decimal(CodeFromRandom(random))
        && users == old(users) + [User(MakeId("u_", now, nonce), nickname, email, hash(password),
                                       if old(users) == [] then Admin else Member, false)]
        && pending == Filter(old(pending), PendingNotFor(email)) + [Pending(email, res.value)]
      // exactly one pending record for the email, the last one, holding the new code
      ensures res.Ok? ==> |res.value| == 6
      ensures res.Ok? ==> forall i :: 0 <= i < |pending| ==> (pending[i].email == email <==> i == |pending| - 1)
      // the records of every other email are kept, in their order
      ensures res.Ok? ==> Filter(pending, PendingNotFor(email)) == Filter(old(pending), PendingNotFor(email))
      ensures old(Valid()) ==> Valid()
    {
      if nickname == "" || email == "" || password == "" {
        return Err(BadRequest);
      }
      if Find(users, SameEmailIgnoringCase(email)).Some? {
        return Err(Conflict);
      }
      ghost var users0, pending0 := users, pending;
      var user := User(MakeId("u_", now, nonce), nickname, email, hash(password),
                       if |users| == 0 then Admin else Member, false);
      users := users + [user];

      var code := Decimal(CodeFromRandom(random));
      pending := Filter(pending, PendingNotFor(email));
      pending := pending + [Pending(email, code)];

      CodeIsSixDigits(random);
      ReissueKeepsOthers(pending0, email, code);
      if Consistent(users0, posts, pending0) {
        RegisterKeepsConsistent(users0, posts, pending0, user, code);
      }
      return Ok(code);
    }

    /** POST /api/verify. */
    method Verify(email: string, code: string) returns (res: Result<()>)
      modifies this`users, this`pending
      ensures email == "" || code == "" ==> res == Err(BadRequest)
      ensures res.Err? ==> res.error in {BadRequest, NotFound} && users == old(users) && pending == old(pending)
      // the first pending record for exactly this email must hold exactly this code
      ensures res == Err(BadRequest) <==>
        || email == "" || code == ""
        || !exists k :: IsFirst(old(pending), k, PendingFor(email)) && old(pending)[k].code == code
      ensures res == Err(NotFound) <==>
        && email != "" && code != ""
        && (exists k :: IsFirst(old(pending), k, PendingFor(email)) && old(pending)[k].code == code)
        && forall i :: 0 <= i < |old(users)| ==> old(users)[i].email != email
      ensures res.Ok? ==>
        exists k :: IsFirst(old(users), k, HasEmail(email)) && users == old(users)[k := old(users)[k].(verified := true)]
      ensures res.Ok? ==> pending == Filter(old(pending), PendingNotFor(email))
      ensures res.Ok? ==> forall i :: 0 <= i < |pending| ==> pending[i].email != email
      ensures old(Valid()) ==> Valid()
      ensures old(Valid()) ==> res != Err(NotFound)
      ensures old(Valid()) ==> (res.Ok? <==> email != "" && code != "" && Pending(email, code) in old(pending))
    {
      if email == "" || code == "" {
        return Err(BadRequest);
      }
      var p := Find(pending, PendingFor(email));
      if OnePendingPerEmail(pending) && PendingHaveUsers(users, pending) {
        PendingMatchIsMembership(users, pending, email, code);
      }
      if p.None? || pending[p.value].code != code {
        return Err(BadRequest);
      }
      var u := Find(users, HasEmail(email));
      if u.None? {
        return Err(NotFound);
      }
      if Consistent(users, posts, pending) {
        VerifyKeepsConsistent(users, posts, pending, u.value);
      }
      users := users[u.value := users[u.value].(verified := true)];
      pending := Filter(pending, PendingNotFor(email));
      return Ok(());
    }

    /** POST /api/login. Both failures give the same answer, and nothing is changed. */
    method Login(email: string, password: string) returns (res: Result<PublicUser>)
      ensures res == Err(BadRequest) <==> email == "" || password == ""
      ensures res.Err? ==> res.error in {BadRequest, Unauthorized}
      // no user with this email (ignoring case) and a wrong password are one and the same answer
      ensures res == Err(Unauthorized) <==>
        && email != "" && password != ""
        && !exists k :: IsFirst(users, k, SameEmailIgnoringCase(email)) && users[k].passwordHash == hash(password)
      ensures res.Ok? ==>
        exists k :: IsFirst(users, k, SameEmailIgnoringCase(email)) && users[k].passwordHash == hash(password)
                    && res.value == Public(users[k])
      ensures Valid() ==>
        (res.Ok? <==>
          && email != "" && password != ""
          && exists k :: 0 <= k < |users| && Lower(users[k].email) == Lower(email) && users[k].passwordHash == hash(password))
    {
      if email == "" || password == "" {
        return Err(BadRequest);
      }
      var u := Find(users, SameEmailIgnoringCase(email));
      if u.None? {
        return Err(Unauthorized);
      }
      if EmailsDistinct(users) {
        LoginMatchIsExistence(users, email, hash(password));
      }
      if users[u.value].passwordHash != hash(password) {
        return Err(Unauthorized);
      }
      return Ok(Public(users[u.value]));
    }

    /** POST /api/posts. */
    method CreatePost(title: string, content: string, authorId: string,
                      now: nat, nonce: seq<bv8>, createdAt: string) returns (res: Result<Post>)
      requires |nonce| == 4
      modifies this`posts
      ensures res == Err(BadRequest) <==> title == "" || content == "" || authorId == ""
      ensures res == Err(Forbidden) <==>
        title != "" && content != "" && authorId != "" && !MayManagePosts(ResolveActor(users, authorId))
      ensures res.Err? ==> res.error in {BadRequest, Forbidden} && posts == old(posts)
      ensures res.Ok? ==> MayManagePosts(ResolveActor(users, authorId))
      ensures res.Ok? ==>
        (var actor := ResolveActor(users, authorId).value;
         && res.value == Post(MakeId("p_", now, nonce), title, content, actor.nickname, actor.role, createdAt, [])
         && posts == old(posts) + [res.value])
      ensures old(Valid()) ==> Valid()
    {
      if title == "" || content == "" || authorId == "" {
        return Err(BadRequest);
      }
      var actor := ResolveActor(users, authorId);
      if !MayManagePosts(actor) {
        return Err(Forbidden);
      }
      var post := Post(MakeId("p_", now, nonce), title, content, actor.value.nickname, actor.value.role, createdAt, []);
      posts := posts + [post];
      return Ok(post);
    }

    /** PUT /api/posts/:id. Only a non-empty title or content replaces the stored one. */
    method EditPost(id: string, title: string, content: string, authorId: string) returns (res: Result<Post>)
      modifies this`posts
      ensures res == Err(Forbidden) <==> !MayManagePosts(ResolveActor(users, authorId))
      ensures old(Valid()) && authorId == "" ==> res == Err(Forbidden)
      ensures res == Err(NotFound) <==>
        MayManagePosts(ResolveActor(users, authorId)) && forall i :: 0 <= i < |old(posts)| ==> old(posts)[i].id != id
      ensures res.Err? ==> res.error in {Forbidden, NotFound} && posts == old(posts)
      ensures res.Ok? ==> exists k ::
        && IsFirst(old(posts), k, HasPostId(id))
        && res.value.title == (if title == "" then old(posts)[k].title else title)
        && res.value.content == (if content == "" then old(posts)[k].content else content)
        && res.value.(title := old(posts)[k].title, content := old(posts)[k].content) == old(posts)[k]
        && posts == old(posts)[k := res.value]
      ensures old(Valid()) ==> Valid()
    {
      var actor := ResolveActor(users, authorId);
      if !MayManagePosts(actor) {
        return Err(Forbidden);
      }
      var found := Find(posts, HasPostId(id));
      if found.None? {
        return Err(NotFound);
      }
      var k := found.value;
      if title != "" {
        posts := posts[k := posts[k].(title := title)];
      }
      if content != "" {
        posts := posts[k := posts[k].(content := content)];
      }
      return Ok(posts[k]);
    }

    /** DELETE /api/posts/:id. The post goes together with its comments. The
        filtered list is kept in a local until it is known to differ, since
        the source answers 404 without saving it. */
    method DeletePost(id: string, authorId: string) returns (res: Result<()>)
      modifies this`posts
      ensures res == Err(Forbidden) <==> !MayManagePosts(ResolveActor(users, authorId))
      ensures old(Valid()) && authorId == "" ==> res == Err(Forbidden)
      ensures res == Err(NotFound) <==>
        MayManagePosts(ResolveActor(users, authorId)) && forall i :: 0 <= i < |old(posts)| ==> old(posts)[i].id != id
      ensures res.Err? ==> res.error in {Forbidden, NotFound} && posts == old(posts)
      ensures res.Ok? ==> posts == Filter(old(posts), NotPostId(id)) && |posts| < |old(posts)|
      ensures res.Ok? ==> forall i :: 0 <= i < |posts| ==> posts[i].id != id
      ensures res.Ok? ==> forall i :: 0 <= i < |old(posts)| && old(posts)[i].id != id ==> old(posts)[i] in posts
      ensures old(Valid()) ==> Valid()
    {
      var actor := ResolveActor(users, authorId);
      if !MayManagePosts(actor) {
        return Err(Forbidden);
      }
      var before := |posts|;
      var remaining := Filter(posts, NotPostId(id));
      if |remaining| == before {
        forall i | 0 <= i < |posts| ensures posts[i].id != id {
          assert posts[i] in remaining;
        }
        return Err(NotFound);
      }
      if forall i :: 0 <= i < |posts| ==> NotPostId(id)(posts[i]) {
        FilterKeepsAll(posts, NotPostId(id));
      }
      posts := remaining;
      return Ok(());
    }

    /** POST /api/posts/:id/comments. Any verified user may comment, whatever the role. */
    method AddComment(postId: string, authorId: string, content: string,
                      now: nat, nonce: seq<bv8>, createdAt: string) returns (res: Result<Comment>)
      requires |nonce| == 4
      modifies this`posts
      ensures res == Err(BadRequest) <==> authorId == "" || content == ""
      ensures res == Err(Forbidden) <==>
        authorId != "" && content != "" && !MayComment(ResolveActor(users, authorId))
      ensures res == Err(NotFound) <==>
        && authorId != "" && content != "" && MayComment(ResolveActor(users, authorId))
        && forall i :: 0 <= i < |old(posts)| ==> old(posts)[i].id != postId
      ensures res.Err? ==> res.error in {BadRequest, Forbidden, NotFound} && posts == old(posts)
      ensures res.Ok? ==> MayComment(ResolveActor(users, authorId))
      ensures res.Ok? ==>
        (var actor := ResolveActor(users, authorId).value;
         res.value == Comment(MakeId("c_", now, nonce), actor.nickname, actor.role, content, createdAt))
      ensures res.Ok? ==> exists k ::
        && IsFirst(old(posts), k, HasPostId(postId))
        && posts == old(posts)[k := old(posts)[k].(comments := old(posts)[k].comments + [res.value])]
      ensures old(Valid()) ==> Valid()
    {
      if authorId == "" || content == "" {
        return Err(BadRequest);
      }
      var actor := ResolveActor(users, authorId);
      if !MayComment(actor) {
        return Err(Forbidden);
      }
      var found := Find(posts, HasPostId(postId));
      if found.None? {
        return Err(NotFound);
      }
      var k := found.value;
      var comment := Comment(MakeId("c_", now, nonce), actor.value.nickname, actor.value.role, content, createdAt);
      posts := posts[k := posts[k].(comments := posts[k].comments + [comment])];
      return Ok(comment);
    }
  }
}
