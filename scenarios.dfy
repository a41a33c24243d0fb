/** Clients of the store that chain several requests, showing what the
    handlers' contracts promise across calls. */
module Scenarios {
  import opened ArrayOps
  import opened Text
  import opened Dataset
  import opened Policy
  import opened Server

  /** A code is good for one verification only: repeating it is refused. */
  method VerifyTwice(s: Store, email: string, code: string) returns (first: Result<()>, second: Result<()>)
    modifies s
    ensures first.Ok? ==> second == Err(BadRequest)
    ensures first.Ok? ==> forall i :: 0 <= i < |s.pending| ==> s.pending[i].email != email
  {
    first := s.Verify(email, code);
    second := s.Verify(email, code);
  }

  /** Registering an email a second time, in any letter case, is a conflict
      and creates no second user. */
  method RegisterTwice(s: Store, email: string, sameEmail: string, now: nat, nonce: seq<bv8>, r: real)
    returns (first: Result<string>, second: Result<string>)
    requires Lower(sameEmail) == Lower(email) && sameEmail != ""
    requires |nonce| == 4 && 0.0 <= r < 1.0
    modifies s
    ensures first.Ok? ==> second == Err(Conflict)
    ensures first.Ok? ==> |s.users| == |old(s.users)| + 1
  {
    first := s.Register("nick", email, "password", now, nonce, r);
    if first.Ok? {
      ghost var last := |s.users| - 1;
      assert s.users[last].email == email;
      assert 0 <= last < |s.users| && Lower(s.users[last].email) == Lower(sameEmail);
    }
    second := s.Register("nick", sameEmail, "password", now, nonce, r);
  }

  // The end-to-end run: alice registers at time t, bob at time t + 2.

  function Alice(hash: string -> string, t: nat, verified: bool): User
  {
    User(MakeId("u_", t, [1, 2, 3, 4]), "alice", "a@x.com", hash("pw"), Admin, verified)
  }

  function Bob(hash: string -> string, t: nat, verified: bool): User
  {
    User(MakeId("u_", t + 2, [9, 10, 11, 12]), "bob", "b@x.com", hash("pw2"), Member, verified)
  }

  /** On an empty dataset alice registers and becomes an unverified admin. */
  method AliceRegisters(hash: string -> string, t: nat, r: real) returns (s: Store, code: string)
    requires 0.0 <= r < 1.0
    ensures fresh(s) && s.hash == hash
    ensures s.users == [Alice(hash, t, false)] && s.posts == [] && s.pending == [Pending("a@x.com", code)]
    ensures code != "000000" && code != ""
  {
    s := new Store(hash);
    var reg := s.Register("alice", "a@x.com", "pw", t, [1, 2, 3, 4], r);
    code := reg.value;
    CodeIsSixDigits(r);
  }

  /** A wrong code is refused and changes nothing. */
  method AliceMistypes(s: Store, code: string) returns (wrong: Result<()>)
    requires s.pending == [Pending("a@x.com", code)] && code != "000000"
    modifies s
    ensures wrong == Err(BadRequest)
    ensures s.users == old(s.users) && s.posts == old(s.posts) && s.pending == old(s.pending)
  {
    wrong := s.Verify("a@x.com", "000000");
  }

  /** The issued code is accepted and consumed. */
  method AliceVerifies(s: Store, t: nat, code: string) returns (right: Result<()>)
    requires s.users == [Alice(s.hash, t, false)] && s.pending == [Pending("a@x.com", code)] && code != ""
    modifies s
    ensures right.Ok?
    ensures s.users == [Alice(s.hash, t, true)] && s.posts == old(s.posts) && s.pending == []
  {
    assert IsFirst(s.pending, 0, PendingFor("a@x.com"));
    assert IsFirst(s.users, 0, HasEmail("a@x.com"));
    right := s.Verify("a@x.com", code);
  }

  /** The verified admin publishes a post. */
  method AlicePublishes(s: Store, t: nat) returns (post: Result<Post>)
    requires s.users == [Alice(s.hash, t, true)] && s.posts == []
    modifies s
    ensures post.Ok? && s.posts == [post.value] && post.value.comments == []
    ensures s.users == old(s.users) && s.pending == old(s.pending)
  {
    var alice := s.users[0];
    assert IsFirst(s.users, 0, HasUserId(alice.id));
    post := s.CreatePost("Hello", "First post", alice.id, t + 1, [5, 6, 7, 8], "2024-01-01T00:00:00.000Z");
  }

  /** Bob registers second and becomes an unverified ordinary user. */
  method BobRegisters(s: Store, t: nat, r: real) returns (code: string)
    requires s.users == [Alice(s.hash, t, true)] && s.pending == []
    requires 0.0 <= r < 1.0
    modifies s
    ensures s.users == [Alice(s.hash, t, true), Bob(s.hash, t, false)] && s.pending == [Pending("b@x.com", code)]
    ensures s.posts == old(s.posts) && code != ""
  {
    assert Lower("a@x.com") != Lower("b@x.com") by {
      assert Lower("a@x.com")[0] == 'a' && Lower("b@x.com")[0] == 'b';
    }
    var reg := s.Register("bob", "b@x.com", "pw2", t + 2, [9, 10, 11, 12], r);
    code := reg.value;
    CodeIsSixDigits(r);
  }

  /** Bob may not comment while unverified, and nothing changes. */
  method BobIsTurnedAway(s: Store, t: nat, postId: string) returns (early: Result<Comment>)
    requires s.users == [Alice(s.hash, t, true), Bob(s.hash, t, false)]
    modifies s
    ensures early == Err(Forbidden) && s.posts == old(s.posts)
    ensures s.users == old(s.users) && s.pending == old(s.pending)
  {
    MakeIdDistinct("u_", t, t + 2, [1, 2, 3, 4], [9, 10, 11, 12]);
    assert IsFirst(s.users, 1, HasUserId(s.users[1].id));
    early := s.AddComment(postId, s.users[1].id, "Nice", t + 3, [13, 14, 15, 16], "2024-01-01T00:01:00.000Z");
  }

  /** Bob verifies with the code he was given. */
  method BobVerifies(s: Store, t: nat, code: string)
    requires s.users == [Alice(s.hash, t, true), Bob(s.hash, t, false)] && s.pending == [Pending("b@x.com", code)]
    requires code != ""
    modifies s
    ensures s.users == [Alice(s.hash, t, true), Bob(s.hash, t, true)] && s.posts == old(s.posts)
  {
    assert IsFirst(s.pending, 0, PendingFor("b@x.com"));
    assert IsFirst(s.users, 1, HasEmail("b@x.com"));
    var v := s.Verify("b@x.com", code);
  }

  /** Once verified, bob's comment is appended to the post. */
  method BobIsHeard(s: Store, t: nat, postId: string) returns (late: Result<Comment>)
    requires s.users == [Alice(s.hash, t, true), Bob(s.hash, t, true)]
    requires |s.posts| == 1 && s.posts[0].id == postId
    modifies s
    ensures late.Ok? && late.value.author == "bob" && late.value.authorRole == Member
    ensures s.posts == [old(s.posts)[0].(comments := old(s.posts)[0].comments + [late.value])]
  {
    MakeIdDistinct("u_", t, t + 2, [1, 2, 3, 4], [9, 10, 11, 12]);
    assert IsFirst(s.users, 1, HasUserId(s.users[1].id));
    assert IsFirst(s.posts, 0, HasPostId(postId));
    late := s.AddComment(postId, s.users[1].id, "Nice", t + 4, [17, 18, 19, 20], "2024-01-01T00:02:00.000Z");
  }

  /** The life of a fresh dataset: the first registrant becomes an unverified
      admin; a wrong code is refused and the issued one accepted; the admin
      publishes a post; a second user may not comment until verified, and the
      comment then lands at the end of the post's comments. */
  method EndToEnd(hash: string -> string, t: nat, r1: real, r2: real)
    returns (firstRole: Role, verifiedAtStart: bool, wrongCode: Result<()>, rightCode: Result<()>,
             published: bool, early: Result<Comment>, late: Result<Comment>, comments: seq<Comment>)
    requires 0.0 <= r1 < 1.0 && 0.0 <= r2 < 1.0
    ensures firstRole == Admin && !verifiedAtStart
    ensures wrongCode == Err(BadRequest) && rightCode.Ok?
    ensures published
    ensures early == Err(Forbidden)
    ensures late.Ok? && comments == [late.value] && late.value.author == "bob" && late.value.authorRole == Member
  {
    var s, code := AliceRegisters(hash, t, r1);
    firstRole, verifiedAtStart := s.users[0].role, s.users[0].verified;
    wrongCode := AliceMistypes(s, code);
    rightCode := AliceVerifies(s, t, code);
    var post := AlicePublishes(s, t);
    published := post.Ok?;
    var code2 := BobRegisters(s, t, r2);
    early := BobIsTurnedAway(s, t, post.value.id);
    BobVerifies(s, t, code2);
    late := BobIsHeard(s, t, post.value.id);
    comments := s.posts[0].comments;
  }
}
