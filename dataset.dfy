/** The persisted document `{users, posts, pending}` as values: its records,
    the projection a client may see of a user, the outcome of a handler, and
    how ids and verification codes are made. */
module Dataset {
  import opened ArrayOps
  import opened Text

  /** The stored role strings 'admin' and 'user'. */
  datatype Role = Admin | Member

  datatype User = User(
    id: string,
    nickname: string,
    email: string,
    passwordHash: string,
    role: Role,
    verified: bool)

  /** What `publicUser` hands to clients: every field of a user except its password hash. */
  datatype PublicUser = PublicUser(
    id: string,
    nickname: string,
    email: string,
    role: Role,
    verified: bool)

  /** An issued, unconsumed verification code. */
  datatype Pending = Pending(email: string, code: string)

  /** Author name and role are copies taken when the comment is created. */
  datatype Comment = Comment(
    id: string,
    author: string,
    authorRole: Role,
    content: string,
    createdAt: string)

  datatype Post = Post(
    id: string,
    title: string,
    content: string,
    author: string,
    authorRole: Role,
    createdAt: string,
    comments: seq<Comment>)

  /** The failure responses, by HTTP status: 400, 409, 401, 403 and 404. */
  datatype Error = BadRequest | Conflict | Unauthorized | Forbidden | NotFound

  datatype Result<T> = Ok(value: T) | Err(error: Error)

  function Status(e: Error): (code: int)
    ensures 400 <= code < 500
    ensures code == 400 <==> e == BadRequest
    ensures code == 401 <==> e == Unauthorized
    ensures code == 403 <==> e == Forbidden
    ensures code == 404 <==> e == NotFound
    ensures code == 409 <==> e == Conflict
  {
    match e
    case BadRequest => 400
    case Conflict => 409
    case Unauthorized => 401
    case Forbidden => 403
    case NotFound => 404
  }

  function Public(u: User): (p: PublicUser)
    ensures p.id == u.id && p.nickname == u.nickname && p.email == u.email
    ensures p.role == u.role && p.verified == u.verified
  {
    PublicUser(u.id, u.nickname, u.email, u.role, u.verified)
  }

  /** The projection forgets exactly the password hash: two users have the same
      public view if and only if they differ at most in their hashes. */
  lemma PublicForgetsOnlyHash(u: User, v: User)
    ensures Public(u) == Public(v) <==> u.(passwordHash := v.passwordHash) == v
  {
  }

  /** Ids are `prefix + Date.now() + '_' + hex of four random bytes`. */
  function MakeId(prefix: string, now: nat, nonce: seq<bv8>): (id: string)
    ensures |id| > |prefix| + |Decimal(now)| + 2 * |nonce|
    ensures id[..|prefix|] == prefix
  {
    prefix + Decimal(now) + "_" + Hex(nonce)
  }

  /** Ids differ when their timestamps or their random bytes differ. */
  lemma MakeIdDistinct(prefix: string, m: nat, n: nat, a: seq<bv8>, b: seq<bv8>)
    requires (m, a) != (n, b) && |a| == |b|
    ensures MakeId(prefix, m, a) != MakeId(prefix, n, b)
  {
    var x, y := MakeId(prefix, m, a), MakeId(prefix, n, b);
    if x == y {
      var dm, dn := Decimal(m), Decimal(n);
      assert |dm| == |dn|;
      if m != n {
        assert x == prefix + dm + ("_" + Hex(a));
        assert y == prefix + dn + ("_" + Hex(b));
        assert x[|prefix|..|prefix| + |dm|] == dm;
        assert y[|prefix|..|prefix| + |dn|] == dn;
        DecimalInjective(m, n);
      } else {
        var head := prefix + dm + "_";
        assert x == head + Hex(a) && y == head + Hex(b);
        assert x[|head|..] == Hex(a) && y[|head|..] == Hex(b);
        HexInjective(a, b);
      }
    }
  }

  /** `Math.floor(100000 + r * 900000)` for a random r in [0, 1). */
  function CodeFromRandom(r: real): (n: nat)
    requires 0.0 <= r < 1.0
    ensures 100000 <= n <= 999999
  {
    (100000.0 + r * 900000.0).Floor
  }

  /** The code string handed back by register: six decimal digits, no leading zero. */
  lemma CodeIsSixDigits(r: real)
    requires 0.0 <= r < 1.0
    ensures |Decimal(CodeFromRandom(r))| == 6
    ensures Decimal(CodeFromRandom(r))[0] != '0'
    ensures ParseDecimal(Decimal(CodeFromRandom(r))) == CodeFromRandom(r)
  {
    DecimalSixDigits(CodeFromRandom(r));
    DecimalLeadingDigit(CodeFromRandom(r));
    DecimalRoundTrip(CodeFromRandom(r));
  }

  // The callbacks the handlers pass to `find` and `filter`.

  function HasUserId(id: string): User -> bool { (u: User) => u.id == id }
  function HasEmail(email: string): User -> bool { (u: User) => u.email == email }
  function SameEmailIgnoringCase(email: string): User -> bool { (u: User) => Lower(u.email) == Lower(email) }
  function PendingFor(email: string): Pending -> bool { (p: Pending) => p.email == email }
  function PendingNotFor(email: string): Pending -> bool { (p: Pending) => p.email != email }
  function HasPostId(id: string): Post -> bool { (p: Post) => p.id == id }
  function NotPostId(id: string): Post -> bool { (p: Post) => p.id != id }

  function PendingEmail(p: Pending): string { p.email }
  function LowerEmail(u: User): string { Lower(u.email) }
}
