/** Conditions that every dataset grown from the empty one by the handlers
    satisfies, and the lemmas showing that the updates made by register and
    verify keep them. */
module Invariants {
  import opened ArrayOps
  import opened Text
  import opened Dataset

  /** At most one pending record per email. */
  ghost predicate OnePendingPerEmail(pending: seq<Pending>)
  {
    DistinctBy(pending, PendingEmail)
  }

  /** Every pending code was issued together with a user of exactly that email. */
  ghost predicate PendingHaveUsers(users: seq<User>, pending: seq<Pending>)
  {
    forall i :: 0 <= i < |pending| ==> exists j :: 0 <= j < |users| && users[j].email == pending[i].email
  }

  /** No two users' emails are equal ignoring case. */
  ghost predicate EmailsDistinct(users: seq<User>)
  {
    DistinctBy(users, LowerEmail)
  }

  /** The first registered user is the admin, every later one an ordinary user. */
  ghost predicate RolesByOrder(users: seq<User>)
  {
    forall i :: 0 <= i < |users| ==> users[i].role == if i == 0 then Admin else Member
  }

  /** User ids are generated ones, so none is empty. */
  ghost predicate UserIdsGenerated(users: seq<User>)
  {
    forall i :: 0 <= i < |users| ==> |users[i].id| >= 2 && users[i].id[..2] == "u_"
  }

  /** Posts are written by admins (the role snapshot taken at creation). */
  ghost predicate PostsByAdmins(posts: seq<Post>)
  {
    forall i :: 0 <= i < |posts| ==> posts[i].authorRole == Admin
  }

  ghost predicate Consistent(users: seq<User>, posts: seq<Post>, pending: seq<Pending>)
  {
    && OnePendingPerEmail(pending)
    && PendingHaveUsers(users, pending)
    && EmailsDistinct(users)
    && RolesByOrder(users)
    && UserIdsGenerated(users)
    && PostsByAdmins(posts)
  }

  /** With one pending record per email, the first record for an email is the only one. */
  lemma FirstPendingIsOnly(pending: seq<Pending>, email: string, k: int)
    requires OnePendingPerEmail(pending)
    requires IsFirst(pending, k, PendingFor(email))
    ensures forall i :: 0 <= i < |pending| && pending[i].email == email ==> i == k
  {
  }

  /** With emails distinct ignoring case, the first user matching an email ignoring case is the only one. */
  lemma FirstUserIsOnly(users: seq<User>, email: string, k: int)
    requires EmailsDistinct(users)
    requires IsFirst(users, k, SameEmailIgnoringCase(email))
    ensures forall i :: 0 <= i < |users| && Lower(users[i].email) == Lower(email) ==> i == k
  {
  }

  /** The pending list register leaves behind: the email's records dropped, the new one appended. */
  lemma {:induction false} ReissueKeepsOthers(pending: seq<Pending>, email: string, code: string)
    ensures var r := Filter(pending, PendingNotFor(email)) + [Pending(email, code)];
      && (forall i :: 0 <= i < |r| ==> (r[i].email == email <==> i == |r| - 1))
      && Filter(r, PendingNotFor(email)) == Filter(pending, PendingNotFor(email))
  {
    var kept := Filter(pending, PendingNotFor(email));
    FilterAppend(kept, Pending(email, code), PendingNotFor(email));
    FilterIdempotent(pending, PendingNotFor(email));
  }

  /** A successful register keeps the dataset consistent. */
  lemma RegisterKeepsConsistent(users: seq<User>, posts: seq<Post>, pending: seq<Pending>, user: User, code: string)
    requires Consistent(users, posts, pending)
    requires forall i :: 0 <= i < |users| ==> Lower(users[i].email) != Lower(user.email)
    requires user.role == if users == [] then Admin else Member
    requires |user.id| >= 2 && user.id[..2] == "u_"
    ensures Consistent(users + [user], posts, Filter(pending, PendingNotFor(user.email)) + [Pending(user.email, code)])
  {
    var email := user.email;
    var kept := Filter(pending, PendingNotFor(email));
    var users' := users + [user];
    var pending' := kept + [Pending(email, code)];
    FilterDistinct(pending, PendingNotFor(email), PendingEmail);
    DistinctAppend(kept, Pending(email, code), PendingEmail);
    DistinctAppend(users, user, LowerEmail);
    forall i | 0 <= i < |pending'|
      ensures exists j :: 0 <= j < |users'| && users'[j].email == pending'[i].email
    {
      if i == |pending'| - 1 {
        assert pending'[i] == Pending(email, code);
        assert users'[|users|] == user;
      } else {
        assert pending'[i] in pending;
        var m :| 0 <= m < |pending| && pending[m] == pending'[i];
        var j :| 0 <= j < |users| && users[j].email == pending[m].email;
        assert users'[j] == users[j];
      }
    }
    assert PendingHaveUsers(users', pending');
  }

  /** A successful verify of the user at index k keeps the dataset consistent. */
  lemma VerifyKeepsConsistent(users: seq<User>, posts: seq<Post>, pending: seq<Pending>, k: nat)
    requires Consistent(users, posts, pending)
    requires k < |users|
    ensures Consistent(users[k := users[k].(verified := true)], posts, Filter(pending, PendingNotFor(users[k].email)))
  {
    var email := users[k].email;
    var users' := users[k := users[k].(verified := true)];
    var pending' := Filter(pending, PendingNotFor(email));
    FilterDistinct(pending, PendingNotFor(email), PendingEmail);
    forall i | 0 <= i < |users'| ensures LowerEmail(users'[i]) == LowerEmail(users[i]) {
    }
    forall i | 0 <= i < |pending'|
      ensures exists j :: 0 <= j < |users'| && users'[j].email == pending'[i].email
    {
      assert pending'[i] in pending;
      var m :| 0 <= m < |pending| && pending[m] == pending'[i];
      var j :| 0 <= j < |users| && users[j].email == pending[m].email;
      assert users'[j].email == users[j].email;
    }
  }

  /** In a consistent dataset verify's test "the first pending record for the
      email holds the code" is simply "the record (email, code) is pending",
      and such a record always has its user. */
  lemma PendingMatchIsMembership(users: seq<User>, pending: seq<Pending>, email: string, code: string)
    requires OnePendingPerEmail(pending) && PendingHaveUsers(users, pending)
    ensures (exists k :: IsFirst(pending, k, PendingFor(email)) && pending[k].code == code) <==> Pending(email, code) in pending
    ensures Pending(email, code) in pending ==> exists j :: 0 <= j < |users| && users[j].email == email
  {
    if Pending(email, code) in pending {
      var m :| 0 <= m < |pending| && pending[m] == Pending(email, code);
      var f := Find(pending, PendingFor(email));
      FirstPendingIsOnly(pending, email, f.value);
      assert pending[f.value] == pending[m];
    }
  }

  /** In a consistent dataset login's test on the first user whose email
      matches ignoring case is a test on the only such user. */
  lemma LoginMatchIsExistence(users: seq<User>, email: string, h: string)
    requires EmailsDistinct(users)
    ensures (exists k :: IsFirst(users, k, SameEmailIgnoringCase(email)) && users[k].passwordHash == h) <==>
            (exists k :: 0 <= k < |users| && Lower(users[k].email) == Lower(email) && users[k].passwordHash == h)
  {
    if exists k :: 0 <= k < |users| && Lower(users[k].email) == Lower(email) && users[k].passwordHash == h {
      var m :| 0 <= m < |users| && Lower(users[m].email) == Lower(email) && users[m].passwordHash == h;
      var f := Find(users, SameEmailIgnoringCase(email));
      FirstUserIsOnly(users, email, f.value);
      assert f.value == m;
    }
  }
}
