/** The user collection: records of the `users` schema, held in insertion
    order, and the lookups the handlers make on it. */
module Users {
  import opened Wrappers

  /** A stored user record; the password is kept as given. */
  datatype User = User(name: string, email: string, password: string)

  /** A user record with its `password` field removed. */
  datatype Profile = Profile(name: string, email: string)

  function Sanitize(u: User): Profile
  {
    Profile(u.name, u.email)
  }

  /** Some record of the collection carries this email. */
  predicate HasEmail(users: seq<User>, email: string)
  {
    exists i :: 0 <= i < |users| && users[i].email == email
  }

  /** No two records of the collection carry the same email. */
  predicate UniqueEmails(users: seq<User>)
  {
    forall i, j :: 0 <= i < j < |users| ==> users[i].email != users[j].email
  }

  /** Position of the first record, in collection order, carrying `email`. */
  function FirstWithEmail(users: seq<User>, email: string): (r: Option<nat>)
    ensures r.None? <==> !HasEmail(users, email)
    ensures r.Some? ==> r.value < |users| && users[r.value].email == email
    ensures r.Some? ==> forall j :: 0 <= j < r.value ==> users[j].email != email
  {
    if |users| == 0 then None
    else if users[0].email == email then Some(0)
    else
      match FirstWithEmail(users[1..], email)
      case None =>
        assert forall i :: 1 <= i < |users| ==> users[i] == users[1..][i - 1];
        None
      case Some(i) => Some(i + 1)
  }

  /** `findOne({ email }).select('-password')`: the first record with this
      email, with its password projected away. */
  function Lookup(users: seq<User>, email: string): (r: Option<Profile>)
    ensures r.Some? <==> HasEmail(users, email)
    ensures r.Some? ==> r.value.email == email
    ensures r.Some? ==> exists i :: 0 <= i < |users| && Sanitize(users[i]) == r.value
  {
    match FirstWithEmail(users, email)
    case None => None
    case Some(i) => Some(Sanitize(users[i]))
  }

  /** Appending a record leaves earlier matches in place and makes the new
      record the match for an email no earlier record carries. */
  lemma LookupAfterAppend(users: seq<User>, u: User, email: string)
    ensures HasEmail(users, email) ==> Lookup(users + [u], email) == Lookup(users, email)
    ensures !HasEmail(users, email) && u.email == email ==> Lookup(users + [u], email) == Some(Sanitize(u))
    ensures !HasEmail(users, email) && u.email != email ==> !HasEmail(users + [u], email)
  {
    var all := users + [u];
    assert forall i :: 0 <= i < |users| ==> all[i] == users[i];
    var r := FirstWithEmail(users, email);
    var r' := FirstWithEmail(all, email);
    if r.Some? {
      assert all[r.value].email == email;
      assert r'.Some? && r'.value <= r.value;
      assert r'.value == r.value;
    } else if u.email == email {
      assert all[|users|].email == email;
      assert r'.value == |users|;
    }
  }

  /** With unique emails, the lookup finds the profile of THE record with
      that email. */
  lemma LookupUnique(users: seq<User>, i: nat)
    requires UniqueEmails(users)
    requires i < |users|
    ensures Lookup(users, users[i].email) == Some(Sanitize(users[i]))
  {
  }
}
