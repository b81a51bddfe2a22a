/** The API's user service over the user table: sign-up refuses an e-mail that is
    already registered and stores only the bcrypt hash of the password; password
    verification looks the user up by e-mail and checks the hash. bcrypt is not part
    of this model: a `Bcrypt` carries its hash and compare functions. The table
    stands for the Prisma-backed repository; ids are handed out by a counter. */
module UserService {
  import opened Wrappers

  const UserAlreadyExistsPrefix: string := "이미 존재하는 이메일입니다: "

  /** A row of the user table (timestamps are not modelled). */
  datatype User = User(id: nat, name: string, email: string, encryptedPassword: string)

  datatype UserError = UserAlreadyExists(email: string) | UserNotFound(email: string) | InvalidPassword

  /** The message `UserAlreadyExistsError` carries. */
  function UserAlreadyExistsMessage(email: string): (m: string)
    ensures |m| == |UserAlreadyExistsPrefix| + |email| && m[|UserAlreadyExistsPrefix|..] == email
  {
    UserAlreadyExistsPrefix + email
  }

  /** `hashValue` and `verifyHash`. */
  datatype Bcrypt = Bcrypt(hash: string -> string, compare: (string, string) -> bool)

  /** bcrypt accepts a password against its own hash. */
  ghost predicate Sound(b: Bcrypt) {
    forall p :: b.compare(p, b.hash(p))
  }

  /** Whether some user of `users` has the e-mail. */
  predicate HasEmail(users: seq<User>, email: string) {
    exists k :: 0 <= k < |users| && users[k].email == email
  }

  /** The first user with the e-mail, if any. */
  function FindEmail(users: seq<User>, email: string): (u: Option<User>)
    ensures u.Some? <==> HasEmail(users, email)
    ensures u.Some? ==> u.value in users && u.value.email == email
  {
    if users == [] then None
    else if users[0].email == email then Some(users[0])
    else
      var u := FindEmail(users[1..], email);
      assert HasEmail(users, email) ==> HasEmail(users[1..], email) by {
        if HasEmail(users, email) {
          var k :| 0 <= k < |users| && users[k].email == email;
          assert users[1..][k - 1] == users[k];
        }
      }
      assert u.Some? ==> HasEmail(users, email) by {
        if u.Some? {
          var k :| 0 <= k < |users[1..]| && users[1..][k].email == email;
          assert users[k + 1] == users[1..][k];
        }
      }
      u
  }

  class UserTable {
    var users: seq<User>
    var nextId: nat

    constructor ()
      ensures users == [] && nextId == 0 && Valid()
    {
      users := [];
      nextId := 0;
    }

    /** E-mails are unique and every id is below the counter. */
    predicate Valid()
      reads this
    {
      (forall i, j :: 0 <= i < j < |users| ==> users[i].email != users[j].email) &&
      (forall i :: 0 <= i < |users| ==> users[i].id < nextId)
    }

    /** `existsBy({ email })`. */
    predicate ExistsBy(email: string)
      reads this
    {
      HasEmail(users, email)
    }

    /** `findBy({ email })`: `findUnique` on the unique e-mail column. */
    function FindBy(email: string): (u: Option<User>)
      reads this
      ensures u.Some? <==> ExistsBy(email)
      ensures Valid() && u.Some? ==> u.value.email == email && u.value in users
    {
      FindEmail(users, email)
    }

    /** `save`: a new row with a fresh id. */
    method Save(name: string, email: string, encryptedPassword: string) returns (u: User)
      requires Valid() && !ExistsBy(email)
      modifies this
      ensures u == User(old(nextId), name, email, encryptedPassword)
      ensures users == old(users) + [u] && nextId == old(nextId) + 1
      ensures Valid()
    {
      u := User(nextId, name, email, encryptedPassword);
      users := users + [u];
      nextId := nextId + 1;
    }
  }

  /** `signUp`: an e-mail already present is refused and nothing is saved; otherwise
      the user is saved with the hash of the password, never the password itself. */
  method SignUp(table: UserTable, bcrypt: Bcrypt, name: string, email: string, password: string)
    returns (r: Result<User, UserError>)
    requires table.Valid()
    modifies table
    ensures table.Valid()
    ensures old(table.ExistsBy(email)) ==>
      r == Failure(UserAlreadyExists(email)) && table.users == old(table.users) && table.nextId == old(table.nextId)
    ensures !old(table.ExistsBy(email)) ==>
      r == Success(User(old(table.nextId), name, email, bcrypt.hash(password))) &&
      table.users == old(table.users) + [r.value]
  {
    if table.ExistsBy(email) {
      return Failure(UserAlreadyExists(email));
    }
    var u := table.Save(name, email, bcrypt.hash(password));
    r := Success(u);
  }

  /** `verifyPassword`: an unknown e-mail is reported before any hash check; a
      failing check is an invalid password; otherwise the stored user. */
  function VerifyPassword(table: UserTable, bcrypt: Bcrypt, email: string, password: string): (r: Result<User, UserError>)
    reads table
    ensures r == Failure(UserNotFound(email)) <==> !table.ExistsBy(email)
    ensures r == Failure(InvalidPassword) <==>
      table.ExistsBy(email) && !bcrypt.compare(password, table.FindBy(email).value.encryptedPassword)
    ensures r.Success? ==> r.value == table.FindBy(email).value && bcrypt.compare(password, r.value.encryptedPassword)
  {
    match table.FindBy(email)
    case None => Failure(UserNotFound(email))
    case Some(user) =>
      if !bcrypt.compare(password, user.encryptedPassword) then Failure(InvalidPassword) else Success(user)
  }

  /** A user who has just signed up is verified with the same password and gets the
      stored row back; a second sign-up with the same e-mail is refused. */
  method SignUpThenVerify(table: UserTable, bcrypt: Bcrypt, name: string, email: string, password: string)
    returns (signedUp: Result<User, UserError>)
    requires table.Valid() && Sound(bcrypt) && !table.ExistsBy(email)
    modifies table
    ensures signedUp.Success?
    ensures VerifyPassword(table, bcrypt, email, password) == signedUp
  {
    signedUp := SignUp(table, bcrypt, name, email, password);
    assert table.users[|table.users| - 1] == signedUp.value;
    assert table.ExistsBy(email);
  }

  /** Verification changes nothing and names the stored user by e-mail only. */
  lemma VerifiedUserIsStored(table: UserTable, bcrypt: Bcrypt, email: string, password: string)
    requires table.Valid()
    ensures VerifyPassword(table, bcrypt, email, password).Success? ==>
      VerifyPassword(table, bcrypt, email, password).value in table.users &&
      VerifyPassword(table, bcrypt, email, password).value.email == email
  {
  }
}
