/** The older user service of the first server layout: its sign-up takes the
    password field as given, already encrypted by the caller, and stores it
    verbatim after the same duplicate-e-mail check. */
module LegacyUserService {
  import opened Wrappers
  import opened UserService

  /** `signUp`: an e-mail already present is refused and nothing is saved; otherwise
      exactly the given name, e-mail and password field are saved and the saved row
      is returned. */
  method SignUp(table: UserTable, name: string, email: string, encryptedPassword: string)
    returns (r: Result<User, UserError>)
    requires table.Valid()
    modifies table
    ensures table.Valid()
    ensures old(table.ExistsBy(email)) ==>
      r == Failure(UserAlreadyExists(email)) && table.users == old(table.users) && table.nextId == old(table.nextId)
    ensures !old(table.ExistsBy(email)) ==>
      r == Success(User(old(table.nextId), name, email, encryptedPassword)) &&
      table.users == old(table.users) + [r.value]
  {
    if table.ExistsBy(email) {
      return Failure(UserAlreadyExists(email));
    }
    var u := table.Save(name, email, encryptedPassword);
    r := Success(u);
  }

  /** Signing up twice with one e-mail stores one row: the second call is refused. */
  method SignUpTwice(table: UserTable, name: string, email: string, first: string, second: string)
    returns (r1: Result<User, UserError>, r2: Result<User, UserError>)
    requires table.Valid() && !table.ExistsBy(email)
    modifies table
    ensures r1.Success? && r1.value.encryptedPassword == first
    ensures r2 == Failure(UserAlreadyExists(email))
    ensures table.users == old(table.users) + [r1.value]
  {
    r1 := SignUp(table, name, email, first);
    assert table.users[|table.users| - 1].email == email;
    r2 := SignUp(table, name, email, second);
  }
}
