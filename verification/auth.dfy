/** The demo authentication context: a fixed list of mock users, a `login` that picks one
    of them by role (preferring a matching e-mail) when the password is long enough, and
    `logout`. */
module Auth {
  import opened Seqs

  datatype Role = Admin | Faculty | Student

  /** The identifying part of a user record; the role-specific profile fields
      (subject, section, year, branch, roll number) are carried along unchanged and not modelled. */
  datatype User = User(id: string, name: string, email: string, role: Role)

  const MinPasswordLength := 4

  const MockUsers: seq<User> := [
    User("1", "Dr. Admin Kumar", "admin@pvkk.edu", Admin),
    User("2", "Prof. Ravi Shankar", "ravi@pvkk.edu", Faculty),
    User("3", "Arjun Reddy", "arjun@pvkk.edu", Student)
  ]

  /** `MOCK_USERS.find(u => u.role === role && u.email === email)`. */
  function FindByRoleAndEmail(role: Role, email: string): Option<User>
  {
    Find(MockUsers, (u: User) => u.role == role && u.email == email)
  }

  /** `MOCK_USERS.find(u => u.role === role)`. */
  function FindByRole(role: Role): Option<User>
  {
    Find(MockUsers, (u: User) => u.role == role)
  }

  /** Every role has a mock user, so the fallback lookup never comes back empty. */
  lemma EveryRoleHasMockUser(role: Role)
    ensures FindByRole(role).Some?
  {
    var k := match role case Admin => 0 case Faculty => 1 case Student => 2;
    assert MockUsers[k].role == role;
  }

  /** The user `login` signs in, if any: the mock user with the requested role and e-mail,
      else the first mock user with the requested role; nobody when the password is
      shorter than four characters. */
  function Authenticate(email: string, password: string, role: Role): (r: Option<User>)
    ensures r.Some? <==> |password| >= MinPasswordLength
    ensures r.Some? ==> r.value in MockUsers && r.value.role == role
    ensures r.Some? && (exists u :: u in MockUsers && u.role == role && u.email == email) ==>
              r.value.email == email
    ensures r.Some? && (forall u :: u in MockUsers && u.role == role ==> u.email != email) ==>
              r == FindByRole(role)
  {
    EveryRoleHasMockUser(role);
    var found := FindByRoleAndEmail(role, email);
    if found.Some? && |password| >= MinPasswordLength then found
    else if |password| >= MinPasswordLength then FindByRole(role)
    else None
  }

  class AuthContext {
    /** The signed-in user, or nobody. */
    var user: Option<User>

    constructor ()
      ensures user == None
    {
      user := None;
    }

    /** `isAuthenticated: !!user`. */
    predicate IsAuthenticated()
      reads this
    {
      user.Some?
    }

    /** `login`: on success stores the chosen mock user and answers true; on failure
        leaves the current user as it was and answers false. */
    method Login(email: string, password: string, role: Role) returns (ok: bool)
      modifies this
      ensures ok == Authenticate(email, password, role).Some?
      ensures ok ==> user == Authenticate(email, password, role) && IsAuthenticated()
      ensures !ok ==> user == old(user)
    {
      var found := FindByRoleAndEmail(role, email);
      if found.Some? && |password| >= MinPasswordLength {
        user := found;
        return true;
      }
      var demo := FindByRole(role);
      if demo.Some? && |password| >= MinPasswordLength {
        user := demo;
        return true;
      }
      EveryRoleHasMockUser(role);
      return false;
    }

    /** `logout`. */
    method Logout()
      modifies this
      ensures user == None && !IsAuthenticated()
    {
      user := None;
    }
  }
}
