/** The session manager (`AuthProvider`, AuthContext.tsx): a directory of
    known accounts loaded once at start-up, and the currently signed-in
    account. Emails are compared case-insensitively, passwords exactly. */
module Auth {
  import opened Wrappers
  import opened Types
  import opened Seqs

  /** ASCII lower-casing of one character. */
  function LowerChar(c: char): char {
    if 'A' <= c <= 'Z' then (c as int + 32) as char else c
  }

  /** ASCII lower-casing of a string (the model's `toLowerCase`). */
  function Lower(s: string): (r: string)
    ensures |r| == |s|
    ensures forall i :: 0 <= i < |s| ==> r[i] == LowerChar(s[i])
  {
    seq(|s|, i requires 0 <= i < |s| => LowerChar(s[i]))
  }

  /** Two emails denote the same account when they agree up to case. */
  predicate SameEmail(a: string, b: string) {
    Lower(a) == Lower(b)
  }

  /** The `find` condition of `login`. An account without a password never
      satisfies it. */
  predicate CredentialsMatch(u: User, email: string, password: string) {
    SameEmail(u.email, email) && u.password == Some(password)
  }

  /** `usersLoaded`, the in-memory account list, and the signed-in account. */
  datatype AuthState = AuthState(usersLoaded: bool, directory: seq<User>, current: Option<User>)

  datatype AuthStatus = Ok | NotReady | InvalidCredentials | EmailInUse

  /** The new state together with the outcome reported to the screen
      (`true` is `Ok`; each failure raises its own alert). */
  datatype AuthReply = AuthReply(state: AuthState, status: AuthStatus)

  /** Nothing loaded, nobody signed in. */
  const Initial: AuthState := AuthState(false, [], None)

  /** The account list used when storage holds none. */
  const DefaultDirectory: seq<User> := [
    User("123-abc-456", "Maria Silva", "maria.silva@example.com",
         "https://i.pravatar.cc/150?u=a042581f4e29026704d", Some("123"))
  ]

  const AvatarPrefix: string := "https://i.pravatar.cc/150?u="

  /** The start-up effect: the stored account list (or the default one)
      becomes the directory and unlocks `login` and `register`. */
  function LoadDirectory(a: AuthState, stored: Option<seq<User>>): (r: AuthState)
    ensures r.usersLoaded && r.current == a.current
    ensures stored.Some? ==> r.directory == stored.value
    ensures stored.None? ==> r.directory == DefaultDirectory
  {
    a.(usersLoaded := true, directory := stored.GetOr(DefaultDirectory))
  }

  /** `login`: refused while loading; otherwise the first account whose
      email matches up to case and whose password matches exactly becomes
      current, and a failure leaves everything as it was. */
  function Login(a: AuthState, email: string, password: string): (r: AuthReply)
    ensures r.state.directory == a.directory && r.state.usersLoaded == a.usersLoaded
    ensures !a.usersLoaded ==> r == AuthReply(a, NotReady)
    ensures a.usersLoaded ==>
      (r.status == Ok <==> exists i :: 0 <= i < |a.directory| && CredentialsMatch(a.directory[i], email, password))
    ensures r.status == Ok ==>
      exists i :: 0 <= i < |a.directory|
        && r.state.current == Some(a.directory[i])
        && CredentialsMatch(a.directory[i], email, password)
        && forall j :: 0 <= j < i ==> !CredentialsMatch(a.directory[j], email, password)
    ensures r.status == Ok ==> r.state.current.Some? && r.state.current.value.password == Some(password)
    ensures a.usersLoaded && r.status != Ok ==> r.status == InvalidCredentials
    ensures r.status != Ok ==> r.state == a
  {
    if !a.usersLoaded then AuthReply(a, NotReady)
    else
      match FindFirst(a.directory, (u: User) => CredentialsMatch(u, email, password))
      case Some(i) => AuthReply(a.(current := Some(a.directory[i])), Ok)
      case None => AuthReply(a, InvalidCredentials)
  }

  /** The account `register` creates. */
  function NewUser(id: UserId, name: string, email: string, password: string): User {
    User(id, name, email, AvatarPrefix + email, Some(password))
  }

  /** `register`: refused while loading or when any account already has
      the email up to case; otherwise the account is appended and signed in. */
  function Register(a: AuthState, id: UserId, name: string, email: string, password: string): (r: AuthReply)
    ensures !a.usersLoaded ==> r == AuthReply(a, NotReady)
    ensures a.usersLoaded && (exists i :: 0 <= i < |a.directory| && SameEmail(a.directory[i].email, email)) ==>
      r == AuthReply(a, EmailInUse)
    ensures r.status == Ok <==>
      a.usersLoaded && forall i :: 0 <= i < |a.directory| ==> !SameEmail(a.directory[i].email, email)
    ensures r.status == Ok ==>
      && |r.state.directory| == |a.directory| + 1
      && r.state.directory[..|a.directory|] == a.directory
      && r.state.current == Some(r.state.directory[|a.directory|])
      && r.state.directory[|a.directory|] == User(id, name, email, AvatarPrefix + email, Some(password))
      && r.state.usersLoaded
    ensures r.status != Ok ==> r.state == a
  {
    if !a.usersLoaded then AuthReply(a, NotReady)
    else if exists i :: 0 <= i < |a.directory| && SameEmail(a.directory[i].email, email) then AuthReply(a, EmailInUse)
    else
      var u := NewUser(id, name, email, password);
      AuthReply(a.(directory := a.directory + [u], current := Some(u)), Ok)
  }

  /** `logout`: nobody is signed in; the directory is untouched. */
  function Logout(a: AuthState): (r: AuthState)
    ensures r.current.None?
    ensures r.directory == a.directory && r.usersLoaded == a.usersLoaded
  {
    a.(current := None)
  }

  /** A `Partial<User>`: an absent field is `None`. */
  datatype UserPatch = UserPatch(
    id: Option<UserId>,
    name: Option<string>,
    email: Option<string>,
    avatar: Option<string>,
    password: Option<string>)

  /** `{ ...u, ...patch }`. */
  function Merge(u: User, p: UserPatch): User {
    User(
      p.id.GetOr(u.id),
      p.name.GetOr(u.name),
      p.email.GetOr(u.email),
      p.avatar.GetOr(u.avatar),
      if p.password.Some? then p.password else u.password)
  }

  /** Every field of the merge comes from the patch when present there and
      from the account otherwise. */
  lemma MergeFields(u: User, p: UserPatch)
    ensures var m := Merge(u, p);
            && (p.id.Some? ==> m.id == p.id.value) && (p.id.None? ==> m.id == u.id)
            && (p.name.Some? ==> m.name == p.name.value) && (p.name.None? ==> m.name == u.name)
            && (p.email.Some? ==> m.email == p.email.value) && (p.email.None? ==> m.email == u.email)
            && (p.avatar.Some? ==> m.avatar == p.avatar.value) && (p.avatar.None? ==> m.avatar == u.avatar)
            && (p.password.Some? ==> m.password == p.password) && (p.password.None? ==> m.password == u.password)
  {
  }

  /** Position `i` is the first directory entry carrying `id`. */
  predicate FirstWithId(dir: seq<User>, id: UserId, i: int) {
    0 <= i < |dir| && dir[i].id == id && forall j :: 0 <= j < i ==> dir[j].id != id
  }

  /** `updateUser`: without a signed-in account nothing happens; otherwise
      the patch is merged into the current account and into the first
      directory entry with the current account's id, and every other entry
      stays as it was. */
  function UpdateUser(a: AuthState, p: UserPatch): (r: AuthState)
    ensures a.current.None? ==> r == a
    ensures a.current.Some? ==> r.current == Some(Merge(a.current.value, p))
    ensures r.usersLoaded == a.usersLoaded && |r.directory| == |a.directory|
    ensures a.current.Some? ==> forall i :: 0 <= i < |a.directory| ==>
      r.directory[i] == (if FirstWithId(a.directory, a.current.value.id, i)
                         then Merge(a.directory[i], p) else a.directory[i])
  {
    match a.current
    case None => a
    case Some(cur) =>
      var dir :=
        match FindFirst(a.directory, (u: User) => u.id == cur.id)
        case None => a.directory
        case Some(i) => a.directory[i := Merge(a.directory[i], p)];
      a.(current := Some(Merge(cur, p)), directory := dir)
  }

  // ---------------------------------------------------------------------
  // Properties

  /** No two accounts share an email up to case. */
  predicate EmailsUnique(dir: seq<User>) {
    forall i, j :: 0 <= i < j < |dir| ==> !SameEmail(dir[i].email, dir[j].email)
  }

  /** A successful registration can be followed by a login with the same
      email and password, which signs in the account just created. */
  lemma {:induction false} RegisterThenLogin(a: AuthState, id: UserId, name: string, email: string, password: string)
    requires Register(a, id, name, email, password).status == Ok
    ensures var after := Register(a, id, name, email, password).state;
            var back := Login(Logout(after), email, password);
            back.status == Ok && back.state.current.Some? && back.state.current.value.id == id
  {
    var after := Register(a, id, name, email, password).state;
    var out := Logout(after);
    var dir := out.directory;
    var n := |a.directory|;
    assert CredentialsMatch(dir[n], email, password);
    var back := Login(out, email, password);
    var i :| 0 <= i < |dir|
      && back.state.current == Some(dir[i])
      && CredentialsMatch(dir[i], email, password)
      && forall j :: 0 <= j < i ==> !CredentialsMatch(dir[j], email, password);
    assert i == n;
  }

  /** Registration keeps emails unique up to case; login and logout do not
      touch the directory. */
  lemma {:induction false} SessionKeepsEmailsUnique(a: AuthState, id: UserId, name: string, email: string, password: string)
    requires EmailsUnique(a.directory)
    ensures EmailsUnique(Register(a, id, name, email, password).state.directory)
    ensures EmailsUnique(Login(a, email, password).state.directory)
    ensures EmailsUnique(Logout(a).directory)
  {
    var r := Register(a, id, name, email, password);
    if r.status == Ok {
      var dir := r.state.directory;
      var n := |a.directory|;
      forall i, j | 0 <= i < j < |dir| ensures !SameEmail(dir[i].email, dir[j].email) {
        assert dir[i] == a.directory[i];
        if j < n {
          assert dir[j] == a.directory[j];
        } else {
          assert dir[j].email == email;
        }
      }
    }
  }

  /** The default account list satisfies the uniqueness invariant. */
  lemma DefaultDirectoryEmailsUnique()
    ensures EmailsUnique(DefaultDirectory)
  {
  }

  /** Start-up establishes the uniqueness invariant whenever the stored list
      has it, and running it again with the same stored list changes
      nothing. */
  lemma LoadDirectoryEstablishesInvariant(a: AuthState, stored: Option<seq<User>>)
    requires stored.Some? ==> EmailsUnique(stored.value)
    ensures EmailsUnique(LoadDirectory(a, stored).directory)
    ensures LoadDirectory(LoadDirectory(a, stored), stored) == LoadDirectory(a, stored)
  {
  }

  /** Registering an email that differs from an already registered one only
      in letter case is refused. */
  lemma {:induction false} RegisterRejectsCaseVariant(
    a: AuthState, id1: UserId, name1: string, email1: string, password1: string,
    id2: UserId, name2: string, email2: string, password2: string)
    requires Register(a, id1, name1, email1, password1).status == Ok
    requires SameEmail(email1, email2)
    ensures var after := Register(a, id1, name1, email1, password1).state;
            Register(after, id2, name2, email2, password2) == AuthReply(after, EmailInUse)
  {
    var after := Register(a, id1, name1, email1, password1).state;
    assert after.directory[|a.directory|].email == email1;
  }

  /** `updateUser` does not re-check uniqueness: a profile edit can give the
      signed-in account the email of another account. */
  lemma UpdateUserCanDuplicateEmail()
    ensures var ana := User("1", "Ana", "ana@example.com", "", Some("a"));
            var bia := User("2", "Bia", "bia@example.com", "", Some("b"));
            var a := AuthState(true, [ana, bia], Some(ana));
            && EmailsUnique(a.directory)
            && !EmailsUnique(UpdateUser(a, UserPatch(None, None, Some("bia@example.com"), None, None)).directory)
  {
    var ana := User("1", "Ana", "ana@example.com", "", Some("a"));
    var bia := User("2", "Bia", "bia@example.com", "", Some("b"));
    var a := AuthState(true, [ana, bia], Some(ana));
    assert Lower(ana.email)[0] == 'a' && Lower(bia.email)[0] == 'b';
    assert FirstWithId(a.directory, "1", 0);
    var r := UpdateUser(a, UserPatch(None, None, Some("bia@example.com"), None, None));
    assert r.directory[0].email == "bia@example.com";
    assert !FirstWithId(a.directory, "1", 1);
    assert r.directory[1] == bia;
  }

  /** While the signed-in account is a directory entry and ids are unique,
      a profile edit keeps the two copies in step. */
  lemma UpdateUserKeepsCurrentInDirectory(a: AuthState, p: UserPatch)
    requires a.current.Some? && a.current.value in a.directory
    requires KeysUnique(a.directory, UserKey)
    ensures var r := UpdateUser(a, p);
            r.current.Some? && r.current.value in r.directory
  {
    var cur := a.current.value;
    var k :| 0 <= k < |a.directory| && a.directory[k] == cur;
    assert FirstWithId(a.directory, cur.id, k) by {
      forall j | 0 <= j < k ensures a.directory[j].id != cur.id {
        assert UserKey(a.directory[j]) != UserKey(a.directory[k]);
      }
    }
    var r := UpdateUser(a, p);
    assert r.directory[k] == Merge(cur, p);
  }

  /** An account stored without a password can never be the one a
      successful login signs in. */
  lemma PasswordlessAccountNeverSignsIn(a: AuthState, u: User, email: string, password: string)
    requires u.password.None?
    ensures Login(a, email, password).status == Ok ==> Login(a, email, password).state.current != Some(u)
  {
  }

  /** Start-up with empty storage: the default account signs in with its
      email in any letter case, and every wrong password is refused. */
  lemma DefaultAccountScenario(e: string, p: string)
    requires SameEmail(e, "maria.silva@example.com")
    ensures var a := LoadDirectory(Initial, None);
            && Login(a, e, "123").status == Ok
            && Login(a, e, "123").state.current.value.id == "123-abc-456"
    ensures p != "123" ==> Login(LoadDirectory(Initial, None), e, p).status == InvalidCredentials
  {
    assert CredentialsMatch(DefaultDirectory[0], e, "123");
  }
}
