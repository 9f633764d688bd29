/** Users, permissions and workers of the accaunt app.

    Two worker schemas meet here. The model file defines a worker whose role
    is a Role row and whose extra permissions are Permission rows
    (`WorkerGrants`, read by `get_permissions` and `has_permission`); the
    serializers, views and migrations work on a worker whose role and status
    are strings and whose `extra_permissions` is a JSON object of code lists
    (the class `Worker`). */
module AccountModels {
  import opened Wrappers

  // ---------------------------------------------------------------------
  // Phone numbers
  // ---------------------------------------------------------------------

  /** One position of a regular expression without repetition operators. */
  datatype CharClass = Lit(c: char) | Digit

  predicate ClassMatches(cc: CharClass, c: char)
  {
    match cc
    case Lit(l) => c == l
    case Digit => '0' <= c <= '9'
  }

  /** `^\+998\d{9}$` with `\d{9}` spelled out. */
  const PhonePattern: seq<CharClass> :=
    [Lit('+'), Lit('9'), Lit('9'), Lit('8'),
     Digit, Digit, Digit, Digit, Digit, Digit, Digit, Digit, Digit]

  /** The pattern matches the whole of `s`, position by position. */
  predicate MatchesExactly(p: seq<CharClass>, s: string)
  {
    |p| == |s| && forall i | 0 <= i < |p| :: ClassMatches(p[i], s[i])
  }

  /** A search for `^p$` in Python: `$` matches at the end of the string and
      also just before a final newline. */
  predicate AnchoredSearch(p: seq<CharClass>, s: string)
  {
    MatchesExactly(p, s) || (|s| > 0 && s[|s| - 1] == '\n' && MatchesExactly(p, s[..|s| - 1]))
  }

  /** The phone fields: max_length=13 and the phone regex both apply. */
  predicate PhoneFieldValid(s: string)
  {
    |s| <= 13 && AnchoredSearch(PhonePattern, s)
  }

  /** An Uzbek mobile number: "+998" and then exactly nine digits. */
  predicate IsUzbekMobile(s: string)
  {
    |s| == 13 && s[..4] == "+998" && forall i | 4 <= i < 13 :: '0' <= s[i] <= '9'
  }

  /** A phone field accepts exactly the Uzbek mobile numbers. */
  lemma PhoneFieldValidIff(s: string)
    ensures PhoneFieldValid(s) <==> IsUzbekMobile(s)
  {
    if PhoneFieldValid(s) {
      assert MatchesExactly(PhonePattern, s);
      assert s[..4] == "+998" by {
        assert ClassMatches(PhonePattern[0], s[0]) && ClassMatches(PhonePattern[1], s[1]);
        assert ClassMatches(PhonePattern[2], s[2]) && ClassMatches(PhonePattern[3], s[3]);
      }
      forall i | 4 <= i < 13 ensures '0' <= s[i] <= '9' {
        assert ClassMatches(PhonePattern[i], s[i]);
      }
    }
    if IsUzbekMobile(s) {
      forall i | 0 <= i < 13 ensures ClassMatches(PhonePattern[i], s[i]) {
        if i < 4 {
          assert s[i] == "+998"[i];
        }
      }
      assert MatchesExactly(PhonePattern, s);
    }
  }

  /** The regex alone lets a trailing newline through; only the length limit
      keeps such a value out of the field. */
  lemma RegexAloneAcceptsTrailingNewline(s: string)
    requires IsUzbekMobile(s)
    ensures AnchoredSearch(PhonePattern, s + "\n")
    ensures !PhoneFieldValid(s + "\n")
  {
    PhoneFieldValidIff(s);
    assert (s + "\n")[..|s + "\n"| - 1] == s;
  }

  // ---------------------------------------------------------------------
  // Users
  // ---------------------------------------------------------------------

  /** A CustomUser row; `password` stands for the stored credential set from
      the given password (None: no usable password). */
  datatype User = User(
    username: string,
    email: string,
    phone1: string,
    phone2: Option<string>,
    firstName: string,
    lastName: string,
    password: Option<string>,
    isSuperuser: bool,
    isStaff: bool,
    status: bool)

  datatype UserError = EmptyUsername

  /** The user `create_user` builds: refused without a username; `status`
      starts true. */
  function NewUser(
    username: string, email: string, phone1: string, password: Option<string>,
    firstName: string, lastName: string, isSuperuser: bool, isStaff: bool,
    phone2: Option<string>): (r: Result<User, UserError>)
    ensures r.Err? <==> username == ""
    ensures r.Ok? ==> r.value.status && r.value.password == password
    ensures r.Ok? ==> r.value.username == username && r.value.phone1 == phone1 && r.value.phone2 == phone2
    ensures r.Ok? ==> r.value.isSuperuser == isSuperuser && r.value.isStaff == isStaff
    ensures r.Ok? ==> r.value.firstName == firstName && r.value.lastName == lastName && r.value.email == email
  {
    if username == "" then Err(EmptyUsername)
    else Ok(User(username, email, phone1, phone2, firstName, lastName, password, isSuperuser, isStaff, true))
  }

  /** The user table and its manager. */
  class UserManager {
    var users: seq<User>

    constructor ()
      ensures users == []
    {
      users := [];
    }

    /** create_user: check the username, build the user, set its password and
        save it. */
    method CreateUser(
      username: string, email: string, phone1: string, password: Option<string>,
      firstName: string, lastName: string, isSuperuser: bool, isStaff: bool,
      phone2: Option<string>) returns (r: Result<User, UserError>)
      modifies this
      ensures r == NewUser(username, email, phone1, password, firstName, lastName, isSuperuser, isStaff, phone2)
      ensures r.Err? ==> users == old(users)
      ensures r.Ok? ==> users == old(users) + [r.value]
    {
      if username == "" {
        return Err(EmptyUsername);
      }
      var user := User(username, email, phone1, phone2, firstName, lastName, None, isSuperuser, isStaff, true);
      user := user.(password := password);
      users := users + [user];
      r := Ok(user);
    }

    /** create_superuser: create_user with fixed names and phone and both
        flags set; the second save writes the same row again. */
    method CreateSuperuser(email: string, username: string, password: Option<string>) returns (r: Result<User, UserError>)
      modifies this
      ensures r.Err? <==> username == ""
      ensures r.Err? ==> users == old(users)
      ensures r.Ok? ==> users == old(users) + [r.value]
      ensures r.Ok? ==> r.value.isSuperuser && r.value.isStaff
      ensures r.Ok? ==> r.value.firstName == "Super" && r.value.lastName == "Admin"
      ensures r.Ok? ==> r.value.phone1 == SuperuserPhone && PhoneFieldValid(r.value.phone1)
    {
      SuperuserPhoneValid();
      r := CreateUser(username, email, SuperuserPhone, password, "Super", "Admin", true, true, None);
    }

    /** UserChangePasswordSerializer: the current password has been checked
        (`currentMatches`) and the two new ones may not be blank; `validate`
        compares them and, when they match, sets and saves the password
        itself. */
    method ChangePassword(i: nat, currentMatches: bool, password: string, password2: string) returns (r: Result<string, PasswordError>)
      requires i < |users|
      modifies this
      ensures r.Ok? <==> currentMatches && password != "" && password == password2
      ensures !currentMatches ==> r == Err(WrongCurrentPassword)
      ensures currentMatches && (password == "" || password2 == "") ==> r == Err(BlankNewPassword)
      ensures currentMatches && password != "" && password2 != "" && password != password2 ==> r == Err(NewPasswordsDiffer)
      ensures r.Ok? ==> users == old(users)[i := old(users)[i].(password := Some(password))]
      ensures r.Err? ==> users == old(users)
    {
      if !currentMatches {
        return Err(WrongCurrentPassword);
      }
      if password == "" || password2 == "" {
        return Err(BlankNewPassword);
      }
      if password != password2 {
        return Err(NewPasswordsDiffer);
      }
      users := users[i := users[i].(password := Some(password))];
      r := Ok(password);
    }
  }

  datatype PasswordError = WrongCurrentPassword | BlankNewPassword | NewPasswordsDiffer

  const SuperuserPhone: string := "+998990000000"

  /** The superuser's fixed phone passes the phone field's own check. */
  lemma SuperuserPhoneValid()
    ensures PhoneFieldValid(SuperuserPhone)
  {
    assert IsUzbekMobile(SuperuserPhone) by {
      assert SuperuserPhone[..4] == "+998";
    }
    PhoneFieldValidIff(SuperuserPhone);
  }

  // ---------------------------------------------------------------------
  // The display name
  // ---------------------------------------------------------------------

  /** Python's str.isspace for one character. */
  predicate IsSpace(c: char)
  {
    || c == ' '
    || '\t' <= c <= '\r'
    || '\U{1C}' <= c <= '\U{1F}'
    || c == '\U{85}' || c == '\U{A0}' || c == '\U{1680}'
    || '\U{2000}' <= c <= '\U{200A}'
    || c == '\U{2028}' || c == '\U{2029}' || c == '\U{202F}' || c == '\U{205F}' || c == '\U{3000}'
  }

  predicate AllSpace(s: string)
  {
    forall i | 0 <= i < |s| :: IsSpace(s[i])
  }

  /** `s.lstrip()`. */
  function StripLeft(s: string): (t: string)
    ensures |t| <= |s| && t == s[|s| - |t|..]
    ensures t == [] || !IsSpace(t[0])
    ensures AllSpace(s[..|s| - |t|])
  {
    if s != [] && IsSpace(s[0]) then StripLeft(s[1..]) else s
  }

  /** `s.rstrip()`. */
  function StripRight(s: string): (t: string)
    ensures |t| <= |s| && t == s[..|t|]
    ensures t == [] || !IsSpace(t[|t| - 1])
    ensures AllSpace(s[|t|..])
  {
    if s != [] && IsSpace(s[|s| - 1]) then StripRight(s[..|s| - 1]) else s
  }

  /** `s.strip()`: a piece of `s` with no whitespace at either end, and only
      whitespace cut away around it. */
  function Strip(s: string): (t: string)
    ensures t == [] || (!IsSpace(t[0]) && !IsSpace(t[|t| - 1]))
    ensures exists i | 0 <= i <= |s| - |t| :: t == s[i..i + |t|] && AllSpace(s[..i]) && AllSpace(s[i + |t|..])
  {
    var l := StripLeft(s);
    var t := StripRight(l);
    var i := |s| - |l|;
    assert t == s[i..i + |t|];
    assert s[i + |t|..] == l[|t|..];
    t
  }

  /** CustomUser.__str__: the stripped "first last", or the username when
      that is empty. */
  function DisplayName(u: User): (name: string)
    ensures name == u.username || (name != [] && !IsSpace(name[0]) && !IsSpace(name[|name| - 1]))
    ensures Strip(u.firstName + " " + u.lastName) != "" ==> name == Strip(u.firstName + " " + u.lastName)
    ensures Strip(u.firstName + " " + u.lastName) == "" ==> name == u.username
  {
    var full := Strip(u.firstName + " " + u.lastName);
    if full == "" then u.username else full
  }

  /** A string with no whitespace at its ends is its own strip. */
  lemma StripClean(s: string)
    requires s != [] && !IsSpace(s[0]) && !IsSpace(s[|s| - 1])
    ensures Strip(s) == s
  {
  }

  /** With both names present and no stray whitespace at their outer ends,
      the display name is "first last". */
  lemma DisplayNameOfFullName(u: User)
    requires u.firstName != [] && u.lastName != []
    requires !IsSpace(u.firstName[0]) && !IsSpace(u.lastName[|u.lastName| - 1])
    ensures DisplayName(u) == u.firstName + " " + u.lastName
  {
    var s := u.firstName + " " + u.lastName;
    assert s[0] == u.firstName[0] && s[|s| - 1] == u.lastName[|u.lastName| - 1];
    StripClean(s);
  }

  /** With names made only of whitespace, the display name is the username. */
  lemma DisplayNameFallsBack(u: User)
    requires AllSpace(u.firstName) && AllSpace(u.lastName)
    ensures DisplayName(u) == u.username
  {
    var s := u.firstName + " " + u.lastName;
    assert AllSpace(s);
  }

  // ---------------------------------------------------------------------
  // Permissions of the Role/Permission schema
  // ---------------------------------------------------------------------

  datatype Permission = Permission(code: string, name: string)

  datatype Role = Role(code: string, name: string, permissions: set<Permission>)

  /** A worker as the model file's methods and the permission classes read
      it. */
  datatype WorkerGrants = WorkerGrants(role: Option<Role>, extraPermissions: set<Permission>, status: string)

  /** Worker.get_permissions: the role's permissions and the extras together. */
  function GetPermissions(w: WorkerGrants): (ps: set<Permission>)
    ensures w.extraPermissions <= ps
    ensures w.role.Some? ==> w.role.value.permissions <= ps
    ensures forall p | p in ps :: p in w.extraPermissions || (w.role.Some? && p in w.role.value.permissions)
  {
    (if w.role.Some? then w.role.value.permissions else {}) + w.extraPermissions
  }

  /** The codes of a set of permissions. */
  function Codes(ps: set<Permission>): set<string>
  {
    set p | p in ps :: p.code
  }

  /** Worker.has_permission: some permission of `get_permissions` has the
      code. */
  function HasPermission(w: WorkerGrants, code: string): (b: bool)
    ensures b <==> code in Codes(GetPermissions(w))
  {
    exists p | p in GetPermissions(w) :: p.code == code
  }

  /** A code is granted exactly when the role or the extras carry it. */
  lemma HasPermissionIff(w: WorkerGrants, code: string)
    ensures HasPermission(w, code) <==>
              (w.role.Some? && code in Codes(w.role.value.permissions)) || code in Codes(w.extraPermissions)
  {
    if HasPermission(w, code) {
      var p :| p in GetPermissions(w) && p.code == code;
      if p in w.extraPermissions {
        assert code in Codes(w.extraPermissions);
      } else {
        assert code in Codes(w.role.value.permissions);
      }
    }
    if code in Codes(w.extraPermissions) {
      var p :| p in w.extraPermissions && p.code == code;
      assert p in GetPermissions(w);
    }
    if w.role.Some? && code in Codes(w.role.value.permissions) {
      var p :| p in w.role.value.permissions && p.code == code;
      assert p in GetPermissions(w);
    }
  }

  /** Without a role only the extras count. */
  lemma NoRoleOnlyExtras(w: WorkerGrants)
    requires w.role.None?
    ensures GetPermissions(w) == w.extraPermissions
  {
  }

  /** Granting an extra permission never takes a code away and adds its
      own. */
  lemma ExtraPermissionGrants(w: WorkerGrants, p: Permission, code: string)
    ensures HasPermission(w.(extraPermissions := w.extraPermissions + {p}), p.code)
    ensures HasPermission(w, code) ==> HasPermission(w.(extraPermissions := w.extraPermissions + {p}), code)
  {
    var w' := w.(extraPermissions := w.extraPermissions + {p});
    assert p in GetPermissions(w');
    assert p.code in Codes(GetPermissions(w'));
    if HasPermission(w, code) {
      var q :| q in GetPermissions(w) && q.code == code;
      assert q in GetPermissions(w');
      assert code in Codes(GetPermissions(w'));
    }
  }

  // ---------------------------------------------------------------------
  // The worker of the string-role schema
  // ---------------------------------------------------------------------

  const DefaultWorkerStatus: string := "active"

  /** The role choices of the string-role schema. */
  const RoleChoices: set<string> := {"owner", "manager", "seller"}

  /** The status choices of the string-role schema. */
  const StatusChoices: set<string> := {"active", "tatil", "ishdan_ketgan"}

  /** `defaults.get(role, [])` on a role-to-codes table: an unknown role has
      no default codes. */
  function DefaultsFor(defaults: map<string, set<string>>, role: string): (d: set<string>)
    ensures role !in defaults ==> d == {}
    ensures role in defaults ==> d == defaults[role]
  {
    if role in defaults then defaults[role] else {}
  }

  /** `extra.get(key, [])` on the JSON object. */
  function CodeList(extra: map<string, seq<string>>, key: string): (codes: seq<string>)
    ensures key !in extra ==> codes == []
    ensures key in extra ==> codes == extra[key]
  {
    if key in extra then extra[key] else []
  }

  /** A Worker row whose role, status and permission overrides the
      serializers, views and migrations update in place. */
  class Worker {
    var role: string
    var status: string
    var store: Option<nat>
    var branch: Option<nat>
    var extraPermissions: map<string, seq<string>>

    /** A new worker is active and has no overrides. */
    constructor (role: string, store: Option<nat>, branch: Option<nat>)
      ensures this.role == role && this.store == store && this.branch == branch
      ensures status == DefaultWorkerStatus
      ensures extraPermissions == map[]
    {
      this.role := role;
      this.status := DefaultWorkerStatus;
      this.store := store;
      this.branch := branch;
      this.extraPermissions := map[];
    }
  }
}
