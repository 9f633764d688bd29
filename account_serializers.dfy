/** The accaunt serializers: registration, the role and status guards of the
    worker serializers, and the permission-override update. The table of all
    permission codes and the role-to-default-codes table are parameters. */
module AccountSerializers {
  import opened Wrappers
  import opened Codes
  import opened AccountModels

  datatype AccountError =
    | BlankUsername
    | BlankPassword
    | PasswordMismatch
    | NotAChoice(value: string)
    | OwnerRoleDenied
    | StatusChangeDenied
    | OwnerCannotLeave
    | UnknownCodes(add: seq<string>, remove: seq<string>)
    | Conflict(codes: seq<string>)

  // ---------------------------------------------------------------------
  // Registration
  // ---------------------------------------------------------------------

  /** What a registration creates: the user and its owner worker, which has
      neither a store nor a branch yet. */
  datatype Registration = Registration(user: User, role: string, store: Option<nat>, branch: Option<nat>)

  /** UserRegistrationSerializer: the username and the two password fields
      may not be blank, then `validate` compares the passwords, then `create`
      makes the user and an owner worker. */
  function Register(
    username: string, email: string, phone1: string, phone2: Option<string>,
    firstName: string, lastName: string, password: string, password2: string): (r: Result<Registration, AccountError>)
    ensures r.Ok? <==> username != "" && password != "" && password == password2
    ensures username == "" ==> r == Err(BlankUsername)
    ensures username != "" && (password == "" || password2 == "") ==> r == Err(BlankPassword)
    ensures username != "" && password != "" && password2 != "" && password != password2 ==> r == Err(PasswordMismatch)
    ensures r.Ok? ==> r.value.role == "owner" && r.value.store.None? && r.value.branch.None?
    ensures r.Ok? ==> r.value.user.username == username && r.value.user.password == Some(password)
    ensures r.Ok? ==> !r.value.user.isSuperuser && !r.value.user.isStaff && r.value.user.status
  {
    if username == "" then Err(BlankUsername)
    else if password == "" || password2 == "" then Err(BlankPassword)
    else if password != password2 then Err(PasswordMismatch)
    else
      var user := NewUser(username, email, phone1, Some(password), firstName, lastName, false, false, phone2).value;
      Ok(Registration(user, "owner", None, None))
  }

  // ---------------------------------------------------------------------
  // Role and status guards
  // ---------------------------------------------------------------------

  /** The role field of WorkerCreateSerializer and WorkerUpdateSerializer:
      a valid choice, and the owner role only from a superuser or a current
      owner. `requesterRole` is None when the requester has no worker. */
  function ValidateRoleAssignment(value: string, requesterIsSuperuser: bool, requesterRole: Option<string>): (r: Result<string, AccountError>)
    ensures r.Ok? <==> value in RoleChoices && (value != "owner" || requesterIsSuperuser || requesterRole == Some("owner"))
    ensures r.Ok? ==> r.value == value
    ensures r == Err(OwnerRoleDenied) ==> value == "owner"
  {
    if value !in RoleChoices then Err(NotAChoice(value))
    else if value == "owner" && !requesterIsSuperuser && requesterRole != Some("owner") then Err(OwnerRoleDenied)
    else Ok(value)
  }

  /** Only a superuser or an owner can make another owner. */
  lemma OwnerMadeOnlyByOwnerOrSuperuser(requesterIsSuperuser: bool, requesterRole: Option<string>)
    ensures ValidateRoleAssignment("owner", requesterIsSuperuser, requesterRole).Ok? <==>
              requesterIsSuperuser || requesterRole == Some("owner")
  {
  }

  /** The status field of WorkerUpdateSerializer: a valid choice, changed
      only by an owner, and never "ishdan_ketgan" for an owner. */
  function ValidateStatusChange(value: string, requesterRole: Option<string>, instanceRole: string): (r: Result<string, AccountError>)
    ensures r.Ok? <==>
              value in StatusChoices && requesterRole == Some("owner")
              && !(value == "ishdan_ketgan" && instanceRole == "owner")
    ensures r.Ok? ==> r.value == value
    ensures r == Err(OwnerCannotLeave) <==>
              value == "ishdan_ketgan" && requesterRole == Some("owner") && instanceRole == "owner"
  {
    if value !in StatusChoices then Err(NotAChoice(value))
    else if requesterRole != Some("owner") then Err(StatusChangeDenied)
    else if value == "ishdan_ketgan" && instanceRole == "owner" then Err(OwnerCannotLeave)
    else Ok(value)
  }

  /** The status the worker views write, "deactive", is not one of the
      field's choices, so no update request can set it back or forth. */
  lemma DeactiveNotAcceptedByStatusField(requesterRole: Option<string>, instanceRole: string)
    ensures ValidateStatusChange("deactive", requesterRole, instanceRole) == Err(NotAChoice("deactive"))
  {
  }

  // ---------------------------------------------------------------------
  // Permission overrides
  // ---------------------------------------------------------------------

  /** The codes of `value` that are not permission codes, in order. */
  function UnknownOf(value: seq<string>, all: set<string>): (bad: seq<string>)
    ensures forall c | c in bad :: c in value && c !in all
    ensures forall c | c in value && c !in all :: c in bad
    ensures |bad| <= |value|
    decreases |value|
  {
    if value == [] then []
    else (if value[0] in all then [] else [value[0]]) + UnknownOf(value[1..], all)
  }

  /** The codes of a valid request. */
  datatype PermissionRequest = PermissionRequest(add: set<string>, remove: set<string>)

  /** WorkerPermissionSerializer validation: `add` and `remove` are each
      checked against all codes (both failures are reported), and only then
      `validate` refuses a code in both. */
  function ValidatePermissionRequest(add: seq<string>, remove: seq<string>, all: set<string>): (r: Result<PermissionRequest, AccountError>)
    ensures r.Ok? <==>
              (forall c | c in add :: c in all) && (forall c | c in remove :: c in all)
              && Elems(add) !! Elems(remove)
    ensures r.Ok? ==> r.value == PermissionRequest(Elems(add), Elems(remove))
    ensures r.Err? && r.error.UnknownCodes? ==>
              r.error.add == UnknownOf(add, all) && r.error.remove == UnknownOf(remove, all)
    ensures r.Err? && r.error.Conflict? ==>
              StrictlySorted(r.error.codes) && Elems(r.error.codes) == Elems(add) * Elems(remove)
  {
    var badAdd := UnknownOf(add, all);
    var badRemove := UnknownOf(remove, all);
    if badAdd != [] || badRemove != [] then
      assert badAdd != [] ==> badAdd[0] in badAdd;
      assert badRemove != [] ==> badRemove[0] in badRemove;
      Err(UnknownCodes(badAdd, badRemove))
    else
      assert forall c | c in add :: c in all;
      assert forall c | c in remove :: c in all;
      var conflict := Elems(add) * Elems(remove);
      if conflict != {} then Err(Conflict(SortedCodes(conflict)))
      else
        assert Elems(add) !! Elems(remove) by {
          forall c | c in Elems(add) ensures c !in Elems(remove) {
            assert c !in conflict;
          }
        }
        Ok(PermissionRequest(Elems(add), Elems(remove)))
  }

  /** The stored override: codes granted beyond the role's defaults and
      default codes taken away. */
  datatype Override = Override(added: set<string>, removed: set<string>)

  /** The codes a worker ends up with. */
  function Effective(o: Override, defaults: set<string>): set<string>
  {
    (defaults + o.added) - o.removed
  }

  /** The form `update` always leaves behind: nothing granted that the role
      already has, nothing taken that the role does not have. */
  predicate Canonical(o: Override, defaults: set<string>)
  {
    o.added !! defaults && o.removed <= defaults
  }

  /** The set arithmetic of `update`: fold the request in, then drop what
      the role's defaults make redundant. */
  function NormalizeOverride(cur: Override, req: PermissionRequest, defaults: set<string>): (o: Override)
    ensures Canonical(o, defaults) && o.added !! o.removed
    ensures req.add !! req.remove ==> req.add <= Effective(o, defaults) && req.remove !! Effective(o, defaults)
  {
    var removed := cur.removed - req.add;
    var added := cur.added + req.add;
    var added' := added - req.remove;
    var removed' := removed + req.remove;
    Override(added' - defaults, removed' * defaults)
  }

  /** On an override whose two lists do not overlap, `update` changes the
      effective codes exactly by the request. */
  lemma UpdateEffective(cur: Override, req: PermissionRequest, defaults: set<string>)
    requires cur.added !! cur.removed
    requires req.add !! req.remove
    ensures Effective(NormalizeOverride(cur, req, defaults), defaults) == (Effective(cur, defaults) + req.add) - req.remove
  {
    var o := NormalizeOverride(cur, req, defaults);
    var lhs := Effective(o, defaults);
    var rhs := (Effective(cur, defaults) + req.add) - req.remove;
    forall c ensures c in lhs <==> c in rhs {
      if c in req.add {
        assert c !in req.remove;
      }
    }
  }

  /** Sending the same request again changes nothing. */
  lemma NormalizeIdempotent(cur: Override, req: PermissionRequest, defaults: set<string>)
    ensures NormalizeOverride(NormalizeOverride(cur, req, defaults), req, defaults) == NormalizeOverride(cur, req, defaults)
  {
  }

  /** A canonical override is determined by the codes it yields. */
  lemma CanonicalDeterminedByEffective(o1: Override, o2: Override, defaults: set<string>)
    requires Canonical(o1, defaults) && Canonical(o2, defaults)
    requires Effective(o1, defaults) == Effective(o2, defaults)
    ensures o1 == o2
  {
    forall c ensures c in o1.added <==> c in o2.added {
      if c in o1.added {
        assert c in Effective(o1, defaults);
      }
      if c in o2.added {
        assert c in Effective(o2, defaults);
      }
    }
    forall c ensures c in o1.removed <==> c in o2.removed {
      if c in o1.removed {
        assert c !in Effective(o1, defaults);
      }
      if c in o2.removed {
        assert c !in Effective(o2, defaults);
      }
    }
  }

  /** The override read back from the JSON object. */
  function OverrideOf(extra: map<string, seq<string>>): Override
  {
    Override(Elems(CodeList(extra, "added")), Elems(CodeList(extra, "removed")))
  }

  /** The JSON object `update` stores: both lists sorted. */
  function StoredOverride(o: Override): (extra: map<string, seq<string>>)
    ensures extra.Keys == {"added", "removed"}
    ensures StrictlySorted(extra["added"]) && StrictlySorted(extra["removed"])
    ensures OverrideOf(extra) == o
  {
    map["added" := SortedCodes(o.added), "removed" := SortedCodes(o.removed)]
  }

  /** WorkerPermissionSerializer.update: read the current lists, fold the
      request in step by step, drop what the role's defaults make redundant
      and store both lists sorted, replacing the whole object. */
  method UpdatePermissions(w: Worker, req: PermissionRequest, defaults: map<string, set<string>>)
    modifies w
    ensures w.extraPermissions ==
              StoredOverride(NormalizeOverride(OverrideOf(old(w.extraPermissions)), req, DefaultsFor(defaults, w.role)))
    ensures Canonical(OverrideOf(w.extraPermissions), DefaultsFor(defaults, w.role))
    ensures w.role == old(w.role) && w.status == old(w.status)
    ensures w.store == old(w.store) && w.branch == old(w.branch)
  {
    var extra := w.extraPermissions;
    var curAdded := Elems(CodeList(extra, "added"));
    var curRemoved := Elems(CodeList(extra, "removed"));
    curRemoved := curRemoved - req.add;
    curAdded := curAdded + req.add;
    curAdded := curAdded - req.remove;
    curRemoved := curRemoved + req.remove;
    var default := DefaultsFor(defaults, w.role);
    curAdded := curAdded - default;
    curRemoved := curRemoved * default;
    w.extraPermissions := map["added" := SortedCodes(curAdded), "removed" := SortedCodes(curRemoved)];
  }
}
